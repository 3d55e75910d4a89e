/**
  Mood scoring: the closed table from the five mood emoji to a score, and the
  threshold classifier from any score back to a qualitative bucket.
 */
module MoodHelper {
  import opened Wrappers

  // The five recognised emoji. The repository stores them as UTF-8 bytes
  // mis-decoded as Windows-1252; here they are the code points they stand for.
  const Crying: string := "\U{1F622}"       // very sad
  const Frowning: string := "\U{1F641}"     // sad
  const NeutralFace: string := "\U{1F610}"  // neutral
  const SlightSmile: string := "\U{1F642}"  // content
  const BigSmile: string := "\U{1F604}"     // happy

  /** The recognised emoji, the only strings GetScoreFromEmoji accepts. */
  const Recognised: set<string> := {Crying, Frowning, NeutralFace, SlightSmile, BigSmile}

  /** The error GetScoreFromEmoji throws (an ArgumentException naming the emoji). */
  datatype EmojiError = UnknownEmoji(emoji: string)

  /** The qualitative buckets, declared in the order Sad = 0 through Happy = 4. */
  datatype MoodEmoji = Sad | Frown | Neutral | Smile | Happy

  /** The enum's underlying value. */
  function Ordinal(e: MoodEmoji): (n: nat)
    ensures n <= 4
    ensures e == Sad <==> n == 0
    ensures e == Happy <==> n == 4
  {
    match e
    case Sad => 0
    case Frown => 1
    case Neutral => 2
    case Smile => 3
    case Happy => 4
  }

  /** GetScoreFromEmoji: exact match against the table, anything else rejected. */
  function GetScoreFromEmoji(emoji: string): (r: Result<int, EmojiError>)
    ensures r.Success? <==> emoji in Recognised
    ensures r.Success? ==> 1 <= r.value <= 9 && r.value % 2 == 1
    ensures r.Failure? ==> r.error == UnknownEmoji(emoji)
  {
    if emoji == Crying then Success(1)
    else if emoji == Frowning then Success(3)
    else if emoji == NeutralFace then Success(5)
    else if emoji == SlightSmile then Success(7)
    else if emoji == BigSmile then Success(9)
    else Failure(UnknownEmoji(emoji))
  }

  /** GetMoodEmojiType: the first threshold the score reaches, checked from the top. */
  function GetMoodEmojiType(score: int): (r: MoodEmoji)
    ensures (r == Happy || r == Smile) <==> score >= 6
    ensures r == Neutral <==> score == 5
    ensures (r == Sad || r == Frown) <==> score <= 4
  {
    if score >= 8 then Happy
    else if score >= 6 then Smile
    else if score == 5 then Neutral
    else if score >= 3 then Frown
    else Sad
  }

  /** The emoji each bucket's comment names; the partner of the forward table. */
  function EmojiOf(e: MoodEmoji): (s: string)
    ensures s in Recognised
  {
    match e
    case Sad => Crying
    case Frown => Frowning
    case Neutral => NeutralFace
    case Smile => SlightSmile
    case Happy => BigSmile
  }

  /** The table's five entries. */
  lemma ScoreTable()
    ensures GetScoreFromEmoji(Crying) == Success(1)
    ensures GetScoreFromEmoji(Frowning) == Success(3)
    ensures GetScoreFromEmoji(NeutralFace) == Success(5)
    ensures GetScoreFromEmoji(SlightSmile) == Success(7)
    ensures GetScoreFromEmoji(BigSmile) == Success(9)
    ensures |Recognised| == 5
  {
  }

  /** Every score the table produces lies in the entity's documented range 0..10. */
  lemma {:induction false} ScoreWithinEntityRange(emoji: string)
    requires GetScoreFromEmoji(emoji).Success?
    ensures 0 <= GetScoreFromEmoji(emoji).value <= 10
  {
  }

  /** Each bucket is exactly one band of scores, both directions; negatives are Sad. */
  lemma {:induction false} MoodEmojiTypeBands(score: int)
    ensures GetMoodEmojiType(score) == Happy <==> score >= 8
    ensures GetMoodEmojiType(score) == Smile <==> 6 <= score <= 7
    ensures GetMoodEmojiType(score) == Neutral <==> score == 5
    ensures GetMoodEmojiType(score) == Frown <==> 3 <= score <= 4
    ensures GetMoodEmojiType(score) == Sad <==> score <= 2
  {
  }

  /** The boundary scores on either side of each threshold. */
  lemma MoodEmojiTypeBoundaries()
    ensures GetMoodEmojiType(2) == Sad && GetMoodEmojiType(3) == Frown
    ensures GetMoodEmojiType(4) == Frown && GetMoodEmojiType(5) == Neutral
    ensures GetMoodEmojiType(6) == Smile
    ensures GetMoodEmojiType(7) == Smile && GetMoodEmojiType(8) == Happy
    ensures GetMoodEmojiType(0) == Sad && GetMoodEmojiType(-1) == Sad && GetMoodEmojiType(10) == Happy
  {
  }

  /** A higher score never lands in a lower bucket. */
  lemma {:induction false} MoodEmojiTypeMonotone(s1: int, s2: int)
    requires s1 <= s2
    ensures Ordinal(GetMoodEmojiType(s1)) <= Ordinal(GetMoodEmojiType(s2))
  {
  }

  /**
    Emoji to score to bucket agrees with the comments: the bucket of a recognised
    emoji's score is the bucket that names that emoji, so EmojiOf inverts it.
   */
  lemma {:induction false} EmojiBucketRoundTrip(emoji: string)
    requires emoji in Recognised
    ensures EmojiOf(GetMoodEmojiType(GetScoreFromEmoji(emoji).value)) == emoji
  {
  }

  /** Bucket to emoji to score lands back in the same bucket. */
  lemma {:induction false} BucketEmojiRoundTrip(e: MoodEmoji)
    ensures GetScoreFromEmoji(EmojiOf(e)).Success?
    ensures GetMoodEmojiType(GetScoreFromEmoji(EmojiOf(e)).value) == e
  {
  }

  /** The five emoji named by the comments, bucket by bucket. */
  lemma CommentedBuckets()
    ensures GetMoodEmojiType(GetScoreFromEmoji(Crying).value) == Sad
    ensures GetMoodEmojiType(GetScoreFromEmoji(Frowning).value) == Frown
    ensures GetMoodEmojiType(GetScoreFromEmoji(NeutralFace).value) == Neutral
    ensures GetMoodEmojiType(GetScoreFromEmoji(SlightSmile).value) == Smile
    ensures GetMoodEmojiType(GetScoreFromEmoji(BigSmile).value) == Happy
  {
  }
}
