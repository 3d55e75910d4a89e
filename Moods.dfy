/**
  The mood record store: one record per user per day, upserted by LogMood, read
  back as today's entry, as a gap-filled seven-day window, and as lifetime
  statistics. Days are integer day numbers; "today" is passed in.
 */
module Moods {
  import opened Wrappers
  import opened Queries
  import opened MoodHelper

  /** The emoji of a day with no record in the seven-day window. */
  const PlaceholderEmoji: string := "\U{2753}"

  /** A row of the Moods table (the entity's Id is not modelled). */
  datatype Mood = Mood(userId: int, date: int, emoji: string, score: int, note: Option<string>)

  /** The projection the queries return. */
  datatype MoodResponse = MoodResponse(emoji: string, score: int, date: int, note: Option<string>)

  /** Lifetime statistics; the average is exact here (the source rounds a double to 2 places). */
  datatype MoodStats = MoodStats(averageScore: real, happyDays: nat, sadDays: nat)

  function ToResponse(m: Mood): MoodResponse
  {
    MoodResponse(m.emoji, m.score, m.date, m.note)
  }

  /** The placeholder entry for a day nobody logged. */
  function Placeholder(day: int): MoodResponse
  {
    MoodResponse(PlaceholderEmoji, 0, day, None)
  }

  // ---------------------------------------------------------------------------
  // Query predicates, each one defined once so that every query shares it.

  /** The record belongs to the user and the day. */
  function OnUserDay(userId: int, day: int): Mood -> bool
  {
    (m: Mood) => m.userId == userId && m.date == day
  }

  /** The seven-day query's filter: the user's records from the given day on. */
  function InWindow(userId: int, from: int): Mood -> bool
  {
    (m: Mood) => m.userId == userId && m.date >= from
  }

  /** The per-day lookup inside the seven-day loop. */
  function OnDate(day: int): Mood -> bool
  {
    (m: Mood) => m.date == day
  }

  /** The statistics query's filter. */
  function OfUser(userId: int): Mood -> bool
  {
    (m: Mood) => m.userId == userId
  }

  /** The store holds at most one record per (user, day). */
  ghost predicate OnePerDay(moods: seq<Mood>)
  {
    forall i, j :: 0 <= i < j < |moods| && moods[i].userId == moods[j].userId ==> moods[i].date != moods[j].date
  }

  /** FirstOrDefault over (user, day): the position of that day's first record, if any. */
  function FindDay(moods: seq<Mood>, userId: int, day: int): (r: Option<nat>)
    ensures r.Some? ==> r.value < |moods| && moods[r.value].userId == userId && moods[r.value].date == day
    ensures r.None? <==> forall j :: 0 <= j < |moods| ==> !(moods[j].userId == userId && moods[j].date == day)
  {
    FirstIndex(moods, OnUserDay(userId, day))
  }

  /** Where a record for (user, day) exists at all, a store with one record per day finds it. */
  lemma {:induction false} FindDayUnique(moods: seq<Mood>, userId: int, day: int, j: nat)
    requires OnePerDay(moods)
    requires j < |moods| && moods[j].userId == userId && moods[j].date == day
    ensures FindDay(moods, userId, day) == Some(j)
  {
    assert FindDay(moods, userId, day).Some?;
  }

  // ---------------------------------------------------------------------------
  // The daily upsert.

  /** The store after a successful log: overwrite today's record in place, or append one. */
  function Upsert(moods: seq<Mood>, userId: int, today: int, emoji: string, score: int, note: Option<string>): (r: seq<Mood>)
    ensures |r| == (if FindDay(moods, userId, today).Some? then |moods| else |moods| + 1)
    ensures forall j :: 0 <= j < |moods| && !(moods[j].userId == userId && moods[j].date == today) ==> r[j] == moods[j]
  {
    match FindDay(moods, userId, today)
    case Some(i) => moods[i := moods[i].(emoji := emoji, score := score, note := note)]
    case None => moods + [Mood(userId, today, emoji, score, note)]
  }

  /** Where the logged record sits after the upsert. */
  function UpsertIndex(moods: seq<Mood>, userId: int, today: int): (k: nat)
    ensures k <= |moods|
    ensures k < |moods| <==> exists j :: 0 <= j < |moods| && moods[j].userId == userId && moods[j].date == today
    ensures k < |moods| ==> moods[k].userId == userId && moods[k].date == today
  {
    match FindDay(moods, userId, today)
    case Some(i) => i
    case None => |moods|
  }

  /**
    The upsert changes one position: an existing record for (user, today) keeps
    its place and the count, otherwise exactly one record is appended; either way
    that position holds (user, today, emoji, score, note) and nothing else changes.
   */
  lemma {:induction false} UpsertShape(moods: seq<Mood>, userId: int, today: int, emoji: string, score: int, note: Option<string>)
    ensures var after := Upsert(moods, userId, today, emoji, score, note);
      var k := UpsertIndex(moods, userId, today);
      && |after| == (if FindDay(moods, userId, today).Some? then |moods| else |moods| + 1)
      && k < |after|
      && after[k] == Mood(userId, today, emoji, score, note)
      && (forall j :: 0 <= j < |moods| && j != k ==> after[j] == moods[j])
  {
  }

  /** After the upsert, the lookup for (user, today) finds the logged record. */
  lemma {:induction false} UpsertFindsToday(moods: seq<Mood>, userId: int, today: int, emoji: string, score: int, note: Option<string>)
    ensures var after := Upsert(moods, userId, today, emoji, score, note);
      && FindDay(after, userId, today) == Some(UpsertIndex(moods, userId, today))
      && after[UpsertIndex(moods, userId, today)] == Mood(userId, today, emoji, score, note)
  {
    var after := Upsert(moods, userId, today, emoji, score, note);
    var k := UpsertIndex(moods, userId, today);
    UpsertShape(moods, userId, today, emoji, score, note);
    assert OnUserDay(userId, today)(after[k]);
  }

  /** Other users' and other days' lookups see the same record as before the upsert. */
  lemma {:induction false} UpsertKeepsOtherDays(moods: seq<Mood>, userId: int, today: int, emoji: string, score: int, note: Option<string>,
                                                 otherUser: int, otherDay: int)
    requires otherUser != userId || otherDay != today
    ensures var after := Upsert(moods, userId, today, emoji, score, note);
      && FindDay(after, otherUser, otherDay) == FindDay(moods, otherUser, otherDay)
      && (FindDay(moods, otherUser, otherDay).Some? ==>
            after[FindDay(moods, otherUser, otherDay).value] == moods[FindDay(moods, otherUser, otherDay).value])
  {
    var after := Upsert(moods, userId, today, emoji, score, note);
    var k := UpsertIndex(moods, userId, today);
    UpsertShape(moods, userId, today, emoji, score, note);
    var p := OnUserDay(otherUser, otherDay);
    assert forall j :: 0 <= j < |moods| ==> p(after[j]) == p(moods[j]);
    assert k < |moods| ==> !p(moods[k]);
  }

  /** Upsert keeps the store at one record per (user, day). */
  lemma {:induction false} UpsertKeepsOnePerDay(moods: seq<Mood>, userId: int, today: int, emoji: string, score: int, note: Option<string>)
    requires OnePerDay(moods)
    ensures OnePerDay(Upsert(moods, userId, today, emoji, score, note))
  {
    var after := Upsert(moods, userId, today, emoji, score, note);
    UpsertShape(moods, userId, today, emoji, score, note);
    match FindDay(moods, userId, today)
    case Some(i) =>
      assert forall j :: 0 <= j < |moods| ==> after[j].userId == moods[j].userId && after[j].date == moods[j].date;
    case None =>
      assert after == moods + [Mood(userId, today, emoji, score, note)];
  }

  /** Logging twice on one day leaves the store as if only the second call had happened. */
  lemma {:induction false} SecondLogWins(moods: seq<Mood>, userId: int, today: int,
                                         emoji1: string, score1: int, note1: Option<string>,
                                         emoji2: string, score2: int, note2: Option<string>)
    ensures Upsert(Upsert(moods, userId, today, emoji1, score1, note1), userId, today, emoji2, score2, note2)
         == Upsert(moods, userId, today, emoji2, score2, note2)
  {
    var once := Upsert(moods, userId, today, emoji1, score1, note1);
    UpsertFindsToday(moods, userId, today, emoji1, score1, note1);
    UpsertShape(moods, userId, today, emoji1, score1, note1);
    UpsertShape(moods, userId, today, emoji2, score2, note2);
  }

  /** How many records the store holds for (user, day). */
  function RecordsOn(moods: seq<Mood>, userId: int, day: int): nat
  {
    Count(moods, OnUserDay(userId, day))
  }

  /** One record per day means every (user, day) has at most one record. */
  lemma OnePerDayCountsAtMostOne(moods: seq<Mood>, userId: int, day: int)
    requires OnePerDay(moods)
    ensures RecordsOn(moods, userId, day) <= 1
  {
    var p := OnUserDay(userId, day);
    assert forall i, j :: 0 <= i < j < |moods| && p(moods[i]) ==> !p(moods[j]);
    CountAtMostOne(moods, p);
  }

  /** After logging on a store with one record per day, exactly one record exists for (user, today). */
  lemma {:induction false} LogLeavesExactlyOne(moods: seq<Mood>, userId: int, today: int, emoji: string, score: int, note: Option<string>)
    requires OnePerDay(moods)
    ensures RecordsOn(Upsert(moods, userId, today, emoji, score, note), userId, today) == 1
  {
    var after := Upsert(moods, userId, today, emoji, score, note);
    UpsertKeepsOnePerDay(moods, userId, today, emoji, score, note);
    OnePerDayCountsAtMostOne(after, userId, today);
    UpsertFindsToday(moods, userId, today, emoji, score, note);
    assert OnUserDay(userId, today)(after[UpsertIndex(moods, userId, today)]);
  }

  // ---------------------------------------------------------------------------
  // The seven-day window.

  /** The window entry for one day: its first record's values, or the placeholder. */
  function DayEntry(moods: seq<Mood>, userId: int, day: int): (r: MoodResponse)
    ensures r.date == day
  {
    match FindDay(moods, userId, day)
    case Some(i) => ToResponse(moods[i])
    case None => Placeholder(day)
  }

  /** A day with a stored record carries that record's values (one record per day). */
  lemma {:induction false} DayEntryOfRecord(moods: seq<Mood>, userId: int, j: nat)
    requires OnePerDay(moods)
    requires j < |moods| && moods[j].userId == userId
    ensures DayEntry(moods, userId, moods[j].date) == ToResponse(moods[j])
  {
    FindDayUnique(moods, userId, moods[j].date, j);
  }

  /** A day with no record carries the placeholder, score 0 and no note. */
  lemma {:induction false} DayEntryWithoutRecord(moods: seq<Mood>, userId: int, day: int)
    requires forall j :: 0 <= j < |moods| ==> !(moods[j].userId == userId && moods[j].date == day)
    ensures DayEntry(moods, userId, day) == MoodResponse(PlaceholderEmoji, 0, day, None)
  {
  }

  /** The placeholder is none of the recognised emoji, so it never passes for a logged mood. */
  lemma PlaceholderIsUnrecognised()
    ensures PlaceholderEmoji !in Recognised
    ensures GetScoreFromEmoji(PlaceholderEmoji) == Failure(UnknownEmoji(PlaceholderEmoji))
  {
  }

  /** Ascending by date. */
  predicate DateOrdered(entries: seq<MoodResponse>)
  {
    forall k, l :: 0 <= k < l < |entries| ==> entries[k].date <= entries[l].date
  }

  /** Inserts x before the first entry that is not earlier than it. */
  function InsertByDate(x: MoodResponse, sorted: seq<MoodResponse>): (r: seq<MoodResponse>)
    ensures |r| == |sorted| + 1
    ensures multiset(r) == multiset(sorted) + multiset{x}
  {
    if |sorted| == 0 then [x]
    else if x.date <= sorted[0].date then [x] + sorted
    else
      assert sorted == [sorted[0]] + sorted[1..];
      [sorted[0]] + InsertByDate(x, sorted[1..])
  }

  /** Inserting into a date-ordered list keeps it date-ordered. */
  lemma {:induction false} InsertKeepsOrder(x: MoodResponse, sorted: seq<MoodResponse>)
    requires DateOrdered(sorted)
    ensures DateOrdered(InsertByDate(x, sorted))
    ensures InsertByDate(x, sorted)[0] == x || (|sorted| > 0 && InsertByDate(x, sorted)[0] == sorted[0])
  {
    if |sorted| > 0 && x.date > sorted[0].date {
      var rest := InsertByDate(x, sorted[1..]);
      InsertKeepsOrder(x, sorted[1..]);
      assert sorted[0].date <= rest[0].date;
      var r := [sorted[0]] + rest;
      forall k, l | 0 <= k < l < |r| ensures r[k].date <= r[l].date {
        if k > 0 {
          assert r[k] == rest[k - 1] && r[l] == rest[l - 1];
        } else {
          assert r[l] == rest[l - 1];
        }
      }
    }
  }

  /** OrderBy(date): a stable insertion sort; the result is a permutation of the input. */
  function OrderByDate(entries: seq<MoodResponse>): (r: seq<MoodResponse>)
    ensures |r| == |entries|
    ensures multiset(r) == multiset(entries)
  {
    if |entries| == 0 then []
    else
      assert entries == [entries[0]] + entries[1..];
      InsertByDate(entries[0], OrderByDate(entries[1..]))
  }

  /** OrderBy(date) returns its input in ascending date order. */
  lemma {:induction false} OrderByDateSorted(entries: seq<MoodResponse>)
    ensures DateOrdered(OrderByDate(entries))
  {
    if |entries| > 0 {
      OrderByDateSorted(entries[1..]);
      InsertKeepsOrder(entries[0], OrderByDate(entries[1..]));
    }
  }

  /** Inserting an entry later than every entry of the list appends it. */
  lemma {:induction false} InsertLatest(x: MoodResponse, sorted: seq<MoodResponse>)
    requires forall k :: 0 <= k < |sorted| ==> sorted[k].date < x.date
    ensures InsertByDate(x, sorted) == sorted + [x]
  {
    if |sorted| > 0 {
      InsertLatest(x, sorted[1..]);
      assert sorted == [sorted[0]] + sorted[1..];
    }
  }

  /** The entries of one day, in list order. */
  function OnDay(day: int): MoodResponse -> bool
  {
    (e: MoodResponse) => e.date == day
  }

  /** Insertion puts x before every entry of its own date and moves no other entry of that date. */
  lemma {:induction false} InsertKeepsDayOrder(x: MoodResponse, sorted: seq<MoodResponse>, day: int)
    ensures Filter(InsertByDate(x, sorted), OnDay(day)) == (if x.date == day then [x] else []) + Filter(sorted, OnDay(day))
  {
    if |sorted| == 0 {
      assert [x][1..] == [];
    } else if x.date <= sorted[0].date {
      assert ([x] + sorted)[1..] == sorted;
    } else {
      var rest := InsertByDate(x, sorted[1..]);
      InsertKeepsDayOrder(x, sorted[1..], day);
      assert ([sorted[0]] + rest)[1..] == rest;
    }
  }

  /**
    OrderBy(date) is stable: for every day, the entries of that day appear in
    the result in the order they had in the input.
   */
  lemma {:induction false} OrderByDateStable(entries: seq<MoodResponse>, day: int)
    ensures Filter(OrderByDate(entries), OnDay(day)) == Filter(entries, OnDay(day))
  {
    if |entries| > 0 {
      OrderByDateStable(entries[1..], day);
      InsertKeepsDayOrder(entries[0], OrderByDate(entries[1..]), day);
    }
  }

  /** Sorting entries whose dates strictly decrease reverses them. */
  lemma {:induction false} OrderByDescendingReverses(entries: seq<MoodResponse>)
    requires forall k, l :: 0 <= k < l < |entries| ==> entries[k].date > entries[l].date
    ensures forall k :: 0 <= k < |entries| ==> OrderByDate(entries)[k] == entries[|entries| - 1 - k]
  {
    if |entries| > 0 {
      var rest := entries[1..];
      OrderByDescendingReverses(rest);
      var sortedRest := OrderByDate(rest);
      forall k | 0 <= k < |sortedRest| ensures sortedRest[k].date < entries[0].date {
        assert sortedRest[k] == rest[|rest| - 1 - k];
      }
      InsertLatest(entries[0], sortedRest);
    }
  }

  /** Ordering seven entries dated today, today - 1, ..., today - 6 by date reverses them. */
  lemma {:induction false} WeekInDateOrder(days: seq<MoodResponse>, today: int)
    requires |days| == 7
    requires forall k :: 0 <= k < 7 ==> days[k].date == today - k
    ensures |OrderByDate(days)| == 7
    ensures forall k :: 0 <= k < 7 ==> OrderByDate(days)[k] == days[6 - k]
  {
    forall k, l | 0 <= k < l < |days| ensures days[k].date > days[l].date {
      assert days[k].date == today - k && days[l].date == today - l;
    }
    OrderByDescendingReverses(days);
  }

  /** Puts seven entries dated today, today - 1, ..., today - 6 in date order. */
  method OrderWeek(days: seq<MoodResponse>, today: int) returns (week: seq<MoodResponse>)
    requires |days| == 7
    requires forall k :: 0 <= k < 7 ==> days[k].date == today - k
    ensures |week| == 7
    ensures forall k :: 0 <= k < 7 ==> week[k] == days[6 - k]
  {
    WeekInDateOrder(days, today);
    week := OrderByDate(days);
  }

  /** Appending the entry of the next older day extends the newest-first window. */
  lemma NewestFirstStep(moods: seq<Mood>, userId: int, today: int, newest: seq<MoodResponse>, entry: MoodResponse)
    requires forall k :: 0 <= k < |newest| ==> newest[k] == DayEntry(moods, userId, today - k)
    requires entry == DayEntry(moods, userId, today - |newest|)
    ensures forall k :: 0 <= k < |newest| + 1 ==>
      (newest + [entry])[k] == DayEntry(moods, userId, today - k) && (newest + [entry])[k].date == today - k
  {
    forall k | 0 <= k < |newest| + 1
      ensures (newest + [entry])[k] == DayEntry(moods, userId, today - k)
    {
      if k < |newest| {
        assert (newest + [entry])[k] == newest[k];
      }
    }
  }

  /** The reversal of the newest-first entries is the window in calendar order. */
  lemma WeekFromNewest(moods: seq<Mood>, userId: int, today: int, newest: seq<MoodResponse>, week: seq<MoodResponse>)
    requires |newest| == 7 && |week| == 7
    requires forall k :: 0 <= k < 7 ==> newest[k] == DayEntry(moods, userId, today - k)
    requires forall k :: 0 <= k < 7 ==> week[k] == newest[6 - k]
    ensures forall k :: 0 <= k < 7 ==> week[k] == DayEntry(moods, userId, today - 6 + k)
    ensures forall k :: 0 <= k < 7 ==> week[k].date == today - 6 + k
    ensures forall k, l :: 0 <= k < l < |week| ==> week[k].date < week[l].date
  {
    forall k | 0 <= k < 7
      ensures week[k] == DayEntry(moods, userId, today - 6 + k)
    {
      var m := 6 - k;
      assert week[k] == newest[m];
      assert today - m == today - 6 + k;
    }
  }

  /** The seven-day query: the user's records dated on or after the given day. */
  function RecentMoods(moods: seq<Mood>, userId: int, from: int): (r: seq<Mood>)
    ensures |r| <= |moods|
    ensures forall j :: 0 <= j < |r| ==> InWindow(userId, from)(r[j])
  {
    Filter(moods, InWindow(userId, from))
  }

  /** Looking a day of the window up among the recent records finds that day's first record. */
  function WindowEntry(recent: seq<Mood>, day: int): (r: MoodResponse)
    ensures r.date == day
    ensures (forall j :: 0 <= j < |recent| ==> recent[j].date != day) ==> r == Placeholder(day)
  {
    match FirstIndex(recent, OnDate(day))
    case Some(i) => ToResponse(recent[i])
    case None => Placeholder(day)
  }

  lemma {:induction false} RecentLookup(moods: seq<Mood>, userId: int, from: int, day: int)
    requires from <= day
    ensures WindowEntry(RecentMoods(moods, userId, from), day) == DayEntry(moods, userId, day)
  {
    FirstIndexAfterFilter(moods, InWindow(userId, from), OnDate(day), OnUserDay(userId, day));
  }

  // ---------------------------------------------------------------------------
  // Statistics.

  /** The source's happy-day test: the score classifies as Happy or Smile. */
  predicate IsHappyDay(m: Mood)
    ensures IsHappyDay(m) <==> m.score >= 6
  {
    GetMoodEmojiType(m.score) == Happy || GetMoodEmojiType(m.score) == Smile
  }

  /** The source's sad-day test: the score classifies as Sad or Frown. */
  predicate IsSadDay(m: Mood)
    ensures IsSadDay(m) <==> m.score <= 4
  {
    GetMoodEmojiType(m.score) == Sad || GetMoodEmojiType(m.score) == Frown
  }

  predicate HighScore(m: Mood) { m.score >= 6 }
  predicate LowScore(m: Mood) { m.score <= 4 }
  predicate MidScore(m: Mood) { m.score == 5 }

  /** Sum of the scores. */
  function TotalScore(ms: seq<Mood>): int
  {
    if |ms| == 0 then 0 else ms[0].score + TotalScore(ms[1..])
  }

  /** The sum over a concatenation is the sum of the sums, whatever the split. */
  lemma {:induction false} TotalScoreAppend(a: seq<Mood>, b: seq<Mood>)
    ensures TotalScore(a + b) == TotalScore(a) + TotalScore(b)
  {
    if |a| == 0 {
      assert a + b == b;
    } else {
      TotalScoreAppend(a[1..], b);
      assert (a + b)[1..] == a[1..] + b;
    }
  }

  /** The user's records, in table order. */
  function UserMoods(moods: seq<Mood>, userId: int): (r: seq<Mood>)
    ensures forall j :: 0 <= j < |r| ==> r[j].userId == userId
    ensures |r| == 0 <==> forall j :: 0 <= j < |moods| ==> moods[j].userId != userId
  {
    Filter(moods, OfUser(userId))
  }

  /** The statistics see every record of the user and nothing else. */
  lemma UserMoodsExact(moods: seq<Mood>, userId: int)
    ensures forall j :: 0 <= j < |UserMoods(moods, userId)| ==> UserMoods(moods, userId)[j] in moods
    ensures forall j :: 0 <= j < |moods| && moods[j].userId == userId ==> moods[j] in UserMoods(moods, userId)
  {
    FilterMembership(moods, OfUser(userId));
  }

  /** Happy days are exactly the records scoring 6 or more. */
  lemma {:induction false} HappyDaysByScore(ms: seq<Mood>)
    ensures Count(ms, IsHappyDay) == Count(ms, HighScore)
  {
    forall j | 0 <= j < |ms| ensures IsHappyDay(ms[j]) == HighScore(ms[j]) {
      MoodEmojiTypeBands(ms[j].score);
    }
    CountAgrees(ms, IsHappyDay, HighScore);
  }

  /** Sad days are exactly the records scoring 4 or less. */
  lemma {:induction false} SadDaysByScore(ms: seq<Mood>)
    ensures Count(ms, IsSadDay) == Count(ms, LowScore)
  {
    forall j | 0 <= j < |ms| ensures IsSadDay(ms[j]) == LowScore(ms[j]) {
      MoodEmojiTypeBands(ms[j].score);
    }
    CountAgrees(ms, IsSadDay, LowScore);
  }

  /**
    A week scored 9, 9, 1, 1, 5, 7, 3 has three happy days (9, 9 and 7), three
    sad days and a mean of 5.
   */
  lemma StatsExample(week: seq<Mood>)
    requires |week| == 7
    requires week[0].score == 9 && week[1].score == 9 && week[2].score == 1 && week[3].score == 1
    requires week[4].score == 5 && week[5].score == 7 && week[6].score == 3
    ensures Count(week, IsHappyDay) == 3
    ensures Count(week, IsSadDay) == 3
    ensures Mean(TotalScore(week), |week|) == 5.0
  {
    assert week[6..][1..] == [];
    assert week[5..][1..] == week[6..];
    assert week[4..][1..] == week[5..];
    assert week[3..][1..] == week[4..];
    assert week[2..][1..] == week[3..];
    assert week[1..][1..] == week[2..];
    assert week[0..][1..] == week[1..];
    assert week[0..] == week;
    assert Count(week[6..], IsHappyDay) == 0 && Count(week[6..], IsSadDay) == 1 && TotalScore(week[6..]) == 3;
    assert Count(week[5..], IsHappyDay) == 1 && Count(week[5..], IsSadDay) == 1 && TotalScore(week[5..]) == 10;
    assert Count(week[4..], IsHappyDay) == 1 && Count(week[4..], IsSadDay) == 1 && TotalScore(week[4..]) == 15;
    assert Count(week[3..], IsHappyDay) == 1 && Count(week[3..], IsSadDay) == 2 && TotalScore(week[3..]) == 16;
    assert Count(week[2..], IsHappyDay) == 1 && Count(week[2..], IsSadDay) == 3 && TotalScore(week[2..]) == 17;
    assert Count(week[1..], IsHappyDay) == 2 && Count(week[1..], IsSadDay) == 3 && TotalScore(week[1..]) == 26;
    assert Count(week, IsHappyDay) == 3 && Count(week, IsSadDay) == 3 && TotalScore(week) == 35;
  }

  /** Every record is a happy, a sad or a neutral (score 5) day, and only one of them. */
  lemma {:induction false} DaysPartition(ms: seq<Mood>)
    ensures Count(ms, HighScore) + Count(ms, LowScore) + Count(ms, MidScore) == |ms|
  {
    if |ms| > 0 {
      DaysPartition(ms[1..]);
    }
  }

  /** The sum does not depend on the order of the records. */
  lemma {:induction false} TotalScorePermutation(a: seq<Mood>, b: seq<Mood>)
    requires multiset(a) == multiset(b)
    ensures TotalScore(a) == TotalScore(b)
    decreases |a|
  {
    if |a| == 0 {
      assert |b| == |multiset(b)| == 0;
    } else {
      assert a[0] in multiset(b);
      var k :| 0 <= k < |b| && b[k] == a[0];
      var rest := b[..k] + b[k + 1..];
      RemoveMatched(a, b, k);
      assert b == b[..k] + ([b[k]] + b[k + 1..]);
      TotalScorePermutation(a[1..], rest);
      TotalScoreAppend(b[..k], [b[k]] + b[k + 1..]);
      TotalScoreAppend(b[..k], b[k + 1..]);
      assert ([b[k]] + b[k + 1..])[1..] == b[k + 1..];
    }
  }

  /**
    The statistics query has no ordering, so the rows may come back in any
    order; the counts, the total and the number of records are the same for
    every order.
   */
  lemma StatsIgnoreRowOrder(a: seq<Mood>, b: seq<Mood>)
    requires multiset(a) == multiset(b)
    ensures |a| == |b|
    ensures Count(a, IsHappyDay) == Count(b, IsHappyDay)
    ensures Count(a, IsSadDay) == Count(b, IsSadDay)
    ensures TotalScore(a) == TotalScore(b)
  {
    assert |a| == |multiset(a)| == |multiset(b)| == |b|;
    CountPermutation(a, b, IsHappyDay);
    CountPermutation(a, b, IsSadDay);
    TotalScorePermutation(a, b);
  }

  /** Scores between lo and hi keep the total between lo and hi times the count. */
  lemma {:induction false} TotalScoreBounds(ms: seq<Mood>, lo: int, hi: int)
    requires forall j :: 0 <= j < |ms| ==> lo <= ms[j].score <= hi
    ensures lo * |ms| <= TotalScore(ms) <= hi * |ms|
  {
    if |ms| > 0 {
      TotalScoreBounds(ms[1..], lo, hi);
    }
  }

  /** The mean of n scores summing to total: multiplied back by n it gives the total. */
  function Mean(total: int, n: nat): (m: real)
    requires n > 0
    ensures m * (n as real) == total as real
  {
    total as real / n as real
  }

  /** A mean of scores between lo and hi lies between lo and hi. */
  lemma MeanWithin(total: int, n: nat, lo: int, hi: int)
    requires n > 0
    requires lo * n <= total <= hi * n
    ensures lo as real <= Mean(total, n) <= hi as real
  {
    var m := Mean(total, n);
    assert (lo as real) * (n as real) <= m * (n as real);
    assert m * (n as real) <= (hi as real) * (n as real);
  }

  /** When every record of the user scores between lo and hi, so does their average. */
  lemma AverageWithinScores(moods: seq<Mood>, userId: int, lo: int, hi: int)
    requires forall j :: 0 <= j < |moods| && moods[j].userId == userId ==> lo <= moods[j].score <= hi
    requires |UserMoods(moods, userId)| > 0
    ensures var mine := UserMoods(moods, userId);
      lo as real <= Mean(TotalScore(mine), |mine|) <= hi as real
  {
    var mine := UserMoods(moods, userId);
    UserMoodsExact(moods, userId);
    forall j | 0 <= j < |mine| ensures lo <= mine[j].score <= hi {
      var k :| 0 <= k < |moods| && moods[k] == mine[j];
    }
    TotalScoreBounds(mine, lo, hi);
    MeanWithin(TotalScore(mine), |mine|, lo, hi);
  }

  class MoodService {
    /** The Moods table. */
    var moods: seq<Mood>

    /** The table invariant LogMood keeps: at most one record per user and day. */
    ghost predicate Valid()
      reads this
    {
      OnePerDay(moods)
    }

    constructor ()
      ensures moods == []
      ensures Valid()
    {
      moods := [];
    }

    /**
      LogMoodAsync: look up today's record, score the emoji (failing before any
      write when it is unknown), then overwrite that record's emoji, score and
      note in place or append a new record. Returns the logged record.
     */
    method LogMood(userId: int, today: int, emoji: string, note: Option<string>) returns (r: Result<Mood, EmojiError>)
      modifies this
      ensures GetScoreFromEmoji(emoji).Failure? ==> r == Failure(UnknownEmoji(emoji)) && moods == old(moods)
      ensures GetScoreFromEmoji(emoji).Success? ==>
        var score := GetScoreFromEmoji(emoji).value;
        && moods == Upsert(old(moods), userId, today, emoji, score, note)
        && r == Success(Mood(userId, today, emoji, score, note))
        && moods[UpsertIndex(old(moods), userId, today)] == r.value
      ensures old(Valid()) ==> Valid()
    {
      var existing := FindDay(moods, userId, today);
      var scored := GetScoreFromEmoji(emoji);
      if scored.Failure? {
        return Failure(scored.error);
      }
      var score := scored.value;
      ghost var before := moods;
      if existing.Some? {
        var i := existing.value;
        var updated := moods[i].(emoji := emoji, score := score, note := note);
        moods := moods[i := updated];
        r := Success(updated);
      } else {
        var newMood := Mood(userId, today, emoji, score, note);
        moods := moods + [newMood];
        r := Success(newMood);
      }
      UpsertShape(before, userId, today, emoji, score, note);
      if OnePerDay(before) {
        UpsertKeepsOnePerDay(before, userId, today, emoji, score, note);
      }
    }

    /** GetTodayMoodAsync: the (user, today) record's values, or nothing. */
    function GetTodayMood(userId: int, today: int): (r: Option<MoodResponse>)
      reads this
      ensures r.Some? <==> exists j :: 0 <= j < |moods| && moods[j].userId == userId && moods[j].date == today
      ensures r.Some? ==> r.value.date == today
      ensures Valid() ==> forall j :: 0 <= j < |moods| && moods[j].userId == userId && moods[j].date == today ==>
        r == Some(ToResponse(moods[j]))
    {
      match FindDay(moods, userId, today)
      case Some(i) =>
        assert forall j :: 0 <= j < |moods| && OnePerDay(moods) && moods[j].userId == userId && moods[j].date == today ==> i == j by {
          forall j | 0 <= j < |moods| && OnePerDay(moods) && moods[j].userId == userId && moods[j].date == today ensures i == j {
            FindDayUnique(moods, userId, today, j);
          }
        }
        Some(ToResponse(moods[i]))
      case None => None
    }

    /**
      GetLastSevenDaysMoodsAsync: query the user's records from six days ago on,
      fill the days today, today - 1, ..., today - 6 from them or with the
      placeholder, then order by date.
     */
    method GetLastSevenDays(userId: int, today: int) returns (week: seq<MoodResponse>)
      ensures |week| == 7
      ensures forall k :: 0 <= k < 7 ==> week[k] == DayEntry(moods, userId, today - 6 + k)
      ensures forall k :: 0 <= k < 7 ==> week[k].date == today - 6 + k
      ensures forall k, l :: 0 <= k < l < |week| ==> week[k].date < week[l].date
    {
      var sevenDaysAgo := today - 6;
      var table := moods;
      var recent := RecentMoods(table, userId, sevenDaysAgo);
      var result: seq<MoodResponse> := [];
      for i := 0 to 7
        invariant |result| == i
        invariant forall k :: 0 <= k < i ==> result[k] == DayEntry(table, userId, today - k)
        invariant forall k :: 0 <= k < i ==> result[k].date == today - k
      {
        var date := today - i;
        RecentLookup(table, userId, sevenDaysAgo, date);
        var entry := WindowEntry(recent, date);
        assert entry == DayEntry(table, userId, today - |result|);
        NewestFirstStep(table, userId, today, result, entry);
        result := result + [entry];
      }
      week := OrderWeek(result, today);
      WeekFromNewest(table, userId, today, result, week);
    }

    /**
      GetMoodStatsAsync over all of the user's records: happy days score 6 or
      more, sad days 4 or less, the average is the mean score; no records gives
      all zeros.
     */
    function GetMoodStats(userId: int): (r: MoodStats)
      reads this
      ensures (forall j :: 0 <= j < |moods| ==> moods[j].userId != userId) ==> r == MoodStats(0.0, 0, 0)
      ensures r.happyDays == Count(UserMoods(moods, userId), HighScore)
      ensures r.sadDays == Count(UserMoods(moods, userId), LowScore)
      ensures r.happyDays + r.sadDays + Count(UserMoods(moods, userId), MidScore) == |UserMoods(moods, userId)|
      ensures |UserMoods(moods, userId)| > 0 ==>
        r.averageScore == Mean(TotalScore(UserMoods(moods, userId)), |UserMoods(moods, userId)|)
    {
      var mine := UserMoods(moods, userId);
      HappyDaysByScore(mine);
      SadDaysByScore(mine);
      DaysPartition(mine);
      if |mine| == 0 then MoodStats(0.0, 0, 0)
      else
        MoodStats(Mean(TotalScore(mine), |mine|), Count(mine, IsHappyDay), Count(mine, IsSadDay))
    }
  }
}
