# Moodyali core in Dafny

This project models the core of Moodyali, a mood-journal web service. Users
register and log in. Once a day they log a mood emoji and an optional note. The
service shows the user today's mood, a gap-filled window of the last seven days,
and lifetime statistics. The modelled parts are:

- **MoodHelper** (`MoodHelper.dfy`). The closed table from the five mood emoji to
  the scores 1, 3, 5, 7 and 9, where any other string is rejected. Also the
  threshold classifier from any integer score to one of the five `MoodEmoji`
  buckets.
- **PasswordHelper** (`PasswordHelper.dfy`). Salted PBKDF2 hashing, written over
  byte arrays as in the source:
  - the 48-byte buffer holds the 16-byte salt followed by the 32-byte derived key;
  - `Buffer.BlockCopy` is modelled with its range checks;
  - verification splits the buffer at offset 16 and compares element by element.
  - PBKDF2 (RFC 8018, section 5.2) and base64 (RFC 4648, section 4) are not
    modelled. They are deterministic functions held in a `CryptoLibrary` value.
    Two stated guarantees are required of them: PBKDF2 returns the number of
    bytes requested, and base64 decoding inverts encoding.
- **MoodService** (`Moods.dfy`). A class holding the Moods table as a sequence
  of records `(userId, date, emoji, score, note)`:
  - `LogMood` updates today's record in place, or else appends one;
  - `GetTodayMood` is a lookup;
  - `GetLastSevenDays` is the seven-iteration fill loop followed by a stable
    ordering by date;
  - `GetMoodStats` computes the counts and the mean.
  - Dates are integer day numbers, and "today" is a parameter.
- **AuthService** (`Auth.dfy`). A class holding the Users table and the identity
  counter:
  - `Register` inserts a user unless the username or email is already taken;
  - `Login` looks the user up by username, then checks the password;
  - `ForgotPassword` is a lookup that changes nothing.
  - The unique indexes on Username and Email are part of the class invariant
    `Valid()`. That invariant also requires every stored hash to be one that
    `VerifyPassword` can split.
  - Token writing (`GenerateJwtToken`) is a function held in the configuration.
- **Queries** (`Queries.dfy`). The LINQ operators the services apply to their
  tables: `Where`, `FirstOrDefault`, `SingleOrDefault`, `Any` and `Count`,
  over a sequence in table order. `Where`, `FirstOrDefault` and `Count` are
  recursive functions; `Any` and `SingleOrDefault` are defined from `Count` and
  `FirstOrDefault`. `Sum` is `Moods.TotalScore`.
- **Wrappers** (`Wrappers.dfy`). `Option` and `Result`. A thrown exception is
  modelled as a `Failure`.

The clock, the random salt generator, the JWT library, PBKDF2 and base64 are all
parameters. The model contains no I/O.

## Model

| member | source | states |
|---|---|---|
| MoodHelper.Ordinal | Moodyali.Shared/MoodEmoji.cs:3-10 | The enum values run from Sad = 0 to Happy = 4. |
| MoodHelper.GetScoreFromEmoji | Moodyali.Shared/Helpers/MoodHelper.cs:7-18 | A score is produced exactly for the five recognised emoji. Every score is odd and lies in 1..9. Any other string fails with UnknownEmoji naming that string, the modelled ArgumentException. |
| MoodHelper.ScoreTable | Moodyali.Shared/Helpers/MoodHelper.cs:11-15 | The five emoji map to 1, 3, 5, 7 and 9 respectively, and the five are distinct. |
| MoodHelper.ScoreWithinEntityRange | Moodyali.Core/Entities/Mood.cs:22 | Every score the table produces lies in the entity's documented range 0..10. |
| MoodHelper.GetMoodEmojiType | Moodyali.Shared/Helpers/MoodHelper.cs:20-30 | The classifier splits all integers into three classes: a score of 6 or more is Happy or Smile, exactly 5 is Neutral, and 4 or less is Sad or Frown. |
| MoodHelper.MoodEmojiTypeBands | Moodyali.Shared/Helpers/MoodHelper.cs:20-30 | The classifier is total over all integers. Each bucket holds exactly one band, in both directions: Happy for 8 and up, Smile for 6-7, Neutral for exactly 5, Frown for 3-4, and Sad for 2 and below, negatives included. |
| MoodHelper.MoodEmojiTypeBoundaries | Moodyali.Shared/Helpers/MoodHelper.cs:24-28 | Gives the buckets on both sides of the boundaries 2/3, 4/5, 5/6 and 7/8, and for 0, -1 and 10. |
| MoodHelper.MoodEmojiTypeMonotone | Moodyali.Shared/Helpers/MoodHelper.cs:22-29 | For s1 <= s2, the ordinal of the bucket of s1 is at most the ordinal of the bucket of s2. |
| MoodHelper.EmojiOf | Moodyali.Shared/Helpers/MoodHelper.cs:24-28 | The emoji that each bucket's comment names is a recognised emoji. |
| MoodHelper.EmojiBucketRoundTrip | Moodyali.Shared/Helpers/MoodHelper.cs:11-15 | From a recognised emoji, to its score, to that score's bucket, and back to the bucket's commented emoji, yields the original emoji. |
| MoodHelper.BucketEmojiRoundTrip | Moodyali.Shared/Helpers/MoodHelper.cs:24-28 | From a bucket, to its commented emoji, to that emoji's score, and back to a bucket, yields the original bucket. |
| MoodHelper.CommentedBuckets | Moodyali.Shared/Helpers/MoodHelper.cs:11-15 | Crying is Sad, frowning is Frown, neutral is Neutral, slight smile is Smile and big smile is Happy. |
| PasswordHelper.StoredHash | Moodyali.Shared/Helpers/PasswordHelper.cs:31-35 | When base64 decoding inverts encoding, the stored value decodes back to the salt followed by the derived key. |
| PasswordHelper.PasswordCheck | Moodyali.Shared/Helpers/PasswordHelper.cs:47-66 | Verification fails with the FormatException exactly when the stored value is not base64. It fails with the BlockCopy exception exactly when it decodes to fewer than 48 bytes. |
| PasswordHelper.ToArray | Moodyali.Shared/Helpers/PasswordHelper.cs:47 | The array a library call returns is a new array holding exactly the returned bytes. |
| PasswordHelper.BlockCopy | Moodyali.Shared/Helpers/PasswordHelper.cs:32-33 | The copy succeeds exactly when both ranges are in bounds and no offset or count is negative. On success, dst holds src's bytes in the target range and its old bytes elsewhere. On failure, dst is unchanged. |
| PasswordHelper.HashPassword | Moodyali.Shared/Helpers/PasswordHelper.cs:17-36 | The arrays plus the two block copies return base64 of the salt followed by PBKDF2(password, salt, 10000 iterations, 32 bytes). |
| PasswordHelper.VerifyPassword | Moodyali.Shared/Helpers/PasswordHelper.cs:44-67 | Decodes the stored value, then copies out the salt and the stored key. Either copy fails when the buffer is shorter than 48 bytes. Then compares the re-derived key with the stored key. The result equals PasswordCheck, with invalid base64 and a short buffer as the two distinct errors. |
| PasswordHelper.StoredHashLayout | Moodyali.Shared/Helpers/PasswordHelper.cs:8-10 | The stored value decodes to SaltSize + HashSize = 48 bytes, with the salt in [0, 16) and the derived key in [16, 48). It is therefore well formed. |
| PasswordHelper.SplitInvertsLayout | Moodyali.Shared/Helpers/PasswordHelper.cs:50-55 | Splitting at offset 16 recovers exactly the salt and the key that were written. |
| PasswordHelper.VerifyAgainstStored | Moodyali.Shared/Helpers/PasswordHelper.cs:58-66 | Checking an attempt against a stored hash succeeds, and it is true exactly when the attempt's derived key equals the stored key. |
| PasswordHelper.VerifyRoundTrip | Moodyali.Shared/Helpers/PasswordHelper.cs:20-35 | A password verifies against its own hash, whatever the salt. |
| PasswordHelper.CheckFailsExactlyOnMalformed | Moodyali.Shared/Helpers/PasswordHelper.cs:47-55 | Verification throws exactly when the stored value is not base64 or decodes to fewer than 48 bytes, and never returns false in those cases. Bad base64 is the FormatException. |
| Queries.Filter | Moodyali.API/Services/MoodService.cs:108-110 | Where returns no more elements than its input, and every returned element satisfies the predicate. The result is empty exactly when no element does. |
| Queries.FilterMembership | Moodyali.API/Services/MoodService.cs:75-76 | Everything Where returns comes from the input, and every input element that satisfies the predicate is returned. |
| Queries.FirstIndex | Moodyali.API/Services/MoodService.cs:22-23 | FirstOrDefault returns the position of a matching element with no match before it. It returns nothing exactly when no element matches. |
| Queries.Count | Moodyali.API/Services/MoodService.cs:122-123 | The count is at most the length. It is 0 exactly when nothing matches, and equals the length exactly when everything matches. |
| Queries.CountAppend | Moodyali.API/Services/MoodService.cs:122-123 | Counting over two lists joined adds their counts. |
| Queries.CountPermutation | Moodyali.API/Services/MoodService.cs:108-110 | Two lists holding the same elements in any order give the same count. |
| Queries.CountAgrees | Moodyali.API/Services/MoodService.cs:122-123 | Two predicates that agree on every element give the same count. |
| Queries.FirstIndexAfterFilter | Moodyali.API/Services/MoodService.cs:75-92 | The first record dated d among the user's window records is the user's first record dated d in the whole table. |
| Queries.Any | Moodyali.API/Services/AuthService.cs:28 | Any is true exactly when some element matches. |
| Queries.SingleIndex | Moodyali.API/Services/AuthService.cs:49 | SingleOrDefault fails exactly when two or more elements match. It returns nothing exactly when none matches. Otherwise it returns the position of the only match. |
| Queries.OnlyMatch | Moodyali.API/Services/AuthService.cs:49 | When at most one element is counted, a match is the only match. |
| Queries.CountAtMostOne | Moodyali.API/Data/ApplicationDbContext.cs:27-33 | If no two elements satisfy the predicate, at most one is counted. |
| Moods.FindDay | Moodyali.API/Services/MoodService.cs:22-23 | The (user, day) lookup finds a record of that user and day, or reports that none exists. |
| Moods.FindDayUnique | Moodyali.API/Services/MoodService.cs:22-23 | In a store with one record per (user, day), the lookup finds the one record that exists. |
| Moods.Upsert | Moodyali.API/Services/MoodService.cs:27-50 | The store keeps its length when a (user, today) record exists and grows by one otherwise. Every record of another user or another day stays where it was, unchanged. |
| Moods.UpsertIndex | Moodyali.API/Services/MoodService.cs:22-50 | The logged record's position is inside the store exactly when a (user, today) record already exists, and then that position holds a (user, today) record. Otherwise it is the end of the store. |
| Moods.UpsertShape | Moodyali.API/Services/MoodService.cs:27-50 | An existing (user, today) record keeps its position and the record count. Otherwise exactly one record is appended. That position now holds (user, today, emoji, score, note), and every other record is unchanged. |
| Moods.UpsertFindsToday | Moodyali.API/Services/MoodService.cs:27-50 | After the upsert, the (user, today) lookup finds the logged record. |
| Moods.UpsertKeepsOtherDays | Moodyali.API/Services/MoodService.cs:22-51 | Lookups for other users and other days find the same record as before, unchanged. |
| Moods.UpsertKeepsOnePerDay | Moodyali.API/Services/MoodService.cs:22-51 | The upsert keeps the store at one record per (user, day). |
| Moods.SecondLogWins | Moodyali.API/Services/MoodService.cs:27-35 | Logging twice on one day leaves the same store as logging once with the second values. |
| Moods.OnePerDayCountsAtMostOne | Moodyali.API/Services/MoodService.cs:22-23 | A store with one record per day holds at most one record for each (user, day). |
| Moods.LogLeavesExactlyOne | Moodyali.API/Services/MoodService.cs:22-51 | After a log on such a store, exactly one record exists for (user, today). |
| Moods.DayEntry | Moodyali.API/Services/MoodService.cs:91-100 | A window entry for day d carries the date d. |
| Moods.DayEntryOfRecord | Moodyali.API/Services/MoodService.cs:92-96 | A day with a stored record carries that record's emoji, score, date and note. |
| Moods.DayEntryWithoutRecord | Moodyali.API/Services/MoodService.cs:97-100 | A day with no record carries the placeholder emoji, score 0 and no note. |
| Moods.PlaceholderIsUnrecognised | Moodyali.API/Services/MoodService.cs:99 | The placeholder differs from all five recognised emoji, and scoring it fails. |
| Moods.InsertByDate | Moodyali.API/Services/MoodService.cs:103 | Insertion adds exactly the inserted entry: the length grows by one and the multiset gains that entry. |
| Moods.InsertKeepsOrder | Moodyali.API/Services/MoodService.cs:103 | Inserting into a date-ordered list keeps it date-ordered. The new head is either the inserted entry or the old head. |
| Moods.OrderByDate | Moodyali.API/Services/MoodService.cs:103 | OrderBy(date) returns a permutation of its input. |
| Moods.OrderByDateSorted | Moodyali.API/Services/MoodService.cs:103 | OrderBy(date) returns its input in ascending date order. |
| Moods.InsertLatest | Moodyali.API/Services/MoodService.cs:103 | Inserting an entry later than all the others appends it. |
| Moods.InsertKeepsDayOrder | Moodyali.API/Services/MoodService.cs:103 | Insertion places the entry before every entry of its own date and leaves the order of that date's other entries alone. |
| Moods.OrderByDateStable | Moodyali.API/Services/MoodService.cs:103 | OrderBy(date) is stable: for every date, the entries of that date come out in their input order. |
| Moods.OrderByDescendingReverses | Moodyali.API/Services/MoodService.cs:103 | Ordering entries whose dates strictly decrease reverses them. |
| Moods.WeekInDateOrder | Moodyali.API/Services/MoodService.cs:89-103 | The loop produces entries dated today, today-1, ..., today-6, and ordering them gives that list reversed. |
| Moods.OrderWeek | Moodyali.API/Services/MoodService.cs:103 | The final ordering of the seven entries returns the entry for today-6+k at position k. |
| Moods.NewestFirstStep | Moodyali.API/Services/MoodService.cs:89-101 | Appending the entry for the next older day keeps the loop's list newest first, each entry dated today-k at position k. |
| Moods.WeekFromNewest | Moodyali.API/Services/MoodService.cs:103 | Reversing the newest-first list gives today-6 ... today in strictly ascending order. Each day's entry is preserved. |
| Moods.RecentMoods | Moodyali.API/Services/MoodService.cs:75-76 | The window query returns no more records than the table, each of them the user's and dated on or after the first window day. |
| Moods.WindowEntry | Moodyali.API/Services/MoodService.cs:92-100 | The entry for a window day carries that date. It is the placeholder when no queried record has that date. |
| Moods.RecentLookup | Moodyali.API/Services/MoodService.cs:73-95 | Looking up a window day among the queried records gives the same entry as looking it up in the whole table. |
| Moods.UserMoods | Moodyali.API/Services/MoodService.cs:108-110 | The statistics query returns only the user's records. It is empty exactly when the user has none. |
| Moods.UserMoodsExact | Moodyali.API/Services/MoodService.cs:108-110 | The statistics query returns every record of the user, and only records from the table. |
| Moods.IsHappyDay | Moodyali.API/Services/MoodService.cs:122 | A record is a happy day exactly when it scores 6 or more. |
| Moods.IsSadDay | Moodyali.API/Services/MoodService.cs:123 | A record is a sad day exactly when it scores 4 or less. |
| Moods.HappyDaysByScore | Moodyali.API/Services/MoodService.cs:122 | Counting days classified Happy or Smile is the same as counting records with a score of 6 or more. |
| Moods.SadDaysByScore | Moodyali.API/Services/MoodService.cs:123 | Counting days classified Sad or Frown is the same as counting records with a score of 4 or less. |
| Moods.DaysPartition | Moodyali.API/Services/MoodService.cs:122-123 | Happy days, sad days and days scoring exactly 5 together add up to the number of records. |
| Moods.TotalScoreAppend | Moodyali.API/Services/MoodService.cs:117 | The sum over two lists joined is the sum of their sums. |
| Moods.TotalScorePermutation | Moodyali.API/Services/MoodService.cs:108-117 | Two lists holding the same records in any order have the same total. |
| Moods.StatsIgnoreRowOrder | Moodyali.API/Services/MoodService.cs:108-123 | The statistics query has no ordering, and in whatever order its rows return, the record count, the happy and sad counts and the total are the same. |
| Moods.StatsExample | Moodyali.API/Services/MoodService.cs:117-123 | Seven records scored 9, 9, 1, 1, 5, 7, 3 give three happy days, three sad days and a mean of 5. |
| Moods.TotalScoreBounds | Moodyali.API/Services/MoodService.cs:117 | Scores between lo and hi give a total between lo times the count and hi times the count. |
| Moods.Mean | Moodyali.API/Services/MoodService.cs:118 | The average multiplied by the count is the total. |
| Moods.MeanWithin | Moodyali.API/Services/MoodService.cs:118 | A mean of scores between lo and hi lies between lo and hi. |
| Moods.AverageWithinScores | Moodyali.API/Services/MoodService.cs:117-118 | When all of a user's scores lie in [lo, hi], so does their average. |
| Moods.MoodService.constructor | Moodyali.API/Services/MoodService.cs:14-17 | The service starts with an empty table, which satisfies the one-record-per-day invariant `Valid()`. |
| Moods.MoodService.LogMood | Moodyali.API/Services/MoodService.cs:19-52 | An unknown emoji fails before any write, and the table is unchanged. Otherwise the table becomes the upsert of (user, today, emoji, score, note) and the logged record is returned, sitting at the upserted position. The method keeps the one-record-per-day invariant `Valid()`. |
| Moods.MoodService.GetTodayMood | Moodyali.API/Services/MoodService.cs:54-69 | Returns a value exactly when the user has a record today, and that value is dated today. Under `Valid()`, it is that record's emoji, score, date and note. |
| Moods.MoodService.GetLastSevenDays | Moodyali.API/Services/MoodService.cs:71-104 | Returns exactly 7 entries dated today-6 ... today in strictly ascending order. Position k holds that day's record, or else the placeholder. |
| Moods.MoodService.GetMoodStats | Moodyali.API/Services/MoodService.cs:106-131 | Gives (0, 0, 0) when the user has no records. happyDays counts scores of 6 or more and sadDays counts scores of 4 or less. Together with the days scoring 5 they add up to the user's records. The average is the mean of the user's scores only. |
| Auth.IssueToken | Moodyali.API/Services/AuthService.cs:56-63 | The response carries the user's username and an expiry one hour after now. |
| Auth.AuthService.constructor | Moodyali.API/Services/AuthService.cs:19-23 | The service starts with an empty table that satisfies the invariant. |
| Auth.AuthService.Register | Moodyali.API/Services/AuthService.cs:25-45 | If some user has the same username or the same email, returns None and leaves the table unchanged. Otherwise appends exactly one user with the next id, the requested username and email, HashPassword's value for the password and salt, and the creation time. The method keeps usernames and emails unique. |
| Auth.AuthService.Login | Moodyali.API/Services/AuthService.cs:47-64 | Returns a response exactly when some user has that username and the password verifies against their stored hash. The response is that user's token, username and an expiry one hour after now. Login only reads the table. |
| Auth.AuthService.ForgotPassword | Moodyali.API/Services/AuthService.cs:66-89 | Finds the account exactly when some user has that email, and then names that user's username. It returns normally either way and only reads the table. |
| Auth.RegisteredUserLogsIn | Moodyali.API/Services/AuthService.cs:37 | A user whose stored hash was made from a password logs in with that password and gets their own token. |
| Auth.WrongPasswordRefused | Moodyali.API/Services/AuthService.cs:51-54 | A password whose derived key differs from the stored key is refused. |

## Left out

- Asynchronous calls, EF Core change tracking and `SaveChangesAsync` are left out. Each service call is one sequential state change of a class field.
- The Mood entity's `Id` and its navigation property `User` are not modelled. User ids come from a counter that stands in for the identity column.
- Moods.MoodService.GetMoodStats: the average is the exact rational mean. The source rounds a `double` to two decimals (MoodService.cs:127), and floating point is not modelled.
- Moods.MoodService.GetLastSevenDays: the window query's `OrderByDescending(m => m.Date)` is not modelled. Under one record per (user, day) it cannot change which record a day picks. Without that invariant, the model picks the first record in table order, and the source's choice among same-day records is unspecified.
- The source reads `DateTime.UtcNow` more than once per call, so a call that straddles midnight could disagree with itself. The model takes one `today` and one `now`.
- MoodHelper: the five emoji literals are five distinct code-point strings (U+1F622, U+1F641, U+1F610, U+1F642, U+1F604). In the repository they are UTF-8 bytes that were mis-decoded as Windows-1252. Whether a client's real emoji match those bytes is an encoding question that the model does not decide. The placeholder is U+2753.
- The `Note` field is used by the service but is missing from the shown Mood entity and from LogMoodRequest. It is modelled as an optional field.
- PasswordHelper.BlockCopy: copies between distinct arrays only. Every call site copies between two different arrays, so overlapping copies are left out.
- PasswordHelper: the PRF choice (HMAC-SHA256) is part of the abstract PBKDF2 function. The random salt is a parameter.
- Auth.AuthService.Login: the token's contents (claims, issuer, audience, signature) are left out. So is the InvalidOperationException thrown when no JWT secret is configured. The token is an abstract function of the user id, the username and the expiry.
- Auth.AuthService.Login and Auth.AuthService.ForgotPassword need `Valid()`. Under it, SingleOrDefault's duplicate-match exception and VerifyPassword's exceptions cannot occur, so the model's bodies map those impossible cases to "not found".
- Auth.AuthService.ForgotPassword: the console message is modelled only as the username and email it reports.
- Auth.AuthService.Register and `Auth.User`: the User entity file is not part of this model. Its fields are taken from their uses in AuthService.cs. `Register` states that the stored hash is HashPassword's value, not that it differs from the plaintext. The abstract hash function could, in principle, return the plaintext.
- RecommendationService (an outbound HTTP call), the endpoint files, Program.cs wiring and the web front end are left out.
- `Enumerable.Sum` over `int` (MoodService.cs:117) throws OverflowException when the total leaves the 32-bit range, and scores and user ids are 32-bit. The model's integers are unbounded, so that exception is not modelled. With LogMood's scores of at most 9, reaching it takes more than 238 million records of one user.
- Auth.AuthService.Register, Login and ForgotPassword: username and email comparisons (AuthService.cs:28, 49, 68) and the unique indexes (ApplicationDbContext.cs:27-33) use ordinal string equality, as on SQLite. On SQL Server (Program.cs:25-33) the database collation decides how strings compare, and its default ignores case and trailing spaces. There, registering "alice" when "Alice" exists is refused, while the model accepts it. That collation-dependent behaviour is not modelled.
- Moods.MoodService.LogMood and Moods.MoodService.GetTodayMood: the database `FirstOrDefault` without an ORDER BY (MoodService.cs:22-23, 57-66) may return any of several same-day records. The model always takes the first in table order. Under one record per (user, day), which LogMood keeps, there is only one.
- Moods.MoodService.constructor and Auth.AuthService.constructor: the source builds a new scoped service for each request over the persisted tables (Program.cs:59-60, MoodService.cs:14-17). Each class here stands for its table across all requests, and the constructor's empty table is a fresh database.
