/**
 * The database-backed storage layer: the discovery queries, rating bookkeeping, the weekly
 * leaderboard, the per-(user, action) rate-limit counter, profile updates, appeals and
 * feedback. Read-only queries are functions over table snapshots; the operations that write
 * are methods of `Database`, whose fields are the tables. The clock is the parameter `now`
 * (milliseconds) and the `RATING_SALT` environment variable is the constant `saltEnv`.
 */
module Storage {
  import opened Wrappers
  import opened Seqs
  import opened Text
  import opened Schema

  const DefaultSalt: string := "campus_crush_salt_2024"
  const DefaultRandomLimit: int := 10
  const DefaultSearchLimit: int := 20
  const LeaderboardSize: nat := 10
  const MinRatingsForLeaderboard: int := 5
  const WeekMs: int := 7 * 24 * 60 * 60 * 1000
  const RateWindowMs: int := 60 * 1000
  const MaxActionsPerWindow: int := 10

  /** The ways a statement can fail in this model. */
  datatype DbError =
    | DuplicateRating      // the "You have already rated this user" error thrown before inserting
    | InvalidInteger       // a non-integral or out-of-range value for an `integer` column
    | ForeignKeyViolation  // a referenced user does not exist
    | NotNullViolation     // a required column received no value
    | NegativeLimit        // `LIMIT` with a negative count
    | NumericOverflow      // a value too wide for a `numeric(p, s)` cast
    | NoMatchingConstraint // `ON CONFLICT` names columns no unique constraint covers

  // ----- Hashing -----

  /** `process.env.RATING_SALT || "campus_crush_salt_2024"`: an unset or empty variable falls back. */
  function Salt(env: Option<string>): (s: string)
    ensures s != []
    ensures s == DefaultSalt <==> env.None? || env.value == [] || env.value == DefaultSalt
  {
    if env.Some? && env.value != [] then env.value else DefaultSalt
  }

  /** `hashRaterId`: the salted digest stored instead of the rater's id. */
  function HashRaterId(raterId: string, env: Option<string>): Digest
  {
    Sha256(raterId + Salt(env))
  }

  /** Two raters never share a digest, so one rater's rating cannot block another's. */
  lemma HashRaterIdInjective(a: string, b: string, env: Option<string>)
    requires HashRaterId(a, env) == HashRaterId(b, env)
    ensures a == b
  {
    var s := Salt(env);
    assert |a| == |b|;
    assert a == (a + s)[..|a|];
    assert b == (b + s)[..|b|];
  }

  /** The stored digest is never the plain digest of the id, as the salt is never empty. */
  lemma HashRaterIdSalted(raterId: string, env: Option<string>)
    ensures HashRaterId(raterId, env) != Sha256(raterId)
  {
    assert |raterId + Salt(env)| > |raterId|;
  }

  // ----- Users -----

  /** SQL `a = b`: never true when either side is NULL. */
  predicate SqlEq(a: Option<string>, b: Option<string>)
  {
    a.Some? && b.Some? && a.value == b.value
  }

  /** `getUser(id)`: the first row whose id matches, or nothing. */
  function FindUser(users: seq<User>, id: string): (r: Option<User>)
    ensures r.Some? ==> r.value in users && r.value.id == id
    ensures r.None? <==> forall u :: u in users ==> u.id != id
  {
    if users == [] then None
    else if users[0].id == id then Some(users[0])
    else FindUser(users[1..], id)
  }

  /** The gender discovery matches a requester with; `None` for "other" or no gender. */
  function OppositeGender(g: Option<string>): (r: Option<string>)
    ensures r == Some("female") <==> g == Some("male")
    ensures r == Some("male") <==> g == Some("female")
    ensures r.None? <==> g != Some("male") && g != Some("female")
  {
    if g == Some("male") then Some("female")
    else if g == Some("female") then Some("male")
    else None
  }

  /** Matching is an involution on the two genders it pairs. */
  lemma OppositeGenderInvolutive(g: Option<string>)
    requires OppositeGender(g).Some?
    ensures OppositeGender(OppositeGender(g)) == g
    ensures OppositeGender(g) != g
  {
  }

  /** The filters both discovery queries apply to a candidate row. */
  predicate Discoverable(u: User, me: User, opposite: string, userId: string)
  {
    && SqlEq(u.collegeId, me.collegeId)
    && u.gender == Some(opposite)
    && u.verificationStatus == Some("verified")
    && u.id != userId
  }

  /**
   * Whether discovery may show `u` to the requester `userId`: the requester has a row and a
   * gender with a match, and `u` passes the filters.
   */
  predicate DiscoverableBy(users: seq<User>, userId: string, u: User)
  {
    var me := FindUser(users, userId);
    && me.Some?
    && OppositeGender(me.value.gender).Some?
    && Discoverable(u, me.value, OppositeGender(me.value.gender).value, userId)
  }

  /** The candidates discovery may show `userId`, in table order; none for an unknown requester. */
  function Candidates(users: seq<User>, userId: string): (r: seq<User>)
    ensures forall u :: u in r ==> u in users
    ensures forall u :: u in r <==> u in users && DiscoverableBy(users, userId, u)
  {
    match FindUser(users, userId)
    case None => []
    case Some(me) =>
      match OppositeGender(me.gender)
      case None => []
      case Some(opposite) => Filter(users, (u: User) => Discoverable(u, me, opposite, userId))
  }

  /** Every candidate shares the requester's college, has the other gender, is verified and is someone else. */
  lemma CandidatesFiltered(users: seq<User>, userId: string, u: User)
    requires u in Candidates(users, userId)
    ensures var me := FindUser(users, userId);
      && me.Some?
      && SqlEq(u.collegeId, me.value.collegeId)
      && OppositeGender(me.value.gender) == u.gender
      && u.verificationStatus == Some("verified")
      && u.id != userId
  {
  }

  /** Nobody is shown to a requester of gender "other", without a gender or without a row. */
  lemma NoCandidatesWithoutMatch(users: seq<User>, userId: string)
    requires FindUser(users, userId).None? || OppositeGender(FindUser(users, userId).value.gender).None?
    ensures Candidates(users, userId) == []
  {
  }

  /**
   * `getRandomProfiles(userId, limit)`. The database returns the candidates in random order;
   * this model returns the first `limit` of them in table order, one of the admissible answers.
   */
  function RandomProfiles(users: seq<User>, userId: string, limit: int := DefaultRandomLimit): (r: Result<seq<User>, DbError>)
    ensures r.Failure? <==> limit < 0 && FindUser(users, userId).Some? && OppositeGender(FindUser(users, userId).value.gender).Some?
    ensures r.Failure? ==> r.error == NegativeLimit
    ensures r.Success? ==> forall u :: u in r.value ==> u in Candidates(users, userId)
    ensures r.Success? ==> r.value <= Candidates(users, userId)
    ensures r.Success? && limit >= 0 ==>
      |r.value| == if limit < |Candidates(users, userId)| then limit else |Candidates(users, userId)|
    ensures r.Success? && |Candidates(users, userId)| <= limit ==> r.value == Candidates(users, userId)
    ensures r.Success? && limit < 0 ==> r.value == []
  {
    var me := FindUser(users, userId);
    if me.None? || OppositeGender(me.value.gender).None? then Success([])
    else if limit < 0 then Failure(NegativeLimit)
    else Success(Take(Candidates(users, userId), limit))
  }

  /** `LOWER(field) LIKE LOWER('%q%')` on a nullable column: NULL never matches. */
  predicate NameContains(field: Option<string>, query: string)
  {
    field.Some? && ContainsIgnoringCase(field.value, query)
  }

  predicate NameMatches(u: User, query: string)
  {
    NameContains(u.firstName, query) || NameContains(u.lastName, query) || NameContains(u.displayName, query)
  }

  /** Ascending order on a nullable text column, NULLs last. */
  predicate NullsLastLe(x: Option<string>, y: Option<string>)
  {
    y.None? || (x.Some? && LexLe(x.value, y.value))
  }

  /** `ORDER BY first_name, last_name`. */
  predicate NameLe(a: User, b: User)
  {
    if a.firstName == b.firstName then NullsLastLe(a.lastName, b.lastName)
    else NullsLastLe(a.firstName, b.firstName)
  }

  lemma NullsLastLeTotal(x: Option<string>, y: Option<string>)
    ensures NullsLastLe(x, y) || NullsLastLe(y, x)
  {
    if x.Some? && y.Some? {
      LexLeTotal(x.value, y.value);
    }
  }

  lemma NullsLastLeTransitive(x: Option<string>, y: Option<string>, z: Option<string>)
    requires NullsLastLe(x, y) && NullsLastLe(y, z)
    ensures NullsLastLe(x, z)
  {
    if z.Some? {
      LexLeTransitive(x.value, y.value, z.value);
    }
  }

  lemma NullsLastLeAntisymmetric(x: Option<string>, y: Option<string>)
    requires NullsLastLe(x, y) && NullsLastLe(y, x)
    ensures x == y
  {
    if x.Some? && y.Some? {
      LexLeAntisymmetric(x.value, y.value);
    }
  }

  /** The name order is a valid sort order: total and transitive. */
  lemma NameLeIsTotalPreorder()
    ensures IsTotalPreorder(NameLe)
  {
    forall a: User, b: User ensures NameLe(a, b) || NameLe(b, a) {
      NullsLastLeTotal(a.firstName, b.firstName);
      NullsLastLeTotal(a.lastName, b.lastName);
    }
    forall a: User, b: User, c: User | NameLe(a, b) && NameLe(b, c) ensures NameLe(a, c) {
      NameLeTransitive(a, b, c);
    }
  }

  lemma NameLeTransitive(a: User, b: User, c: User)
    requires NameLe(a, b) && NameLe(b, c)
    ensures NameLe(a, c)
  {
    if a.firstName == b.firstName && b.firstName == c.firstName {
      NullsLastLeTransitive(a.lastName, b.lastName, c.lastName);
    } else if a.firstName != b.firstName && b.firstName != c.firstName {
      NullsLastLeTransitive(a.firstName, b.firstName, c.firstName);
      if a.firstName == c.firstName {
        NullsLastLeAntisymmetric(a.firstName, b.firstName);
      }
    }
  }

  /** `searchProfiles(userId, query, limit)`: the discovery filters plus a name match, by name. */
  function SearchProfiles(users: seq<User>, userId: string, query: string, limit: int := DefaultSearchLimit): (r: Result<seq<User>, DbError>)
    ensures r.Failure? <==> limit < 0 && FindUser(users, userId).Some? && OppositeGender(FindUser(users, userId).value.gender).Some?
    ensures r.Success? ==> forall u :: u in r.value ==> u in Candidates(users, userId) && NameMatches(u, query)
    ensures r.Success? && limit >= 0 ==>
      |r.value| == if limit < |Matching(users, userId, query)| then limit else |Matching(users, userId, query)|
    ensures r.Success? && |Matching(users, userId, query)| <= limit ==>
      forall u :: u in Matching(users, userId, query) ==> u in r.value
  {
    var me := FindUser(users, userId);
    if me.None? || OppositeGender(me.value.gender).None? then Success([])
    else if limit < 0 then Failure(NegativeLimit)
    else
      var matching := Matching(users, userId, query);
      SortByMembers(matching, NameLe);
      Success(Take(SortBy(matching, NameLe), limit))
  }

  /** The candidates whose first, last or display name contains the query. */
  function Matching(users: seq<User>, userId: string, query: string): (r: seq<User>)
    ensures forall u :: u in r <==> u in Candidates(users, userId) && NameMatches(u, query)
  {
    Filter(Candidates(users, userId), (u: User) => NameMatches(u, query))
  }

  /** The search results come ordered by first name, then last name. */
  lemma SearchProfilesSorted(users: seq<User>, userId: string, query: string, limit: int)
    requires SearchProfiles(users, userId, query, limit).Success?
    ensures SortedBy(SearchProfiles(users, userId, query, limit).value, NameLe)
  {
    var me := FindUser(users, userId);
    if me.Some? && OppositeGender(me.value.gender).Some? {
      NameLeIsTotalPreorder();
      SortBySorted(Matching(users, userId, query), NameLe);
    }
  }

  /** The search keeps the first matches in name order: no match it leaves out precedes one it keeps. */
  lemma SearchProfilesTop(users: seq<User>, userId: string, query: string, limit: int)
    requires SearchProfiles(users, userId, query, limit).Success?
    ensures var kept := SearchProfiles(users, userId, query, limit).value;
      forall u, t :: u in Matching(users, userId, query) && u !in kept && t in kept ==> NameLe(t, u)
  {
    var me := FindUser(users, userId);
    if me.Some? && OppositeGender(me.value.gender).Some? {
      var matching := Matching(users, userId, query);
      NameLeIsTotalPreorder();
      SortBySorted(matching, NameLe);
      SortByMembers(matching, NameLe);
      TakeSortedIsTop(SortBy(matching, NameLe), limit, NameLe);
    }
  }

  // ----- Ratings -----

  /** `checkDuplicateRating`: whether a rating with the digest of `raterUserId` already targets `targetUserId`. */
  function CheckDuplicateRating(ratings: seq<Rating>, raterUserId: string, targetUserId: string, env: Option<string>): (r: bool)
    ensures r <==> exists x :: x in ratings && x.raterIdHash == HashRaterId(raterUserId, env) && x.targetUserId == targetUserId
  {
    var h := HashRaterId(raterUserId, env);
    var found := Filter(ratings, (x: Rating) => x.raterIdHash == h && x.targetUserId == targetUserId);
    if found == [] then false
    else
      assert found[0] in found;
      true
  }

  /** A rating by one rater never counts as a duplicate for a different rater. */
  lemma OtherRaterNotDuplicate(ratings: seq<Rating>, row: Rating, rater: string, other: string, target: string, env: Option<string>)
    requires row.raterIdHash == HashRaterId(other, env) && rater != other
    ensures CheckDuplicateRating(ratings + [row], rater, target, env) == CheckDuplicateRating(ratings, rater, target, env)
  {
    if row.raterIdHash == HashRaterId(rater, env) {
      HashRaterIdInjective(rater, other, env);
    }
    assert forall x :: x in ratings + [row] <==> x in ratings || x == row;
  }

  /** The ratings that target `userId`, the rows `updateUserStats` aggregates. */
  function RatingsFor(ratings: seq<Rating>, userId: string): (r: seq<Rating>)
    ensures forall x :: x in r <==> x in ratings && x.targetUserId == userId
  {
    Filter(ratings, (x: Rating) => x.targetUserId == userId)
  }

  function ScoreSum(rs: seq<Rating>): int
  {
    if rs == [] then 0 else ScoreSum(rs[..|rs| - 1]) + rs[|rs| - 1].score
  }

  lemma {:induction false} ScoreSumBounds(rs: seq<Rating>)
    requires forall x :: x in rs ==> 1 <= x.score <= 10
    ensures |rs| <= ScoreSum(rs) <= 10 * |rs|
  {
    if rs != [] {
      ScoreSumBounds(rs[..|rs| - 1]);
      assert rs[|rs| - 1] in rs;
    }
  }

  lemma DivBounds(x: int, d: int)
    requires d > 0
    ensures d * (x / d) <= x < d * (x / d) + d
  {
  }

  /**
   * 100 times the mean `sum / count`, rounded to the nearest integer with halves away from zero:
   * the value `avg(score)` takes when rounded to two decimals, in hundredths.
   */
  function Hundredths(sum: int, count: int): (h: int)
    requires count > 0
    ensures sum >= 0 ==> 200 * sum - count < 2 * count * h <= 200 * sum + count
  {
    if sum >= 0 then
      DivBounds(200 * sum + count, 2 * count);
      (200 * sum + count) / (2 * count)
    else -((count - 200 * sum) / (2 * count))
  }

  /**
   * `avg(score)::numeric(3,2)` as written: numeric(3,2) holds at most 9.99, so a mean that
   * rounds to 10.00 makes the statement fail.
   */
  function AverageAsWritten(sum: int, count: int): (r: Result<int, DbError>)
    requires count > 0
    ensures r.Success? ==> -999 <= r.value <= 999
    ensures r.Success? ==> r.value == Average(sum, count)
    ensures r.Failure? ==> r.error == NumericOverflow
  {
    var h := Hundredths(sum, count);
    if -999 <= h <= 999 then Success(h) else Failure(NumericOverflow)
  }

  /** A single rating of 10 already overflows the cast. */
  lemma PerfectTenOverflows()
    ensures AverageAsWritten(10, 1) == Failure(NumericOverflow)
  {
  }

  /** More generally every mean of at least 9.995 overflows it. */
  lemma {:induction false} HighAverageOverflows(sum: int, count: int)
    requires count > 0 && 200 * sum >= 1999 * count
    ensures AverageAsWritten(sum, count) == Failure(NumericOverflow)
  {
    var h := Hundredths(sum, count);
    if h <= 999 {
      MulLe(h, 999, 2 * count);
      assert false;
    }
  }

  /** Conversely every non-negative mean below 9.995 fits the cast and is stored rounded. */
  lemma {:induction false} AverageBelowCapSucceeds(sum: int, count: int)
    requires count > 0 && 0 <= sum && 200 * sum < 1999 * count
    ensures AverageAsWritten(sum, count) == Success(Average(sum, count))
  {
    var h := Hundredths(sum, count);
    if h > 999 {
      MulLe(1000, h, 2 * count);
      assert false;
    }
  }

  lemma MulLe(a: int, b: int, k: int)
    requires k > 0 && a <= b
    ensures k * a <= k * b
  {
  }

  /** The mean in hundredths with room for 10.00 (the corrected statistic the model stores). */
  function Average(sum: int, count: int): (h: int)
    requires count > 0
    ensures sum >= 0 ==> 200 * sum - count < 2 * count * h <= 200 * sum + count
  {
    Hundredths(sum, count)
  }

  /**
   * The users table after `updateUserStats(userId)` as written: the statement fails, and
   * writes nothing, when the mean overflows `numeric(3,2)`.
   */
  function StatsAsWritten(users: seq<User>, ratings: seq<Rating>, userId: string, now: int): (r: Result<seq<User>, DbError>)
    ensures r.Failure? ==> r.error == NumericOverflow
    ensures r.Success? ==> r.value == StatsApplied(users, ratings, userId, now)
  {
    var rs := RatingsFor(ratings, userId);
    if |rs| == 0 then Success(users)
    else
      match AverageAsWritten(ScoreSum(rs), |rs|)
      case Failure(e) => Failure(e)
      case Success(h) => Success(WithStats(users, userId, |rs|, h, now))
  }

  /** Below a mean of 9.995 the statement as written stores the corrected statistics. */
  lemma StatsAsWrittenBelowCap(users: seq<User>, ratings: seq<Rating>, userId: string, now: int)
    requires forall x :: x in ratings ==> 1 <= x.score <= 10
    requires var rs := RatingsFor(ratings, userId); 200 * ScoreSum(rs) < 1999 * |rs|
    ensures StatsAsWritten(users, ratings, userId, now) == Success(StatsApplied(users, ratings, userId, now))
  {
    var rs := RatingsFor(ratings, userId);
    if |rs| > 0 {
      ScoreSumBounds(rs);
      AverageBelowCapSucceeds(ScoreSum(rs), |rs|);
    }
  }

  /** A user's first rating, if it is a 10, makes the statistics update fail. */
  lemma FirstPerfectTenFails(users: seq<User>, ratings: seq<Rating>, row: Rating, now: int)
    requires RatingsFor(ratings, row.targetUserId) == [] && row.score == 10
    ensures StatsAsWritten(users, ratings + [row], row.targetUserId, now) == Failure(NumericOverflow)
  {
    var all := ratings + [row];
    assert all[..|all| - 1] == ratings;
    assert RatingsFor(all, row.targetUserId) == [row];
    assert [row][..0] == [];
    assert ScoreSum([row]) == 10;
    PerfectTenOverflows();
  }

  /** With every score in 1..10, the stored average lies in 1.00..10.00. */
  lemma AverageBounds(sum: int, count: int)
    requires count > 0 && count <= sum <= 10 * count
    ensures 100 <= Average(sum, count) <= 1000
  {
    var h := Average(sum, count);
    if h < 100 {
      MulLe(h, 99, 2 * count);
      assert false;
    }
    if h > 1000 {
      MulLe(1001, h, 2 * count);
      assert false;
    }
  }

  /** The statistics columns of `u` after `updateUserStats` found `count` ratings. */
  function Stamped(u: User, count: int, average: int, now: int): (r: User)
    ensures r.(ratingsReceived := u.ratingsReceived, averageScore := u.averageScore, updatedAt := u.updatedAt) == u
  {
    u.(ratingsReceived := Some(count), averageScore := Some(average), updatedAt := Some(now))
  }

  /** The users table after `updateUserStats(userId)`: written only when the user has ratings. */
  function StatsApplied(users: seq<User>, ratings: seq<Rating>, userId: string, now: int): (r: seq<User>)
    ensures |r| == |users|
    ensures forall i :: 0 <= i < |users| ==> r[i].id == users[i].id
    ensures forall i :: 0 <= i < |users| && users[i].id != userId ==> r[i] == users[i]
    ensures RatingsFor(ratings, userId) == [] ==> r == users
  {
    var rs := RatingsFor(ratings, userId);
    if |rs| == 0 then users
    else WithStats(users, userId, |rs|, Average(ScoreSum(rs), |rs|), now)
  }

  /** The update that writes the statistics into the rows of `userId`. */
  function WithStats(users: seq<User>, userId: string, count: int, average: int, now: int): (r: seq<User>)
    ensures |r| == |users|
    ensures forall i :: 0 <= i < |users| ==> r[i] == if users[i].id == userId then Stamped(users[i], count, average, now) else users[i]
  {
    seq(|users|, i requires 0 <= i < |users| =>
      if users[i].id == userId then Stamped(users[i], count, average, now) else users[i])
  }

  /** After the statistics update, the user's count is the number of ratings that target them. */
  lemma StatsCountRatings(users: seq<User>, ratings: seq<Rating>, userId: string, now: int, i: int)
    requires 0 <= i < |users| && users[i].id == userId
    requires RatingsFor(ratings, userId) != []
    requires forall x :: x in ratings ==> 1 <= x.score <= 10
    ensures var u := StatsApplied(users, ratings, userId, now)[i];
      && u.ratingsReceived == Some(|RatingsFor(ratings, userId)|)
      && u.averageScore.Some? && 100 <= u.averageScore.value <= 1000
      && u.updatedAt == Some(now)
  {
    var rs := RatingsFor(ratings, userId);
    ScoreSumBounds(rs);
    AverageBounds(ScoreSum(rs), |rs|);
  }

  /** A JavaScript number an `integer` column accepts. */
  predicate IsInt32(x: real)
  {
    x == x.Floor as real && -0x8000_0000 <= x.Floor < 0x8000_0000
  }

  /** The optional context `createRating` stores with a rating. */
  datatype RatingMetadata = RatingMetadata(ipHash: Option<Digest>, deviceHash: Option<Digest>, collegeId: Option<string>)

  // ----- Leaderboards -----

  /** A row `computeLeaderboard(collegeId)` deletes. */
  predicate WeeklyOf(e: LeaderboardEntry, collegeId: string)
  {
    e.collegeId == collegeId && e.periodType == Some("weekly")
  }

  /** A user eligible for the leaderboard of `collegeId`. */
  predicate Eligible(u: User, collegeId: string)
  {
    && SqlEq(u.collegeId, Some(collegeId))
    && u.verificationStatus == Some("verified")
    && u.ratingsReceived.Some? && u.ratingsReceived.value >= MinRatingsForLeaderboard
  }

  /** `ORDER BY average_score DESC`: NULLs come first. */
  predicate AverageDescLe(a: User, b: User)
  {
    a.averageScore.None? || (b.averageScore.Some? && a.averageScore.value >= b.averageScore.value)
  }

  lemma AverageDescLeIsTotalPreorder()
    ensures IsTotalPreorder(AverageDescLe)
  {
  }

  /** The eligible users of a college, in table order. */
  function EligibleUsers(users: seq<User>, collegeId: string): (r: seq<User>)
    ensures forall u :: u in r <==> u in users && Eligible(u, collegeId)
  {
    Filter(users, (u: User) => Eligible(u, collegeId))
  }

  /** The eligible users of a college, best average first. */
  function RankedEligible(users: seq<User>, collegeId: string): (r: seq<User>)
    ensures forall u :: u in r <==> u in users && Eligible(u, collegeId)
    ensures |r| == |EligibleUsers(users, collegeId)|
  {
    var eligible := EligibleUsers(users, collegeId);
    SortByMembers(eligible, AverageDescLe);
    SortBy(eligible, AverageDescLe)
  }

  /** The users `computeLeaderboard` ranks: ten eligible users of the college, or all when fewer. */
  function TopUsers(users: seq<User>, collegeId: string): (r: seq<User>)
    ensures |r| <= LeaderboardSize
    ensures forall u :: u in r ==> u in users && Eligible(u, collegeId)
    ensures |r| == if |EligibleUsers(users, collegeId)| < LeaderboardSize then |EligibleUsers(users, collegeId)| else LeaderboardSize
    ensures |EligibleUsers(users, collegeId)| <= LeaderboardSize ==>
      forall u :: u in users && Eligible(u, collegeId) ==> u in r
  {
    Take(RankedEligible(users, collegeId), LeaderboardSize)
  }

  /** The chosen users come in order of average and none left out has a better one than any chosen. */
  lemma TopUsersAreTop(users: seq<User>, collegeId: string)
    ensures SortedBy(TopUsers(users, collegeId), AverageDescLe)
    ensures forall u, t ::
      (u in users && Eligible(u, collegeId) && u !in TopUsers(users, collegeId) && t in TopUsers(users, collegeId))
      ==> AverageDescLe(t, u)
  {
    var ranked := RankedEligible(users, collegeId);
    var top := TopUsers(users, collegeId);
    AverageDescLeIsTotalPreorder();
    SortBySorted(EligibleUsers(users, collegeId), AverageDescLe);
    forall u, t | u in users && Eligible(u, collegeId) && u !in top && t in top ensures AverageDescLe(t, u) {
      var j :| 0 <= j < |ranked| && ranked[j] == u;
      var i :| 0 <= i < |top| && top[i] == t;
      assert ranked[i] == t;
    }
  }

  /** The rows inserted for `top`; `None` when a required column would be NULL. */
  function LeaderboardRows(top: seq<User>, collegeId: string, now: int, firstId: nat): (r: Option<seq<LeaderboardEntry>>)
    ensures r.Some? <==> forall u :: u in top ==> u.averageScore.Some? && u.ratingsReceived.Some?
    ensures r.Some? ==> |r.value| == |top| && forall i :: 0 <= i < |top| ==>
      && r.value[i].id == firstId + i
      && r.value[i].userId == top[i].id
      && r.value[i].rank == i + 1
      && Some(r.value[i].averageScore) == top[i].averageScore
      && Some(r.value[i].totalRatings) == top[i].ratingsReceived
      && WeeklyOf(r.value[i], collegeId)
      && r.value[i].periodEnd == now && r.value[i].periodStart == now - WeekMs
  {
    if forall u :: u in top ==> u.averageScore.Some? && u.ratingsReceived.Some? then
      Some(seq(|top|, i requires 0 <= i < |top| =>
        LeaderboardEntry(firstId + i, collegeId, top[i].id, i + 1, top[i].averageScore.value,
          top[i].ratingsReceived.value, now - WeekMs, now, Some(DefaultPeriodType), now)))
    else None
  }

  /** The rows of other colleges and periods, which `computeLeaderboard` keeps. */
  function KeptEntries(board: seq<LeaderboardEntry>, collegeId: string): (r: seq<LeaderboardEntry>)
    ensures forall e :: e in r <==> e in board && !WeeklyOf(e, collegeId)
  {
    Filter(board, (e: LeaderboardEntry) => !WeeklyOf(e, collegeId))
  }

  /**
   * The new weekly rows are ranked 1..n, at most ten, best average first, and only for
   * eligible users of the college.
   */
  lemma LeaderboardRowsRanked(users: seq<User>, collegeId: string, now: int, firstId: nat)
    requires LeaderboardRows(TopUsers(users, collegeId), collegeId, now, firstId).Some?
    ensures var rows := LeaderboardRows(TopUsers(users, collegeId), collegeId, now, firstId).value;
      && |rows| <= LeaderboardSize
      && (forall i :: 0 <= i < |rows| ==> rows[i].rank == i + 1)
      && (forall i, j :: 0 <= i < j < |rows| ==> rows[i].averageScore >= rows[j].averageScore)
      && (forall e :: e in rows ==> exists u :: u in users && Eligible(u, collegeId) && u.id == e.userId)
  {
    var top := TopUsers(users, collegeId);
    var rows := LeaderboardRows(top, collegeId, now, firstId).value;
    TopUsersAreTop(users, collegeId);
    forall i, j | 0 <= i < j < |rows| ensures rows[i].averageScore >= rows[j].averageScore {
      assert top[i] in top && top[j] in top;
      assert AverageDescLe(top[i], top[j]);
    }
    forall e | e in rows ensures exists u :: u in users && Eligible(u, collegeId) && u.id == e.userId {
      var i :| 0 <= i < |rows| && rows[i] == e;
      assert top[i] in top;
    }
  }

  /** `computeLeaderboard` replaces the weekly rows of that college and touches no other row. */
  lemma ComputeReplacesOnlyWeekly(board: seq<LeaderboardEntry>, rows: seq<LeaderboardEntry>, collegeId: string)
    requires forall e :: e in rows ==> WeeklyOf(e, collegeId)
    ensures forall e :: !WeeklyOf(e, collegeId) ==> (e in KeptEntries(board, collegeId) + rows <==> e in board)
    ensures forall e :: WeeklyOf(e, collegeId) ==> (e in KeptEntries(board, collegeId) + rows <==> e in rows)
  {
  }

  /** The result row of `getLeaderboard`: an entry joined to its user, if that user exists. */
  datatype Standing = Standing(entry: LeaderboardEntry, user: Option<User>)

  /** `ORDER BY period_start DESC, rank`. */
  predicate PeriodRankLe(a: LeaderboardEntry, b: LeaderboardEntry)
  {
    a.periodStart > b.periodStart || (a.periodStart == b.periodStart && a.rank <= b.rank)
  }

  lemma PeriodRankLeIsTotalPreorder()
    ensures IsTotalPreorder(PeriodRankLe)
  {
  }

  /** The entries of one college and period, the rows the `WHERE` of `getLeaderboard` admits. */
  function SelectedEntries(board: seq<LeaderboardEntry>, collegeId: string, periodType: string): (r: seq<LeaderboardEntry>)
    ensures forall e :: e in r <==> e in board && e.collegeId == collegeId && e.periodType == Some(periodType)
  {
    Filter(board, (e: LeaderboardEntry) => e.collegeId == collegeId && SqlEq(e.periodType, Some(periodType)))
  }

  /** The (at most ten) entries `getLeaderboard` selects, newest period first, then by rank. */
  function LatestEntries(board: seq<LeaderboardEntry>, collegeId: string, periodType: string): (r: seq<LeaderboardEntry>)
    ensures |r| <= LeaderboardSize
    ensures forall e :: e in r ==> e in board && e.collegeId == collegeId && e.periodType == Some(periodType)
    ensures var n := |SelectedEntries(board, collegeId, periodType)|;
      |r| == if n < LeaderboardSize then n else LeaderboardSize
    ensures |SelectedEntries(board, collegeId, periodType)| <= LeaderboardSize ==>
      forall e :: e in SelectedEntries(board, collegeId, periodType) ==> e in r
  {
    var selected := SelectedEntries(board, collegeId, periodType);
    SortByMembers(selected, PeriodRankLe);
    Take(SortBy(selected, PeriodRankLe), LeaderboardSize)
  }

  lemma LatestEntriesSorted(board: seq<LeaderboardEntry>, collegeId: string, periodType: string)
    ensures SortedBy(LatestEntries(board, collegeId, periodType), PeriodRankLe)
  {
    PeriodRankLeIsTotalPreorder();
    SortBySorted(SelectedEntries(board, collegeId, periodType), PeriodRankLe);
  }

  /** No entry of the college and period that the limit leaves out precedes one it keeps. */
  lemma LatestEntriesTop(board: seq<LeaderboardEntry>, collegeId: string, periodType: string)
    ensures var kept := LatestEntries(board, collegeId, periodType);
      forall e, t :: e in SelectedEntries(board, collegeId, periodType) && e !in kept && t in kept ==> PeriodRankLe(t, e)
  {
    var selected := SelectedEntries(board, collegeId, periodType);
    PeriodRankLeIsTotalPreorder();
    SortBySorted(selected, PeriodRankLe);
    SortByMembers(selected, PeriodRankLe);
    TakeSortedIsTop(SortBy(selected, PeriodRankLe), LeaderboardSize, PeriodRankLe);
  }

  /** `getLeaderboard(collegeId, periodType)`: the selected entries, each joined to its user. */
  function GetLeaderboard(users: seq<User>, board: seq<LeaderboardEntry>, collegeId: string, periodType: string): (r: seq<Standing>)
    ensures |r| == |LatestEntries(board, collegeId, periodType)|
    ensures forall i :: 0 <= i < |r| ==> r[i].entry == LatestEntries(board, collegeId, periodType)[i]
    ensures forall i :: 0 <= i < |r| ==>
      (r[i].user.Some? ==> r[i].user.value in users && r[i].user.value.id == r[i].entry.userId)
      && (r[i].user.None? <==> forall u :: u in users ==> u.id != r[i].entry.userId)
  {
    var entries := LatestEntries(board, collegeId, periodType);
    if entries == [] then []
    else
      var ids := seq(|entries|, i requires 0 <= i < |entries| => entries[i].userId);
      var found := Filter(users, (u: User) => u.id in ids);
      assert forall i :: 0 <= i < |entries| ==> ids[i] == entries[i].userId;
      seq(|entries|, i requires 0 <= i < |entries| => Standing(entries[i], FindUser(found, entries[i].userId)))
  }

  // ----- Rate limits -----

  /** The rate-limit rows, one per (userId, action). */
  type RateLimits = map<(string, string), RateLimit>

  /** `checkRateLimit(userId, ipHash, action)` at time `now`. */
  function CheckRateLimit(limits: RateLimits, userId: string, action: string, now: int): (r: bool)
    ensures r ==> (userId, action) in limits
    ensures r <==> ((userId, action) in limits && now < limits[(userId, action)].expiresAt
                    && limits[(userId, action)].count >= 10)
  {
    var key := (userId, action);
    key in limits && limits[key].expiresAt > now && limits[key].count >= MaxActionsPerWindow
  }

  /** The rate-limit rows after `recordAction(userId, ipHash, action)` at time `now`. */
  function Recorded(limits: RateLimits, userId: string, ipHash: string, action: string, now: int): (r: RateLimits)
    ensures r.Keys == limits.Keys + {(userId, action)}
    ensures forall k :: k in limits && k != (userId, action) ==> r[k] == limits[k]
  {
    var key := (userId, action);
    if key in limits then
      var row := limits[key];
      limits[key := row.(count := row.count + 1, expiresAt := now + RateWindowMs)]
    else limits[key := RateLimit(ipHash, DefaultRateLimitCount, now, now + RateWindowMs)]
  }

  /** The unique constraints of `rate_limits`, as column lists: only the primary key. */
  const RateLimitUniqueKeys: set<seq<string>> := {["id"]}

  /** The conflict target of the `recordAction` upsert. */
  const RecordConflictTarget: seq<string> := ["user_id", "action"]

  /**
   * The `INSERT ... ON CONFLICT (user_id, action) DO UPDATE` of `recordAction` on a table whose
   * unique constraints are `uniqueKeys`: PostgreSQL refuses the statement unless one of them
   * is exactly the conflict target.
   */
  function RecordedAsWritten(uniqueKeys: set<seq<string>>, limits: RateLimits, userId: string, ipHash: string, action: string, now: int): (r: Result<RateLimits, DbError>)
    ensures r.Failure? <==> RecordConflictTarget !in uniqueKeys
    ensures r.Failure? ==> r.error == NoMatchingConstraint
    ensures r.Success? ==> r.value == Recorded(limits, userId, ipHash, action, now)
  {
    if RecordConflictTarget in uniqueKeys then Success(Recorded(limits, userId, ipHash, action, now))
    else Failure(NoMatchingConstraint)
  }

  /** With the schema's constraints every `recordAction` fails, so no counter row is ever written. */
  lemma RecordActionAlwaysFails(limits: RateLimits, userId: string, ipHash: string, action: string, now: int)
    ensures RecordedAsWritten(RateLimitUniqueKeys, limits, userId, ipHash, action, now) == Failure(NoMatchingConstraint)
  {
    assert RecordConflictTarget != ["id"] by {
      assert |RecordConflictTarget| == 2;
    }
  }

  /** A table `recordAction` never writes to never blocks anyone. */
  lemma EmptyLimitsNeverBlock(userId: string, action: string, now: int)
    ensures !CheckRateLimit(map[], userId, action, now)
  {
  }

  /** The first action creates a count of 1 expiring a minute later. */
  lemma FirstActionRecorded(limits: RateLimits, userId: string, ipHash: string, action: string, now: int)
    requires (userId, action) !in limits
    ensures Recorded(limits, userId, ipHash, action, now)[(userId, action)] == RateLimit(ipHash, 1, now, now + 60000)
    ensures !CheckRateLimit(Recorded(limits, userId, ipHash, action, now), userId, action, now)
  {
  }

  /** Every later action adds one and refreshes the expiry; the count is never reset. */
  lemma LaterActionCounted(limits: RateLimits, userId: string, ipHash: string, action: string, now: int)
    requires (userId, action) in limits
    ensures var before := limits[(userId, action)];
      var after := Recorded(limits, userId, ipHash, action, now)[(userId, action)];
      && after.count == before.count + 1
      && after.expiresAt == now + 60000
      && after.windowStart == before.windowStart && after.ipHash == before.ipHash
  {
  }

  /** Ten recorded actions block the next check for the whole minute after the last one. */
  lemma TenthActionBlocks(limits: RateLimits, userId: string, ipHash: string, action: string, now: int, later: int)
    requires (userId, action) in limits && limits[(userId, action)].count >= 9
    requires now <= later < now + 60000
    ensures CheckRateLimit(Recorded(limits, userId, ipHash, action, now), userId, action, later)
  {
  }

  /** Below nine recorded actions, one more still leaves the next check open, at any time. */
  lemma BelowThresholdAllows(limits: RateLimits, userId: string, ipHash: string, action: string, now: int, later: int)
    requires (userId, action) in limits && limits[(userId, action)].count < 9
    ensures !CheckRateLimit(Recorded(limits, userId, ipHash, action, now), userId, action, later)
  {
  }

  /** Once the row has expired the check passes, whatever the count. */
  lemma ExpiredRowAllows(limits: RateLimits, userId: string, action: string, now: int)
    requires (userId, action) in limits && limits[(userId, action)].expiresAt <= now
    ensures !CheckRateLimit(limits, userId, action, now)
  {
  }

  /** Since the count is never reset, a single action after expiry blocks again at once. */
  lemma BlockedAgainAfterExpiry(limits: RateLimits, userId: string, ipHash: string, action: string, now: int)
    requires (userId, action) in limits && limits[(userId, action)].count >= 9
    requires limits[(userId, action)].expiresAt <= now
    ensures !CheckRateLimit(limits, userId, action, now)
    ensures CheckRateLimit(Recorded(limits, userId, ipHash, action, now), userId, action, now)
  {
  }

  // ----- Profiles, appeals and feedback -----

  /** The columns `updateUserProfile` may set; `None` leaves a column as it is. */
  datatype ProfilePatch = ProfilePatch(
    collegeId: Option<string>,
    gender: Option<string>,
    displayName: Option<string>,
    bio: Option<string>,
    verificationStatus: Option<string>,
    lastActiveAt: Option<int>)

  function Overwrite<T>(patch: Option<T>, current: Option<T>): (r: Option<T>)
    ensures patch.Some? ==> r == patch
    ensures patch.None? ==> r == current
  {
    if patch.Some? then patch else current
  }

  /** A row after the patch: the given columns replaced, `updatedAt` stamped, the rest kept. */
  function Patched(u: User, p: ProfilePatch, now: int): (r: User)
    ensures r.id == u.id && r.updatedAt == Some(now)
    ensures r.(collegeId := u.collegeId, gender := u.gender, displayName := u.displayName, bio := u.bio,
      verificationStatus := u.verificationStatus, lastActiveAt := u.lastActiveAt, updatedAt := u.updatedAt) == u
  {
    u.(collegeId := Overwrite(p.collegeId, u.collegeId),
       gender := Overwrite(p.gender, u.gender),
       displayName := Overwrite(p.displayName, u.displayName),
       bio := Overwrite(p.bio, u.bio),
       verificationStatus := Overwrite(p.verificationStatus, u.verificationStatus),
       lastActiveAt := Overwrite(p.lastActiveAt, u.lastActiveAt),
       updatedAt := Some(now))
  }

  function ApplyPatch(users: seq<User>, id: string, p: ProfilePatch, now: int): (r: seq<User>)
    ensures |r| == |users|
    ensures forall i :: 0 <= i < |users| ==> r[i] == if users[i].id == id then Patched(users[i], p, now) else users[i]
  {
    seq(|users|, i requires 0 <= i < |users| => if users[i].id == id then Patched(users[i], p, now) else users[i])
  }

  /** The row `updateUserProfile` returns is the patched row of that user, if there is one. */
  lemma PatchedRowReturned(users: seq<User>, id: string, p: ProfilePatch, now: int)
    ensures var r := FindUser(ApplyPatch(users, id, p, now), id);
      && (r.Some? <==> FindUser(users, id).Some?)
      && (r.Some? ==> r.value == Patched(FindUser(users, id).value, p, now))
  {
    var after := ApplyPatch(users, id, p, now);
    if users != [] {
      assert after[1..] == ApplyPatch(users[1..], id, p, now);
      if users[0].id != id {
        PatchedRowReturned(users[1..], id, p, now);
      }
    }
  }

  function NullableToOption(f: Field<string>): (r: Option<string>)
    ensures r.Some? <==> f.Given?
    ensures r.Some? ==> r.value == f.value
  {
    if f.Given? then Some(f.value) else None
  }

  /** The appeal row `createAppeal(userId, data)` stores: the caller's id wins over the body's. */
  function AppealRow(id: nat, userId: string, data: AppealInput, now: int): (r: Appeal)
    ensures r.userId == userId && r.reason == data.reason && r.description == Some(data.description)
    ensures r.status == Some("pending") && r.reviewedBy.None? && r.reviewedAt.None?
  {
    Appeal(id, userId, NullableToOption(data.ratingId), data.reason, Some(data.description),
      Some(DefaultAppealStatus), None, None, now)
  }

  /** The feedback row `createFeedback(userId, data)` stores; a fractional rating is refused. */
  function FeedbackRow(id: nat, userId: string, data: FeedbackInput, now: int): (r: Option<Feedback>)
    ensures r.Some? <==> data.rating.None? || IsInt32(data.rating.value)
    ensures r.Some? ==> (r.value.userId == Some(userId) && r.value.kind == data.kind
      && r.value.title == data.title && r.value.description == data.description
      && r.value.status == Some("open") && r.value.priority == Some("medium")
      && (data.rating.Some? ==> r.value.rating == Some(data.rating.value.Floor)))
  {
    if data.rating.Some? && !IsInt32(data.rating.value) then None
    else
      var rating := if data.rating.Some? then Some(data.rating.value.Floor) else None;
      Some(Feedback(id, Some(userId), data.kind, data.category, data.title, data.description, rating,
        Some(DefaultFeedbackStatus), Some(DefaultFeedbackPriority), data.deviceInfo, now))
  }

  // ----- The tables -----

  /** Generated ids stay below the counter and are pairwise distinct within each table. */
  ghost predicate FreshIds(ids: seq<nat>, next: nat)
  {
    (forall i :: 0 <= i < |ids| ==> ids[i] < next)
    && (forall i, j :: 0 <= i < j < |ids| ==> ids[i] != ids[j])
  }

  function RatingIds(rs: seq<Rating>): (r: seq<nat>)
    ensures |r| == |rs| && forall i :: 0 <= i < |rs| ==> r[i] == rs[i].id
  {
    seq(|rs|, i requires 0 <= i < |rs| => rs[i].id)
  }

  function EntryIds(es: seq<LeaderboardEntry>): (r: seq<nat>)
    ensures |r| == |es| && forall i :: 0 <= i < |es| ==> r[i] == es[i].id
  {
    seq(|es|, i requires 0 <= i < |es| => es[i].id)
  }

  function AppealIds(xs: seq<Appeal>): (r: seq<nat>)
    ensures |r| == |xs| && forall i :: 0 <= i < |xs| ==> r[i] == xs[i].id
  {
    seq(|xs|, i requires 0 <= i < |xs| => xs[i].id)
  }

  function FeedbackIds(xs: seq<Feedback>): (r: seq<nat>)
    ensures |r| == |xs| && forall i :: 0 <= i < |xs| ==> r[i] == xs[i].id
  {
    seq(|xs|, i requires 0 <= i < |xs| => xs[i].id)
  }

  /** Appending the row numbered `next` keeps the ids fresh for the counter `next + 1`. */
  lemma FreshIdsSnoc(ids: seq<nat>, next: nat)
    requires FreshIds(ids, next)
    ensures FreshIds(ids + [next], next + 1)
  {
  }

  /** The checks `createRating` makes before inserting, in order; `None` when the row goes in. */
  function RatingRefusal(users: seq<User>, ratings: seq<Rating>, raterUserId: string, targetUserId: string, score: real, env: Option<string>): (r: Option<DbError>)
    ensures r == Some(DuplicateRating) <==> CheckDuplicateRating(ratings, raterUserId, targetUserId, env)
    ensures r == Some(InvalidInteger) <==> !CheckDuplicateRating(ratings, raterUserId, targetUserId, env) && !IsInt32(score)
    ensures r == Some(ForeignKeyViolation) <==> (!CheckDuplicateRating(ratings, raterUserId, targetUserId, env)
                                                  && IsInt32(score) && FindUser(users, targetUserId).None?)
    ensures r.None? <==> (!CheckDuplicateRating(ratings, raterUserId, targetUserId, env) && IsInt32(score)
                          && FindUser(users, targetUserId).Some?)
  {
    if CheckDuplicateRating(ratings, raterUserId, targetUserId, env) then Some(DuplicateRating)
    else if !IsInt32(score) then Some(InvalidInteger)
    else if FindUser(users, targetUserId).None? then Some(ForeignKeyViolation)
    else None
  }

  class Database {
    const saltEnv: Option<string>
    var users: seq<User>
    var ratings: seq<Rating>
    var leaderboards: seq<LeaderboardEntry>
    var appeals: seq<Appeal>
    var feedback: seq<Feedback>
    var rateLimits: RateLimits
    var nextId: nat

    ghost predicate Valid()
      reads this
    {
      && FreshIds(RatingIds(ratings), nextId)
      && FreshIds(EntryIds(leaderboards), nextId)
      && FreshIds(AppealIds(appeals), nextId)
      && FreshIds(FeedbackIds(feedback), nextId)
    }

    constructor(initialUsers: seq<User>, env: Option<string>)
      ensures Valid()
      ensures users == initialUsers && saltEnv == env
      ensures ratings == [] && leaderboards == [] && appeals == [] && feedback == []
      ensures rateLimits == map[] && nextId == 0
    {
      saltEnv := env;
      users := initialUsers;
      ratings := [];
      leaderboards := [];
      appeals := [];
      feedback := [];
      rateLimits := map[];
      nextId := 0;
    }

    /** `updateUserStats(userId)`: recount the user's ratings and store count and average. */
    method UpdateUserStats(userId: string, now: int)
      requires Valid()
      modifies this
      ensures Valid()
      ensures users == StatsApplied(old(users), ratings, userId, now)
      ensures ratings == old(ratings) && leaderboards == old(leaderboards) && appeals == old(appeals)
      ensures feedback == old(feedback) && rateLimits == old(rateLimits) && nextId == old(nextId)
    {
      var rs := RatingsFor(ratings, userId);
      if |rs| > 0 {
        users := WithStats(users, userId, |rs|, Average(ScoreSum(rs), |rs|), now);
      }
    }

    /**
     * `createRating(targetUserId, raterUserId, score, metadata)`: refuse a second rating of the
     * same target by the same rater, insert the row under the rater's digest, then update the
     * target's statistics.
     */
    method CreateRating(targetUserId: string, raterUserId: string, score: real, metadata: RatingMetadata, now: int)
      returns (r: Result<Rating, DbError>)
      requires Valid()
      modifies this
      ensures Valid()
      ensures CheckDuplicateRating(old(ratings), raterUserId, targetUserId, saltEnv) ==>
        r == Failure(DuplicateRating) && unchanged(this)
      ensures !CheckDuplicateRating(old(ratings), raterUserId, targetUserId, saltEnv) && !IsInt32(score) ==>
        r == Failure(InvalidInteger) && unchanged(this)
      ensures (!CheckDuplicateRating(old(ratings), raterUserId, targetUserId, saltEnv) && IsInt32(score)
        && FindUser(old(users), targetUserId).None?) ==> r == Failure(ForeignKeyViolation) && unchanged(this)
      ensures r.Success? ==>
        && r.value == Rating(old(nextId), HashRaterId(raterUserId, saltEnv), targetUserId, score.Floor,
             metadata.collegeId, metadata.ipHash, metadata.deviceHash, Some(DefaultRatingStatus), now)
        && ratings == old(ratings) + [r.value]
        && nextId == old(nextId) + 1
        && users == StatsApplied(old(users), ratings, targetUserId, now)
        && leaderboards == old(leaderboards) && appeals == old(appeals)
        && feedback == old(feedback) && rateLimits == old(rateLimits)
      ensures r.Success? <==> (!CheckDuplicateRating(old(ratings), raterUserId, targetUserId, saltEnv)
        && IsInt32(score) && FindUser(old(users), targetUserId).Some?)
    {
      var refusal := RatingRefusal(users, ratings, raterUserId, targetUserId, score, saltEnv);
      if refusal.Some? {
        return Failure(refusal.value);
      }
      var row := Rating(nextId, HashRaterId(raterUserId, saltEnv), targetUserId, score.Floor, metadata.collegeId,
        metadata.ipHash, metadata.deviceHash, Some(DefaultRatingStatus), now);
      InsertRating(row);
      UpdateUserStats(targetUserId, now);
      return Success(row);
    }

    /**
     * `createRating` as written: when the target's new mean overflows `numeric(3,2)` the
     * statistics update fails after the rating row has been inserted, so the row stays, the
     * target's statistics stay as they were and the call fails.
     */
    method CreateRatingAsWritten(targetUserId: string, raterUserId: string, score: real, metadata: RatingMetadata, now: int)
      returns (r: Result<Rating, DbError>)
      requires Valid()
      modifies this
      ensures Valid()
      ensures RatingRefusal(old(users), old(ratings), raterUserId, targetUserId, score, saltEnv).Some? ==>
        r == Failure(RatingRefusal(old(users), old(ratings), raterUserId, targetUserId, score, saltEnv).value)
        && unchanged(this)
      ensures RatingRefusal(old(users), old(ratings), raterUserId, targetUserId, score, saltEnv).None? ==>
        var row := Rating(old(nextId), HashRaterId(raterUserId, saltEnv), targetUserId, score.Floor,
          metadata.collegeId, metadata.ipHash, metadata.deviceHash, Some(DefaultRatingStatus), now);
        var stats := StatsAsWritten(old(users), old(ratings) + [row], targetUserId, now);
        && ratings == old(ratings) + [row] && nextId == old(nextId) + 1
        && (stats.Success? ==> r == Success(row) && users == stats.value)
        && (stats.Failure? ==> r == Failure(NumericOverflow) && users == old(users))
        && leaderboards == old(leaderboards) && appeals == old(appeals)
        && feedback == old(feedback) && rateLimits == old(rateLimits)
    {
      var refusal := RatingRefusal(users, ratings, raterUserId, targetUserId, score, saltEnv);
      if refusal.Some? {
        return Failure(refusal.value);
      }
      var row := Rating(nextId, HashRaterId(raterUserId, saltEnv), targetUserId, score.Floor, metadata.collegeId,
        metadata.ipHash, metadata.deviceHash, Some(DefaultRatingStatus), now);
      InsertRating(row);
      var updated := UpdateUserStatsAsWritten(targetUserId, now);
      if updated.Failure? {
        return Failure(updated.error);
      }
      return Success(row);
    }

    /** `updateUserStats(userId)` as written: an overflowing mean writes nothing and fails the call. */
    method UpdateUserStatsAsWritten(userId: string, now: int) returns (r: Result<(), DbError>)
      requires Valid()
      modifies this
      ensures Valid()
      ensures var stats := StatsAsWritten(old(users), ratings, userId, now);
        && (r.Success? <==> stats.Success?)
        && (r.Success? ==> users == stats.value)
        && (r.Failure? ==> r.error == NumericOverflow && users == old(users))
      ensures ratings == old(ratings) && leaderboards == old(leaderboards) && appeals == old(appeals)
      ensures feedback == old(feedback) && rateLimits == old(rateLimits) && nextId == old(nextId)
    {
      var stats := StatsAsWritten(users, ratings, userId, now);
      if stats.Failure? {
        return Failure(stats.error);
      }
      users := stats.value;
      return Success(());
    }

    /** The `INSERT ... RETURNING` of one rating row under the next id. */
    method InsertRating(row: Rating)
      requires Valid() && row.id == nextId
      modifies this
      ensures Valid()
      ensures ratings == old(ratings) + [row] && nextId == old(nextId) + 1
      ensures users == old(users) && leaderboards == old(leaderboards) && appeals == old(appeals)
      ensures feedback == old(feedback) && rateLimits == old(rateLimits)
    {
      FreshIdsSnoc(RatingIds(ratings), nextId);
      assert RatingIds(ratings + [row]) == RatingIds(ratings) + [nextId];
      ratings := ratings + [row];
      nextId := nextId + 1;
    }

    /**
     * `computeLeaderboard(collegeId)`: select the top users, delete the college's weekly rows,
     * then insert the new ranking in one statement (which fails without effect when a
     * required column would be NULL, after the delete has happened).
     */
    method ComputeLeaderboard(collegeId: string, now: int) returns (r: Result<(), DbError>)
      requires Valid()
      modifies this
      ensures Valid()
      ensures var rows := LeaderboardRows(TopUsers(old(users), collegeId), collegeId, now, old(nextId));
        && (r.Success? <==> rows.Some?)
        && (r.Failure? ==> r.error == NotNullViolation)
        && leaderboards == KeptEntries(old(leaderboards), collegeId) + (if rows.Some? then rows.value else [])
        && nextId == old(nextId) + (if rows.Some? then |rows.value| else 0)
      ensures users == old(users) && ratings == old(ratings) && appeals == old(appeals)
      ensures feedback == old(feedback) && rateLimits == old(rateLimits)
    {
      var top := TopUsers(users, collegeId);
      var kept := KeptEntries(leaderboards, collegeId);
      KeptIdsFresh(leaderboards, collegeId, nextId);
      leaderboards := kept;
      var rows := LeaderboardRows(top, collegeId, now, nextId);
      if rows.None? {
        return Failure(NotNullViolation);
      }
      RowsIdsFresh(kept, rows.value, nextId);
      leaderboards := leaderboards + rows.value;
      nextId := nextId + |rows.value|;
      return Success(());
    }

    /** `recordAction(userId, ipHash, action)`: upsert the (userId, action) counter. */
    method RecordAction(userId: string, ipHash: string, action: string, now: int)
      requires Valid()
      modifies this
      ensures Valid()
      ensures rateLimits == Recorded(old(rateLimits), userId, ipHash, action, now)
      ensures users == old(users) && ratings == old(ratings) && leaderboards == old(leaderboards)
      ensures appeals == old(appeals) && feedback == old(feedback) && nextId == old(nextId)
    {
      var key := (userId, action);
      var expiresAt := now + RateWindowMs;
      if key in rateLimits {
        var row := rateLimits[key];
        rateLimits := rateLimits[key := row.(count := row.count + 1, expiresAt := expiresAt)];
      } else {
        rateLimits := rateLimits[key := RateLimit(ipHash, DefaultRateLimitCount, now, expiresAt)];
      }
    }

    /** `updateUserProfile(id, patch)`: patch the user's row and return it, if it exists. */
    method UpdateUserProfile(id: string, patch: ProfilePatch, now: int) returns (r: Option<User>)
      requires Valid()
      modifies this
      ensures Valid()
      ensures users == ApplyPatch(old(users), id, patch, now)
      ensures r == FindUser(users, id)
      ensures ratings == old(ratings) && leaderboards == old(leaderboards) && appeals == old(appeals)
      ensures feedback == old(feedback) && rateLimits == old(rateLimits) && nextId == old(nextId)
    {
      users := ApplyPatch(users, id, patch, now);
      r := FindUser(users, id);
    }

    /** `createAppeal(userId, data)`: the appellant must be an existing user. */
    method CreateAppeal(userId: string, data: AppealInput, now: int) returns (r: Result<Appeal, DbError>)
      requires Valid()
      modifies this
      ensures Valid()
      ensures FindUser(old(users), userId).None? ==> r == Failure(ForeignKeyViolation) && unchanged(this)
      ensures FindUser(old(users), userId).Some? ==>
        && r == Success(AppealRow(old(nextId), userId, data, now))
        && appeals == old(appeals) + [r.value] && nextId == old(nextId) + 1
        && users == old(users) && ratings == old(ratings) && leaderboards == old(leaderboards)
        && feedback == old(feedback) && rateLimits == old(rateLimits)
    {
      if FindUser(users, userId).None? {
        return Failure(ForeignKeyViolation);
      }
      var row := AppealRow(nextId, userId, data, now);
      FreshIdsSnoc(AppealIds(appeals), nextId);
      assert AppealIds(appeals + [row]) == AppealIds(appeals) + [nextId];
      appeals := appeals + [row];
      nextId := nextId + 1;
      return Success(row);
    }

    /** `createFeedback(userId, data)`: the author must exist and a rating must be a whole number. */
    method CreateFeedback(userId: string, data: FeedbackInput, now: int) returns (r: Result<Feedback, DbError>)
      requires Valid()
      modifies this
      ensures Valid()
      ensures FindUser(old(users), userId).None? ==> r == Failure(ForeignKeyViolation) && unchanged(this)
      ensures FindUser(old(users), userId).Some? && FeedbackRow(old(nextId), userId, data, now).None? ==>
        r == Failure(InvalidInteger) && unchanged(this)
      ensures FindUser(old(users), userId).Some? && FeedbackRow(old(nextId), userId, data, now).Some? ==>
        && r == Success(FeedbackRow(old(nextId), userId, data, now).value)
        && feedback == old(feedback) + [r.value] && nextId == old(nextId) + 1
        && users == old(users) && ratings == old(ratings) && leaderboards == old(leaderboards)
        && appeals == old(appeals) && rateLimits == old(rateLimits)
    {
      if FindUser(users, userId).None? {
        return Failure(ForeignKeyViolation);
      }
      var row := FeedbackRow(nextId, userId, data, now);
      if row.None? {
        return Failure(InvalidInteger);
      }
      FreshIdsSnoc(FeedbackIds(feedback), nextId);
      assert FeedbackIds(feedback + [row.value]) == FeedbackIds(feedback) + [nextId];
      feedback := feedback + [row.value];
      nextId := nextId + 1;
      return Success(row.value);
    }
  }

  /** Deleting rows keeps the remaining ids fresh. */
  lemma {:induction false} KeptIdsFresh(board: seq<LeaderboardEntry>, collegeId: string, next: nat)
    requires FreshIds(EntryIds(board), next)
    ensures FreshIds(EntryIds(KeptEntries(board, collegeId)), next)
    decreases |board|
  {
    if board != [] {
      var front := board[..|board| - 1];
      var last := board[|board| - 1];
      assert EntryIds(front) == EntryIds(board)[..|board| - 1];
      KeptIdsFresh(front, collegeId, next);
      var kf := KeptEntries(front, collegeId);
      assert KeptEntries(board, collegeId) == kf + (if !WeeklyOf(last, collegeId) then [last] else []);
      forall e | e in kf ensures e.id != last.id {
        var k :| 0 <= k < |front| && front[k] == e;
        assert EntryIds(board)[k] == e.id;
        assert EntryIds(board)[|board| - 1] == last.id;
      }
      assert last.id < next by {
        assert EntryIds(board)[|board| - 1] == last.id;
      }
    }
  }

  /** Appending rows numbered `next`, `next + 1`, ... keeps all ids fresh for the moved counter. */
  lemma RowsIdsFresh(kept: seq<LeaderboardEntry>, rows: seq<LeaderboardEntry>, next: nat)
    requires FreshIds(EntryIds(kept), next)
    requires forall i :: 0 <= i < |rows| ==> rows[i].id == next + i
    ensures FreshIds(EntryIds(kept + rows), next + |rows|)
  {
    var all := kept + rows;
    assert forall i :: 0 <= i < |all| ==> EntryIds(all)[i] == all[i].id;
    forall i, j | 0 <= i < j < |all| ensures all[i].id != all[j].id {
      if j < |kept| {
        assert EntryIds(kept)[i] != EntryIds(kept)[j];
      } else if i < |kept| {
        assert EntryIds(kept)[i] < next;
      }
    }
    forall i | 0 <= i < |all| ensures all[i].id < next + |rows| {
      if i < |kept| {
        assert EntryIds(kept)[i] < next;
      }
    }
  }
}
