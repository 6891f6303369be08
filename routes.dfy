/**
 * The decision rules of the HTTP handlers for profile setup, random profiles, rating
 * submission, the leaderboard and its recomputation. Each handler is a function of the
 * request and of table snapshots. A handler that writes returns either its response or the
 * storage call it makes; a separate outcome function turns that call's result into the
 * response.
 */
module Routes {
  import opened Wrappers
  import opened Json
  import opened Text
  import opened Schema
  import opened Storage

  datatype Body =
    | Message(text: string)
    | Profile(updated: Option<User>)
    | Profiles(users: seq<User>)
    | Created(rating: Rating)
    | Board(standings: seq<Standing>)

  datatype Response = Response(status: int, body: Body)

  /** `hashValue`: the unsalted digest used for IP addresses and user agents. */
  function HashValue(value: string): Digest
  {
    Sha256(value)
  }

  /** A truthy text value: present, not NULL and not empty. */
  predicate Present(o: Option<string>)
  {
    o.Some? && o.value != []
  }

  // ----- POST /api/profile/setup -----

  datatype SetupDecision = RejectSetup(response: Response) | WriteProfile(patch: ProfilePatch)

  /** The guards and the patch of the profile-setup handler. */
  function ProfileSetup(body: JValue, now: int): (d: SetupDecision)
    ensures d.RejectSetup? ==> d.response.status == 400
    ensures (forall s :: Get(body, "collegeId") != Some(JStr(s)) || s == []) ==>
      d == RejectSetup(Response(400, Message("Valid college ID is required")))
    ensures d.WriteProfile? <==>
      (exists c :: Get(body, "collegeId") == Some(JStr(c)) && c != [])
      && (exists g :: Get(body, "gender") == Some(JStr(g)) && g in Genders)
    ensures d.WriteProfile? ==>
      && d.patch.collegeId.Some? && Get(body, "collegeId") == Some(JStr(d.patch.collegeId.value))
      && d.patch.gender.Some? && d.patch.gender.value in Genders
      && Get(body, "gender") == Some(JStr(d.patch.gender.value))
      && d.patch.displayName == NonEmptyText(Get(body, "displayName"))
      && d.patch.bio == NonEmptyText(Get(body, "bio"))
      && d.patch.verificationStatus == Some("verified")
      && d.patch.lastActiveAt == Some(now)
  {
    var collegeId := Get(body, "collegeId");
    var gender := Get(body, "gender");
    if !(collegeId.Some? && collegeId.value.JStr? && collegeId.value.s != []) then
      RejectSetup(Response(400, Message("Valid college ID is required")))
    else if !(gender.Some? && gender.value.JStr? && gender.value.s in Genders) then
      RejectSetup(Response(400, Message("Valid gender is required")))
    else
      WriteProfile(ProfilePatch(Some(collegeId.value.s), Some(gender.value.s),
        NonEmptyText(Get(body, "displayName")), NonEmptyText(Get(body, "bio")), Some("verified"), Some(now)))
  }

  /** An empty display name or bio is treated as not given: the stored value is kept. */
  lemma EmptyDisplayFieldsUnset(body: JValue, now: int)
    requires ProfileSetup(body, now).WriteProfile?
    requires Get(body, "displayName") == Some(JStr("")) && Get(body, "bio") == Some(JStr(""))
    ensures ProfileSetup(body, now).patch.displayName.None? && ProfileSetup(body, now).patch.bio.None?
  {
  }

  /** Setting up a profile verifies the user and keeps everything the body does not set. */
  lemma SetupVerifies(users: seq<User>, userId: string, body: JValue, now: int)
    requires ProfileSetup(body, now).WriteProfile? && FindUser(users, userId).Some?
    ensures var p := ProfileSetup(body, now).patch;
      var u := FindUser(ApplyPatch(users, userId, p, now), userId);
      && u.Some?
      && u.value.verificationStatus == Some("verified")
      && u.value.collegeId == p.collegeId && u.value.gender == p.gender
      && u.value.ratingsReceived == FindUser(users, userId).value.ratingsReceived
      && u.value.averageScore == FindUser(users, userId).value.averageScore
  {
    PatchedRowReturned(users, userId, ProfileSetup(body, now).patch, now);
  }

  /** The response once `updateUserProfile` has answered. */
  function SetupOutcome(r: Result<Option<User>, DbError>): (resp: Response)
    ensures resp.status == 200 <==> r.Success?
    ensures r.Success? ==> resp.body == Profile(r.value)
    ensures r.Failure? ==> resp == Response(500, Message("Failed to setup profile"))
  {
    match r
    case Success(u) => Response(200, Profile(u))
    case Failure(_) => Response(500, Message("Failed to setup profile"))
  }

  // ----- GET /api/profiles/random -----

  /** `parseInt(req.query.limit) || 10`: NaN (also from a missing parameter) and 0 fall back to 10. */
  function RandomLimit(query: Option<string>): (n: int)
    ensures n != 0
    ensures query.None? ==> n == DefaultRandomLimit
    ensures query.Some? && ParseInt(query.value).Some? && ParseInt(query.value).value != 0 ==>
      n == ParseInt(query.value).value
    ensures query.Some? && (ParseInt(query.value).None? || ParseInt(query.value) == Some(0)) ==>
      n == DefaultRandomLimit
  {
    var parsed := if query.None? then None else ParseInt(query.value);
    if parsed.None? || parsed.value == 0 then DefaultRandomLimit else parsed.value
  }

  /** A positive decimal limit is used as given. */
  lemma RandomLimitPositive(n: nat)
    requires n >= 1
    ensures RandomLimit(Some(NatToString(n))) == n
  {
    ParseIntRoundTrip(n);
  }

  /** "0" falls back to the default. */
  lemma RandomLimitZero()
    ensures RandomLimit(Some("0")) == DefaultRandomLimit
  {
    ParseIntRoundTrip(0);
    assert NatToString(0) == "0";
  }

  /** A negative limit is kept, and it reaches the query. */
  lemma RandomLimitNegative(n: nat)
    requires n >= 1
    ensures RandomLimit(Some("-" + NatToString(n))) == -(n as int)
  {
    ParseIntNegativeRoundTrip(n);
  }

  /** The random-profiles handler. */
  function RandomProfilesRoute(users: seq<User>, userId: string, limitQuery: Option<string>): (resp: Response)
    ensures var user := FindUser(users, userId);
      (resp.status == 400 <==> user.None? || !Present(user.value.collegeId) || !Present(user.value.gender))
    ensures resp.status == 200 ==>
      resp.body.Profiles? && (resp.body.users == [] || |resp.body.users| <= RandomLimit(limitQuery))
      && forall u :: u in resp.body.users ==> u in Candidates(users, userId)
    ensures resp.status == 200 ==>
      var found := RandomProfiles(users, userId, RandomLimit(limitQuery));
      found.Success? && resp.body == Profiles(found.value)
    ensures resp.status == 500 <==> (resp.status != 400 && RandomLimit(limitQuery) < 0
                                     && OppositeGender(FindUser(users, userId).value.gender).Some?)
    ensures resp.status == 200 || resp.status == 400 || resp.status == 500
  {
    var limit := RandomLimit(limitQuery);
    var user := FindUser(users, userId);
    if user.None? || !Present(user.value.collegeId) || !Present(user.value.gender) then
      Response(400, Message("Please complete your profile first"))
    else
      var found := RandomProfiles(users, userId, limit);
      if found.Success? then Response(200, Profiles(found.value))
      else Response(500, Message("Failed to fetch profiles"))
  }

  /** A requester of gender "other" passes the handler's check but is shown nobody. */
  lemma OtherGenderSeesNobody(users: seq<User>, userId: string, limitQuery: Option<string>)
    requires FindUser(users, userId).Some? && Present(FindUser(users, userId).value.collegeId)
    requires FindUser(users, userId).value.gender == Some("other")
    ensures RandomProfilesRoute(users, userId, limitQuery) == Response(200, Profiles([]))
  {
    NoCandidatesWithoutMatch(users, userId);
  }

  // ----- POST /api/ratings -----

  datatype RatingDecision = RejectRating(response: Response) | SubmitRating(targetUserId: string, score: real, metadata: RatingMetadata)

  /** The rating handler's gender test on `user?.gender` and `targetUser?.gender`. */
  predicate IsOppositeGender(a: Option<string>, b: Option<string>)
  {
    (a == Some("male") && b == Some("female")) || (a == Some("female") && b == Some("male"))
  }

  /**
   * The test is symmetric and irreflexive, never holds for "other" or a missing gender, and
   * agrees with the pairing discovery uses.
   */
  lemma IsOppositeGenderProperties(a: Option<string>, b: Option<string>)
    ensures IsOppositeGender(a, b) <==> IsOppositeGender(b, a)
    ensures !IsOppositeGender(a, a)
    ensures a == Some("other") || a.None? ==> !IsOppositeGender(a, b) && !IsOppositeGender(b, a)
    ensures IsOppositeGender(a, b) <==> b.Some? && OppositeGender(a) == b
  {
  }

  /** `user?.collegeId`: `None` for a missing user, otherwise the (nullable) column. */
  function CollegeOf(user: Option<User>): Option<Option<string>>
  {
    if user.None? then None else Some(user.value.collegeId)
  }

  function GenderOf(user: Option<User>): Option<string>
  {
    if user.None? then None else user.value.gender
  }

  /** The metadata stored with a rating: digests of a truthy IP and user agent, and a truthy college id. */
  function Metadata(user: Option<User>, ip: Option<string>, userAgent: Option<string>): (m: RatingMetadata)
    ensures m.ipHash.Some? <==> Present(ip)
    ensures m.ipHash.Some? ==> m.ipHash.value == HashValue(ip.value)
    ensures m.deviceHash.Some? <==> Present(userAgent)
    ensures m.deviceHash.Some? ==> m.deviceHash.value == HashValue(userAgent.value)
    ensures m.collegeId.Some? <==> user.Some? && Present(user.value.collegeId)
    ensures m.collegeId.Some? ==> m.collegeId == user.value.collegeId
  {
    RatingMetadata(
      if Present(ip) then Some(HashValue(ip.value)) else None,
      if Present(userAgent) then Some(HashValue(userAgent.value)) else None,
      if user.Some? && Present(user.value.collegeId) then user.value.collegeId else None)
  }

  /** The guard chain of the rating handler. */
  function RatingRoute(users: seq<User>, userId: string, body: JValue, ip: Option<string>, userAgent: Option<string>): (d: RatingDecision)
    ensures ParseRating(body, SharedSchema).None? ==>
      d == RejectRating(Response(400, Message("Invalid rating data")))
    ensures d.SubmitRating? <==>
      var input := ParseRating(body, SharedSchema);
      && input.Some?
      && input.value.targetUserId != userId
      && FindUser(users, input.value.targetUserId).Some?
      && CollegeOf(FindUser(users, userId)) == CollegeOf(FindUser(users, input.value.targetUserId))
      && IsOppositeGender(GenderOf(FindUser(users, userId)), GenderOf(FindUser(users, input.value.targetUserId)))
    ensures d.SubmitRating? ==>
      && d.targetUserId == ParseRating(body, SharedSchema).value.targetUserId
      && d.score == ParseRating(body, SharedSchema).value.score
      && 1.0 <= d.score <= 10.0
      && d.metadata == Metadata(FindUser(users, userId), ip, userAgent)
  {
    match ParseRating(body, SharedSchema)
    case None => RejectRating(Response(400, Message("Invalid rating data")))
    case Some(input) =>
      var user := FindUser(users, userId);
      var target := FindUser(users, input.targetUserId);
      if input.targetUserId == userId then
        RejectRating(Response(400, Message("You cannot rate yourself")))
      else if target.None? then
        RejectRating(Response(404, Message("User not found")))
      else if CollegeOf(user) != CollegeOf(target) then
        RejectRating(Response(403, Message("You can only rate users from your college")))
      else if !IsOppositeGender(GenderOf(user), GenderOf(target)) then
        RejectRating(Response(403, Message("You can only rate opposite gender students")))
      else
        SubmitRating(input.targetUserId, input.score, Metadata(user, ip, userAgent))
  }

  /** The checks run in order: each status is reported only when every earlier check passed. */
  lemma RatingGuardOrder(users: seq<User>, userId: string, body: JValue, ip: Option<string>, userAgent: Option<string>)
    requires ParseRating(body, SharedSchema).Some?
    ensures var t := ParseRating(body, SharedSchema).value.targetUserId;
      var d := RatingRoute(users, userId, body, ip, userAgent);
      && (t == userId ==> d == RejectRating(Response(400, Message("You cannot rate yourself"))))
      && (t != userId && FindUser(users, t).None? ==> d == RejectRating(Response(404, Message("User not found"))))
      && (t != userId && FindUser(users, t).Some? && CollegeOf(FindUser(users, userId)) != CollegeOf(FindUser(users, t)) ==>
           d == RejectRating(Response(403, Message("You can only rate users from your college"))))
      && (t != userId && FindUser(users, t).Some? && CollegeOf(FindUser(users, userId)) == CollegeOf(FindUser(users, t))
           && !IsOppositeGender(GenderOf(FindUser(users, userId)), GenderOf(FindUser(users, t))) ==>
           d == RejectRating(Response(403, Message("You can only rate opposite gender students"))))
  {
  }

  /** A submitted rating always comes from an existing rater of the target's college and opposite gender. */
  lemma SubmittedRaterExists(users: seq<User>, userId: string, body: JValue, ip: Option<string>, userAgent: Option<string>)
    requires RatingRoute(users, userId, body, ip, userAgent).SubmitRating?
    ensures var d := RatingRoute(users, userId, body, ip, userAgent);
      && FindUser(users, userId).Some?
      && FindUser(users, d.targetUserId).Some?
      && FindUser(users, userId).value.collegeId == FindUser(users, d.targetUserId).value.collegeId
      && OppositeGender(FindUser(users, userId).value.gender) == FindUser(users, d.targetUserId).value.gender
      && d.targetUserId != userId
  {
    var d := RatingRoute(users, userId, body, ip, userAgent);
    IsOppositeGenderProperties(GenderOf(FindUser(users, userId)), GenderOf(FindUser(users, d.targetUserId)));
  }

  /** The response once `createRating` has answered: every storage error, a duplicate included, is a 500. */
  function RatingOutcome(r: Result<Rating, DbError>): (resp: Response)
    ensures r.Success? ==> resp == Response(200, Created(r.value))
    ensures r.Failure? ==> resp == Response(500, Message("Failed to submit rating"))
  {
    match r
    case Success(row) => Response(200, Created(row))
    case Failure(_) => Response(500, Message("Failed to submit rating"))
  }

  // ----- GET /api/leaderboard -----

  /** The leaderboard handler; `period` is the query parameter. */
  function LeaderboardRoute(users: seq<User>, board: seq<LeaderboardEntry>, userId: string, period: Option<string>): (resp: Response)
    ensures var user := FindUser(users, userId);
      (resp.status == 400 <==> user.None? || !Present(user.value.collegeId))
      && (resp.status == 400 ==> resp.body == Message("Please complete your profile first"))
      && (resp.status != 400 ==> (resp.status == 200 && resp.body.Board?
           && forall s :: s in resp.body.standings ==>
                Some(s.entry.collegeId) == user.value.collegeId
                && s.entry.periodType == Some(if Present(period) then period.value else "weekly")))
    ensures var user := FindUser(users, userId);
      resp.status == 200 ==>
        resp.body == Board(GetLeaderboard(users, board, user.value.collegeId.value, if Present(period) then period.value else "weekly"))
  {
    var user := FindUser(users, userId);
    if user.None? || !Present(user.value.collegeId) then
      Response(400, Message("Please complete your profile first"))
    else
      var periodType := if Present(period) then period.value else DefaultPeriodType;
      var standings := GetLeaderboard(users, board, user.value.collegeId.value, periodType);
      assert forall s :: s in standings ==> s.entry in LatestEntries(board, user.value.collegeId.value, periodType) by {
        forall s | s in standings ensures s.entry in LatestEntries(board, user.value.collegeId.value, periodType) {
          var i :| 0 <= i < |standings| && standings[i] == s;
        }
      }
      Response(200, Board(standings))
  }

  // ----- POST /api/admin/compute-leaderboard -----

  datatype ComputeDecision = RejectCompute(response: Response) | Compute(collegeId: string)

  /** The recompute handler: a requester without a college gets 400 "User not found". */
  function ComputeRoute(users: seq<User>, userId: string): (d: ComputeDecision)
    ensures var user := FindUser(users, userId);
      && (d.RejectCompute? <==> user.None? || !Present(user.value.collegeId))
      && (d.RejectCompute? ==> d.response == Response(400, Message("User not found")))
      && (d.Compute? ==> Some(d.collegeId) == user.value.collegeId)
  {
    var user := FindUser(users, userId);
    if user.None? || !Present(user.value.collegeId) then RejectCompute(Response(400, Message("User not found")))
    else Compute(user.value.collegeId.value)
  }

  function ComputeOutcome(r: Result<(), DbError>): (resp: Response)
    ensures r.Success? ==> resp == Response(200, Message("Leaderboard computed successfully"))
    ensures r.Failure? ==> resp == Response(500, Message("Failed to compute leaderboard"))
  {
    if r.Success? then Response(200, Message("Leaderboard computed successfully"))
    else Response(500, Message("Failed to compute leaderboard"))
  }
}
