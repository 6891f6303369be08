/**
 * The database rows, column defaults and zod input schemas shared by the server and the client.
 * The same definitions cover the current schema and the older standalone copy of it: where
 * the two differ (the rating `status` column exists only in the current one) the parser takes
 * the schema file as a parameter.
 */
module Schema {
  import opened Wrappers
  import opened Json

  /** A SHA-256 digest, identified with the text it was computed from (treated as injective). */
  datatype Digest = Sha256(input: string)

  /** The value zod yields for a nullable optional column: absent, `null`, or a value. */
  datatype Field<T> = Absent | Null | Given(value: T)

  // ----- Documented value sets and column defaults -----

  const Genders: set<string> := {"male", "female", "other"}
  const VerificationStatuses: set<string> := {"unverified", "pending", "verified", "rejected"}
  const PeriodTypes: set<string> := {"weekly", "monthly"}
  const AppealReasons: set<string> := {"inappropriate", "fake_rating", "harassment", "spam", "other"}
  const FeedbackTypes: seq<string> := ["bug", "feature", "improvement", "other"]

  const DefaultVerificationStatus: string := "unverified"
  const DefaultRatingsReceived: int := 0
  const DefaultRatingStatus: string := "active"
  const DefaultAppealStatus: string := "pending"
  const DefaultRateLimitCount: int := 1
  const DefaultFeedbackStatus: string := "open"
  const DefaultFeedbackPriority: string := "medium"
  const DefaultPeriodType: string := "weekly"

  /** Every text default is one of the values its column documents. */
  lemma DefaultsDocumented()
    ensures DefaultVerificationStatus in VerificationStatuses
    ensures DefaultPeriodType in PeriodTypes
    ensures DefaultRatingsReceived == 0 && DefaultRateLimitCount == 1
  {
  }

  // ----- Rows -----

  /** A `users` row. `averageScore` is in hundredths; timestamps are milliseconds. */
  datatype User = User(
    id: string,
    email: Option<string>,
    firstName: Option<string>,
    lastName: Option<string>,
    collegeId: Option<string>,
    gender: Option<string>,
    displayName: Option<string>,
    bio: Option<string>,
    verificationStatus: Option<string>,
    ratingsReceived: Option<int>,
    averageScore: Option<int>,
    lastActiveAt: Option<int>,
    updatedAt: Option<int>)

  /** A `users` row as first inserted: every column not given takes its default. */
  function NewUser(id: string, email: Option<string>, firstName: Option<string>, lastName: Option<string>, now: int): (u: User)
    ensures u.id == id && u.email == email && u.firstName == firstName && u.lastName == lastName
    ensures u.verificationStatus == Some(DefaultVerificationStatus)
    ensures u.ratingsReceived == Some(DefaultRatingsReceived)
    ensures u.collegeId.None? && u.gender.None? && u.averageScore.None?
  {
    User(id, email, firstName, lastName, None, None, None, None,
      Some(DefaultVerificationStatus), Some(DefaultRatingsReceived), None, None, Some(now))
  }

  /** A `ratings` row; the rater is stored only as the salted digest of their id. */
  datatype Rating = Rating(
    id: nat,
    raterIdHash: Digest,
    targetUserId: string,
    score: int,
    collegeId: Option<string>,
    ipHash: Option<Digest>,
    deviceHash: Option<Digest>,
    status: Option<string>,
    createdAt: int)

  /** A `leaderboards` row: rank, average and total are required columns. */
  datatype LeaderboardEntry = LeaderboardEntry(
    id: nat,
    collegeId: string,
    userId: string,
    rank: int,
    averageScore: int,
    totalRatings: int,
    periodStart: int,
    periodEnd: int,
    periodType: Option<string>,
    createdAt: int)

  datatype Appeal = Appeal(
    id: nat,
    userId: string,
    ratingId: Option<string>,
    reason: string,
    description: Option<string>,
    status: Option<string>,
    reviewedBy: Option<string>,
    reviewedAt: Option<int>,
    createdAt: int)

  /** A `rate_limits` row; it is stored under its (userId, action) pair. */
  datatype RateLimit = RateLimit(ipHash: string, count: int, windowStart: int, expiresAt: int)

  datatype Feedback = Feedback(
    id: nat,
    userId: Option<string>,
    kind: string,
    category: Option<string>,
    title: string,
    description: string,
    rating: Option<int>,
    status: Option<string>,
    priority: Option<string>,
    deviceInfo: Option<string>,
    createdAt: int)

  // ----- Field readers shared by the schemas -----

  /** A nullable optional text column: absent, `null` or a string; anything else is rejected. */
  function NullableText(v: Option<JValue>): (r: Option<Field<string>>)
    ensures r == Some(Absent) <==> v.None?
    ensures r == Some(Null) <==> v == Some(JNull)
    ensures forall s :: r == Some(Given(s)) <==> v == Some(JStr(s))
  {
    match v
    case None => Some(Absent)
    case Some(JNull) => Some(Null)
    case Some(JStr(s)) => Some(Given(s))
    case Some(_) => None
  }

  /** `z.string().optional()`: absent or a string; `null` is rejected. */
  function OptionalText(v: Option<JValue>): (r: Option<Option<string>>)
    ensures r == Some(None) <==> v.None?
    ensures forall s :: r == Some(Some(s)) <==> v == Some(JStr(s))
  {
    match v
    case None => Some(None)
    case Some(JStr(s)) => Some(Some(s))
    case Some(_) => None
  }

  /** A string whose length lies in [lo, hi] (`z.string().min(lo).max(hi)`). */
  function BoundedText(v: Option<JValue>, lo: nat, hi: nat): (r: Option<string>)
    ensures r.Some? <==> exists s :: v == Some(JStr(s)) && lo <= |s| <= hi
    ensures r.Some? ==> v == Some(JStr(r.value))
  {
    match v
    case Some(JStr(s)) => if lo <= |s| <= hi then Some(s) else None
    case _ => None
  }

  /**
   * A string of at least one character: `z.string().min(1)`, and also what a handler keeps
   * of `value || undefined` for a text column (a non-empty string is written, anything falsy
   * leaves the column alone).
   */
  function NonEmptyText(v: Option<JValue>): (r: Option<string>)
    ensures r.Some? <==> exists s :: v == Some(JStr(s)) && s != []
    ensures r.Some? ==> v == Some(JStr(r.value))
  {
    match v
    case Some(JStr(s)) => if s != [] then Some(s) else None
    case _ => None
  }

  /** A number in [lo, hi] (`z.number().min(lo).max(hi)`). */
  function BoundedNumber(v: Option<JValue>, lo: real, hi: real): (r: Option<real>)
    ensures r.Some? <==> exists x :: v == Some(JNum(x)) && lo <= x <= hi
    ensures r.Some? ==> v == Some(JNum(r.value))
  {
    match v
    case Some(JNum(x)) => if lo <= x <= hi then Some(x) else None
    case _ => None
  }

  /** A hexadecimal digit, in either case. */
  predicate IsHexDigit(c: char)
  {
    ('0' <= c <= '9') || ('a' <= c <= 'f') || ('A' <= c <= 'F')
  }

  /** Where the 8-4-4-4-12 form of a uuid puts its dashes. */
  predicate IsUuidDash(i: int)
  {
    i == 8 || i == 13 || i == 18 || i == 23
  }

  /**
   * `z.string().uuid()`, the check drizzle-zod derives from a `uuid` column: 36 characters,
   * hexadecimal digits in groups of 8, 4, 4, 4 and 12 joined by '-'.
   */
  predicate IsUuid(s: string)
  {
    |s| == 36 && forall i :: 0 <= i < |s| ==> if IsUuidDash(i) then s[i] == '-' else IsHexDigit(s[i])
  }

  /** A nullable uuid column: absent, `null` or a string in uuid form. */
  predicate UuidField(f: Field<string>)
  {
    f.Given? ==> IsUuid(f.value)
  }

  /** A given string that is not a uuid. */
  predicate NonUuidText(v: Option<JValue>)
  {
    v.Some? && v.value.JStr? && !IsUuid(v.value.s)
  }

  /** A uuid in the usual lower-case form passes the check, and a short string does not. */
  lemma UuidExamples()
    ensures IsUuid("123e4567-e89b-12d3-a456-426614174000")
    ensures !IsUuid("not-a-uuid")
  {
    var u := "123e4567-e89b-12d3-a456-426614174000";
    forall i | 0 <= i < |u| ensures if IsUuidDash(i) then u[i] == '-' else IsHexDigit(u[i]) {
    }
  }

  /** `m` with `key` set as a nullable field is sent: omitted, `null` or a string. */
  function PutNullable(m: map<string, JValue>, key: string, f: Field<string>): (r: map<string, JValue>)
    ensures NullableText(Get(JObject(r), key)) == Some(f)
    ensures forall k :: k != key ==> Get(JObject(r), k) == Get(JObject(m - {key}), k)
  {
    match f
    case Absent => m - {key}
    case Null => m[key := JNull]
    case Given(s) => m[key := JStr(s)]
  }

  /** `m` with `key` set as an optional string is sent: omitted or a string. */
  function PutOptional(m: map<string, JValue>, key: string, o: Option<string>): (r: map<string, JValue>)
    ensures OptionalText(Get(JObject(r), key)) == Some(o)
    ensures forall k :: k != key ==> Get(JObject(r), k) == Get(JObject(m - {key}), k)
  {
    match o
    case None => m - {key}
    case Some(s) => m[key := JStr(s)]
  }

  // ----- insertRatingSchema -----

  /** Which copy of the schema validates the body. */
  datatype SchemaFile = SharedSchema | LegacySchema

  /** What `insertRatingSchema` keeps of a valid body. */
  datatype RatingInput = RatingInput(targetUserId: string, score: real, collegeId: Field<string>, status: Field<string>)

  function RatingKeys(file: SchemaFile): set<string>
  {
    {"targetUserId", "score", "collegeId"} + (if file == SharedSchema then {"status"} else {})
  }

  /** The columns the server computes itself and the schema omits. */
  const RatingOmitted: set<string> := {"id", "createdAt", "raterIdHash", "ipHash", "deviceHash"}

  /**
   * The bounds a parsed rating satisfies: a non-empty target, a score in [1, 10] and, in the
   * current schema where `college_id` is a uuid column, a college id in uuid form.
   */
  predicate ValidRatingInput(x: RatingInput, file: SchemaFile)
  {
    && |x.targetUserId| >= 1
    && 1.0 <= x.score <= 10.0
    && (file == SharedSchema ==> UuidField(x.collegeId))
    && (file == LegacySchema ==> x.status == Absent)
  }

  /** `insertRatingSchema.safeParse(body)`; unknown keys are stripped. */
  function ParseRating(body: JValue, file: SchemaFile): (r: Option<RatingInput>)
    ensures r.Some? ==> ValidRatingInput(r.value, file)
    ensures r.Some? ==> (body.JObject?
      && Get(body, "targetUserId") == Some(JStr(r.value.targetUserId))
      && Get(body, "score") == Some(JNum(r.value.score)))
  {
    if !body.JObject? then None
    else
      var target := NonEmptyText(Get(body, "targetUserId"));
      var score := BoundedNumber(Get(body, "score"), 1.0, 10.0);
      var college := NullableText(Get(body, "collegeId"));
      var status := if file == SharedSchema then NullableText(Get(body, "status")) else Some(Absent);
      if target.Some? && score.Some? && college.Some? && status.Some?
        && (file == SharedSchema ==> UuidField(college.value))
      then
        Some(RatingInput(target.value, score.value, college.value, status.value))
      else None
  }

  /** A body a client could send for the rating `x`. */
  function EncodeRating(x: RatingInput): JValue
  {
    var m := map["targetUserId" := JStr(x.targetUserId), "score" := JNum(x.score)];
    JObject(PutNullable(PutNullable(m, "collegeId", x.collegeId), "status", x.status))
  }

  /** Every rating within the bounds survives encoding and validation unchanged. */
  lemma RatingRoundTrip(x: RatingInput, file: SchemaFile)
    requires ValidRatingInput(x, file)
    ensures ParseRating(EncodeRating(x), file) == Some(x)
  {
    var body := EncodeRating(x);
    assert Get(body, "targetUserId") == Some(JStr(x.targetUserId));
    assert Get(body, "score") == Some(JNum(x.score));
    assert NullableText(Get(body, "collegeId")) == Some(x.collegeId);
    assert NullableText(Get(body, "status")) == Some(x.status);
  }

  /** A string target id and a numeric score that break the bounds are rejected. */
  lemma RatingBoundsRejected(fields: map<string, JValue>, file: SchemaFile)
    requires "targetUserId" in fields && "score" in fields
    requires fields["targetUserId"] == JStr("") || (fields["score"].JNum? && !(1.0 <= fields["score"].n <= 10.0))
    ensures ParseRating(JObject(fields), file) == None
  {
  }

  /** Only the schema's own keys matter: in particular the server-computed columns cannot be set. */
  lemma RatingIgnoresOtherKeys(fields: map<string, JValue>, file: SchemaFile)
    ensures ParseRating(JObject(fields), file) == ParseRating(JObject(Restrict(fields, RatingKeys(file))), file)
    ensures RatingOmitted !! RatingKeys(file)
  {
    var g := Restrict(fields, RatingKeys(file));
    assert Get(JObject(fields), "targetUserId") == Get(JObject(g), "targetUserId");
    assert Get(JObject(fields), "score") == Get(JObject(g), "score");
    assert Get(JObject(fields), "collegeId") == Get(JObject(g), "collegeId");
    if file == SharedSchema {
      assert Get(JObject(fields), "status") == Get(JObject(g), "status");
    }
  }

  /**
   * The two schema copies accept the same target ids and scores: whatever the current schema
   * accepts, the older one accepts too. On a body without `status` they agree exactly unless
   * the college id is a string that is not a uuid, which only the current schema refuses.
   */
  lemma RatingSchemasAgree(body: JValue)
    ensures var shared := ParseRating(body, SharedSchema);
      var legacy := ParseRating(body, LegacySchema);
      && (shared.Some? ==> legacy == Some(shared.value.(status := Absent)))
      && (Get(body, "status").None? && !NonUuidText(Get(body, "collegeId")) ==> shared == legacy)
      && (NonUuidText(Get(body, "collegeId")) ==> shared.None?)
  {
  }

  /** A body the older schema accepts and the current one refuses, for its college id alone. */
  lemma RatingSchemasDisagree()
    ensures var body := JObject(map["targetUserId" := JStr("t"), "score" := JNum(5.0), "collegeId" := JStr("not-a-uuid")]);
      && ParseRating(body, SharedSchema).None?
      && ParseRating(body, LegacySchema) == Some(RatingInput("t", 5.0, Given("not-a-uuid"), Absent))
  {
    var body := JObject(map["targetUserId" := JStr("t"), "score" := JNum(5.0), "collegeId" := JStr("not-a-uuid")]);
    assert Get(body, "targetUserId") == Some(JStr("t"));
    assert Get(body, "score") == Some(JNum(5.0));
    assert Get(body, "collegeId") == Some(JStr("not-a-uuid"));
  }

  // ----- insertAppealSchema -----

  datatype AppealInput = AppealInput(userId: string, ratingId: Field<string>, reason: string, description: string)

  const AppealKeys: set<string> := {"userId", "ratingId", "reason", "description"}
  /** Columns the client cannot set: the review fields, the status and the generated ones. */
  const AppealOmitted: set<string> := {"id", "createdAt", "status", "reviewedBy", "reviewedAt"}

  /** A listed reason, a description of 10..500 characters, and uuids for the two id columns. */
  predicate ValidAppealInput(x: AppealInput)
  {
    && x.reason in AppealReasons && 10 <= |x.description| <= 500
    && IsUuid(x.userId) && UuidField(x.ratingId)
  }

  function ParseAppeal(body: JValue): (r: Option<AppealInput>)
    ensures r.Some? ==> ValidAppealInput(r.value) && body.JObject?
  {
    if !body.JObject? then None
    else
      var user := Get(body, "userId");
      var rating := NullableText(Get(body, "ratingId"));
      var reason := Get(body, "reason");
      var description := BoundedText(Get(body, "description"), 10, 500);
      if user.Some? && user.value.JStr? && IsUuid(user.value.s) && rating.Some? && UuidField(rating.value)
        && reason.Some? && reason.value.JStr? && reason.value.s in AppealReasons && description.Some?
      then Some(AppealInput(user.value.s, rating.value, reason.value.s, description.value))
      else None
  }

  function EncodeAppeal(x: AppealInput): JValue
  {
    var m := map["userId" := JStr(x.userId), "reason" := JStr(x.reason), "description" := JStr(x.description)];
    JObject(PutNullable(m, "ratingId", x.ratingId))
  }

  lemma AppealRoundTrip(x: AppealInput)
    requires ValidAppealInput(x)
    ensures ParseAppeal(EncodeAppeal(x)) == Some(x)
  {
    var body := EncodeAppeal(x);
    assert Get(body, "userId") == Some(JStr(x.userId));
    assert Get(body, "reason") == Some(JStr(x.reason));
    assert Get(body, "description") == Some(JStr(x.description));
    assert NullableText(Get(body, "ratingId")) == Some(x.ratingId);
  }

  /** An appellant or rating id that is not a uuid is refused. */
  lemma AppealNonUuidRejected(fields: map<string, JValue>)
    requires NonUuidText(Get(JObject(fields), "userId")) || NonUuidText(Get(JObject(fields), "ratingId"))
    ensures ParseAppeal(JObject(fields)) == None
  {
  }

  lemma AppealIgnoresOtherKeys(fields: map<string, JValue>)
    ensures ParseAppeal(JObject(fields)) == ParseAppeal(JObject(Restrict(fields, AppealKeys)))
    ensures AppealOmitted !! AppealKeys
  {
    var g := Restrict(fields, AppealKeys);
    assert Get(JObject(fields), "userId") == Get(JObject(g), "userId");
    assert Get(JObject(fields), "ratingId") == Get(JObject(g), "ratingId");
    assert Get(JObject(fields), "reason") == Get(JObject(g), "reason");
    assert Get(JObject(fields), "description") == Get(JObject(g), "description");
  }

  // ----- insertFeedbackSchema -----

  datatype FeedbackInput = FeedbackInput(
    kind: string,
    category: Option<string>,
    title: string,
    description: string,
    rating: Option<real>,
    deviceInfo: Option<string>)

  const FeedbackKeys: set<string> := {"type", "category", "title", "description", "rating", "deviceInfo"}
  const FeedbackOmitted: set<string> := {"id", "userId", "createdAt", "updatedAt", "status", "priority"}

  predicate ValidFeedbackInput(x: FeedbackInput)
  {
    && x.kind in FeedbackTypes
    && 5 <= |x.title| <= 100
    && 10 <= |x.description| <= 1000
    && (x.rating.Some? ==> 1.0 <= x.rating.value <= 5.0)
  }

  function ParseFeedback(body: JValue): (r: Option<FeedbackInput>)
    ensures r.Some? ==> ValidFeedbackInput(r.value) && body.JObject?
  {
    if !body.JObject? then None
    else
      var kind := Get(body, "type");
      var category := OptionalText(Get(body, "category"));
      var title := BoundedText(Get(body, "title"), 5, 100);
      var description := BoundedText(Get(body, "description"), 10, 1000);
      var ratingValue := Get(body, "rating");
      var rating := if ratingValue.None? then Some(None)
        else match BoundedNumber(ratingValue, 1.0, 5.0)
          case Some(x) => Some(Some(x))
          case None => None;
      var device := OptionalText(Get(body, "deviceInfo"));
      if kind.Some? && kind.value.JStr? && kind.value.s in FeedbackTypes
        && category.Some? && title.Some? && description.Some? && rating.Some? && device.Some?
      then Some(FeedbackInput(kind.value.s, category.value, title.value, description.value, rating.value, device.value))
      else None
  }

  function EncodeFeedback(x: FeedbackInput): JValue
  {
    var m := map["type" := JStr(x.kind), "title" := JStr(x.title), "description" := JStr(x.description)];
    var m' := PutOptional(PutOptional(m, "category", x.category), "deviceInfo", x.deviceInfo);
    JObject(match x.rating case None => m' case Some(v) => m'["rating" := JNum(v)])
  }

  /** What each schema key of an encoded feedback body reads as. */
  lemma EncodedFeedbackFields(x: FeedbackInput)
    ensures var body := EncodeFeedback(x);
      && Get(body, "type") == Some(JStr(x.kind))
      && Get(body, "title") == Some(JStr(x.title))
      && Get(body, "description") == Some(JStr(x.description))
      && OptionalText(Get(body, "category")) == Some(x.category)
      && OptionalText(Get(body, "deviceInfo")) == Some(x.deviceInfo)
      && Get(body, "rating") == (match x.rating case None => None case Some(v) => Some(JNum(v)))
  {
    var m := map["type" := JStr(x.kind), "title" := JStr(x.title), "description" := JStr(x.description)];
    var m' := PutOptional(PutOptional(m, "category", x.category), "deviceInfo", x.deviceInfo);
    assert Get(JObject(m'), "type") == Some(JStr(x.kind));
    assert Get(JObject(m'), "title") == Some(JStr(x.title));
    assert Get(JObject(m'), "description") == Some(JStr(x.description));
    assert OptionalText(Get(JObject(m'), "category")) == Some(x.category);
  }

  lemma FeedbackRoundTrip(x: FeedbackInput)
    requires ValidFeedbackInput(x)
    ensures ParseFeedback(EncodeFeedback(x)) == Some(x)
  {
    EncodedFeedbackFields(x);
  }

  /** Unlike a nullable column, an explicit `null` rating or category is rejected. */
  lemma FeedbackNullRejected(fields: map<string, JValue>)
    requires ("rating" in fields && fields["rating"] == JNull) || ("category" in fields && fields["category"] == JNull)
    ensures ParseFeedback(JObject(fields)) == None
  {
  }

  lemma FeedbackIgnoresOtherKeys(fields: map<string, JValue>)
    ensures ParseFeedback(JObject(fields)) == ParseFeedback(JObject(Restrict(fields, FeedbackKeys)))
    ensures FeedbackOmitted !! FeedbackKeys
  {
    var a, b := JObject(fields), JObject(Restrict(fields, FeedbackKeys));
    assert Get(a, "type") == Get(b, "type");
    assert Get(a, "category") == Get(b, "category");
    assert Get(a, "title") == Get(b, "title");
    assert Get(a, "description") == Get(b, "description");
    assert Get(a, "rating") == Get(b, "rating");
    assert Get(a, "deviceInfo") == Get(b, "deviceInfo");
    FeedbackSameFields(a, b);
  }

  /** Two objects that agree on the schema's keys parse alike. */
  lemma FeedbackSameFields(a: JValue, b: JValue)
    requires a.JObject? && b.JObject?
    requires Get(a, "type") == Get(b, "type") && Get(a, "category") == Get(b, "category")
    requires Get(a, "title") == Get(b, "title") && Get(a, "description") == Get(b, "description")
    requires Get(a, "rating") == Get(b, "rating") && Get(a, "deviceInfo") == Get(b, "deviceInfo")
    ensures ParseFeedback(a) == ParseFeedback(b)
  {
  }
}
