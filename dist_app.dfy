/**
 * dist/app.js, the older compiled build of the same service: POST and PUT
 * with its weaker validation (no length limits; on update no check of
 * publicationDate or canBeDownloaded). GET, DELETE and the reset route
 * are the same code as in src/app.ts and are the members of module
 * Handlers.
 */
module DistApp {
  import opened Wrappers
  import opened Js
  import opened Db
  import opened Videos
  import opened Http
  import opened Handlers

  // ----- POST /videos -----

  /** The errors a create request can draw from this build. */
  const DistCreateViolations: set<Violation> := {TitleRequired, AuthorRequired, ResolutionsRequired}

  /** A create body passes: non-blank title, non-blank author, non-empty resolutions array; no length limits. */
  predicate DistCreateAccepted(body: Payload) {
    && IsText(body.title)
    && IsText(body.author)
    && IsNonEmptyArray(body.availableResolutions)
  }

  /** `errors` is what POST /videos of this build reports for `body`: in checking order, each error present exactly when its rule fails. */
  predicate DistCreateReport(body: Payload, errors: seq<Violation>) {
    && Ascending(errors)
    && (forall v :: v in errors ==> v in DistCreateViolations)
    && (TitleRequired in errors <==> !IsText(body.title))
    && (AuthorRequired in errors <==> !IsText(body.author))
    && (ResolutionsRequired in errors <==> !IsNonEmptyArray(body.availableResolutions))
  }

  /** A body has one create report only. */
  lemma DistCreateReportIsUnique(body: Payload, a: seq<Violation>, b: seq<Violation>)
    requires DistCreateReport(body, a) && DistCreateReport(body, b)
    ensures a == b
  {
    SameMembersSameList(a, b);
  }

  /** The create report is empty exactly when the body passes. */
  lemma DistCreateReportEmptyIff(body: Payload, errors: seq<Violation>)
    requires DistCreateReport(body, errors)
    ensures errors == [] <==> DistCreateAccepted(body)
  {
    if errors != [] {
      assert errors[0] in errors;
    }
  }

  /** The list the three checks of POST /videos build, given how each came out. */
  function DistCreatePushes(titleMissing: bool, authorMissing: bool, resolutionsMissing: bool): seq<Violation> {
    var e1 := PushIf([], titleMissing, TitleRequired);
    var e2 := PushIf(e1, authorMissing, AuthorRequired);
    PushIf(e2, resolutionsMissing, ResolutionsRequired)
  }

  /** The list the checks of POST /videos build for `body`. */
  function DistCreateErrors(body: Payload): seq<Violation> {
    DistCreatePushes(MissingText(body.title), MissingText(body.author), !IsNonEmptyArray(body.availableResolutions))
  }

  /** Whatever the checks decide, the pushes come out in checking order. */
  lemma DistCreatePushesInOrder(titleMissing: bool, authorMissing: bool, resolutionsMissing: bool)
    ensures Ascending(DistCreatePushes(titleMissing, authorMissing, resolutionsMissing))
  {
    PushIfInCheckingOrder([], titleMissing, TitleRequired);
    var e1 := PushIf([], titleMissing, TitleRequired);
    PushIfInCheckingOrder(e1, authorMissing, AuthorRequired);
    var e2 := PushIf(e1, authorMissing, AuthorRequired);
    PushIfInCheckingOrder(e2, resolutionsMissing, ResolutionsRequired);
    InCheckingOrderAscends(PushIf(e2, resolutionsMissing, ResolutionsRequired));
  }

  /** Each error is in the list exactly when its check failed, and no other error is. */
  lemma DistCreatePushesMembers(titleMissing: bool, authorMissing: bool, resolutionsMissing: bool)
    ensures var e := DistCreatePushes(titleMissing, authorMissing, resolutionsMissing);
      && (forall v :: v in e ==> v in DistCreateViolations)
      && (TitleRequired in e <==> titleMissing)
      && (AuthorRequired in e <==> authorMissing)
      && (ResolutionsRequired in e <==> resolutionsMissing)
  {
    var e1 := PushIf([], titleMissing, TitleRequired);
    PushIfMembers([], titleMissing, TitleRequired);
    var e2 := PushIf(e1, authorMissing, AuthorRequired);
    PushIfMembers(e1, authorMissing, AuthorRequired);
    PushIfMembers(e2, resolutionsMissing, ResolutionsRequired);
  }

  /** What the checks build is the create report of the body. */
  lemma DistCreateErrorsAreTheReport(body: Payload)
    ensures DistCreateReport(body, DistCreateErrors(body))
  {
    DistCreatePushesInOrder(MissingText(body.title), MissingText(body.author), !IsNonEmptyArray(body.availableResolutions));
    DistCreatePushesMembers(MissingText(body.title), MissingText(body.author), !IsNonEmptyArray(body.availableResolutions));
  }

  /** The checks of POST /videos in this build, each pushing its error in turn. */
  method DistValidateCreate(body: Payload) returns (errors: seq<Violation>)
    ensures errors == DistCreateErrors(body)
    ensures DistCreateReport(body, errors)
  {
    var title, author, availableResolutions := body.title, body.author, body.availableResolutions;
    errors := [];
    if MissingText(title) {
      errors := errors + [TitleRequired];
    }
    if MissingText(author) {
      errors := errors + [AuthorRequired];
    }
    if !availableResolutions.Arr? || |availableResolutions.items| == 0 {
      errors := errors + [ResolutionsRequired];
    }
    DistCreateErrorsAreTheReport(body);
  }

  /**
   * POST /videos of this build. On any validation error the store is left
   * as it was; otherwise exactly one record is appended, with the next id,
   * the supplied title, author and resolutions, and the server defaults.
   */
  method DistPostVideo(db: Store, body: Payload, now: string, tomorrow: string) returns (res: Response)
    modifies db
    ensures !DistCreateAccepted(body) ==>
      res == BadRequest(DistCreateErrors(body)) && res.errors != [] && DistCreateReport(body, res.errors) && db.videos == old(db.videos)
    ensures DistCreateAccepted(body) ==>
      && res.Created?
      && db.videos == old(db.videos) + [res.video]
      && res.video.id == NextId(old(db.videos))
      && Str(res.video.title) == body.title
      && Str(res.video.author) == body.author
      && Arr(res.video.availableResolutions) == body.availableResolutions
      && res.video.canBeDownloaded == Bool(false)
      && res.video.minAgeRestriction == Null
      && res.video.createdAt == now
      && res.video.publicationDate == Str(tomorrow)
    ensures IdsIncreasing(old(db.videos)) ==> IdsIncreasing(db.videos)
    ensures (forall v | v in old(db.videos) :: TypedFlags(v)) ==> forall v | v in db.videos :: TypedFlags(v)
  {
    var errors := DistValidateCreate(body);
    DistCreateReportEmptyIff(body, errors);
    if |errors| > 0 {
      return BadRequest(errors);
    }

    var newVideo := NewVideo(db.videos, body.title.s, body.author.s, body.availableResolutions.items, now, tomorrow);
    if IdsIncreasing(db.videos) {
      AppendKeepsIdsIncreasing(db.videos, newVideo);
    }
    db.videos := db.videos + [newVideo];
    res := Created(newVideo);
  }

  // ----- PUT /videos/:id -----

  /** The errors an update request can draw from this build; the title error is the create one. */
  const DistUpdateViolations: set<Violation> := {TitleRequired, AuthorRequired, ResolutionsRequired, MinAgeInvalid}

  /** An update body passes: non-blank title and author, non-empty resolutions array, an accepted age limit. */
  predicate DistUpdateAccepted(body: Payload) {
    && IsText(body.title)
    && IsText(body.author)
    && IsNonEmptyArray(body.availableResolutions)
    && AcceptedAgeLimit(body.minAgeRestriction)
  }

  /** `errors` is what PUT /videos/:id of this build reports for `body`. */
  predicate DistUpdateReport(body: Payload, errors: seq<Violation>) {
    && Ascending(errors)
    && (forall v :: v in errors ==> v in DistUpdateViolations)
    && (TitleRequired in errors <==> !IsText(body.title))
    && (AuthorRequired in errors <==> !IsText(body.author))
    && (ResolutionsRequired in errors <==> !IsNonEmptyArray(body.availableResolutions))
    && (MinAgeInvalid in errors <==> !AcceptedAgeLimit(body.minAgeRestriction))
  }

  /** A body has one update report only. */
  lemma DistUpdateReportIsUnique(body: Payload, a: seq<Violation>, b: seq<Violation>)
    requires DistUpdateReport(body, a) && DistUpdateReport(body, b)
    ensures a == b
  {
    SameMembersSameList(a, b);
  }

  /** The update report is empty exactly when the body passes. */
  lemma DistUpdateReportEmptyIff(body: Payload, errors: seq<Violation>)
    requires DistUpdateReport(body, errors)
    ensures errors == [] <==> DistUpdateAccepted(body)
  {
    if errors != [] {
      assert errors[0] in errors;
    }
  }

  /** The list the four checks of PUT /videos/:id build, given how each came out. */
  function DistUpdatePushes(titleMissing: bool, authorMissing: bool, resolutionsMissing: bool, ageInvalid: bool): seq<Violation> {
    var e1 := PushIf([], titleMissing, TitleRequired);
    var e2 := PushIf(e1, authorMissing, AuthorRequired);
    var e3 := PushIf(e2, resolutionsMissing, ResolutionsRequired);
    PushIf(e3, ageInvalid, MinAgeInvalid)
  }

  /** The list the checks of PUT /videos/:id build for `body`. */
  function DistUpdateErrors(body: Payload): seq<Violation> {
    DistUpdatePushes(MissingText(body.title), MissingText(body.author),
                     !IsNonEmptyArray(body.availableResolutions), !AcceptedAgeLimit(body.minAgeRestriction))
  }

  /** Whatever the checks decide, the pushes come out in checking order. */
  lemma DistUpdatePushesInOrder(titleMissing: bool, authorMissing: bool, resolutionsMissing: bool, ageInvalid: bool)
    ensures Ascending(DistUpdatePushes(titleMissing, authorMissing, resolutionsMissing, ageInvalid))
  {
    PushIfInCheckingOrder([], titleMissing, TitleRequired);
    var e1 := PushIf([], titleMissing, TitleRequired);
    PushIfInCheckingOrder(e1, authorMissing, AuthorRequired);
    var e2 := PushIf(e1, authorMissing, AuthorRequired);
    PushIfInCheckingOrder(e2, resolutionsMissing, ResolutionsRequired);
    var e3 := PushIf(e2, resolutionsMissing, ResolutionsRequired);
    PushIfInCheckingOrder(e3, ageInvalid, MinAgeInvalid);
    InCheckingOrderAscends(PushIf(e3, ageInvalid, MinAgeInvalid));
  }

  /** Each error is in the list exactly when its check failed, and no other error is. */
  lemma DistUpdatePushesMembers(titleMissing: bool, authorMissing: bool, resolutionsMissing: bool, ageInvalid: bool)
    ensures var e := DistUpdatePushes(titleMissing, authorMissing, resolutionsMissing, ageInvalid);
      && (forall v :: v in e ==> v in DistUpdateViolations)
      && (TitleRequired in e <==> titleMissing)
      && (AuthorRequired in e <==> authorMissing)
      && (ResolutionsRequired in e <==> resolutionsMissing)
      && (MinAgeInvalid in e <==> ageInvalid)
  {
    var e1 := PushIf([], titleMissing, TitleRequired);
    PushIfMembers([], titleMissing, TitleRequired);
    var e2 := PushIf(e1, authorMissing, AuthorRequired);
    PushIfMembers(e1, authorMissing, AuthorRequired);
    var e3 := PushIf(e2, resolutionsMissing, ResolutionsRequired);
    PushIfMembers(e2, resolutionsMissing, ResolutionsRequired);
    PushIfMembers(e3, ageInvalid, MinAgeInvalid);
  }

  /** What the checks build is the update report of the body. */
  lemma DistUpdateErrorsAreTheReport(body: Payload)
    ensures DistUpdateReport(body, DistUpdateErrors(body))
  {
    DistUpdatePushesInOrder(MissingText(body.title), MissingText(body.author),
                            !IsNonEmptyArray(body.availableResolutions), !AcceptedAgeLimit(body.minAgeRestriction));
    DistUpdatePushesMembers(MissingText(body.title), MissingText(body.author),
                            !IsNonEmptyArray(body.availableResolutions), !AcceptedAgeLimit(body.minAgeRestriction));
  }

  /** The checks of PUT /videos/:id in this build, each pushing its error in turn. */
  method DistValidateUpdate(body: Payload) returns (errors: seq<Violation>)
    ensures errors == DistUpdateErrors(body)
    ensures DistUpdateReport(body, errors)
  {
    var title, author, availableResolutions, minAgeRestriction := body.title, body.author, body.availableResolutions, body.minAgeRestriction;
    errors := [];
    if MissingText(title) {
      errors := errors + [TitleRequired];
    }
    if MissingText(author) {
      errors := errors + [AuthorRequired];
    }
    if !availableResolutions.Arr? || |availableResolutions.items| == 0 {
      errors := errors + [ResolutionsRequired];
    }
    if minAgeRestriction != Null && (!minAgeRestriction.Num? || minAgeRestriction.n < 1.0 || minAgeRestriction.n > 18.0) {
      errors := errors + [MinAgeInvalid];
    }
    DistUpdateErrorsAreTheReport(body);
  }

  /**
   * PUT /videos/:id of this build. An unknown id is 404 before any
   * validation; a validation error is 400; in both cases the store is
   * unchanged. Otherwise the matched record is rewritten in place with the
   * same merge as src/app.ts.
   */
  method DistPutVideo(db: Store, videoId: Option<int>, body: Payload) returns (res: Response)
    modifies db
    ensures FindIndex(old(db.videos), videoId) == -1 ==> res == NotFound && db.videos == old(db.videos)
    ensures FindIndex(old(db.videos), videoId) != -1 && !DistUpdateAccepted(body) ==>
      res == BadRequest(DistUpdateErrors(body)) && res.errors != [] && DistUpdateReport(body, res.errors) && db.videos == old(db.videos)
    ensures FindIndex(old(db.videos), videoId) != -1 && DistUpdateAccepted(body) ==>
      var k := FindIndex(old(db.videos), videoId);
      && res == NoContent
      && db.videos == old(db.videos)[k := Updated(old(db.videos)[k], body.title.s, body.author.s, body.availableResolutions.items, body)]
    ensures IdsIncreasing(old(db.videos)) ==> IdsIncreasing(db.videos)
  {
    var videoIndex := FindIndex(db.videos, videoId);
    if videoIndex == -1 {
      return NotFound;
    }

    var errors := DistValidateUpdate(body);
    DistUpdateReportEmptyIff(body, errors);
    if |errors| > 0 {
      return BadRequest(errors);
    }

    var current := db.videos[videoIndex];
    var updatedVideo := Updated(current, body.title.s, body.author.s, body.availableResolutions.items, body);
    if IdsIncreasing(db.videos) {
      OverwriteKeepsIdsIncreasing(db.videos, videoIndex, updatedVideo);
    }
    db.videos := db.videos[videoIndex := updatedVideo];
    res := NoContent;
  }

  // ----- what the weaker rules let through -----

  /**
   * The age limit is checked on update in this build too, so an accepted
   * update keeps a stored age limit null or between 1 and 18.
   */
  lemma DistUpdateKeepsAgeLimit(current: Video, title: string, author: string, resolutions: seq<JsonValue>, body: Payload)
    requires AcceptedAgeLimit(current.minAgeRestriction)
    requires DistUpdateAccepted(body)
    ensures AcceptedAgeLimit(Updated(current, title, author, resolutions, body).minAgeRestriction)
  {
  }

  /**
   * This build never checks `canBeDownloaded` on update: any record, sent
   * the string "yes", stores the string (a truthy value wins the merge
   * whatever is stored), so the download flag is no longer a boolean.
   */
  lemma DistStoresNonBooleanFlag(current: Video)
    ensures var body := Payload(Str("Ocean"), Str("Jane Doe"), Arr([Str("P720")]), Str("yes"), Null, Absent);
      && DistUpdateAccepted(body)
      && Updated(current, "Ocean", "Jane Doe", [Str("P720")], body).canBeDownloaded == Str("yes")
      && !TypedFlags(Updated(current, "Ocean", "Jane Doe", [Str("P720")], body))
  {
    FirstCharMakesText("Ocean");
    FirstCharMakesText("Jane Doe");
  }

  /** Nor does it check `publicationDate`: any truthy value, parseable or not, replaces the stored one. */
  lemma DistStoresAnyPublicationDate(current: Video, date: JsonValue)
    requires Truthy(date)
    ensures var body := Payload(Str("Ocean"), Str("Jane Doe"), Arr([Str("P720")]), Bool(true), Null, date);
      && DistUpdateAccepted(body)
      && Updated(current, "Ocean", "Jane Doe", [Str("P720")], body).publicationDate == date
  {
    FirstCharMakesText("Ocean");
    FirstCharMakesText("Jane Doe");
  }
}
