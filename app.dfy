/**
 * src/app.ts: the validation rules of POST /videos and PUT /videos/:id and
 * the two handlers that apply them to the store.
 */
module App {
  import opened Wrappers
  import opened Js
  import opened Db
  import opened Videos
  import opened Http
  import opened Handlers

  // ----- POST /videos -----

  /** The errors a create request can draw. */
  const CreateViolations: set<Violation> := {TitleRequired, TitleTooLong, AuthorRequired, ResolutionsRequired}

  /** A create body passes: non-blank title of at most 40 code units, non-blank author, non-empty resolutions array. */
  predicate CreateAccepted(body: Payload) {
    && IsText(body.title) && Utf16Length(body.title.s) <= 40
    && IsText(body.author)
    && IsNonEmptyArray(body.availableResolutions)
  }

  /**
   * `errors` is what POST /videos reports for `body`: in checking order,
   * at most one per field, and each error present exactly when its rule
   * fails. The title is either not a non-blank string or, failing only
   * that, longer than 40; the author has no length cap; the elements of the
   * resolutions array are not checked.
   */
  predicate CreateReport(body: Payload, errors: seq<Violation>) {
    && Ascending(errors)
    && (forall v :: v in errors ==> v in CreateViolations)
    && (TitleRequired in errors <==> !IsText(body.title))
    && (TitleTooLong in errors <==> IsText(body.title) && Utf16Length(body.title.s) > 40)
    && (AuthorRequired in errors <==> !IsText(body.author))
    && (ResolutionsRequired in errors <==> !IsNonEmptyArray(body.availableResolutions))
  }

  /** A body has one create report only. */
  lemma CreateReportIsUnique(body: Payload, a: seq<Violation>, b: seq<Violation>)
    requires CreateReport(body, a) && CreateReport(body, b)
    ensures a == b
  {
    SameMembersSameList(a, b);
  }

  /** The create report is empty exactly when the body passes. */
  lemma CreateReportEmptyIff(body: Payload, errors: seq<Violation>)
    requires CreateReport(body, errors)
    ensures errors == [] <==> CreateAccepted(body)
  {
    if errors != [] {
      assert errors[0] in errors;
    }
  }

  /**
   * The list the checks of POST /videos build, one conditional push per
   * check, given how each check came out; the length check only runs on a
   * present title.
   */
  function CreatePushes(titleMissing: bool, titleTooLong: bool, authorMissing: bool, resolutionsMissing: bool): seq<Violation> {
    var e1 := PushIf([], titleMissing, TitleRequired);
    var e2 := PushIf(e1, !titleMissing && titleTooLong, TitleTooLong);
    var e3 := PushIf(e2, authorMissing, AuthorRequired);
    PushIf(e3, resolutionsMissing, ResolutionsRequired)
  }

  /** The list the checks of POST /videos build for `body`. */
  function CreateErrors(body: Payload): seq<Violation> {
    CreatePushes(MissingText(body.title), body.title.Str? && Utf16Length(body.title.s) > 40,
                 MissingText(body.author), !IsNonEmptyArray(body.availableResolutions))
  }

  /** Whatever the checks decide, the pushes come out in checking order (neighbour by neighbour, hence throughout). */
  lemma CreatePushesInOrder(titleMissing: bool, titleTooLong: bool, authorMissing: bool, resolutionsMissing: bool)
    ensures Ascending(CreatePushes(titleMissing, titleTooLong, authorMissing, resolutionsMissing))
  {
    var e1 := PushIf([], titleMissing, TitleRequired);
    var e2 := PushIf(e1, !titleMissing && titleTooLong, TitleTooLong);
    if titleMissing {
      PushIfInCheckingOrder([], true, TitleRequired);
      assert e2 == e1;
    } else {
      PushIfInCheckingOrder([], titleTooLong, TitleTooLong);
    }
    PushIfInCheckingOrder(e2, authorMissing, AuthorRequired);
    var e3 := PushIf(e2, authorMissing, AuthorRequired);
    PushIfInCheckingOrder(e3, resolutionsMissing, ResolutionsRequired);
    InCheckingOrderAscends(PushIf(e3, resolutionsMissing, ResolutionsRequired));
  }

  /** Each error is in the list exactly when its check failed, and no other error is. */
  lemma CreatePushesMembers(titleMissing: bool, titleTooLong: bool, authorMissing: bool, resolutionsMissing: bool)
    ensures var e := CreatePushes(titleMissing, titleTooLong, authorMissing, resolutionsMissing);
      && (forall v :: v in e ==> v in CreateViolations)
      && (TitleRequired in e <==> titleMissing)
      && (TitleTooLong in e <==> !titleMissing && titleTooLong)
      && (AuthorRequired in e <==> authorMissing)
      && (ResolutionsRequired in e <==> resolutionsMissing)
  {
    var e1 := PushIf([], titleMissing, TitleRequired);
    PushIfMembers([], titleMissing, TitleRequired);
    var e2 := PushIf(e1, !titleMissing && titleTooLong, TitleTooLong);
    PushIfMembers(e1, !titleMissing && titleTooLong, TitleTooLong);
    var e3 := PushIf(e2, authorMissing, AuthorRequired);
    PushIfMembers(e2, authorMissing, AuthorRequired);
    PushIfMembers(e3, resolutionsMissing, ResolutionsRequired);
  }

  /** What the checks build is the create report of the body. */
  lemma CreateErrorsAreTheReport(body: Payload)
    ensures CreateReport(body, CreateErrors(body))
  {
    var titleTooLong := body.title.Str? && Utf16Length(body.title.s) > 40;
    CreatePushesInOrder(MissingText(body.title), titleTooLong, MissingText(body.author), !IsNonEmptyArray(body.availableResolutions));
    CreatePushesMembers(MissingText(body.title), titleTooLong, MissingText(body.author), !IsNonEmptyArray(body.availableResolutions));
  }

  /** The checks of POST /videos, each pushing its error in turn. */
  method ValidateCreate(body: Payload) returns (errors: seq<Violation>)
    ensures errors == CreateErrors(body)
    ensures CreateReport(body, errors)
  {
    var title, author, availableResolutions := body.title, body.author, body.availableResolutions;
    errors := [];
    if MissingText(title) {
      errors := errors + [TitleRequired];
    } else if Utf16Length(title.s) > 40 {
      errors := errors + [TitleTooLong];
    }
    if MissingText(author) {
      errors := errors + [AuthorRequired];
    }
    if !availableResolutions.Arr? || |availableResolutions.items| == 0 {
      errors := errors + [ResolutionsRequired];
    }
    CreateErrorsAreTheReport(body);
  }

  /**
   * POST /videos. On any validation error the store is left as it was;
   * otherwise exactly one record is appended, with the next id, the
   * supplied title, author and resolutions, and the server defaults.
   */
  method PostVideo(db: Store, body: Payload, now: string, tomorrow: string) returns (res: Response)
    modifies db
    ensures !CreateAccepted(body) ==>
      res == BadRequest(CreateErrors(body)) && res.errors != [] && CreateReport(body, res.errors) && db.videos == old(db.videos)
    ensures CreateAccepted(body) ==>
      && res.Created?
      && db.videos == old(db.videos) + [res.video]
      && res.video.id == NextId(old(db.videos))
      && Str(res.video.title) == body.title
      && Str(res.video.author) == body.author
      && Arr(res.video.availableResolutions) == body.availableResolutions
      && res.video.canBeDownloaded == Bool(false)
      && res.video.minAgeRestriction == Null
      && res.video.createdAt == now
      && res.video.publicationDate == Str(tomorrow)
    ensures IdsIncreasing(old(db.videos)) ==> IdsIncreasing(db.videos)
    ensures (forall v | v in old(db.videos) :: TypedFlags(v)) ==> forall v | v in db.videos :: TypedFlags(v)
  {
    var errors := ValidateCreate(body);
    CreateReportEmptyIff(body, errors);
    if |errors| > 0 {
      return BadRequest(errors);
    }

    var newVideo := NewVideo(db.videos, body.title.s, body.author.s, body.availableResolutions.items, now, tomorrow);
    if IdsIncreasing(db.videos) {
      AppendKeepsIdsIncreasing(db.videos, newVideo);
    }
    db.videos := db.videos + [newVideo];
    res := Created(newVideo);
  }

  // ----- PUT /videos/:id -----

  /** The errors an update request can draw. */
  const UpdateViolations: set<Violation> :=
    {TitleInvalid, AuthorRequired, AuthorTooLong, PublicationDateInvalid, ResolutionsRequired, MinAgeInvalid, CanBeDownloadedInvalid}

  /**
   * An update body passes: non-blank title of at most 40 code units,
   * non-blank author of at most 20, a falsy or parseable publication date,
   * non-empty resolutions array, an accepted age limit and a boolean
   * download flag.
   */
  predicate UpdateAccepted(body: Payload, isDate: JsonValue -> bool) {
    && IsText(body.title) && Utf16Length(body.title.s) <= 40
    && IsText(body.author) && Utf16Length(body.author.s) <= 20
    && (Truthy(body.publicationDate) ==> isDate(body.publicationDate))
    && IsNonEmptyArray(body.availableResolutions)
    && AcceptedAgeLimit(body.minAgeRestriction)
    && body.canBeDownloaded.Bool?
  }

  /**
   * `errors` is what PUT /videos/:id reports for `body`, in checking order
   * title, author, publicationDate, availableResolutions,
   * minAgeRestriction, canBeDownloaded, each error present exactly when its
   * rule fails. `isDate` is `!isNaN(Date.parse(v))`. A missing age limit
   * fails (it is not null); a missing publication date passes (it is falsy).
   */
  predicate UpdateReport(body: Payload, isDate: JsonValue -> bool, errors: seq<Violation>) {
    && Ascending(errors)
    && (forall v :: v in errors ==> v in UpdateViolations)
    && (TitleInvalid in errors <==> !IsText(body.title) || Utf16Length(body.title.s) > 40)
    && (AuthorRequired in errors <==> !IsText(body.author))
    && (AuthorTooLong in errors <==> IsText(body.author) && Utf16Length(body.author.s) > 20)
    && (PublicationDateInvalid in errors <==> Truthy(body.publicationDate) && !isDate(body.publicationDate))
    && (ResolutionsRequired in errors <==> !IsNonEmptyArray(body.availableResolutions))
    && (MinAgeInvalid in errors <==> !AcceptedAgeLimit(body.minAgeRestriction))
    && (CanBeDownloadedInvalid in errors <==> !body.canBeDownloaded.Bool?)
  }

  /** A body has one update report only. */
  lemma UpdateReportIsUnique(body: Payload, isDate: JsonValue -> bool, a: seq<Violation>, b: seq<Violation>)
    requires UpdateReport(body, isDate, a) && UpdateReport(body, isDate, b)
    ensures a == b
  {
    SameMembersSameList(a, b);
  }

  /** The update report is empty exactly when the body passes. */
  lemma UpdateReportEmptyIff(body: Payload, isDate: JsonValue -> bool, errors: seq<Violation>)
    requires UpdateReport(body, isDate, errors)
    ensures errors == [] <==> UpdateAccepted(body, isDate)
  {
    if errors != [] {
      assert errors[0] in errors;
    }
  }

  /**
   * The list the checks of PUT /videos/:id build, one conditional push per
   * check, given how each check came out; the author length check only
   * runs on a present author.
   */
  function UpdatePushes(titleInvalid: bool, authorMissing: bool, authorTooLong: bool, dateInvalid: bool,
                        resolutionsMissing: bool, ageInvalid: bool, flagInvalid: bool): seq<Violation> {
    var e1 := PushIf([], titleInvalid, TitleInvalid);
    var e2 := PushIf(e1, authorMissing, AuthorRequired);
    var e3 := PushIf(e2, !authorMissing && authorTooLong, AuthorTooLong);
    var e4 := PushIf(e3, dateInvalid, PublicationDateInvalid);
    var e5 := PushIf(e4, resolutionsMissing, ResolutionsRequired);
    var e6 := PushIf(e5, ageInvalid, MinAgeInvalid);
    PushIf(e6, flagInvalid, CanBeDownloadedInvalid)
  }

  /** The list the checks of PUT /videos/:id build for `body`. */
  function UpdateErrors(body: Payload, isDate: JsonValue -> bool): seq<Violation> {
    UpdatePushes(MissingText(body.title) || Utf16Length(body.title.s) > 40,
                 MissingText(body.author), body.author.Str? && Utf16Length(body.author.s) > 20,
                 Truthy(body.publicationDate) && !isDate(body.publicationDate),
                 !IsNonEmptyArray(body.availableResolutions),
                 !AcceptedAgeLimit(body.minAgeRestriction),
                 !body.canBeDownloaded.Bool?)
  }

  /** Whatever the checks decide, the pushes come out in checking order (neighbour by neighbour, hence throughout). */
  lemma UpdatePushesInOrder(titleInvalid: bool, authorMissing: bool, authorTooLong: bool, dateInvalid: bool,
                            resolutionsMissing: bool, ageInvalid: bool, flagInvalid: bool)
    ensures Ascending(UpdatePushes(titleInvalid, authorMissing, authorTooLong, dateInvalid, resolutionsMissing, ageInvalid, flagInvalid))
  {
    PushIfInCheckingOrder([], titleInvalid, TitleInvalid);
    var e1 := PushIf([], titleInvalid, TitleInvalid);
    var e2 := PushIf(e1, authorMissing, AuthorRequired);
    var e3 := PushIf(e2, !authorMissing && authorTooLong, AuthorTooLong);
    if authorMissing {
      PushIfInCheckingOrder(e1, true, AuthorRequired);
      assert e3 == e2;
    } else {
      PushIfInCheckingOrder(e1, authorTooLong, AuthorTooLong);
    }
    UpdateTailInOrder(e3, dateInvalid, resolutionsMissing, ageInvalid, flagInvalid);
  }

  /** The four pushes after the author check keep the checking order of what came before. */
  lemma UpdateTailInOrder(errors: seq<Violation>, dateInvalid: bool, resolutionsMissing: bool, ageInvalid: bool, flagInvalid: bool)
    requires InCheckingOrder(errors) && LastRankBelow(errors, PublicationDate.Rank())
    ensures Ascending(PushIf(PushIf(PushIf(PushIf(errors, dateInvalid, PublicationDateInvalid),
                                           resolutionsMissing, ResolutionsRequired),
                                    ageInvalid, MinAgeInvalid),
                             flagInvalid, CanBeDownloadedInvalid))
  {
    PushIfInCheckingOrder(errors, dateInvalid, PublicationDateInvalid);
    var e4 := PushIf(errors, dateInvalid, PublicationDateInvalid);
    PushIfInCheckingOrder(e4, resolutionsMissing, ResolutionsRequired);
    var e5 := PushIf(e4, resolutionsMissing, ResolutionsRequired);
    PushIfInCheckingOrder(e5, ageInvalid, MinAgeInvalid);
    var e6 := PushIf(e5, ageInvalid, MinAgeInvalid);
    PushIfInCheckingOrder(e6, flagInvalid, CanBeDownloadedInvalid);
    InCheckingOrderAscends(PushIf(e6, flagInvalid, CanBeDownloadedInvalid));
  }

  /** Each error is in the list exactly when its check failed, and no other error is. */
  lemma UpdatePushesMembers(titleInvalid: bool, authorMissing: bool, authorTooLong: bool, dateInvalid: bool,
                            resolutionsMissing: bool, ageInvalid: bool, flagInvalid: bool)
    ensures var e := UpdatePushes(titleInvalid, authorMissing, authorTooLong, dateInvalid, resolutionsMissing, ageInvalid, flagInvalid);
      && (forall v :: v in e ==> v in UpdateViolations)
      && (TitleInvalid in e <==> titleInvalid)
      && (AuthorRequired in e <==> authorMissing)
      && (AuthorTooLong in e <==> !authorMissing && authorTooLong)
      && (PublicationDateInvalid in e <==> dateInvalid)
      && (ResolutionsRequired in e <==> resolutionsMissing)
      && (MinAgeInvalid in e <==> ageInvalid)
      && (CanBeDownloadedInvalid in e <==> flagInvalid)
  {
    UpdatePushesOnly(titleInvalid, authorMissing, authorTooLong, dateInvalid, resolutionsMissing, ageInvalid, flagInvalid);
  }

  /** The list holds nothing but update errors, each pushed by its own failed check. */
  lemma UpdatePushesOnly(titleInvalid: bool, authorMissing: bool, authorTooLong: bool, dateInvalid: bool,
                         resolutionsMissing: bool, ageInvalid: bool, flagInvalid: bool)
    ensures var e := UpdatePushes(titleInvalid, authorMissing, authorTooLong, dateInvalid, resolutionsMissing, ageInvalid, flagInvalid);
      forall v :: v in e <==>
        || (v == TitleInvalid && titleInvalid)
        || (v == AuthorRequired && authorMissing)
        || (v == AuthorTooLong && !authorMissing && authorTooLong)
        || (v == PublicationDateInvalid && dateInvalid)
        || (v == ResolutionsRequired && resolutionsMissing)
        || (v == MinAgeInvalid && ageInvalid)
        || (v == CanBeDownloadedInvalid && flagInvalid)
  {
    var e1 := PushIf([], titleInvalid, TitleInvalid);
    PushIfMembers([], titleInvalid, TitleInvalid);
    var e2 := PushIf(e1, authorMissing, AuthorRequired);
    PushIfMembers(e1, authorMissing, AuthorRequired);
    var e3 := PushIf(e2, !authorMissing && authorTooLong, AuthorTooLong);
    PushIfMembers(e2, !authorMissing && authorTooLong, AuthorTooLong);
    var e4 := PushIf(e3, dateInvalid, PublicationDateInvalid);
    PushIfMembers(e3, dateInvalid, PublicationDateInvalid);
    var e5 := PushIf(e4, resolutionsMissing, ResolutionsRequired);
    PushIfMembers(e4, resolutionsMissing, ResolutionsRequired);
    var e6 := PushIf(e5, ageInvalid, MinAgeInvalid);
    PushIfMembers(e5, ageInvalid, MinAgeInvalid);
    PushIfMembers(e6, flagInvalid, CanBeDownloadedInvalid);
  }

  /** What the checks build is the update report of the body. */
  lemma UpdateErrorsAreTheReport(body: Payload, isDate: JsonValue -> bool)
    ensures UpdateReport(body, isDate, UpdateErrors(body, isDate))
  {
    UpdateErrorsInOrder(body, isDate);
    UpdateErrorsMembers(body, isDate);
  }

  /** The update errors of a body come in checking order. */
  lemma UpdateErrorsInOrder(body: Payload, isDate: JsonValue -> bool)
    ensures Ascending(UpdateErrors(body, isDate))
  {
    var titleInvalid := MissingText(body.title) || Utf16Length(body.title.s) > 40;
    var authorTooLong := body.author.Str? && Utf16Length(body.author.s) > 20;
    var dateInvalid := Truthy(body.publicationDate) && !isDate(body.publicationDate);
    UpdatePushesInOrder(titleInvalid, MissingText(body.author), authorTooLong, dateInvalid,
                        !IsNonEmptyArray(body.availableResolutions), !AcceptedAgeLimit(body.minAgeRestriction), !body.canBeDownloaded.Bool?);
  }

  /** The update errors of a body are those of its failed rules. */
  lemma UpdateErrorsMembers(body: Payload, isDate: JsonValue -> bool)
    ensures var e := UpdateErrors(body, isDate);
      && (forall v :: v in e ==> v in UpdateViolations)
      && (TitleInvalid in e <==> !IsText(body.title) || Utf16Length(body.title.s) > 40)
      && (AuthorRequired in e <==> !IsText(body.author))
      && (AuthorTooLong in e <==> IsText(body.author) && Utf16Length(body.author.s) > 20)
      && (PublicationDateInvalid in e <==> Truthy(body.publicationDate) && !isDate(body.publicationDate))
      && (ResolutionsRequired in e <==> !IsNonEmptyArray(body.availableResolutions))
      && (MinAgeInvalid in e <==> !AcceptedAgeLimit(body.minAgeRestriction))
      && (CanBeDownloadedInvalid in e <==> !body.canBeDownloaded.Bool?)
  {
    UpdateErrorsOnlyUpdateViolations(body, isDate);
    UpdateErrorsTextMembers(body, isDate);
    UpdateErrorsOtherMembers(body, isDate);
    TextRulesMeaning(body, UpdateErrors(body, isDate));
  }

  /** Read through `MissingText`, the pushed title and author errors are those of the non-blank rules. */
  lemma TextRulesMeaning(body: Payload, e: seq<Violation>)
    requires TitleInvalid in e <==> MissingText(body.title) || Utf16Length(body.title.s) > 40
    requires AuthorRequired in e <==> MissingText(body.author)
    requires AuthorTooLong in e <==> !MissingText(body.author) && body.author.Str? && Utf16Length(body.author.s) > 20
    ensures TitleInvalid in e <==> !IsText(body.title) || Utf16Length(body.title.s) > 40
    ensures AuthorRequired in e <==> !IsText(body.author)
    ensures AuthorTooLong in e <==> IsText(body.author) && Utf16Length(body.author.s) > 20
  {
  }

  /** The update errors of a body are update errors. */
  lemma UpdateErrorsOnlyUpdateViolations(body: Payload, isDate: JsonValue -> bool)
    ensures var e := UpdateErrors(body, isDate);
      forall v :: v in e ==> v in UpdateViolations
  {
    var titleInvalid := MissingText(body.title) || Utf16Length(body.title.s) > 40;
    var authorTooLong := body.author.Str? && Utf16Length(body.author.s) > 20;
    var dateInvalid := Truthy(body.publicationDate) && !isDate(body.publicationDate);
    UpdatePushesMembers(titleInvalid, MissingText(body.author), authorTooLong, dateInvalid,
                        !IsNonEmptyArray(body.availableResolutions), !AcceptedAgeLimit(body.minAgeRestriction), !body.canBeDownloaded.Bool?);
  }

  /** The title and author errors of a body, as the checks decide them. */
  lemma UpdateErrorsTextMembers(body: Payload, isDate: JsonValue -> bool)
    ensures var e := UpdateErrors(body, isDate);
      && (TitleInvalid in e <==> MissingText(body.title) || Utf16Length(body.title.s) > 40)
      && (AuthorRequired in e <==> MissingText(body.author))
      && (AuthorTooLong in e <==> !MissingText(body.author) && body.author.Str? && Utf16Length(body.author.s) > 20)
  {
    var titleInvalid := MissingText(body.title) || Utf16Length(body.title.s) > 40;
    var authorTooLong := body.author.Str? && Utf16Length(body.author.s) > 20;
    var dateInvalid := Truthy(body.publicationDate) && !isDate(body.publicationDate);
    UpdatePushesMembers(titleInvalid, MissingText(body.author), authorTooLong, dateInvalid,
                        !IsNonEmptyArray(body.availableResolutions), !AcceptedAgeLimit(body.minAgeRestriction), !body.canBeDownloaded.Bool?);
  }

  /** The errors about the other four fields follow their rules. */
  lemma UpdateErrorsOtherMembers(body: Payload, isDate: JsonValue -> bool)
    ensures var e := UpdateErrors(body, isDate);
      && (PublicationDateInvalid in e <==> Truthy(body.publicationDate) && !isDate(body.publicationDate))
      && (ResolutionsRequired in e <==> !IsNonEmptyArray(body.availableResolutions))
      && (MinAgeInvalid in e <==> !AcceptedAgeLimit(body.minAgeRestriction))
      && (CanBeDownloadedInvalid in e <==> !body.canBeDownloaded.Bool?)
  {
    var titleInvalid := MissingText(body.title) || Utf16Length(body.title.s) > 40;
    var authorTooLong := body.author.Str? && Utf16Length(body.author.s) > 20;
    var dateInvalid := Truthy(body.publicationDate) && !isDate(body.publicationDate);
    UpdatePushesMembers(titleInvalid, MissingText(body.author), authorTooLong, dateInvalid,
                        !IsNonEmptyArray(body.availableResolutions), !AcceptedAgeLimit(body.minAgeRestriction), !body.canBeDownloaded.Bool?);
  }

  /** The checks of PUT /videos/:id, each pushing its error in turn. */
  method ValidateUpdate(body: Payload, isDate: JsonValue -> bool) returns (errors: seq<Violation>)
    ensures errors == UpdateErrors(body, isDate)
    ensures UpdateReport(body, isDate, errors)
  {
    var title, author, availableResolutions := body.title, body.author, body.availableResolutions;
    var canBeDownloaded, minAgeRestriction, publicationDate := body.canBeDownloaded, body.minAgeRestriction, body.publicationDate;
    errors := [];
    if MissingText(title) || Utf16Length(title.s) > 40 {
      errors := errors + [TitleInvalid];
    }
    if MissingText(author) {
      errors := errors + [AuthorRequired];
    } else if Utf16Length(author.s) > 20 {
      errors := errors + [AuthorTooLong];
    }
    if Truthy(publicationDate) && !isDate(publicationDate) {
      errors := errors + [PublicationDateInvalid];
    }
    if !availableResolutions.Arr? || |availableResolutions.items| == 0 {
      errors := errors + [ResolutionsRequired];
    }
    if minAgeRestriction != Null && (!minAgeRestriction.Num? || minAgeRestriction.n < 1.0 || minAgeRestriction.n > 18.0) {
      errors := errors + [MinAgeInvalid];
    }
    if !canBeDownloaded.Bool? {
      errors := errors + [CanBeDownloadedInvalid];
    }
    UpdateErrorsAreTheReport(body, isDate);
  }

  /**
   * PUT /videos/:id. An unknown id is 404 before any validation; a
   * validation error is 400; in both cases the store is unchanged.
   * Otherwise the matched record is rewritten in place: the same id and
   * creation time, the supplied title, author and resolutions, and
   * `supplied || stored` for the other three fields.
   */
  method PutVideo(db: Store, videoId: Option<int>, body: Payload, isDate: JsonValue -> bool) returns (res: Response)
    modifies db
    ensures FindIndex(old(db.videos), videoId) == -1 ==> res == NotFound && db.videos == old(db.videos)
    ensures FindIndex(old(db.videos), videoId) != -1 && !UpdateAccepted(body, isDate) ==>
      res == BadRequest(UpdateErrors(body, isDate)) && res.errors != [] && UpdateReport(body, isDate, res.errors) && db.videos == old(db.videos)
    ensures FindIndex(old(db.videos), videoId) != -1 && UpdateAccepted(body, isDate) ==>
      var k := FindIndex(old(db.videos), videoId);
      var was := old(db.videos)[k];
      && res == NoContent
      && |db.videos| == |old(db.videos)|
      && (forall i :: 0 <= i < |db.videos| && i != k ==> db.videos[i] == old(db.videos)[i])
      && db.videos[k].id == was.id
      && db.videos[k].createdAt == was.createdAt
      && Str(db.videos[k].title) == body.title
      && Str(db.videos[k].author) == body.author
      && Arr(db.videos[k].availableResolutions) == body.availableResolutions
      && db.videos[k].canBeDownloaded == Or(body.canBeDownloaded, was.canBeDownloaded)
      && db.videos[k].minAgeRestriction == Or(body.minAgeRestriction, was.minAgeRestriction)
      && db.videos[k].publicationDate == Or(body.publicationDate, was.publicationDate)
    ensures IdsIncreasing(old(db.videos)) ==> IdsIncreasing(db.videos)
    ensures (forall v | v in old(db.videos) :: TypedFlags(v)) ==> forall v | v in db.videos :: TypedFlags(v)
  {
    var videoIndex := FindIndex(db.videos, videoId);
    if videoIndex == -1 {
      return NotFound;
    }

    var errors := ValidateUpdate(body, isDate);
    UpdateReportEmptyIff(body, isDate, errors);
    if |errors| > 0 {
      return BadRequest(errors);
    }

    var current := db.videos[videoIndex];
    var updatedVideo := Updated(current, body.title.s, body.author.s, body.availableResolutions.items, body);
    if IdsIncreasing(db.videos) {
      OverwriteKeepsIdsIncreasing(db.videos, videoIndex, updatedVideo);
    }
    if TypedFlags(current) {
      UpdateKeepsTypedFlags(current, body.title.s, body.author.s, body.availableResolutions.items, body, isDate);
    }
    db.videos := db.videos[videoIndex := updatedVideo];
    res := NoContent;
  }

  // ----- what the merge does -----

  /** Under the update rules a stored record keeps a boolean download flag and a null-or-1..18 age limit. */
  lemma UpdateKeepsTypedFlags(current: Video, title: string, author: string, resolutions: seq<JsonValue>,
                              body: Payload, isDate: JsonValue -> bool)
    requires TypedFlags(current)
    requires UpdateAccepted(body, isDate)
    ensures TypedFlags(Updated(current, title, author, resolutions, body))
  {
  }

  /**
   * `canBeDownloaded || stored`: once a record can be downloaded, no
   * accepted update turns that off, since a supplied `false` keeps the
   * stored `true`; on a record that cannot, the supplied flag wins.
   */
  lemma DownloadFlagIsSticky(current: Video, title: string, author: string, resolutions: seq<JsonValue>,
                             body: Payload, isDate: JsonValue -> bool)
    requires UpdateAccepted(body, isDate)
    ensures current.canBeDownloaded == Bool(true) ==>
      Updated(current, title, author, resolutions, body).canBeDownloaded == Bool(true)
    ensures current.canBeDownloaded == Bool(false) ==>
      Updated(current, title, author, resolutions, body).canBeDownloaded == body.canBeDownloaded
  {
  }

  /**
   * `minAgeRestriction || stored`: a supplied `null` keeps the stored
   * value, so an age limit once set can be changed but never cleared.
   */
  lemma AgeLimitCannotBeCleared(current: Video, title: string, author: string, resolutions: seq<JsonValue>,
                                body: Payload, isDate: JsonValue -> bool)
    requires UpdateAccepted(body, isDate)
    ensures var m := Updated(current, title, author, resolutions, body).minAgeRestriction;
      m == (if body.minAgeRestriction == Null then current.minAgeRestriction else body.minAgeRestriction)
  {
  }

  /**
   * The date rule only asks that `Date.parse` read the value, and
   * `Date.parse` reads numbers and arrays as well as strings: any truthy
   * value `isDate` accepts, a string or not, replaces the stored date.
   */
  lemma StoresAnyParseablePublicationDate(current: Video, date: JsonValue, isDate: JsonValue -> bool)
    requires Truthy(date) && isDate(date)
    ensures var body := Payload(Str("Ocean"), Str("Jane Doe"), Arr([Str("P720")]), Bool(true), Null, date);
      && UpdateAccepted(body, isDate)
      && Updated(current, "Ocean", "Jane Doe", [Str("P720")], body).publicationDate == date
  {
    FirstCharMakesText("Ocean");
    FirstCharMakesText("Jane Doe");
  }

  /** So a number that `Date.parse` reads as a year is stored as the publication date. */
  lemma StoresNumericPublicationDate(current: Video, isDate: JsonValue -> bool)
    requires isDate(Num(2020.0))
    ensures var body := Payload(Str("Ocean"), Str("Jane Doe"), Arr([Str("P720")]), Bool(true), Null, Num(2020.0));
      && UpdateAccepted(body, isDate)
      && !Updated(current, "Ocean", "Jane Doe", [Str("P720")], body).publicationDate.Str?
  {
    StoresAnyParseablePublicationDate(current, Num(2020.0), isDate);
  }

  // ----- the seed record of src/db.ts against these rules -----

  /** The seed record passes the create rules: non-blank title of at most 40 code units, non-blank author, resolutions. */
  lemma SeedPassesCreateRules(createdAt: string, publicationDate: string)
    ensures CreateAccepted(AsPayload(SeedVideo(createdAt, publicationDate)))
  {
    FirstCharMakesText("My First Video");
    FirstCharMakesText("John Doe");
  }

  /**
   * Sent back as a PUT body, the seed record passes the update rules too
   * (its author is at most 20 code units), given that its publication
   * timestamp parses.
   */
  lemma SeedPassesUpdateRules(createdAt: string, publicationDate: string, isDate: JsonValue -> bool)
    requires isDate(Str(publicationDate))
    ensures UpdateAccepted(AsPayload(SeedVideo(createdAt, publicationDate)), isDate)
  {
    FirstCharMakesText("My First Video");
    FirstCharMakesText("John Doe");
  }

  /** The seed can be downloaded, unlike a freshly created record; both have no age limit. */
  lemma SeedDiffersFromCreateDefaults(createdAt: string, publicationDate: string, vs: seq<Video>,
                                      title: string, author: string, resolutions: seq<JsonValue>, now: string, tomorrow: string)
    ensures SeedVideo(createdAt, publicationDate).canBeDownloaded == Bool(true)
    ensures NewVideo(vs, title, author, resolutions, now, tomorrow).canBeDownloaded == Bool(false)
    ensures SeedVideo(createdAt, publicationDate).minAgeRestriction == Null
    ensures NewVideo(vs, title, author, resolutions, now, tomorrow).minAgeRestriction == Null
  {
  }

  // ----- example requests -----

  /** Creating with an empty title reports exactly one error, for `title`. */
  lemma EmptyTitleRejected()
    ensures CreateErrors(Payload(Str(""), Str("Jane"), Arr([Str("P720")]), Absent, Absent, Absent)) == [TitleRequired]
  {
    FirstCharMakesText("Jane");
  }

  /** Resolution tags are not checked against any list: an unknown tag such as "P999" is accepted. */
  lemma UnknownResolutionAccepted()
    ensures CreateAccepted(Payload(Str("Ocean"), Str("Jane Doe"), Arr([Str("P999")]), Absent, Absent, Absent))
  {
    FirstCharMakesText("Ocean");
    FirstCharMakesText("Jane Doe");
  }

  /** An update whose only fault is an age limit of 25 reports exactly one error, for `minAgeRestriction`. */
  lemma AgeLimit25Rejected(isDate: JsonValue -> bool)
    ensures UpdateErrors(Payload(Str("Ocean"), Str("Jane Doe"), Arr([Str("P720")]), Bool(true), Num(25.0), Absent), isDate)
            == [MinAgeInvalid]
  {
    FirstCharMakesText("Ocean");
    FirstCharMakesText("Jane Doe");
  }
}
