/**
 * What the handlers exchange with the transport layer: the destructured
 * request body, the `{ message, field }` validation errors, the responses
 * with their status codes, and the fixed message texts.
 */
module Http {
  import opened Js
  import opened Db

  /** The six properties the handlers take out of a request body; each may be absent or of any JSON type. */
  datatype Payload = Payload(
    title: JsonValue,
    author: JsonValue,
    availableResolutions: JsonValue,
    canBeDownloaded: JsonValue,
    minAgeRestriction: JsonValue,
    publicationDate: JsonValue)

  /** The request fields that validation reports on, in the order both validators check them. */
  datatype Field = Title | Author | PublicationDate | AvailableResolutions | MinAgeRestriction | CanBeDownloaded {
    /** The `field` text of an error. */
    function Name(): string {
      match this
      case Title => "title"
      case Author => "author"
      case PublicationDate => "publicationDate"
      case AvailableResolutions => "availableResolutions"
      case MinAgeRestriction => "minAgeRestriction"
      case CanBeDownloaded => "canBeDownloaded"
    }

    /** Position in the checking order. */
    function Rank(): nat {
      match this
      case Title => 0
      case Author => 1
      case PublicationDate => 2
      case AvailableResolutions => 3
      case MinAgeRestriction => 4
      case CanBeDownloaded => 5
    }
  }

  /** Each distinct validation failure the handlers can report, with its fixed message. */
  datatype Violation =
    | TitleRequired | TitleTooLong | TitleInvalid
    | AuthorRequired | AuthorTooLong
    | PublicationDateInvalid
    | ResolutionsRequired
    | MinAgeInvalid
    | CanBeDownloadedInvalid
  {
    function Field(): Field {
      match this
      case TitleRequired | TitleTooLong | TitleInvalid => Title
      case AuthorRequired | AuthorTooLong => Author
      case PublicationDateInvalid => PublicationDate
      case ResolutionsRequired => AvailableResolutions
      case MinAgeInvalid => MinAgeRestriction
      case CanBeDownloadedInvalid => CanBeDownloaded
    }

    function Message(): string {
      match this
      case TitleRequired => "Title is required and must be a non-empty string"
      case TitleTooLong => "Title must be no longer than 40 characters"
      case TitleInvalid => "Title is required, must be a non-empty string, and max 40 characters"
      case AuthorRequired => "Author is required and must be a non-empty string"
      case AuthorTooLong => "Author must be no longer than 20 characters"
      case PublicationDateInvalid => "Publication date must be a valid date"
      case ResolutionsRequired => "Available resolutions must be a non-empty array"
      case MinAgeInvalid => "minAgeRestriction must be null or a number between 1 and 18"
      case CanBeDownloadedInvalid => "canBeDownloaded must be a boolean"
    }
  }

  /** One entry of the `errorsMessages` array of a 400 response. */
  datatype FieldError = FieldError(message: string, field: string)

  /** The JSON entries for a list of violations. */
  function ErrorsMessages(errors: seq<Violation>): (r: seq<FieldError>)
    ensures |r| == |errors|
    ensures forall i :: 0 <= i < |errors| ==> r[i] == FieldError(errors[i].Message(), errors[i].Field().Name())
  {
    if errors == [] then [] else [FieldError(errors[0].Message(), errors[0].Field().Name())] + ErrorsMessages(errors[1..])
  }

  /** A handler's reply; the JSON body of `NotFound` is `{ message: NotFoundMessage }`, that of `BadRequest` `{ errorsMessages }`. */
  datatype Response =
    | Listed(videos: seq<Video>)
    | Found(video: Video)
    | Created(video: Video)
    | NoContent
    | BadRequest(errors: seq<Violation>)
    | NotFound
  {
    function Status(): int {
      match this
      case Listed(_) => 200
      case Found(_) => 200
      case Created(_) => 201
      case NoContent => 204
      case BadRequest(_) => 400
      case NotFound => 404
    }
  }

  const NotFoundMessage := "Video not found"

  /**
   * Errors come in checking order, at most one per field: each error is
   * about a later field than the one before it.
   */
  predicate InCheckingOrder(errors: seq<Violation>) {
    NeighboursAscend(errors, |errors|)
  }

  /** Among the first `n` errors, each is about a later field than the one before it. */
  predicate NeighboursAscend(errors: seq<Violation>, n: nat)
    requires n <= |errors|
  {
    n <= 1 || (errors[n - 2].Field().Rank() < errors[n - 1].Field().Rank() && NeighboursAscend(errors, n - 1))
  }

  /** Whether the first `n` errors ascend does not depend on what follows them. */
  lemma {:induction false} NeighboursAscendPrefix(errors: seq<Violation>, more: seq<Violation>, n: nat)
    requires n <= |errors|
    ensures NeighboursAscend(errors + more, n) == NeighboursAscend(errors, n)
  {
    if n > 1 {
      NeighboursAscendPrefix(errors, more, n - 1);
    }
  }

  /** Any two errors of the list, not only neighbours, are about fields in checking order. */
  predicate Ascending(errors: seq<Violation>) {
    forall i, j :: 0 <= i < j < |errors| ==> errors[i].Field().Rank() < errors[j].Field().Rank()
  }

  /** The last error, if any, is about a field that comes before position `k` in checking order. */
  predicate LastRankBelow(errors: seq<Violation>, k: int) {
    errors == [] || errors[|errors| - 1].Field().Rank() < k
  }

  /** Checking order between neighbours is checking order between any two. */
  lemma {:induction false} NeighboursAscendAscends(errors: seq<Violation>, n: nat)
    requires n <= |errors| && NeighboursAscend(errors, n)
    ensures forall i, j :: 0 <= i < j < n ==> errors[i].Field().Rank() < errors[j].Field().Rank()
  {
    if n > 1 {
      NeighboursAscendAscends(errors, n - 1);
    }
  }

  /** A list in checking order ascends throughout. */
  lemma InCheckingOrderAscends(errors: seq<Violation>)
    requires InCheckingOrder(errors)
    ensures Ascending(errors)
  {
    NeighboursAscendAscends(errors, |errors|);
  }

  /** `if (failed) errors.push(v)`. */
  function PushIf(errors: seq<Violation>, failed: bool, v: Violation): seq<Violation> {
    if failed then errors + [v] else errors
  }

  /** A conditional push after errors about earlier fields only keeps the checking order. */
  lemma PushIfInCheckingOrder(errors: seq<Violation>, failed: bool, v: Violation)
    requires InCheckingOrder(errors) && LastRankBelow(errors, v.Field().Rank())
    ensures InCheckingOrder(PushIf(errors, failed, v)) && LastRankBelow(PushIf(errors, failed, v), v.Field().Rank() + 1)
  {
    if failed {
      NeighboursAscendPrefix(errors, [v], |errors|);
    }
  }

  /** A conditional push adds `v` and nothing else exactly when the check failed. */
  lemma PushIfMembers(errors: seq<Violation>, failed: bool, v: Violation)
    ensures forall x :: x in PushIf(errors, failed, v) <==> x in errors || (failed && x == v)
  {
  }

  /** In an ascending list the first error has the smallest rank, and no other error equals it. */
  lemma FirstInCheckingOrder(a: seq<Violation>, v: Violation)
    requires Ascending(a) && v in a
    ensures a[0].Field().Rank() <= v.Field().Rank()
    ensures v != a[0] <==> v in a[1..]
  {
    var k :| 0 <= k < |a| && a[k] == v;
    if k > 0 {
      assert a[1..][k - 1] == v;
      assert a[0].Field().Rank() < a[k].Field().Rank();
    }
    if v in a[1..] {
      var m :| 0 <= m < |a[1..]| && a[1..][m] == v;
      assert a[0].Field().Rank() < a[m + 1].Field().Rank();
    }
  }

  /**
   * Ascending error lists are determined by which errors they contain:
   * two such lists with the same members are equal.
   */
  lemma {:induction false} SameMembersSameList(a: seq<Violation>, b: seq<Violation>)
    requires Ascending(a) && Ascending(b)
    requires forall v :: v in a <==> v in b
    ensures a == b
  {
    assert a != [] ==> a[0] in b;
    assert b != [] ==> b[0] in a;
    if a != [] && b != [] {
      FirstInCheckingOrder(a, b[0]);
      FirstInCheckingOrder(b, a[0]);
      assert a[0] == b[0];
      forall v
        ensures v in a[1..] <==> v in b[1..]
      {
        if v in a[1..] {
          assert v in a;
          FirstInCheckingOrder(a, v);
          FirstInCheckingOrder(b, v);
        }
        if v in b[1..] {
          assert v in b;
          FirstInCheckingOrder(a, v);
          FirstInCheckingOrder(b, v);
        }
      }
      SameMembersSameList(a[1..], b[1..]);
      assert a == [a[0]] + a[1..] && b == [b[0]] + b[1..];
    }
  }
}
