/**
 * The two builds side by side: src/app.ts accepts less than dist/app.js,
 * and on create it reports the same errors except for the title length.
 */
module Variants {
  import opened Js
  import opened Db
  import opened Http
  import opened Handlers
  import opened App
  import opened DistApp

  /** Every body src/app.ts creates from, dist/app.js creates from too. */
  lemma CreateRulesAreStricter(body: Payload)
    ensures CreateAccepted(body) ==> DistCreateAccepted(body)
    ensures DistCreateAccepted(body) && !CreateAccepted(body) ==> CreateErrors(body) == [TitleTooLong]
  {
    if DistCreateAccepted(body) && !CreateAccepted(body) {
      CreateErrorsAreTheReport(body);
      CreateReportIsUnique(body, CreateErrors(body), [TitleTooLong]);
    }
  }

  /** On create the builds report the same errors, but for the title length limit that only src/app.ts has. */
  lemma CreateErrorsCompared(body: Payload)
    ensures forall v :: v in DistCreateErrors(body) <==> v in CreateErrors(body) && v != TitleTooLong
  {
    CreateErrorsAreTheReport(body);
    DistCreateErrorsAreTheReport(body);
  }

  /** Every body src/app.ts updates with, dist/app.js updates with too. */
  lemma UpdateRulesAreStricter(body: Payload, isDate: JsonValue -> bool)
    ensures UpdateAccepted(body, isDate) ==> DistUpdateAccepted(body)
  {
  }

  /** A title of more than 40 characters: only src/app.ts rejects it, with the length error alone. */
  lemma LongTitleSplitsTheBuilds(title: string)
    requires |title| > 40 && !IsJsWhitespace(title[0])
    ensures var body := Payload(Str(title), Str("Jane Doe"), Arr([Str("P720")]), Absent, Absent, Absent);
      && !CreateAccepted(body) && DistCreateAccepted(body)
      && CreateErrors(body) == [TitleTooLong]
      && DistCreateErrors(body) == []
  {
    var body := Payload(Str(title), Str("Jane Doe"), Arr([Str("P720")]), Absent, Absent, Absent);
    FirstCharMakesText(title);
    FirstCharMakesText("Jane Doe");
    CreateRulesAreStricter(body);
    DistCreateErrorsAreTheReport(body);
    DistCreateReportEmptyIff(body, DistCreateErrors(body));
  }

  /**
   * Under the update rules of src/app.ts a typed record stays typed; under
   * those of dist/app.js the same record, whatever its flag, can be sent a
   * non-boolean flag that it then keeps.
   */
  lemma OnlySrcKeepsFlagsTyped(current: Video, isDate: JsonValue -> bool)
    requires TypedFlags(current)
    ensures forall body :: UpdateAccepted(body, isDate) ==>
                             TypedFlags(Updated(current, body.title.s, body.author.s, body.availableResolutions.items, body))
    ensures exists body :: DistUpdateAccepted(body) &&
                           !TypedFlags(Updated(current, body.title.s, body.author.s, body.availableResolutions.items, body))
  {
    forall body | UpdateAccepted(body, isDate)
      ensures TypedFlags(Updated(current, body.title.s, body.author.s, body.availableResolutions.items, body))
    {
      UpdateKeepsTypedFlags(current, body.title.s, body.author.s, body.availableResolutions.items, body, isDate);
    }
    var body := Payload(Str("Ocean"), Str("Jane Doe"), Arr([Str("P720")]), Str("yes"), Null, Absent);
    DistStoresNonBooleanFlag(current);
    assert DistUpdateAccepted(body) &&
      !TypedFlags(Updated(current, body.title.s, body.author.s, body.availableResolutions.items, body));
  }
}
