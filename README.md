# HW01 video service in Dafny

A model of the in-memory video collection behind the HW01 Express service.
It covers:

- the exported `db` object with its one seed record (src/db.ts);
- the route handlers of the current source (src/app.ts): list, get by id,
  create, replace, delete and the test reset;
- the older compiled build (dist/app.js), whose create and replace
  validation is weaker.

The store is the class `Db.Store`, with a `videos: seq<Video>` field.
Handlers are methods that modify it:

- `push` is `videos + [v]`;
- index assignment is `videos[k := v]`;
- `splice(k, 1)` is `Videos.RemoveAt`;
- the reset reassigns `[]`.

Each validator is a method that builds its `errors` list by conditional
pushes, exactly as the handler does. It is proved against two
specifications:

- the list-building function (`App.CreateErrors`, `App.UpdateErrors`,
  `DistApp.DistCreateErrors`, `DistApp.DistUpdateErrors`);
- a relational *report* predicate (`App.CreateReport`, ...), which says:
  - errors come in checking order, at most one per field;
  - only errors of that operation appear;
  - each error is present exactly when its rule fails.

Each report has at most one list satisfying it, and that list is empty
exactly when the body is accepted.

Request bodies are JSON values (`Js.JsonValue`: `Absent` for a property
that destructuring finds `undefined`, `Null`, booleans, numbers, strings,
arrays, objects). This is needed because the rules use `!x`, `typeof`,
`Array.isArray` and `!== null`. JavaScript semantics are modelled
explicitly:

- truthiness and `a || b`;
- `String.prototype.trim` over the ECMAScript WhiteSpace and
  LineTerminator characters;
- `length` as UTF-16 code units.

Stored records keep `canBeDownloaded`, `minAgeRestriction` and
`publicationDate` as JSON values, because the update merge
`supplied || stored` can store whatever value won. The model proves:

- the src/app.ts rules keep `canBeDownloaded` a boolean and
  `minAgeRestriction` null or a number from 1 to 18 (`Db.TypedFlags`);
  `publicationDate` can hold any truthy value that `Date.parse` reads,
  such as the number 2020, not only a string;
- the dist/app.js update rules keep the age limit in range but can store a non-boolean `canBeDownloaded` and any truthy `publicationDate`.

Modules, leaves first:

- `Wrappers`: `Option`.
- `Js`: JSON values and the JavaScript operations above.
- `Db`: `Video`, the seed record and the `Store` class.
- `Videos`: `find`/`findIndex`, the id rule, `splice`, the id-ordering invariant.
- `Http`: the request body, violations and their messages, responses and status codes, and error ordering.
- `Handlers`: GET, DELETE and reset, which are the same code in both builds, plus the record built by a successful create or replace.
- `App`: validation, POST and PUT of src/app.ts.
- `DistApp`: the same for dist/app.js.
- `Variants`: the two builds compared.
- `Scenarios`: request sequences against a fresh store.

## Model

| member | source | states |
|---|---|---|
| Js.OrPicksAnOperand | src/app.ts:113-115 | `a \|\| b` is one of its operands; it is truthy exactly when either operand is; a falsy left operand yields the right one |
| Js.TrimStart | src/app.ts:24 | the removed prefix is all whitespace and the result does not start with whitespace |
| Js.TrimStartIsSuffix | src/app.ts:24 | what the leading trim keeps is a suffix of the input |
| Js.TrimEnd | src/app.ts:24 | the removed suffix is all whitespace and the result does not end with whitespace |
| Js.TrimEndIsPrefix | src/app.ts:24 | what the trailing trim keeps is a prefix of the input |
| Js.Trim | src/app.ts:24 | `trim()` is no longer than its input and neither end of it is whitespace |
| Js.TrimKeepsMiddle | src/app.ts:24 | `trim()` is the stretch of the input left between a blank prefix and a blank suffix |
| Js.TrimEmptyIffBlank | src/app.ts:24 | `s.trim().length === 0` exactly when every character of `s` is whitespace |
| Js.MissingText | src/app.ts:24 | the guard `!v \|\| typeof v !== 'string' \|\| v.trim().length === 0` holds exactly when `v` is not a non-blank string |
| Js.Utf16Length | src/app.ts:26 | `length` counts between one and two code units per character |
| Js.Utf16LengthOfBmp | src/app.ts:26 | on Basic Multilingual Plane text `length` is the number of characters |
| Js.Utf16LengthAppend | src/app.ts:26 | `length` adds up over concatenation |
| Js.Utf16LengthOfChar | src/app.ts:26 | one character has `length` 2 above U+FFFF (a surrogate pair) and 1 otherwise |
| Js.Utf16LengthCountsAstral | src/app.ts:26 | `length` is the number of characters plus the number of characters above U+FFFF |
| Db.Store.constructor | src/db.ts:16-26 | the store starts with the seed record alone, with id 1 |
| Videos.FindIndex | src/app.ts:67 | `findIndex` gives -1 exactly when no record has the id; otherwise the first position whose record has it |
| Videos.Find | src/app.ts:56 | `find` gives nothing exactly when no record has the id; otherwise the first stored record with that id |
| Videos.NextId | src/app.ts:41 | the id rule gives 1 on an empty list and, when ids increase, a value above every stored id |
| Videos.RemoveAt | src/app.ts:130 | `splice(k, 1)` keeps the records before `k`, shifts those after it down by one, and drops only the record at `k` |
| Videos.IdsIncreasingMeansUnique | src/app.ts:67 | with increasing ids, the record that has an id is the only one, and `findIndex` finds it |
| Videos.AppendKeepsIdsIncreasing | src/app.ts:41-51 | appending a record with the next id keeps ids strictly increasing |
| Videos.OverwriteKeepsIdsIncreasing | src/app.ts:108-118 | writing back a record with the same id keeps ids strictly increasing |
| Videos.RemoveKeepsIdsIncreasing | src/app.ts:130 | removing any record keeps ids strictly increasing |
| Videos.RemovedIdIsGone | src/app.ts:121-131 | with increasing ids, a removed record's id matches nothing afterwards |
| Videos.FindAppended | src/app.ts:40-56 | a record appended with the next id is what a lookup of that id finds, at the end of the list |
| Videos.RemovingLastFreesItsId | src/app.ts:41 | after the last record is removed, the id rule hands out its id again |
| Http.ErrorsMessages | src/app.ts:22-36 | the `errorsMessages` array has one `{ message, field }` entry per error, in the same order |
| Http.PushIfInCheckingOrder | src/app.ts:24-34 | a conditional push after errors for earlier fields keeps the list in checking order |
| Http.PushIfMembers | src/app.ts:24-34 | a conditional push adds its error, and nothing else, exactly when its check failed |
| Http.InCheckingOrderAscends | src/app.ts:24-34 | a list whose neighbours follow the checking order follows it between any two errors |
| Http.SameMembersSameList | src/app.ts:24-34 | two error lists in checking order with the same members are equal |
| App.CreateReportIsUnique | src/app.ts:24-34 | a create body has at most one report |
| App.CreateReportEmptyIff | src/app.ts:24-38 | the create report is empty exactly when the body passes the create rules |
| App.CreatePushesInOrder | src/app.ts:24-34 | whatever the create checks decide, the errors come out in checking order |
| App.CreatePushesMembers | src/app.ts:24-34 | each create error is present exactly when its check failed; the length error only when the title is present |
| App.CreateErrorsAreTheReport | src/app.ts:24-34 | the list the create checks build is the create report of the body |
| App.ValidateCreate | src/app.ts:22-34 | the create checks build the create report: title missing, otherwise longer than 40, then author missing, then resolutions not a non-empty array |
| App.PostVideo | src/app.ts:19-53 | on a failed check, 400 with the report and the store unchanged; otherwise exactly one record appended, with the next id, the body's fields, `canBeDownloaded` false, `minAgeRestriction` null, created now and published "tomorrow"; increasing ids and well-typed flags are preserved |
| App.UpdateReportIsUnique | src/app.ts:78-97 | an update body has at most one report |
| App.UpdateReportEmptyIff | src/app.ts:78-106 | the update report is empty exactly when the body passes the update rules |
| App.UpdatePushesInOrder | src/app.ts:78-97 | whatever the six update checks decide, the errors come out in checking order |
| App.UpdateTailInOrder | src/app.ts:86-97 | the last four update checks keep the checking order of the errors before them |
| App.UpdatePushesMembers | src/app.ts:78-97 | each update error is present exactly when its check failed; the author length error only when the author is present |
| App.UpdatePushesOnly | src/app.ts:78-97 | the update list holds exactly the errors of the failed checks |
| App.UpdateErrorsAreTheReport | src/app.ts:78-97 | the list the update checks build is the update report of the body |
| App.UpdateErrorsInOrder | src/app.ts:78-97 | the update errors of a body come in checking order |
| App.UpdateErrorsMembers | src/app.ts:78-97 | the update errors of a body are exactly those of its failed rules |
| App.TextRulesMeaning | src/app.ts:78-85 | the title and author errors from the JavaScript guards are those of the non-blank and length rules |
| App.UpdateErrorsOnlyUpdateViolations | src/app.ts:78-97 | update validation reports only update errors |
| App.UpdateErrorsTextMembers | src/app.ts:78-85 | the title error fails a missing or over-40 title; the author errors fail a missing author, or else one over 20 |
| App.UpdateErrorsOtherMembers | src/app.ts:86-97 | the date error fails a truthy unparseable date; the resolutions error a non-array or empty array; the age error anything but null or 1..18 (absent included); the flag error a non-boolean |
| App.ValidateUpdate | src/app.ts:76-97 | the six update checks build the update report |
| App.PutVideo | src/app.ts:65-120 | an unknown id is 404 before validation; a failed check is 400 with the report; in both cases the store is unchanged; otherwise only the matched record is rewritten, keeping id and creation time, taking title, author and resolutions, and `supplied \|\| stored` for the other three fields; increasing ids and well-typed flags are preserved |
| App.UpdateKeepsTypedFlags | src/app.ts:92-114 | an accepted update leaves a well-typed record well-typed (boolean flag, null or 1..18 age limit) |
| App.DownloadFlagIsSticky | src/app.ts:113 | on update a stored `true` download flag stays true; a stored `false` takes the supplied flag |
| App.AgeLimitCannotBeCleared | src/app.ts:114 | on update a supplied null age limit keeps the stored one; any other accepted value replaces it |
| App.StoresAnyParseablePublicationDate | src/app.ts:86-115 | an accepted update stores any truthy publication date that `Date.parse` reads, a string or not |
| App.StoresNumericPublicationDate | src/app.ts:86-115 | a number such as 2020 that `Date.parse` reads passes the date rule and is stored, so the stored date is not a string |
| App.SeedPassesCreateRules | src/db.ts:19-25 | the seed record passes the create rules |
| App.SeedPassesUpdateRules | src/db.ts:19-25 | sent back as a PUT body, the seed passes the update rules, given that its timestamp parses |
| App.SeedDiffersFromCreateDefaults | src/db.ts:21-22 | the seed can be downloaded while a created record cannot; neither has an age limit |
| App.EmptyTitleRejected | src/app.ts:24-25 | creating with an empty title reports exactly the one title error |
| App.UnknownResolutionAccepted | src/app.ts:32-34 | a resolution tag outside the usual set ("P999") passes create validation |
| App.AgeLimit25Rejected | src/app.ts:92-94 | an update whose only fault is age limit 25 reports exactly the one age error |
| Handlers.GetVideos | src/app.ts:16-18 | GET /videos is 200 with the whole list in insertion order (the same code as dist/app.js:13-15) |
| Handlers.GetVideo | src/app.ts:54-64 | GET by id is 404 exactly when no record has the id; otherwise 200 with the first record that has it (the same code as dist/app.js:46-54) |
| Handlers.DeleteVideo | src/app.ts:121-132 | an unknown id is 404 with the store unchanged; otherwise 204 and only the matched record is spliced out; with increasing ids, the id is then gone (the same code as dist/app.js:86-95) |
| Handlers.DeleteAllData | src/app.ts:133-138 | the reset always leaves an empty list and answers 204 (the same code as dist/app.js:96-99) |
| DistApp.DistCreateReportIsUnique | dist/app.js:19-27 | a create body has at most one report in this build |
| DistApp.DistCreateReportEmptyIff | dist/app.js:19-31 | the report is empty exactly when the body passes this build's create rules |
| DistApp.DistCreatePushesInOrder | dist/app.js:19-27 | the three create checks push in checking order |
| DistApp.DistCreatePushesMembers | dist/app.js:19-27 | each of the three create errors is present exactly when its check failed |
| DistApp.DistCreateErrorsAreTheReport | dist/app.js:19-27 | the list the checks build is this build's create report |
| DistApp.DistValidateCreate | dist/app.js:18-27 | the create checks (non-blank title and author, non-empty resolutions, no length limits) build the report |
| DistApp.DistPostVideo | dist/app.js:16-44 | on a failed check, 400 with the store unchanged; otherwise one record appended with the next id and the server defaults; increasing ids and well-typed flags preserved |
| DistApp.DistUpdateReportIsUnique | dist/app.js:64-75 | an update body has at most one report in this build |
| DistApp.DistUpdateReportEmptyIff | dist/app.js:64-79 | the report is empty exactly when the body passes this build's update rules |
| DistApp.DistUpdatePushesInOrder | dist/app.js:64-75 | the four update checks push in checking order |
| DistApp.DistUpdatePushesMembers | dist/app.js:64-75 | each of the four update errors is present exactly when its check failed |
| DistApp.DistUpdateErrorsAreTheReport | dist/app.js:64-75 | the list the checks build is this build's update report |
| DistApp.DistValidateUpdate | dist/app.js:63-75 | the update checks (title, author, resolutions, age limit; no date or flag check) build the report |
| DistApp.DistPutVideo | dist/app.js:55-85 | an unknown id is 404 before validation; a failed check is 400; in both cases the store is unchanged; otherwise the matched record alone is replaced by the merged record; increasing ids preserved |
| DistApp.DistUpdateKeepsAgeLimit | dist/app.js:73-82 | this build still checks the age limit, so an accepted update keeps a stored limit null or between 1 and 18 |
| DistApp.DistStoresNonBooleanFlag | dist/app.js:62-82 | this build accepts `canBeDownloaded: "yes"` and stores the string, so the flag is no longer a boolean |
| DistApp.DistStoresAnyPublicationDate | dist/app.js:62-82 | this build stores any truthy publication date, parseable or not |
| Variants.CreateRulesAreStricter | src/app.ts:24-28 | every body src/app.ts creates from, dist/app.js creates from too; where they differ, src/app.ts reports only the title length error |
| Variants.CreateErrorsCompared | src/app.ts:24-34 | on create the two builds report the same errors except the title length error |
| Variants.UpdateRulesAreStricter | src/app.ts:78-97 | every body src/app.ts updates with, dist/app.js updates with too |
| Variants.LongTitleSplitsTheBuilds | src/app.ts:26-27 | a title over 40 characters is rejected by src/app.ts with the length error alone and accepted by dist/app.js |
| Variants.OnlySrcKeepsFlagsTyped | src/app.ts:92-97 | src/app.ts updates keep a record's flags typed; some dist/app.js update does not |
| Scenarios.OceanBodyAccepted | src/app.ts:24-34 | the body `{ title: "Ocean", author: "Jane Doe", availableResolutions: ["P720"] }` passes create validation |
| Scenarios.CreateThenRead | src/app.ts:40-63 | on a fresh store the first create gets id 2 and 201; GET of id 2 returns it; the list is the seed then it |
| Scenarios.DeleteTwice | src/app.ts:121-132 | deleting id 1 twice answers 204 then 404, leaving an empty list |
| Scenarios.UnparsableIdIsNotFound | src/app.ts:55-61 | a path id that `parseInt` cannot read is 404 for GET, PUT and DELETE |
| Scenarios.DeletedIdIsReused | src/app.ts:41 | create, delete the new record, create again: both get id 2 |
| Scenarios.NextIdFollowsLastRecord | src/app.ts:41 | deleting the older seed does not lower the next id: the creates get 2 then 3 |
| Scenarios.ResetRestartsIds | src/app.ts:133-138 | after the reset the next create gets id 1 |
| Scenarios.ResendSeedKeepsIt | src/app.ts:108-118 | a PUT of the seed record as it is answers 204 and leaves it unchanged |

## Left out

- Express routing, `express.json()`, `cors()` and `res.status/json/send` are transport plumbing. Each handler returns a `Response` value whose `Status()` is the HTTP code.
- The "/" hello route (src/app.ts:11-15) has no logic.
- Clock readings are opaque string parameters (`now`, `tomorrow`, the seed's timestamps). This covers `new Date().toISOString()` and the one-day offset.
- `Date.parse` is the parameter `isDate` (`!isNaN(Date.parse(v))`).
- `parseInt` on the path id is an `Option<int>`; `None` is the NaN that matches no record. Ids are unbounded integers; the 2^53 limit of JavaScript numbers is not modelled.
- `length` counts each character above U+FFFF as two code units. Lone surrogates cannot be expressed in a Dafny `string`.
- JSON objects are one opaque value (`Obj`), since no rule looks inside them. Numbers are exact `real`s, so an age limit of 2.5 passes, as in JavaScript. JavaScript rounds each JSON number to an IEEE double when it parses the body (18.0000000000000001 becomes 18, 1e-400 becomes 0); the model does not, so the two differ on such numbers at the 1 and 18 bounds and in the truthiness of numbers that round to 0. The parsing and serialisation of bodies and responses is not modelled.
- `Video.minAgeRestriction` (and likewise `canBeDownloaded` and `publicationDate`) is a JSON value, not `Option<int>`. dist/app.js never checks `canBeDownloaded` or `publicationDate` on update, so `supplied || stored` can store any truthy value in those two fields (`DistApp.DistStoresNonBooleanFlag`, `DistApp.DistStoresAnyPublicationDate`). Under src/app.ts `publicationDate` may likewise hold any truthy value `Date.parse` reads, not only a string (`App.StoresAnyParseablePublicationDate`). `minAgeRestriction` is checked by both builds and stays null or a number from 1 to 18, not necessarily whole (`App.UpdateKeepsTypedFlags`, `DistApp.DistUpdateKeepsAgeLimit`).
- The resolution tags are not checked against a list, and ids are "last id + 1" rather than a maximum. The code does neither of those things, so neither is modelled; `App.UnknownResolutionAccepted` and `Scenarios.NextIdFollowsLastRecord` record this. For the same reason, ids can be handed out again after the last record is deleted (`Videos.RemovingLastFreesItsId`, `Scenarios.DeletedIdIsReused`).
- The update merge treats falsy values (`false`, `null`, `0`, `""`) as "not supplied". It is modelled as written (`Handlers.Updated`), with its consequences stated in `App.DownloadFlagIsSticky` and `App.AgeLimitCannotBeCleared`.
- DistApp.DistPutVideo does not state that well-typed flags are preserved, because under dist/app.js an accepted update can store a non-boolean `canBeDownloaded` (`DistApp.DistStoresNonBooleanFlag`). Creates do preserve them (`DistApp.DistPostVideo`).
