# Campaign-finance data pages: a verified model of the table, helper and routing logic

This project models the decision-making core of the FEC campaign-finance web application in Dafny.
That core is the JavaScript that drives the data tables and formats values for the templates, the Python routes that decide what a page shows, and the helper that reshapes committee records for the committee templates.
Each piece is stated in the form the source takes:

- **Data-table controller** (`tables.js`, module `Tables`):
  - The cursor cache `SeekPaginator` is a class. Its `indexes` and `query` fields change in place. Its methods are proved against the specification functions `Lookup`, `Store` and `CursorParams`.
  - The rest are pure functions: the page-number paginator, the sort and response adapters, the cycle picked for a row's links, the year-range label, and the export button's state.
- **Template helpers** (`helpers.js`, module `Helpers`): the cycle date window, argument normalisation, the time-period label, the two amendment labels, `formNumber` and the `decode*` fallbacks. All are pure functions.
- **Page routes** (`routes.py`, module `Routes`):
  - `search` decides between the landing page, the document viewer and the search results.
  - `candidate_page` either renders or redirects to another cycle.
  - `committee_page` decides whether to fall back to the last cycle with reports.
  - `candidates_office`, `reports` and `elections` return their 404 decisions and the values they pass to the template.
  - Each route is a function of its arguments, with the data it loads passed in.
- **Committee reshaping** (`committee-helpers.js`, module `CommitteeHelpers`): `buildCommitteeContext` is written as methods with the source's loops. One loop pushes a view per committee record. The other pushes a view per candidate of the record, after the record's fields have been assigned one at a time. The methods are proved to return exactly the specification function `CommitteesOf`.

Supporting modules:

- `Wrappers`: `Option`, `Result`, and `MapResult`, a left-to-right map that stops at the first failure.
- `Sequences`: maximum, sort, order-preserving filter.
- `Decimal`: JavaScript's integer-to-text conversion and `parseInt`, with the round trip between them.
- `JsValue`: JavaScript values, truthiness, `||`, property reads that throw `TypeError` on `null`/`undefined`, and string conversion.

Numbers are integers throughout.
A JavaScript `NaN` is `None`, and a thrown `TypeError` is `Err(TypeError)`.

Three facts the proofs make explicit:

- The 16-digit test in `search` is subsumed by the 11-digit one, because `re.match` only anchors at the start (`Routes.SixteenDigitsSubsumed`).
- A redirect from the candidate page never leads to a second redirect (`Routes.NoRedirectLoop`).
- In `buildCommitteeContext`, the `|| ''` after a candidate's link never applies. Operator precedence binds it to the whole concatenation, so a candidate without an id links to `/candidates/undefined` (`CommitteeHelpers.CandidateLinkWithoutId`). The model keeps this behaviour as written.

## Model

| member | source | states |
|---|---|---|
| `Tables.YearRange` | static/js/modules/tables.js:48-54 | The label is the year itself exactly when both ends are equal. |
| `Tables.YearSpanReadsBack` | static/js/modules/tables.js:48-54 | A span label is `first - last`: `parseInt` reads `first` from its start and `last` from after the separator. |
| `Tables.Intersection` | static/js/modules/tables.js:60-63 | It holds exactly the parsed cycles that the row's cycles contain, without repeats. NaN matches nothing. |
| `Tables.CommonCycles` | static/js/modules/tables.js:60-63 | A cycle is in common exactly when some filter entry parses to it and the row holds it. |
| `Tables.GetCycle` | static/js/modules/tables.js:56-70 | The result is present iff there is a cycle filter and some entry parses to a cycle of the row. That cycle lies in both lists and is the largest common one. |
| `Tables.MapSort` | static/js/modules/tables.js:184-192 | Defined iff every order entry names an existing column. Same length and order as `order`. Entry i is column i's field, prefixed by `-` exactly for `desc`. |
| `Tables.MapSortReadsBack` | static/js/modules/tables.js:184-192 | Every produced key reads back as its column's field and its direction. |
| `Tables.MapSortAppend` | static/js/modules/tables.js:184-192 | Mapping a concatenation of orders is the concatenation of the mappings. It is defined iff both parts are. |
| `Tables.MapResponse` | static/js/modules/tables.js:194-200 | Both record totals are the API count, and the rows are the API results unchanged. |
| `Tables.FloorDiv` | static/js/modules/tables.js:326 | `Math.floor(a / b)`: the quotient rounded towards minus infinity, for either sign of `b`. |
| `Tables.OffsetMapQuery` | static/js/modules/tables.js:323-328 | `per_page` is the length. For a positive length, the page is the one whose window contains `start` (1-based). There is no page for length 0. |
| `Tables.OffsetPageOfMultiple` | static/js/modules/tables.js:323-328 | The window starting at `k * length` is page `k + 1`. |
| `Tables.OffsetNextPage` | static/js/modules/tables.js:323-328 | Moving the window on by one length moves on by one page. |
| `Tables.Lookup` | static/js/modules/tables.js:337-339 | A non-empty cursor comes only from a slot where one was stored. A length never stored reads as `{}`. |
| `Tables.Store` | static/js/modules/tables.js:341-344 | After storing at (length, start), reading there gives the stored cursor (`{}` for null). Every other (length, start) reads as before. |
| `Tables.CursorParams` | static/js/modules/tables.js:355-363 | The keys are `per_page` plus exactly the cursor keys with truthy values, carrying those values. `per_page` is the length unless the cursor overrides it. |
| `Tables.FirstPageParams` | static/js/modules/tables.js:337-363 | With nothing stored for a window, the request carries only `per_page`. |
| `Tables.NextPageSendsCursor` | static/js/modules/tables.js:350-368 | Once a response is stored for the next window, the request for that window sends the response's cursor. |
| `Tables.SeekPaginator.constructor` | static/js/modules/tables.js:332-335 | Starts with no stored cursors and no query. |
| `Tables.SeekPaginator.GetIndexes` | static/js/modules/tables.js:337-339 | Returns the cursor stored for (length, start), or `{}`. |
| `Tables.SeekPaginator.SetIndexes` | static/js/modules/tables.js:341-344 | The new table is the old one with the cursor stored at (length, start). |
| `Tables.SeekPaginator.ClearIndexes` | static/js/modules/tables.js:346-348 | The table becomes empty. |
| `Tables.SeekPaginator.MapQuery` | static/js/modules/tables.js:350-364 | Remembers the query. Clears the table exactly when the query differs from the last one, and leaves it untouched otherwise. Returns the cursor parameters of the requested window. |
| `Tables.SeekPaginator.HandleResponse` | static/js/modules/tables.js:366-368 | Stores the response's `last_indexes` under (length, start + length) and changes nothing else. |
| `Tables.RefreshExport` | static/js/modules/tables.js:427-439 | Leaves the button alone unless export is on and not disabled. Otherwise applies, in order: the record cap (more than 100000 records), then already pending, then 5 or more pending downloads, then enabled. Each outcome is stated as an iff. |
| `Tables.MessageText` | static/js/modules/tables.js:27-40 | The record-cap message quotes 100000 and the download-cap message quotes 5: each number reads back with `parseInt` from the text after the message's opening words. |
| `Tables.ExportCapFollowsResponse` | static/js/modules/tables.js:427-439 | After a fetch, the record-cap message appears iff the response's count exceeds 100000. |
| `Helpers.Split` | static/js/modules/helpers.js:88-91 | `split` on one character: the pieces contain no separator and joined back give the text. The result is one piece iff the separator is absent. |
| `Helpers.SplitJoin` | static/js/modules/helpers.js:88-91 | Splitting undoes joining separator-free pieces. |
| `Helpers.FormNumber` | static/js/modules/helpers.js:88-91 | Defined iff the text contains `F`. The result contains no `F`. |
| `Helpers.FormNumberOfCode` | static/js/modules/helpers.js:88-91 | For any `F`-free text before the first `F`, the result is the `F`-free piece that follows it, up to the next `F` or the end (`F3X` gives `3X`, `RFAI` gives `AI`). Every text containing an `F` has this shape, so the result is pinned. |
| `Helpers.Decode` | static/js/modules/helpers.js:56-62 | The plain lookup: defined iff the code is in the table, and then the table's entry for it. |
| `Helpers.DecodeOr` | static/js/modules/helpers.js:64-86 | Returns the decoded text when the lookup gives a non-empty one, and the fallback otherwise. |
| `Helpers.DecodeOrSelf` | static/js/modules/helpers.js:68-86 | The table's entry when it is present and non-empty, the code itself otherwise. It is empty only for an empty code. |
| `Helpers.DecodeSupportOppose` | static/js/modules/helpers.js:64-66 | The table's entry when it is present and non-empty, `Unknown` otherwise. Never empty. |
| `Helpers.CycleDates` | static/js/modules/helpers.js:143-148 | `min` is `01-01-` followed by the numeral of year − 1 and nothing more, and `max` is `12-31-` followed by the numeral of year. Both numbers read back with `parseInt`. |
| `Helpers.EnsureArray` | static/js/modules/helpers.js:150-152 | Always an array: arrays are returned unchanged, anything else is wrapped in a one-element array. |
| `Helpers.EnsureArrayIdempotent` | static/js/modules/helpers.js:150-152 | Normalising twice is normalising once. |
| `Helpers.FilterNull` | static/js/modules/helpers.js:154-162 | Keeps exactly the entries whose value is not `''`, unchanged. |
| `Helpers.FilterNullIdempotent` | static/js/modules/helpers.js:154-162 | Filtering twice is filtering once. |
| `Helpers.FilterNullKeepsNull` | static/js/modules/helpers.js:154-162 | `null` and every other value except `''` stay. |
| `Helpers.MinusParsed` | static/js/modules/helpers.js:190-193 | `parseInt(v) - d` is a number iff both sides are. For a number `v` it is `v - d`. |
| `Helpers.NumberText` | static/js/modules/helpers.js:197 | `toString` of a number reads back with `parseInt`. NaN prints as `NaN`. |
| `Helpers.GetTimePeriod` | static/js/modules/helpers.js:179-198 | Throws iff the chosen end (election year or cycle) is null or undefined. Otherwise the label ends with an en dash and that end. |
| `Helpers.FullElectionPeriod` | static/js/modules/helpers.js:179-198 | In the full-election view of P, S or H, the label splits at its dash into election year − 3, 5 or 1, and the election year. |
| `Helpers.CyclePeriod` | static/js/modules/helpers.js:179-198 | Otherwise the label splits into cycle − 1 and the cycle, for any office. |
| `Helpers.UnknownOfficePeriod` | static/js/modules/helpers.js:179-198 | An office outside P, S and H gives a `NaN` start. |
| `Helpers.AmendmentVersion` | static/js/modules/helpers.js:229-239 | Current version iff `true`, past version iff `false`, `Version unknown` iff not a boolean. |
| `Helpers.AmendmentVersionIsStrict` | static/js/modules/helpers.js:229-239 | Truthy or falsy stand-ins for booleans are unknown versions. |
| `Helpers.LengthMinusOne` | static/js/modules/helpers.js:254-256 | `length - 1` is a number exactly for a numeric length (and `null`, read as 0). |
| `Helpers.AmendmentVersionDescription` | static/js/modules/helpers.js:241-264 | Throws iff the row is null or undefined. The result is `''` iff the filing is not e-filed or has a null indicator, and ` Original` iff the indicator is `N`. Otherwise it starts with ` Amendment `. |
| `Helpers.AmendmentNumberFromChain` | static/js/modules/helpers.js:241-264 | For a chain of two or more filings, the number after ` Amendment ` is the chain length − 1. |
| `Helpers.AmendmentNumberDefaults` | static/js/modules/helpers.js:241-264 | Every chain of exactly one filing shows ` Amendment ` with no number. A falsy chain shows ` Amendment 1`. |
| `Routes.MatchDigitsPrefix` | openfecwebapp/routes.py:36 | `re.match('\d{n}', q)` holds iff the first n characters are digits. |
| `Routes.Search` | openfecwebapp/routes.py:33-41 | Landing page iff there is no query. Document viewer iff the query starts with 11 digits, with the query appended to the viewer URL. Search results otherwise. |
| `Routes.SixteenDigitsSubsumed` | openfecwebapp/routes.py:36 | Every query with 16 leading digits has 11. |
| `Routes.FirstGreater` | openfecwebapp/routes.py:92-98 | On a sorted list, the first element above `c` is the least such element. The default is used only when there is none. |
| `Routes.NextCycle` | openfecwebapp/routes.py:92-98 | An election year: the least one after the cycle, or the largest when none is later. |
| `Routes.CandidatePage` | openfecwebapp/routes.py:91-111 | Renders iff it is not a full-election request for a truthy cycle outside the election years. Otherwise it errors on empty election years. When the next cycle is odd it redirects to the same cycle without the full election. Otherwise it redirects to that (even) next election year with the full election. |
| `Routes.NoRedirectLoop` | openfecwebapp/routes.py:91-109 | Following a redirect with the same election years renders the page. |
| `Routes.RedirectToNextElection` | openfecwebapp/routes.py:91-109 | A cycle between elections redirects to the next even election year. |
| `Routes.RedirectToPrevious` | openfecwebapp/routes.py:127 | True iff the cycle is missing or 0. |
| `Routes.CandidatesOffice` | openfecwebapp/routes.py:159-171 | A page iff the lower-cased office is president, senate or house, with the title and columns key built from it. |
| `Routes.CandidatesOfficeCaseInsensitive` | openfecwebapp/routes.py:161-170 | Acceptance and columns do not depend on letter case. |
| `Routes.Reports` | openfecwebapp/routes.py:306-328 | A page iff the lower-cased type is one of the four report types, with that type's fixed title and `reports-` columns key. |
| `Routes.ReportsCaseInsensitive` | openfecwebapp/routes.py:308-327 | Every spelling of a type gives the same page. |
| `Routes.ReportTitlesDistinct` | openfecwebapp/routes.py:310-317 | Distinct report types have distinct titles. |
| `Routes.Elections` | openfecwebapp/routes.py:339-367 | A page iff the office is known and the state, if given, is known. For president, the cycles offered are the multiples of 4 among all cycles, in order and with every repeat kept. For senate they are the state's Senate cycles, and otherwise all cycles. The state's full name is passed iff a state is given, and `None` otherwise. |
| `Routes.ElectionsOffersRequestedCycle` | openfecwebapp/routes.py:340-347 | A presidential year in the URL is among the cycles offered, even beyond the current cycle. This holds because the route asks `get_cycles` for cycles up to the larger of the two, given that `get_cycles(m)` lists the cycle for every `m` from that cycle on. |
| `Sequences.Filter` | openfecwebapp/routes.py:347 | The kept elements in their original order: a subsequence holding each kept value exactly as often as the input does, and no other value. |
| `Sequences.Sort` | openfecwebapp/routes.py:94 | `sorted`: an ascending permutation. |
| `Sequences.MaxOf` | openfecwebapp/routes.py:97 | `max`: an element no smaller than any other. |
| `Decimal.ParseIntRoundTrip` | static/js/modules/tables.js:61 | `parseInt` reads back every printed integer. |
| `Decimal.ParseIntPrefix` | static/js/modules/helpers.js:190 | It still does so when the numeral is followed by text that cannot continue a number. |
| `Decimal.ParseInt` | static/js/modules/helpers.js:190 | `parseInt` gives a number only when, after leading white space, a digit comes first, or a sign followed by a digit. NaN otherwise. |
| `Decimal.IntToString` | static/js/modules/helpers.js:197 | `toString` of an integer is a non-empty numeral: an optional `-`, then digits only, with no leading zero. |
| `JsValue.FalsyValues` | shared/committee-helpers.js:33 | The falsy values, which `\|\| ''` replaces, are exactly `undefined`, `null`, `false`, `0` and `''`. Empty arrays and objects are truthy. |
| `JsValue.Get` | shared/committee-helpers.js:33-74 | A property read throws iff the object is `null` or `undefined`. An own property gives its value, and a missing one gives `undefined`. |
| `JsValue.Elements` | shared/committee-helpers.js:10-13 | Reading `length` throws iff the value is `null` or `undefined`. An array visits its items and a string one entry per character. Anything else visits nothing. |
| `JsValue.ToJsString` | static/js/modules/tables.js:52 | A string converts to itself, `undefined` to `"undefined"`, and a number to text that `parseInt` reads back as that number. |
| `JsValue.OrBlank` | shared/committee-helpers.js:33 | `v \|\| ''` is `v` exactly when `v` is truthy, and `''` otherwise. |
| `Wrappers.MapResult` | shared/committee-helpers.js:13-79 | Succeeds iff every element does. It then has one result per element, in order. |
| `CommitteeHelpers.SubField` | shared/committee-helpers.js:36-54 | An absent sub-object leaves the `''` default. Otherwise the result is the field's value when that is truthy, and `''` when it is falsy. |
| `CommitteeHelpers.CandidateOf` | shared/committee-helpers.js:63-75 | Throws iff the entry is null or undefined. Otherwise `id` is `candidate_id` and `name` is `candidate_name`, each when truthy and `''` otherwise. `office` is `''`, and the link is `/candidates/` followed by the raw id. |
| `CommitteeHelpers.CandidatesOf` | shared/committee-helpers.js:56-77 | Succeeds iff the list is absent, or it is readable and none of its entries is null or undefined. An absent list gives none, and otherwise one view per entry, in order. |
| `CommitteeHelpers.CommitteeOf` | shared/committee-helpers.js:14-78 | Succeeds iff the record and its read sub-objects are not null and its candidates reshape. The view then carries the record (`Reshapes`): each of the nine text fields is the record's value when truthy and `''` otherwise. The address is the record's own, the link is built from the id, and the candidates are reshaped one by one. |
| `CommitteeHelpers.CommitteesOf` | shared/committee-helpers.js:2-82 | Succeeds iff `results` is undefined, or it is readable and every record reshapes. Undefined gives no views. Otherwise there is one view per record, in order. |
| `CommitteeHelpers.ViewOf` | shared/committee-helpers.js:16-54 | Each field of a readable record's view is the value read from its part when truthy, and `''` otherwise or when the part is absent. The link is built from the id, and the candidates are the given ones. |
| `CommitteeHelpers.BuildCommitteeContext` | shared/committee-helpers.js:2-82 | The outer loop returns exactly `CommitteesOf(results)`, including its errors. |
| `CommitteeHelpers.BuildCommitteeView` | shared/committee-helpers.js:14-78 | The loop body returns exactly `CommitteeOf(committee)`. |
| `CommitteeHelpers.AssignFields` | shared/committee-helpers.js:16-54 | The field assignments succeed iff the record and the parts read are not null. The view is then `ViewOf` the record with no candidates yet. |
| `CommitteeHelpers.BuildCandidates` | shared/committee-helpers.js:56-77 | The inner loop returns exactly `CandidatesOf(candidates)`. |
| `CommitteeHelpers.ViewsReshapeRecords` | shared/committee-helpers.js:9-77 | For an array of records, the i-th view carries the i-th record: its field values, its address, the link from its id and its candidates reshaped in order. |
| `CommitteeHelpers.BareRecordKeepsDefaults` | shared/committee-helpers.js:16-54 | A record with only an id keeps every other default. |
| `CommitteeHelpers.MissingIdLinksToIndex` | shared/committee-helpers.js:33-34 | A record without an id has id `''` and links to `/committees/`. |
| `CommitteeHelpers.CandidateLinkWithoutId` | shared/committee-helpers.js:74 | A candidate without an id has id `''` but the link `/candidates/undefined`. |
| `CommitteeHelpers.ViewsFollowRecords` | shared/committee-helpers.js:9-81 | The i-th view is the view of the i-th record, and its link is built from that record's id. |

## Left out

- DOM and widget work in the table module is not modelled: entity and total links, bar and URL columns, modal panels, the `draw.dt` handler, debounced filter changes, and enabling or disabling the export button itself. `RefreshExport` returns which of those the button gets.
- `barsAfterRender` is not modelled. It computes widths with floating-point arithmetic.
- The fetch cycle is not modelled: `DataTable.fetch`, `fetchSuccess`, `hideEmpty`, aborting earlier requests, the download queue and the table registry are asynchronous I/O. `RefreshExport` takes the record total, the pending flag and the pending count as inputs, and `GetCycle` takes the table's cycle filter.
- `Tables.SeekPaginator.MapQuery` compares queries with `==`. This stands in for underscore's deep equality and shallow clone. A `null` query is not distinguished from the initial state.
- `Tables.GetCycle` takes the cycle filter as a list of strings. A filter given as a single string, which underscore would map character by character, is not modelled.
- `Tables.MapSort` takes each column's `data` as text. A column without a `data` field is not modelled.
- `currency`, `formatNumber`, `datetime`, `utcDate` and `zeroPad` are not modelled. They depend on `Intl`, JavaScript dates, another library, or measuring DOM widths.
- `buildAppUrl` and `buildUrl` are not modelled. They depend on the URI library and injected globals.
- The `entityUrl`, `electionUrl`, `panelRow` and other template registrations are not modelled. They are template-engine glue.
- `Helpers.FormNumber` takes a string. `value.split` on `null`, `undefined` or a non-string value throws a `TypeError` (or calls another type's method), which is not modelled.
- The `decode*` tables come from a `decoders` module that is not part of this model. They are parameters here, as string-to-string maps.
- `Helpers.LengthMinusOne` covers numeric and `null` lengths only. Other non-numeric lengths of an amendment chain (booleans, numeric strings) give NaN here rather than JavaScript's number coercion.
- Numbers are unbounded integers. JavaScript's numbers are doubles: `toString` switches to exponent form from 1e21, and integers beyond 2^53 lose precision. Neither is modelled, nor are non-integral values.
- JavaScript `parseInt` and `toString` are modelled for integers in base 10 and 16. Unicode digits in Python's `\d`, and Unicode case mapping in `lower`/`upper`, are modelled for ASCII only.
- `buildCommitteeContext` also assigns `committee.status` back onto its input record. That mutation of the caller's data is not modelled. Nor is the assignment to the undeclared variable `candidate` in the inner loop. In sloppy mode it writes an implicit global, and in strict mode it throws a `ReferenceError`. The model treats it as a local. Array-like objects (an object with a numeric `length`) are treated as having no elements.
- The page scripts for the candidate and committee pages are not part of this model: column set-up, maps and event wiring.
- Routes:
  - Rendering, redirects and aborts are returned as values rather than performed.
  - API calls are not modelled: the loaded cycle and election years are inputs.
  - `utils.current_cycle`, `utils.get_cycles`, `utils.get_state_senate_cycles` and `constants.states` are parameters of `Routes.Elections`. `Routes.ElectionsOffersRequestedCycle` assumes that `get_cycles(m)` lists every cycle up to `m`, which is not part of this model.
  - The date-dependent breakdown pages are not modelled.
