/** The decisions the web application's page routes take before rendering: where a
    search goes, whether a candidate page redirects to another cycle, whether a
    committee page falls back to its last cycle with reports, which office and
    report types exist, and which cycles an elections page offers. Rendering,
    redirects and API calls are the callers' business; each route here returns
    what it decided. */
module Routes {
  import opened Wrappers
  import Decimal
  import Sequences

  // ---------------------------------------------------------------------------
  // Case mapping (ASCII letters)

  function LowerChar(c: char): char
  {
    if 'A' <= c <= 'Z' then (c as int + 32) as char else c
  }

  function UpperChar(c: char): char
  {
    if 'a' <= c <= 'z' then (c as int - 32) as char else c
  }

  /** `s.lower()` */
  function Lower(s: string): (r: string)
    ensures |r| == |s|
    ensures forall i :: 0 <= i < |s| ==> r[i] == LowerChar(s[i])
  {
    seq(|s|, i requires 0 <= i < |s| => LowerChar(s[i]))
  }

  /** `s.upper()` */
  function Upper(s: string): (r: string)
    ensures |r| == |s|
    ensures forall i :: 0 <= i < |s| ==> r[i] == UpperChar(s[i])
  {
    seq(|s|, i requires 0 <= i < |s| => UpperChar(s[i]))
  }

  lemma LowerIdempotent(s: string)
    ensures Lower(Lower(s)) == Lower(s)
  {
  }

  // ---------------------------------------------------------------------------
  // search

  /** `re.match('\d{n}', q)`: `n` digits at the very start of `q`, whatever follows. */
  predicate MatchDigits(q: string, n: nat)
  {
    if n == 0 then true
    else |q| > 0 && Decimal.IsDigit(q[0]) && MatchDigits(q[1..], n - 1)
  }

  /** The pattern holds exactly when the first `n` characters are digits. */
  lemma {:induction false} MatchDigitsPrefix(q: string, n: nat)
    ensures MatchDigits(q, n) <==> |q| >= n && forall i :: 0 <= i < n ==> Decimal.IsDigit(q[i])
  {
    if n > 0 && |q| > 0 {
      MatchDigitsPrefix(q[1..], n - 1);
      assert forall i :: 1 <= i < n && i < |q| ==> q[i] == q[1..][i - 1];
    }
  }

  const DocumentViewerBase := "http://docquery.fec.gov/cgi-bin/fecimg/?"

  datatype SearchOutcome =
    | Landing
    | DocumentViewer(url: string)
    | SearchResults(query: string)

  /** The `/` route for the `search` argument (`None` when absent). */
  function Search(query: Option<string>): (r: SearchOutcome)
    ensures r.Landing? <==> query.None? || query.value == ""
    ensures r.DocumentViewer? <==>
              query.Some? && |query.value| >= 11 && forall i :: 0 <= i < 11 ==> Decimal.IsDigit(query.value[i])
    ensures r.DocumentViewer? ==> r.url == DocumentViewerBase + query.value
    ensures r.SearchResults? ==> r.query == query.value
  {
    match query
    case None => Landing
    case Some(q) =>
      MatchDigitsPrefix(q, 16);
      MatchDigitsPrefix(q, 11);
      if q == "" then Landing
      else if MatchDigits(q, 16) || MatchDigits(q, 11) then DocumentViewer(DocumentViewerBase + q)
      else SearchResults(q)
  }

  /** The sixteen-digit test adds nothing: every query it accepts also starts with eleven digits. */
  lemma SixteenDigitsSubsumed(q: string)
    ensures MatchDigits(q, 16) ==> MatchDigits(q, 11)
  {
    MatchDigitsPrefix(q, 16);
    MatchDigitsPrefix(q, 11);
  }

  // ---------------------------------------------------------------------------
  // candidate_page

  /** `next((y for y in s if y > c), default)` */
  function FirstGreater(s: seq<int>, c: int, default: int): (r: int)
    requires Sequences.Sorted(s)
    ensures (exists i :: 0 <= i < |s| && s[i] > c) ==>
              r in s && r > c && forall y :: y in s && y > c ==> r <= y
    ensures (forall i :: 0 <= i < |s| ==> s[i] <= c) ==> r == default
  {
    if s == [] then default
    else if s[0] > c then s[0]
    else
      assert forall i :: 1 <= i < |s| ==> s[i] == s[1..][i - 1];
      assert forall y :: y in s ==> y == s[0] || y in s[1..];
      FirstGreater(s[1..], c, default)
  }

  /** The election year a candidate page moves on to from a cycle that is not one:
      the earliest later election, or the last election when none is later. */
  function NextCycle(years: seq<int>, cycle: int): (r: int)
    requires |years| > 0
    ensures r in years
    ensures (exists y :: y in years && y > cycle) ==>
              r > cycle && forall y :: y in years && y > cycle ==> r <= y
    ensures (forall y :: y in years ==> y <= cycle) ==> forall y :: y in years ==> y <= r
  {
    var sorted := Sequences.Sort(years);
    assert forall y :: y in years <==> y in sorted by {
      forall y ensures y in years <==> y in sorted {
        assert y in years <==> y in multiset(years);
        assert y in sorted <==> y in multiset(sorted);
      }
    }
    FirstGreater(sorted, cycle, Sequences.MaxOf(years))
  }

  datatype CandidateOutcome =
    | RenderCandidate(cycle: Option<int>, electionFull: bool)
    | RedirectCandidate(toCycle: int, toElectionFull: bool)
    /** `max([])` raises on a candidate without election years. */
    | CandidateServerError

  /** Whether `candidate_page` must leave the requested (and loaded) cycle: a full
      election view of a cycle that is not one of the candidate's elections. */
  predicate NeedsRedirect(electionFull: bool, cycle: Option<int>, years: seq<int>)
  {
    electionFull && cycle.Some? && cycle.value != 0 && cycle.value !in years
  }

  /** `candidate_page` after loading: `cycle` is the cycle the API call settled on,
      `years` the candidate's `election_years`. */
  function CandidatePage(electionFull: bool, cycle: Option<int>, years: seq<int>): (r: CandidateOutcome)
    ensures r.RenderCandidate? <==> !NeedsRedirect(electionFull, cycle, years)
    ensures r.RenderCandidate? ==> r.cycle == cycle && r.electionFull == electionFull
    ensures r.CandidateServerError? <==> NeedsRedirect(electionFull, cycle, years) && years == []
    ensures r.RedirectCandidate? && r.toElectionFull ==>
              r.toCycle in years && r.toCycle % 2 == 0 && r.toCycle == NextCycle(years, cycle.value)
    ensures r.RedirectCandidate? && !r.toElectionFull ==>
              r.toCycle == cycle.value && NextCycle(years, cycle.value) % 2 == 1
  {
    if NeedsRedirect(electionFull, cycle, years) then
      if years == [] then CandidateServerError
      else
        var next := NextCycle(years, cycle.value);
        if next % 2 > 0 then RedirectCandidate(cycle.value, false)
        else RedirectCandidate(next, true)
    else RenderCandidate(cycle, electionFull)
  }

  /** Following a redirect (with the same election years) renders: it never redirects twice. */
  lemma NoRedirectLoop(electionFull: bool, cycle: Option<int>, years: seq<int>)
    requires CandidatePage(electionFull, cycle, years).RedirectCandidate?
    ensures var r := CandidatePage(electionFull, cycle, years);
      CandidatePage(r.toElectionFull, Some(r.toCycle), years) == RenderCandidate(Some(r.toCycle), r.toElectionFull)
  {
  }

  /** A full-election request for a cycle between two elections lands on the later one when that is even. */
  lemma RedirectToNextElection(cycle: int, years: seq<int>, next: int)
    requires cycle != 0 && cycle !in years && next in years && next > cycle && next % 2 == 0
    requires forall y :: y in years && y > cycle ==> next <= y
    ensures CandidatePage(true, Some(cycle), years) == RedirectCandidate(next, true)
  {
    var n := NextCycle(years, cycle);
    assert n <= next && next <= n;
  }

  // ---------------------------------------------------------------------------
  // committee_page

  /** `redirect_to_previous` of `committee_page`: set exactly when no cycle (or cycle 0) was asked for. */
  function RedirectToPrevious(cycle: Option<int>): (r: bool)
    ensures r <==> cycle.None? || cycle.value == 0
  {
    match cycle
    case None => true
    case Some(c) => c == 0
  }

  // ---------------------------------------------------------------------------
  // candidates_office

  const Offices: set<string> := {"president", "senate", "house"}

  datatype OfficeOutcome =
    | OfficeNotFound
    | OfficeTable(title: string, office: string, columnsKey: string)

  /** `candidates_office(office)`: 404 for an unknown office, else the table page. */
  function CandidatesOffice(office: string): (r: OfficeOutcome)
    ensures r.OfficeTable? <==> Lower(office) in Offices
    ensures r.OfficeTable? ==>
              r.office == office && r.title == "candidates for " + office
              && r.columnsKey == "candidates-office-" + Lower(office)
  {
    if Lower(office) !in Offices then OfficeNotFound
    else OfficeTable("candidates for " + office, office, "candidates-office-" + Lower(office))
  }

  /** The office is recognised whatever its case, and its columns do not depend on the case. */
  lemma CandidatesOfficeCaseInsensitive(office: string)
    ensures CandidatesOffice(office).OfficeTable? <==> CandidatesOffice(Lower(office)).OfficeTable?
    ensures CandidatesOffice(office).OfficeTable? ==>
              CandidatesOffice(office).columnsKey == CandidatesOffice(Lower(office)).columnsKey
  {
    LowerIdempotent(office);
  }

  // ---------------------------------------------------------------------------
  // reports

  /** The page title of each report type. */
  const ReportTitles: map<string, string> := map[
    "presidential" := "Presidential committee reports",
    "house-senate" := "House and Senate committee reports",
    "pac-party" := "PAC and party committee reports",
    "ie-only" := "Independent expenditure only committee reports"
  ]

  datatype ReportsOutcome =
    | ReportsNotFound
    | ReportsPage(title: string, formType: string, columnsKey: string)

  /** `reports(form_type)`: 404 for an unknown report type, else the table page
      with the type lower-cased in its context. */
  function Reports(formType: string): (r: ReportsOutcome)
    ensures r.ReportsPage? <==> Lower(formType) in {"presidential", "house-senate", "pac-party", "ie-only"}
    ensures r.ReportsPage? ==>
              r.formType == Lower(formType) && r.title == ReportTitles[r.formType]
              && r.columnsKey == "reports-" + r.formType
  {
    var t := Lower(formType);
    if t !in ["presidential", "house-senate", "pac-party", "ie-only"] then ReportsNotFound
    else
      var title :=
        if t == "presidential" then "Presidential committee reports"
        else if t == "house-senate" then "House and Senate committee reports"
        else if t == "pac-party" then "PAC and party committee reports"
        else "Independent expenditure only committee reports";
      ReportsPage(title, t, "reports-" + t)
  }

  /** The route treats the report type case-insensitively: every spelling yields the same page. */
  lemma ReportsCaseInsensitive(formType: string)
    ensures Reports(formType) == Reports(Lower(formType))
  {
    LowerIdempotent(formType);
  }

  /** Distinct report types have distinct titles. */
  lemma ReportTitlesDistinct(a: string, b: string)
    requires Reports(a).ReportsPage? && Reports(b).ReportsPage?
    requires Reports(a).title == Reports(b).title
    ensures Lower(a) == Lower(b)
  {
  }

  // ---------------------------------------------------------------------------
  // elections

  datatype ElectionsOutcome =
    | ElectionsNotFound
    | ElectionsPage(cycle: int, cycles: seq<int>, stateFull: Option<string>)

  /** `cycle % 4 == 0`: the years of presidential elections. */
  predicate PresidentialYear(y: int)
  {
    y % 4 == 0
  }

  /** The cycles `elections` offers up to `maxCycle`: presidential years only for
      president, the state's Senate cycles for senate, all of `getCycles` otherwise. */
  function OfficeCycles(office: string, state: Option<string>, maxCycle: int,
                        getCycles: int -> seq<int>, senateCycles: Option<string> -> seq<int>): seq<int>
  {
    if Lower(office) == "president" then Sequences.Filter(getCycles(maxCycle), PresidentialYear)
    else if Lower(office) == "senate" then senateCycles(state)
    else getCycles(maxCycle)
  }

  /** `elections(office, cycle, state)`. The helpers the route calls are parameters:
      `currentCycle` (`utils.current_cycle()`), `getCycles` (`utils.get_cycles`),
      `senateCycles` (`utils.get_state_senate_cycles`) and `states` (`constants.states`). */
  function Elections(office: string, cycle: int, state: Option<string>, currentCycle: int,
                     getCycles: int -> seq<int>, senateCycles: Option<string> -> seq<int>,
                     states: map<string, string>): (r: ElectionsOutcome)
    ensures r.ElectionsPage? <==>
              Lower(office) in Offices && (state.None? || state.value == "" || Upper(state.value) in states)
    ensures r.ElectionsPage? ==> r.cycle == cycle
    ensures r.ElectionsPage? && Lower(office) == "president" ==>
              var all := getCycles(if cycle > currentCycle then cycle else currentCycle);
              && Sequences.IsSubsequence(r.cycles, all)
              && (forall y :: y in r.cycles <==> y in all && y % 4 == 0)
              && forall y :: multiset(r.cycles)[y] == if y % 4 == 0 then multiset(all)[y] else 0
    ensures r.ElectionsPage? && Lower(office) == "senate" ==> r.cycles == senateCycles(state)
    ensures r.ElectionsPage? && Lower(office) !in {"president", "senate"} ==>
              r.cycles == getCycles(if cycle > currentCycle then cycle else currentCycle)
    ensures r.ElectionsPage? && state.Some? && state.value != "" ==> r.stateFull == Some(states[Upper(state.value)])
    ensures r.ElectionsPage? && (state.None? || state.value == "") ==> r.stateFull == None
  {
    var maxCycle := if cycle > currentCycle then cycle else currentCycle;
    var cycles := OfficeCycles(office, state, maxCycle, getCycles, senateCycles);
    if Lower(office) !in Offices then ElectionsNotFound
    else if state.Some? && state.value != "" && Upper(state.value) !in states then ElectionsNotFound
    else
      var stateFull := if state.Some? && state.value != "" then Some(states[Upper(state.value)]) else None;
      ElectionsPage(cycle, cycles, stateFull)
  }

  /** A presidential year in the URL is always among the cycles offered to the
      president page, even beyond the current cycle, as long as `getCycles(m)` lists
      the cycle for every bound `m` from the cycle on: the route asks for cycles up
      to the larger of the URL's cycle and the current one, never fewer. */
  lemma ElectionsOffersRequestedCycle(cycle: int, currentCycle: int, getCycles: int -> seq<int>,
                                      senateCycles: Option<string> -> seq<int>, states: map<string, string>)
    requires cycle % 4 == 0
    requires forall m :: m >= cycle ==> cycle in getCycles(m)
    ensures var r := Elections("president", cycle, None, currentCycle, getCycles, senateCycles, states);
      r.ElectionsPage? && cycle in r.cycles
  {
    assert Lower("president") == "president";
    var maxCycle := if cycle > currentCycle then cycle else currentCycle;
    assert maxCycle >= cycle;
    assert cycle in getCycles(maxCycle);
  }
}
