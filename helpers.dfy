/** The formatting and decision helpers that the page templates and tables call:
    the date window of a two-year cycle, argument normalisation, the period label
    of a candidate's election, the amendment labels of a filing, and the
    dictionary lookups that decode API codes for display. */
module Helpers {
  import opened Wrappers
  import opened JsValue
  import Decimal

  // ---------------------------------------------------------------------------
  // Splitting text on one character

  /** `parts.join(sep)` */
  function Join(parts: seq<string>, sep: char): string
    requires |parts| > 0
  {
    if |parts| == 1 then parts[0] else parts[0] + [sep] + Join(parts[1..], sep)
  }

  /** `s.split(sep)` for a one-character separator: the pieces between the
      occurrences of `sep`, one more than there are occurrences. */
  function Split(s: string, sep: char): (parts: seq<string>)
    ensures |parts| > 0
    ensures forall i :: 0 <= i < |parts| ==> sep !in parts[i]
    ensures Join(parts, sep) == s
    ensures sep !in s <==> parts == [s]
  {
    if s == [] then [""]
    else
      var rest := Split(s[1..], sep);
      if s[0] == sep then
        assert [s[0]] + s[1..] == s;
        [""] + rest
      else
        var parts := [[s[0]] + rest[0]] + rest[1..];
        assert parts[1..] == rest[1..];
        assert |rest| > 1 ==> Join(rest, sep) == rest[0] + [sep] + Join(rest[1..], sep);
        assert [s[0]] + s[1..] == s;
        assert sep !in s <==> sep !in s[1..];
        parts
  }

  /** Splitting undoes joining pieces that do not contain the separator. */
  lemma {:induction false} SplitJoin(parts: seq<string>, sep: char)
    requires |parts| > 0
    requires forall i :: 0 <= i < |parts| ==> sep !in parts[i]
    ensures Split(Join(parts, sep), sep) == parts
  {
    if |parts| == 1 {
      assert sep !in Join(parts, sep);
    } else {
      SplitJoin(parts[1..], sep);
      SplitPrefix(parts[0], Join(parts[1..], sep), sep);
      assert [parts[0]] + parts[1..] == parts;
    }
  }

  /** A separator-free piece in front of a separator becomes a piece of its own. */
  lemma {:induction false} SplitPrefix(p: string, rest: string, sep: char)
    requires sep !in p
    ensures Split(p + [sep] + rest, sep) == [p] + Split(rest, sep)
  {
    if p == [] {
      assert p + [sep] + rest == [sep] + rest;
      assert ([sep] + rest)[1..] == rest;
    } else {
      var s := p + [sep] + rest;
      assert s[0] == p[0];
      assert s[1..] == p[1..] + [sep] + rest;
      SplitPrefix(p[1..], rest, sep);
      assert [p[0]] + p[1..] == p;
    }
  }

  // ---------------------------------------------------------------------------
  // cycleDates

  /** The `min_date` and `max_date` filters of a cycle, as `MM-DD-YYYY` text. */
  datatype DateRange = DateRange(min: string, max: string)

  /** `cycleDates(year)`: from the first day of the year before `year` to the last day of `year`. */
  function CycleDates(year: int): (r: DateRange)
    ensures |r.min| > 6 && r.min[..6] == "01-01-" && Decimal.ParseInt(r.min[6..]) == Some(year - 1)
    ensures |r.max| > 6 && r.max[..6] == "12-31-" && Decimal.ParseInt(r.max[6..]) == Some(year)
    ensures |r.min| == 6 + |Decimal.IntToString(year - 1)| && |r.max| == 6 + |Decimal.IntToString(year)|
  {
    var first, last := Decimal.IntToString(year - 1), Decimal.IntToString(year);
    Decimal.ParseIntRoundTrip(year - 1);
    Decimal.ParseIntRoundTrip(year);
    assert ("01-01-" + first)[6..] == first;
    assert ("12-31-" + last)[6..] == last;
    DateRange("01-01-" + first, "12-31-" + last)
  }

  // ---------------------------------------------------------------------------
  // ensureArray

  /** `ensureArray(value)`: arrays pass through, anything else is wrapped. */
  function EnsureArray(v: Value): (r: Value)
    ensures r.Arr?
    ensures v.Arr? ==> r == v
    ensures !v.Arr? ==> r.items == [v]
  {
    if v.Arr? then v else Arr([v])
  }

  /** Normalising twice is normalising once. */
  lemma EnsureArrayIdempotent(v: Value)
    ensures EnsureArray(EnsureArray(v)) == EnsureArray(v)
  {
  }

  // ---------------------------------------------------------------------------
  // filterNull

  /** `filterNull(params)`: drops the parameters whose value is the empty string. */
  function FilterNull(params: map<string, Value>): (r: map<string, Value>)
    ensures forall k :: k in r <==> k in params && params[k] != Str("")
    ensures forall k :: k in r ==> r[k] == params[k]
    ensures Str("") !in r.Values
  {
    map k | k in params && params[k] != Str("") :: params[k]
  }

  /** Filtering twice is filtering once. */
  lemma FilterNullIdempotent(params: map<string, Value>)
    ensures FilterNull(FilterNull(params)) == FilterNull(params)
  {
    var once := FilterNull(params);
    assert FilterNull(once).Keys == once.Keys;
  }

  /** Despite its name, `null` parameters (and every other falsy value but `''`) stay. */
  lemma FilterNullKeepsNull(params: map<string, Value>, k: string)
    requires k in params && params[k] != Str("")
    ensures k in FilterNull(params) && FilterNull(params)[k] == params[k]
  {
  }

  // ---------------------------------------------------------------------------
  // getTimePeriod

  const EnDash: char := '\U{2013}'

  /** The years before the election that a candidate of each office raises money for. */
  const Durations: map<string, int> := map["P" := 3, "S" := 5, "H" := 1]

  /** `n.toString()` for a number that may be NaN (`None`). */
  function NumberText(n: Option<int>): (s: string)
    ensures n.Some? ==> Decimal.ParseInt(s) == n
    ensures n.None? <==> s == "NaN"
  {
    match n
    case None => "NaN"
    case Some(k) =>
      Decimal.ParseIntRoundTrip(k);
      var t := Decimal.IntToString(k);
      assert t[0] != 'N';
      t
  }

  /** `parseInt(v) - d`, NaN (`None`) when either side is. */
  function MinusParsed(v: Value, d: Option<int>): (r: Option<int>)
    ensures r.Some? <==> Decimal.ParseInt(ToJsString(v)).Some? && d.Some?
    ensures v.Num? && d.Some? ==> r == Some(v.n - d.value)
  {
    match (Decimal.ParseInt(ToJsString(v)), d)
    case (Some(a), Some(b)) => Some(a - b)
    case _ => None
  }

  /** `getTimePeriod(electionYear, cycle, electionFull, office)`: the label
      `min–max` of the years covered. With `electionFull` the period ends at the
      election and starts the office's duration earlier; otherwise it is the
      two-year cycle. Calling `toString` on a null or undefined end throws. */
  function GetTimePeriod(electionYear: Value, cycle: Value, electionFull: Value, office: string)
    : (r: Result<string, JsError>)
    ensures var max := if Truthy(electionFull) then electionYear else cycle;
      && (r.Err? <==> max.Undefined? || max.Null?)
      && (r.Ok? ==> exists first :: r.value == first + [EnDash] + ToJsString(max))
  {
    var duration := if office in Durations then Some(Durations[office]) else None;
    var min := if Truthy(electionFull) then MinusParsed(electionYear, duration) else MinusParsed(cycle, Some(1));
    var max := if Truthy(electionFull) then electionYear else cycle;
    if max.Undefined? || max.Null? then Err(TypeError)
    else Ok(NumberText(min) + [EnDash] + ToJsString(max))
  }

  /** A numeral has no en dash in it. */
  lemma NumeralHasNoDash(i: int)
    ensures EnDash !in Decimal.IntToString(i)
  {
    var s := Decimal.IntToString(i);
    assert forall k :: 0 <= k < |s| ==> s[k] != EnDash;
  }

  /** For a numeric election year of a known office, the full-election label splits
      at its dash into the year the office's duration before and the election year. */
  lemma FullElectionPeriod(year: int, cycle: Value, office: string)
    requires office in Durations
    ensures GetTimePeriod(Num(year), cycle, Bool(true), office).Ok?
    ensures Split(GetTimePeriod(Num(year), cycle, Bool(true), office).value, EnDash)
      == [Decimal.IntToString(year - Durations[office]), Decimal.IntToString(year)]
  {
    var d := Durations[office];
    var r := GetTimePeriod(Num(year), cycle, Bool(true), office);
    assert MinusParsed(Num(year), Some(d)) == Some(year - d) by {
      Decimal.ParseIntRoundTrip(year);
      assert ToJsString(Num(year)) == Decimal.IntToString(year);
    }
    assert r == Ok(NumberText(Some(year - d)) + [EnDash] + ToJsString(Num(year)));
    assert NumberText(Some(year - d)) == Decimal.IntToString(year - d);
    assert ToJsString(Num(year)) == Decimal.IntToString(year);
    PeriodSplits(year - d, year);
  }

  /** Outside the full-election view, the label of a numeric cycle covers the year
      before it and the cycle itself, whatever the office. */
  lemma CyclePeriod(electionYear: Value, cycle: int, electionFull: Value, office: string)
    requires !Truthy(electionFull)
    ensures GetTimePeriod(electionYear, Num(cycle), electionFull, office).Ok?
    ensures Split(GetTimePeriod(electionYear, Num(cycle), electionFull, office).value, EnDash)
      == [Decimal.IntToString(cycle - 1), Decimal.IntToString(cycle)]
  {
    Decimal.ParseIntRoundTrip(cycle);
    assert ToJsString(Num(cycle)) == Decimal.IntToString(cycle);
    assert MinusParsed(Num(cycle), Some(1)) == Some(cycle - 1);
    assert NumberText(Some(cycle - 1)) == Decimal.IntToString(cycle - 1);
    assert GetTimePeriod(electionYear, Num(cycle), electionFull, office)
      == Ok(Decimal.IntToString(cycle - 1) + [EnDash] + Decimal.IntToString(cycle));
    PeriodSplits(cycle - 1, cycle);
  }

  lemma PeriodSplits(first: int, last: int)
    ensures Split(Decimal.IntToString(first) + [EnDash] + Decimal.IntToString(last), EnDash)
      == [Decimal.IntToString(first), Decimal.IntToString(last)]
  {
    var parts := [Decimal.IntToString(first), Decimal.IntToString(last)];
    NumeralHasNoDash(first);
    NumeralHasNoDash(last);
    assert Join(parts, EnDash) == parts[0] + [EnDash] + parts[1] by {
      assert parts[1..] == [parts[1]];
    }
    SplitJoin(parts, EnDash);
  }

  /** An office outside the table has no duration: the full-election label starts with NaN. */
  lemma UnknownOfficePeriod(electionYear: Value, cycle: Value, office: string)
    requires office !in Durations && !electionYear.Undefined? && !electionYear.Null?
    ensures GetTimePeriod(electionYear, cycle, Bool(true), office)
      == Ok("NaN" + [EnDash] + ToJsString(electionYear))
  {
  }

  // ---------------------------------------------------------------------------
  // amendmentVersion

  const CurrentVersion := "<i class=\"icon-circle--check-outline--inline--left\"></i>Current version"
  const PastVersion := "<i class=\"icon-circle--clock-reverse--inline--left\"></i>Past version"
  const UnknownVersion := "Version unknown"

  /** `amendmentVersion(most_recent)`: only the booleans themselves are recognised. */
  function AmendmentVersion(mostRecent: Value): (r: string)
    ensures r == CurrentVersion <==> mostRecent == Bool(true)
    ensures r == PastVersion <==> mostRecent == Bool(false)
    ensures r == UnknownVersion <==> !mostRecent.Bool?
  {
    if mostRecent == Bool(true) then CurrentVersion
    else if mostRecent == Bool(false) then PastVersion
    else UnknownVersion
  }

  /** Truthy or falsy look-alikes of a boolean (`1`, `'true'`, `0`, `null`) are unknown versions. */
  lemma AmendmentVersionIsStrict(mostRecent: Value)
    requires !mostRecent.Bool?
    ensures AmendmentVersion(mostRecent) == UnknownVersion
    ensures AmendmentVersion(mostRecent) != AmendmentVersion(Bool(Truthy(mostRecent)))
  {
  }

  // ---------------------------------------------------------------------------
  // amendmentVersionDescription

  const MeansFiledEFile := "e-file"
  const AmendmentIndicatorNew := "N"

  /** `n - 1` for the `length` of an amendment chain, NaN when it is not a number
      (`undefined` for a chain that is a number or boolean). */
  function LengthMinusOne(length: Value): (r: Option<int>)
    ensures r.Some? <==> length.Num? || length.Null?
    ensures length.Num? ==> r == Some(length.n - 1)
    ensures length.Null? ==> r == Some(-1)
  {
    match length
    case Num(n) => Some(n - 1)
    case Null => Some(-1)
    case _ => None
  }

  /** `' Amendment ' + amendment_num`, where 0 shows as nothing. */
  function AmendmentText(num: Option<int>): string
  {
    " Amendment " + if num == Some(0) then "" else NumberText(num)
  }

  /** `amendmentVersionDescription(row)`; reading a field of a null row throws. */
  function AmendmentVersionDescription(row: Value): (r: Result<string, JsError>)
    ensures r.Err? <==> row.Undefined? || row.Null?
    ensures r == Ok("") <==>
              (r.Ok? && (Get(row, "means_filed").value != Str(MeansFiledEFile)
                         || Get(row, "amendment_indicator").value == Null))
    ensures r == Ok(" Original") <==>
              (r.Ok? && Get(row, "means_filed").value == Str(MeansFiledEFile)
                     && Get(row, "amendment_indicator").value == Str(AmendmentIndicatorNew))
    ensures r.Ok? && r.value != "" && r.value != " Original" ==>
              |r.value| >= 11 && r.value[..11] == " Amendment "
  {
    if row.Undefined? || row.Null? then Err(TypeError)
    else
      var meansFiled, indicator := Prop(row, "means_filed"), Prop(row, "amendment_indicator");
      if meansFiled != Str(MeansFiledEFile) || indicator == Null then Ok("")
      else if indicator == Str(AmendmentIndicatorNew) then Ok(" Original")
      else
        var chain := Prop(row, "amendment_chain");
        if Truthy(chain) then Ok(AmendmentText(LengthMinusOne(Prop(chain, "length"))))
        else Ok(AmendmentText(Some(1)))
  }

  /** `row` is an electronically filed amendment (not an original) whose
      `amendment_chain` is `chain`. */
  predicate EFiledAmendment(row: Value, chain: Value)
  {
    && Get(row, "means_filed") == Ok(Str(MeansFiledEFile))
    && Get(row, "amendment_indicator").Ok?
    && Get(row, "amendment_indicator").value !in {Null, Str(AmendmentIndicatorNew)}
    && Get(row, "amendment_chain") == Ok(chain)
  }

  /** The number shown for an amendment is one less than the length of its chain,
      and reads back from the text after ` Amendment `. */
  lemma AmendmentNumberFromChain(row: Value, chain: seq<Value>)
    requires EFiledAmendment(row, Arr(chain)) && |chain| >= 2
    ensures var r := AmendmentVersionDescription(row);
      r.Ok? && |r.value| > 11 && r.value[..11] == " Amendment " && Decimal.ParseInt(r.value[11..]) == Some(|chain| - 1)
  {
    assert !row.Undefined? && !row.Null?;
    assert Prop(Arr(chain), "length") == Num(|chain|);
    assert LengthMinusOne(Num(|chain|)) == Some(|chain| - 1);
    var text := NumberText(Some(|chain| - 1));
    assert AmendmentText(Some(|chain| - 1)) == " Amendment " + text;
    assert AmendmentVersionDescription(row) == Ok(" Amendment " + text);
    assert (" Amendment " + text)[11..] == text;
  }

  /** A chain of one filing shows no number; no chain at all shows amendment 1. */
  lemma AmendmentNumberDefaults(row: Value, chain: Value)
    requires EFiledAmendment(row, chain)
    ensures chain.Arr? && |chain.items| == 1 ==> AmendmentVersionDescription(row) == Ok(" Amendment ")
    ensures !Truthy(chain) ==> AmendmentVersionDescription(row) == Ok(" Amendment 1")
  {
    assert !row.Undefined? && !row.Null?;
    if chain.Arr? && |chain.items| == 1 {
      assert Prop(chain, "length") == Num(1);
      assert AmendmentText(Some(0)) == " Amendment ";
    } else if !Truthy(chain) {
      assert NumberText(Some(1)) == "1" by {
        assert Decimal.NatToString(1) == [Decimal.DigitChar(1)];
      }
      assert AmendmentText(Some(1)) == " Amendment 1";
    }
  }

  // ---------------------------------------------------------------------------
  // formNumber and the decode* helpers

  /** `value.split('F')[1]`: the text between the first `F` and the next, `None`
      (undefined) when there is no `F`. */
  function FormNumber(value: string): (r: Option<string>)
    ensures r.Some? <==> 'F' in value
    ensures r.Some? ==> 'F' !in r.value
  {
    var parts := Split(value, 'F');
    if |parts| > 1 then Some(parts[1]) else None
  }

  /** The first piece of a separator-free text followed by a separator (or nothing) is that text. */
  lemma SplitFirstPiece(number: string, suffix: string, sep: char)
    requires sep !in number
    requires suffix == [] || suffix[0] == sep
    ensures Split(number + suffix, sep)[0] == number
  {
    if suffix == [] {
      assert number + suffix == number;
      assert Split(number, sep) == [number];
    } else {
      var t := number + [sep] + suffix[1..];
      assert t == number + suffix by {
        assert suffix == [sep] + suffix[1..];
      }
      SplitPrefix(number, suffix[1..], sep);
      assert Split(t, sep)[0] == number;
    }
  }

  /** The piece after the first `F` is what the helper shows: the form code `F3X`
      gives `3X`, and a code with text before its `F` (`RFAI`) gives `AI`. Every
      text that contains an `F` splits this way, so this pins the result. */
  lemma FormNumberOfCode(prefix: string, number: string, suffix: string)
    requires 'F' !in prefix && 'F' !in number
    requires suffix == [] || suffix[0] == 'F'
    ensures FormNumber(prefix + "F" + number + suffix) == Some(number)
  {
    SplitPrefix(prefix, number + suffix, 'F');
    assert prefix + "F" + number + suffix == prefix + ['F'] + (number + suffix);
    SplitFirstPiece(number, suffix, 'F');
  }

  /** `decoders.X[value]`, undefined (`None`) for a code the table lacks
      (`decodeAmendment`, `decodeOffice`). */
  function Decode(table: map<string, string>, value: string): (r: Option<string>)
    ensures r.Some? <==> value in table
    ensures r.Some? ==> r.value == table[value] && r.value in table.Values
  {
    if value in table then Some(table[value]) else None
  }

  /** `decoders.X[value] || fallback`: the decoded text unless it is missing or empty. */
  function DecodeOr(table: map<string, string>, value: string, fallback: string): (r: string)
    ensures Decode(table, value).Some? && Decode(table, value).value != "" ==> r == Decode(table, value).value
    ensures Decode(table, value).None? || Decode(table, value) == Some("") ==> r == fallback
  {
    if value in table && table[value] != "" then table[value] else fallback
  }

  /** `decodeForm`, `decodeReport`, `decodeState`, `decodeParty`, `decodeMeans`:
      a code the table does not name is shown as it is. */
  function DecodeOrSelf(table: map<string, string>, value: string): (r: string)
    ensures value in table && table[value] != "" ==> r == table[value]
    ensures !(value in table && table[value] != "") ==> r == value
    ensures r == "" ==> value == ""
  {
    DecodeOr(table, value, value)
  }

  /** `decodeSupportOppose`: an unknown or blank indicator shows as `Unknown`. */
  function DecodeSupportOppose(table: map<string, string>, value: string): (r: string)
    ensures r != ""
    ensures value in table && table[value] != "" ==> r == table[value]
    ensures !(value in table && table[value] != "") ==> r == "Unknown"
  {
    DecodeOr(table, value, "Unknown")
  }
}
