/** The reshaping of committee records from the API into the flat view objects the
    committee templates render: one view per record, every text field defaulting
    to `''`, and the record's candidates reshaped the same way. */
module CommitteeHelpers {
  import opened Wrappers
  import opened JsValue

  /** A candidate as the templates see it. `office` is never filled in. */
  datatype CandidateView = CandidateView(id: Value, name: Value, office: Value, url: string)

  /** A committee as the templates see it (`type` is `committeeType` here). */
  datatype CommitteeView = CommitteeView(
    id: Value, name: Value, treasurer: Value, state: Value, party: Value,
    committeeType: Value, designation: Value, organization: Value,
    address: Value, nameURL: string, candidates: seq<CandidateView>)

  /** The fresh object each iteration starts from. */
  const BlankCommittee := CommitteeView(Str(""), Str(""), Str(""), Str(""), Str(""), Str(""), Str(""), Str(""),
                                        Obj(map[]), "", [])

  const BlankCandidate := CandidateView(Str(""), Str(""), Str(""), "")

  const CommitteesPath := "/committees/"
  const CandidatesPath := "/candidates/"

  /** A value that `v || ''` can produce. */
  predicate Blankable(v: Value)
  {
    Truthy(v) || v == Str("")
  }

  /** What a field holds after `if (typeof sub !== 'undefined') field = sub.key || ''`:
      the initial `''` when the part is absent, otherwise the part's value when that is
      truthy and `''` when it is falsy. */
  predicate TakesField(field: Value, sub: Value, key: string)
  {
    if sub.Undefined? || sub.Null? then field == Str("")
    else if Truthy(Get(sub, key).value) then field == Get(sub, key).value
    else field == Str("")
  }

  /** `sub.key || ''` when the sub-object is present, the initial `''` when it is
      `undefined`; the caller has ruled out `null`, whose fields cannot be read. */
  function SubField(sub: Value, key: string): (r: Value)
    requires !sub.Null?
    ensures Blankable(r)
    ensures sub.Undefined? ==> r == Str("")
    ensures !sub.Undefined? && Truthy(Get(sub, key).value) ==> r == Get(sub, key).value
    ensures !sub.Undefined? && !Truthy(Get(sub, key).value) ==> r == Str("")
  {
    if sub.Undefined? then Str("") else OrBlank(Prop(sub, key))
  }

  /** One element of `committee.candidates`, reshaped; reading a field of a null entry throws. */
  function CandidateOf(candidate: Value): (r: Result<CandidateView, JsError>)
    ensures r.Err? <==> candidate.Undefined? || candidate.Null?
    ensures r.Ok? ==> CandidateReshapes(candidate, r.value)
    ensures r.Ok? ==> r.value.url == CandidatesPath + ToJsString(Get(candidate, "candidate_id").value)
  {
    if candidate.Undefined? || candidate.Null? then Err(TypeError)
    else
      var candidateId := Prop(candidate, "candidate_id");
      Ok(CandidateView(OrBlank(candidateId), OrBlank(Prop(candidate, "candidate_name")), Str(""),
                       CandidatesPath + ToJsString(candidateId)))
  }

  /** The candidate view carries its entry: `id` and `name` are the entry's values when
      truthy and `''` otherwise, `office` stays `''`, and the link is built from the raw id. */
  predicate CandidateReshapes(candidate: Value, view: CandidateView)
  {
    && !candidate.Undefined? && !candidate.Null?
    && TakesField(view.id, candidate, "candidate_id")
    && TakesField(view.name, candidate, "candidate_name")
    && view.office == Str("")
    && view.url == CandidatesPath + ToJsString(Get(candidate, "candidate_id").value)
  }

  /** The record's candidates, reshaped; none when the record has no `candidates`. */
  function CandidatesOf(candidates: Value): (r: Result<seq<CandidateView>, JsError>)
    ensures candidates.Undefined? ==> r == Ok([])
    ensures candidates.Null? ==> r.Err?
    ensures r.Ok? <==> (
              || candidates.Undefined?
              || (Elements(candidates).Ok? && forall j :: 0 <= j < |Elements(candidates).value| ==>
                    !Elements(candidates).value[j].Undefined? && !Elements(candidates).value[j].Null?))
    ensures r.Ok? && !candidates.Undefined? ==>
              Elements(candidates).Ok? && |r.value| == |Elements(candidates).value|
              && forall j :: 0 <= j < |r.value| ==> CandidateOf(Elements(candidates).value[j]) == Ok(r.value[j])
  {
    if candidates.Undefined? then Ok([])
    else
      var items :- Elements(candidates);
      MapResult(CandidateOf, items)
  }

  /** None of the parts whose fields are read is `null`. */
  predicate Readable(committee: Value)
  {
    && !committee.Undefined? && !committee.Null?
    && !Prop(committee, "status").Null? && !Prop(committee, "treasurer").Null?
    && !Prop(committee, "address").Null? && !Prop(committee, "description").Null?
  }

  /** The view of a readable record, given its reshaped candidates. */
  function ViewOf(committee: Value, candidates: seq<CandidateView>): (r: CommitteeView)
    requires Readable(committee)
    ensures TakesField(r.id, committee, "committee_id")
    ensures TakesField(r.name, Prop(committee, "description"), "name")
    ensures TakesField(r.treasurer, Prop(committee, "treasurer"), "name_full")
    ensures TakesField(r.state, Prop(committee, "address"), "state")
    ensures TakesField(r.party, Prop(committee, "description"), "party_full")
    ensures TakesField(r.committeeType, Prop(committee, "status"), "type_full")
    ensures TakesField(r.designation, Prop(committee, "status"), "designation_full")
    ensures TakesField(r.organization, Prop(committee, "description"), "organization_type_full")
    ensures r.nameURL == CommitteesPath + ToJsString(r.id)
    ensures r.candidates == candidates
  {
    var status, treasurer := Prop(committee, "status"), Prop(committee, "treasurer");
    var address, description := Prop(committee, "address"), Prop(committee, "description");
    var id := OrBlank(Prop(committee, "committee_id"));
    CommitteeView(
      id := id,
      name := SubField(description, "name"),
      treasurer := SubField(treasurer, "name_full"),
      state := SubField(address, "state"),
      party := SubField(description, "party_full"),
      committeeType := SubField(status, "type_full"),
      designation := SubField(status, "designation_full"),
      organization := SubField(description, "organization_type_full"),
      address := if address.Undefined? then Obj(map[]) else OrBlank(address),
      nameURL := CommitteesPath + ToJsString(id),
      candidates := candidates)
  }

  /** The view carries its record: every text field is the record's value when that
      is truthy and `''` otherwise (also when the part holding it is absent), the
      address is the record's own, the link is built from the id, and the candidates
      are the record's entries reshaped one by one, in order. */
  predicate Reshapes(committee: Value, view: CommitteeView)
  {
    && !committee.Undefined? && !committee.Null?
    && var address, entries := Prop(committee, "address"), Prop(committee, "candidates");
    && TakesField(view.id, committee, "committee_id")
    && TakesField(view.name, Prop(committee, "description"), "name")
    && TakesField(view.treasurer, Prop(committee, "treasurer"), "name_full")
    && TakesField(view.state, address, "state")
    && TakesField(view.party, Prop(committee, "description"), "party_full")
    && TakesField(view.committeeType, Prop(committee, "status"), "type_full")
    && TakesField(view.designation, Prop(committee, "status"), "designation_full")
    && TakesField(view.organization, Prop(committee, "description"), "organization_type_full")
    && view.address == (if address.Undefined? then Obj(map[]) else if Truthy(address) then address else Str(""))
    && view.nameURL == CommitteesPath + ToJsString(view.id)
    && (entries.Undefined? ==> view.candidates == [])
    && (!entries.Undefined? ==>
          Elements(entries).Ok? && |view.candidates| == |Elements(entries).value|
          && forall j :: 0 <= j < |view.candidates| ==> CandidateReshapes(Elements(entries).value[j], view.candidates[j]))
  }

  /** One API committee record, reshaped. Reading a field of a null record or of a
      null `status`, `treasurer`, `address`, `description` or `candidates` throws. */
  function CommitteeOf(committee: Value): (r: Result<CommitteeView, JsError>)
    ensures r.Ok? <==> Readable(committee) && CandidatesOf(Prop(committee, "candidates")).Ok?
    ensures r.Ok? ==> Reshapes(committee, r.value)
  {
    if !Readable(committee) then Err(TypeError)
    else
      var candidates :- CandidatesOf(Prop(committee, "candidates"));
      Ok(ViewOf(committee, candidates))
  }

  /** `buildCommitteeContext(results)` as a value: one view per record, in order, and
      no views at all when `results` is `undefined`. */
  function CommitteesOf(results: Value): (r: Result<seq<CommitteeView>, JsError>)
    ensures results.Undefined? ==> r == Ok([])
    ensures r.Ok? <==> (
              || results.Undefined?
              || (Elements(results).Ok? && forall i :: 0 <= i < |Elements(results).value| ==>
                    CommitteeOf(Elements(results).value[i]).Ok?))
    ensures r.Ok? && !results.Undefined? ==>
              Elements(results).Ok? && |r.value| == |Elements(results).value|
              && forall i :: 0 <= i < |r.value| ==> CommitteeOf(Elements(results).value[i]) == Ok(r.value[i])
  {
    if results.Undefined? then Ok([])
    else
      var items :- Elements(results);
      MapResult(CommitteeOf, items)
  }

  /** Extending the input by one element extends a successful run of `f` by its result. */
  lemma MapResultStep<A, B>(f: A -> Result<B, JsError>, s: seq<A>, i: int, done: seq<B>)
    requires 0 <= i < |s| && MapResult(f, s[..i]) == Ok(done)
    ensures f(s[i]).Ok? ==> MapResult(f, s[..i + 1]) == Ok(done + [f(s[i]).value])
    ensures f(s[i]).Err? ==> MapResult(f, s).Err?
  {
    assert s[..i + 1][..i] == s[..i];
    assert s[..i + 1][i] == s[i];
  }

  /** `buildCommitteeContext(results)`: the outer loop of the source, one view
      pushed per record, proved to produce exactly `CommitteesOf(results)`. */
  method BuildCommitteeContext(results: Value) returns (r: Result<seq<CommitteeView>, JsError>)
    ensures r == CommitteesOf(results)
  {
    var items: seq<Value> := [];
    if !results.Undefined? {
      var all := Elements(results);
      if all.Err? {
        return Err(TypeError);
      }
      items := all.value;
    }
    assert CommitteesOf(results) == MapResult(CommitteeOf, items);
    var committees: seq<CommitteeView> := [];
    var i := 0;
    while i < |items|
      invariant 0 <= i <= |items|
      invariant MapResult(CommitteeOf, items[..i]) == Ok(committees)
    {
      var view := BuildCommitteeView(items[i]);
      MapResultStep(CommitteeOf, items, i, committees);
      if view.Err? {
        OnlyTypeError(CommitteesOf(results).error);
        return Err(TypeError);
      }
      committees := committees + [view.value];
      i := i + 1;
    }
    assert items[..i] == items;
    return Ok(committees);
  }

  /** The body of the outer loop for one record: the fields, then its candidates
      from the inner loop. */
  method BuildCommitteeView(committee: Value) returns (r: Result<CommitteeView, JsError>)
    ensures r == CommitteeOf(committee)
  {
    var fields := AssignFields(committee);
    if fields.Err? {
      return Err(TypeError);
    }
    var candidates := BuildCandidates(Prop(committee, "candidates"));
    if candidates.Err? {
      OnlyTypeError(CommitteeOf(committee).error);
      return Err(TypeError);
    }
    var view := fields.value.(candidates := candidates.value);
    return Ok(view);
  }

  /** The fresh view of one record with its fields assigned one at a time, each
      part read only when it is present; reading a field of a null part throws. */
  method AssignFields(committee: Value) returns (r: Result<CommitteeView, JsError>)
    ensures r.Ok? <==> Readable(committee)
    ensures r.Ok? ==> r.value == ViewOf(committee, [])
  {
    if committee.Undefined? || committee.Null? {
      return Err(TypeError);
    }
    var view := BlankCommittee;
    view := view.(id := OrBlank(Prop(committee, "committee_id")));
    view := view.(nameURL := CommitteesPath + ToJsString(view.id));
    var status := Prop(committee, "status");
    if !status.Undefined? {
      if status.Null? {
        return Err(TypeError);
      }
      view := view.(committeeType := OrBlank(Prop(status, "type_full")));
      view := view.(designation := OrBlank(Prop(status, "designation_full")));
    }
    var treasurer := Prop(committee, "treasurer");
    if !treasurer.Undefined? {
      if treasurer.Null? {
        return Err(TypeError);
      }
      view := view.(treasurer := OrBlank(Prop(treasurer, "name_full")));
    }
    var address := Prop(committee, "address");
    if !address.Undefined? {
      if address.Null? {
        return Err(TypeError);
      }
      view := view.(state := OrBlank(Prop(address, "state")));
      view := view.(address := OrBlank(address));
    }
    var description := Prop(committee, "description");
    if !description.Undefined? {
      if description.Null? {
        return Err(TypeError);
      }
      view := view.(party := OrBlank(Prop(description, "party_full")));
      view := view.(name := OrBlank(Prop(description, "name")));
      view := view.(organization := OrBlank(Prop(description, "organization_type_full")));
    }
    return Ok(view);
  }

  /** The inner loop of the source over `committee.candidates`: one candidate view
      pushed per entry, none when the record has no candidates. */
  method BuildCandidates(candidates: Value) returns (r: Result<seq<CandidateView>, JsError>)
    ensures r == CandidatesOf(candidates)
  {
    var views: seq<CandidateView> := [];
    if candidates.Undefined? {
      return Ok(views);
    }
    var entries := Elements(candidates);
    if entries.Err? {
      OnlyTypeError(CandidatesOf(candidates).error);
      return Err(TypeError);
    }
    var list := entries.value;
    var j := 0;
    while j < |list|
      invariant 0 <= j <= |list|
      invariant MapResult(CandidateOf, list[..j]) == Ok(views)
    {
      var candidate := list[j];
      MapResultStep(CandidateOf, list, j, views);
      if candidate.Undefined? || candidate.Null? {
        OnlyTypeError(CandidatesOf(candidates).error);
        return Err(TypeError);
      }
      var newCandidate := BlankCandidate;
      newCandidate := newCandidate.(id := OrBlank(Prop(candidate, "candidate_id")));
      newCandidate := newCandidate.(name := OrBlank(Prop(candidate, "candidate_name")));
      newCandidate := newCandidate.(url := CandidatesPath + ToJsString(Prop(candidate, "candidate_id")));
      assert CandidateOf(candidate) == Ok(newCandidate);
      views := views + [newCandidate];
      j := j + 1;
    }
    assert list[..j] == list;
    return Ok(views);
  }

  /** Every view the reshaping produces carries the record at its position: each
      text field is that record's value or `''`, and the links are built from its ids. */
  lemma ViewsReshapeRecords(records: seq<Value>)
    requires CommitteesOf(Arr(records)).Ok?
    ensures |CommitteesOf(Arr(records)).value| == |records|
    ensures forall i :: 0 <= i < |records| ==> Reshapes(records[i], CommitteesOf(Arr(records)).value[i])
  {
    var views := CommitteesOf(Arr(records)).value;
    forall i | 0 <= i < |records| ensures Reshapes(records[i], views[i]) {
      assert CommitteeOf(records[i]) == Ok(views[i]);
    }
  }

  /** A record with none of the optional parts keeps every default: only its id and
      the link built from it are filled in. */
  lemma BareRecordKeepsDefaults(id: string)
    ensures CommitteeOf(Obj(map["committee_id" := Str(id)]))
      == Ok(BlankCommittee.(id := Str(id), nameURL := CommitteesPath + id))
  {
  }

  /** A record without `committee_id` links to the bare `/committees/` path. */
  lemma MissingIdLinksToIndex(committee: map<string, Value>)
    requires "committee_id" !in committee && CommitteeOf(Obj(committee)).Ok?
    ensures CommitteeOf(Obj(committee)).value.id == Str("")
    ensures CommitteeOf(Obj(committee)).value.nameURL == CommitteesPath
  {
  }

  /** The `|| ''` after the candidate link never applies: a candidate without an id
      gets the link `/candidates/undefined` although its `id` is `''`. */
  lemma CandidateLinkWithoutId(candidate: map<string, Value>)
    requires "candidate_id" !in candidate
    ensures CandidateOf(Obj(candidate)) == Ok(CandidateView(
              Str(""), OrBlank(Get(Obj(candidate), "candidate_name").value), Str(""), CandidatesPath + "undefined"))
  {
  }

  /** One view per record, in order: the view of the record at position `i` of
      `results` is the `i`-th view. */
  lemma ViewsFollowRecords(records: seq<Value>, i: int)
    requires CommitteesOf(Arr(records)).Ok? && 0 <= i < |records|
    ensures |CommitteesOf(Arr(records)).value| == |records|
    ensures CommitteesOf(Arr(records)).value[i] == CommitteeOf(records[i]).value
    ensures CommitteesOf(Arr(records)).value[i].nameURL
              == CommitteesPath + ToJsString(OrBlank(Get(records[i], "committee_id").value))
  {
  }
}
