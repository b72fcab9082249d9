/** Bitemporal replay: a decision at `asOf` uses what was effective and available then, and nothing else.
    Identifiers are integers here; only their order matters. */
module Replay {
  import opened Wrappers
  import opened Sorting

  type Fields = map<string, string>

  datatype Enrichment = Enrichment(availableAt: int, fields: Fields, extraction: int)

  datatype Event = Event(version: int, record: int, effective: int, observed: int, created: int,
                         fields: Fields, enrichment: Option<Enrichment>)

  datatype Row = Row(record: int, version: int, fields: Fields, effective: int, observed: int, created: int,
                     extraction: Option<int>)

  datatype Profile = Profile(id: int, availableAt: int, fields: Fields)

  datatype Decision = Decision(allows: bool, score: real, details: string)

  datatype Error = DuplicateVersion | NoProfile | ProfileIncomplete

  datatype Replayed = Replayed(asOf: int, profile: int, availableAt: int, decisions: seq<(Row, Decision)>, ranked: seq<int>)

  /** The pure decision: row fields, profile fields, instant and evidence identifier. */
  type Decide = (Fields, Fields, int, int) -> Decision

  predicate IsFeature(name: string) {
    name in ["title", "buyer_name", "procurement_type", "regions", "estimated_amount", "currency", "published_at",
             "closes_at", "required_certifications", "required_capabilities", "participation_constraints",
             "description", "lifecycle_stage"]
  }

  function Features(f: Fields): Fields {
    map k | k in f && IsFeature(k) :: f[k]
  }

  // ----- one event

  predicate Visible(e: Event, asOf: int) {
    e.effective <= asOf && e.observed <= asOf && e.created <= asOf
  }

  predicate Enriched(e: Event, asOf: int) {
    e.enrichment.Some? && e.enrichment.value.availableAt <= asOf
  }

  function RowOf(e: Event, asOf: int): Row {
    var own := Features(e.fields);
    Row(e.record, e.version,
        if Enriched(e, asOf) then own + Features(e.enrichment.value.fields) else own,
        e.effective, e.observed, e.created,
        if Enriched(e, asOf) then Some(e.enrichment.value.extraction) else None)
  }

  /** Lexicographic order on (effective, observed, created, version). */
  predicate RankBefore(a: Event, b: Event) {
    || a.effective < b.effective
    || (a.effective == b.effective && a.observed < b.observed)
    || (a.effective == b.effective && a.observed == b.observed && a.created < b.created)
    || (a.effective == b.effective && a.observed == b.observed && a.created == b.created && a.version < b.version)
  }

  // ----- the declarative selection

  predicate UniqueVersions(events: seq<Event>) {
    forall i, j :: 0 <= i < j < |events| ==> events[i].version != events[j].version
  }

  /** `e` is the visible event of its record with the greatest rank. */
  predicate Newest(events: seq<Event>, asOf: int, e: Event) {
    && e in events && Visible(e, asOf)
    && forall d :: d in events && Visible(d, asOf) && d.record == e.record ==> d == e || RankBefore(d, e)
  }

  function NewestRows(events: seq<Event>, all: seq<Event>, asOf: int): seq<Row> {
    if events == [] then []
    else (if Newest(all, asOf, events[0]) then [RowOf(events[0], asOf)] else []) + NewestRows(events[1..], all, asOf)
  }

  function ByRecord(): (Row, Row) -> bool {
    (a: Row, b: Row) => a.record < b.record
  }

  /** One row per record with a visible event, in record order. */
  function VisibleRows(events: seq<Event>, asOf: int): seq<Row> {
    Sort(ByRecord(), NewestRows(events, events, asOf))
  }

  lemma {:induction false} NewestRowsMembers(events: seq<Event>, all: seq<Event>, asOf: int)
    ensures forall r :: r in NewestRows(events, all, asOf) <==>
              exists e :: e in events && Newest(all, asOf, e) && RowOf(e, asOf) == r
  {
    if events != [] {
      NewestRowsMembers(events[1..], all, asOf);
      assert forall e :: e in events <==> e == events[0] || e in events[1..];
    }
  }

  ghost predicate DistinctRecords(rows: seq<Row>) {
    forall i, j :: 0 <= i < j < |rows| ==> rows[i].record != rows[j].record
  }

  lemma PrependDistinct(r: Row, rest: seq<Row>)
    requires DistinctRecords(rest) && forall x :: x in rest ==> x.record != r.record
    ensures DistinctRecords([r] + rest)
  {
  }

  lemma NewestIsAlone(all: seq<Event>, asOf: int, d: Event, e: Event)
    requires Newest(all, asOf, d) && Newest(all, asOf, e) && d.version != e.version
    ensures d.record != e.record
  {
    assert d.record == e.record ==> RankBefore(d, e) && RankBefore(e, d);
  }

  lemma {:induction false} NewestRowsDistinct(events: seq<Event>, all: seq<Event>, asOf: int)
    requires UniqueVersions(events)
    ensures DistinctRecords(NewestRows(events, all, asOf))
  {
    if events != [] {
      var rest := NewestRows(events[1..], all, asOf);
      NewestRowsDistinct(events[1..], all, asOf);
      NewestRowsMembers(events[1..], all, asOf);
      if Newest(all, asOf, events[0]) {
        forall x | x in rest ensures x.record != events[0].record {
          var e :| e in events[1..] && Newest(all, asOf, e) && RowOf(e, asOf) == x;
          NewestIsAlone(all, asOf, e, events[0]);
        }
        PrependDistinct(RowOf(events[0], asOf), rest);
      } else {
        assert NewestRows(events, all, asOf) == rest;
      }
    }
  }

  lemma RowsAreOrdered(events: seq<Event>, asOf: int)
    requires UniqueVersions(events)
    ensures Orders(ByRecord(), NewestRows(events, events, asOf))
  {
    NewestRowsDistinct(events, events, asOf);
  }

  // ----- the selection loop

  /** `kept` maps each record to the newest of the events in `seen`. */
  ghost predicate Kept(seen: seq<Event>, asOf: int, kept: map<int, Event>) {
    && (forall k :: k in kept ==> kept[k].record == k && Newest(seen, asOf, kept[k]))
    && (forall e :: e in seen && Visible(e, asOf) ==> e.record in kept)
  }

  method SelectVisible(events: seq<Event>, asOf: int) returns (result: Result<seq<Row>, Error>)
    ensures result.Success? <==> UniqueVersions(events)
    ensures result.Failure? ==> result.error == DuplicateVersion
    ensures result.Success? ==> result.value == VisibleRows(events, asOf)
  {
    var kept: map<int, Event> := map[];
    var order: seq<int> := [];
    var seen: set<int> := {};
    for i := 0 to |events|
      invariant forall v :: v in seen <==> exists k :: 0 <= k < i && events[k].version == v
      invariant UniqueVersions(events[..i])
      invariant Kept(events[..i], asOf, kept) && IsKeyOrder(kept, order)
    {
      var e := events[i];
      assert forall d :: d in events[..i + 1] <==> d in events[..i] || d == e;
      if e.version in seen {
        return Failure(DuplicateVersion);
      }
      seen := seen + {e.version};
      if Visible(e, asOf) && (e.record !in kept || RankBefore(kept[e.record], e)) {
        order := if e.record in kept then order else order + [e.record];
        kept := kept[e.record := e];
      }
      KeptTotal(events[..i], e);
    }
    assert events[..|events|] == events;
    var rows := RowsOf(kept, order, asOf);
    KeptRows(events, asOf, kept, rows);
    RowsAreOrdered(events, asOf);
    SortIsCanonical(ByRecord(), rows, NewestRows(events, events, asOf));
    return Success(Sort(ByRecord(), rows));
  }

  /** Events with different versions are comparable by rank. */
  lemma KeptTotal(seen: seq<Event>, e: Event)
    requires forall d :: d in seen ==> d.version != e.version
    ensures forall d :: d in seen ==> RankBefore(d, e) || RankBefore(e, d)
  {
  }

  /** The rows of the kept events, in the order their records were first kept. */
  method RowsOf(kept: map<int, Event>, order: seq<int>, asOf: int) returns (rows: seq<Row>)
    requires IsKeyOrder(kept, order) && forall k :: k in kept ==> kept[k].record == k
    ensures forall r :: r in rows <==> exists k :: k in kept && r == RowOf(kept[k], asOf)
    ensures DistinctRecords(rows)
  {
    rows := [];
    for i := 0 to |order|
      invariant |rows| == i && forall j :: 0 <= j < i ==> rows[j] == RowOf(kept[order[j]], asOf)
    {
      rows := rows + [RowOf(kept[order[i]], asOf)];
    }
    forall r ensures r in rows <==> exists k :: k in kept && r == RowOf(kept[k], asOf) {
      if r in rows {
        var j :| 0 <= j < |rows| && rows[j] == r;
        assert order[j] in kept;
      }
      if k :| k in kept && r == RowOf(kept[k], asOf) {
        assert k in order;
        var j :| 0 <= j < |order| && order[j] == k;
        assert rows[j] == r;
      }
    }
  }

  ghost predicate IsKeyOrder(kept: map<int, Event>, order: seq<int>) {
    && (forall k :: k in kept ==> k in order)
    && (forall i :: 0 <= i < |order| ==> order[i] in kept)
    && forall i, j :: 0 <= i < j < |order| ==> order[i] != order[j]
  }

  lemma KeptRows(events: seq<Event>, asOf: int, kept: map<int, Event>, rows: seq<Row>)
    requires UniqueVersions(events) && Kept(events, asOf, kept)
    requires forall r :: r in rows <==> exists k :: k in kept && r == RowOf(kept[k], asOf)
    ensures forall r :: r in rows <==> r in NewestRows(events, events, asOf)
  {
    NewestRowsMembers(events, events, asOf);
    forall e | e in events && Newest(events, asOf, e) ensures e.record in kept && kept[e.record] == e {
      assert Newest(events, asOf, kept[e.record]);
    }
  }

  // ----- the profile and the decisions

  predicate Later(p: Profile, q: Profile) {
    p.availableAt > q.availableAt || (p.availableAt == q.availableAt && p.id > q.id)
  }

  /** max(available, key=(available_at, id)); the first of equal keys. */
  function LatestProfile(profiles: seq<Profile>, asOf: int): Option<Profile> {
    if profiles == [] then None
    else
      var last, rest := profiles[|profiles| - 1], LatestProfile(profiles[..|profiles| - 1], asOf);
      if last.availableAt <= asOf && (rest == None || Later(last, rest.value)) then Some(last) else rest
  }

  function ProfileAt(profiles: seq<Profile>, asOf: int): Result<Profile, Error> {
    match LatestProfile(profiles, asOf)
    case None => Failure(NoProfile)
    case Some(p) => if "industries" in p.fields && "capabilities" in p.fields then Success(p) else Failure(ProfileIncomplete)
  }

  function Decisions(decide: Decide, rows: seq<Row>, profile: Profile, asOf: int): seq<(Row, Decision)> {
    seq(|rows|, i requires 0 <= i < |rows| => (rows[i], decide(rows[i].fields, profile.fields, asOf, rows[i].version)))
  }

  /** Descending score, then record. */
  function ByScore(): ((Row, Decision), (Row, Decision)) -> bool {
    (a: (Row, Decision), b: (Row, Decision)) =>
      a.1.score > b.1.score || (a.1.score == b.1.score && a.0.record < b.0.record)
  }

  function Allowed(decisions: seq<(Row, Decision)>): seq<int> {
    if decisions == [] then []
    else (if decisions[0].1.allows then [decisions[0].0.record] else []) + Allowed(decisions[1..])
  }

  function ReplayAt(decide: Decide, events: seq<Event>, profiles: seq<Profile>, asOf: int): Result<Replayed, Error> {
    match ProfileAt(profiles, asOf)
    case Failure(e) => Failure(e)
    case Success(p) =>
      if !UniqueVersions(events) then Failure(DuplicateVersion)
      else
        var decisions := Sort(ByScore(), Decisions(decide, VisibleRows(events, asOf), p, asOf));
        Success(Replayed(asOf, p.id, p.availableAt, decisions, Allowed(decisions)))
  }

  /** replay_at, with the rows found by the selection loop. */
  method ComputeReplay(decide: Decide, events: seq<Event>, profiles: seq<Profile>, asOf: int)
    returns (result: Result<Replayed, Error>)
    ensures result == ReplayAt(decide, events, profiles, asOf)
  {
    var profile := ProfileAt(profiles, asOf);
    if profile.Failure? {
      return Failure(profile.error);
    }
    var rows := SelectVisible(events, asOf);
    if rows.Failure? {
      return Failure(rows.error);
    }
    var decisions := Sort(ByScore(), Decisions(decide, rows.value, profile.value, asOf));
    return Success(Replayed(asOf, profile.value.id, profile.value.availableAt, decisions, Allowed(decisions)));
  }

  ghost predicate UniqueProfiles(profiles: seq<Profile>) {
    forall p, q :: p in profiles && q in profiles && p.id == q.id ==> p == q
  }

  lemma {:induction false} LatestProfileExact(profiles: seq<Profile>, asOf: int)
    ensures match LatestProfile(profiles, asOf)
            case None => forall p :: p in profiles ==> p.availableAt > asOf
            case Some(q) => q in profiles && q.availableAt <= asOf
                            && forall p :: p in profiles && p.availableAt <= asOf ==> !Later(p, q)
  {
    if profiles != [] {
      LatestProfileExact(profiles[..|profiles| - 1], asOf);
      assert profiles == profiles[..|profiles| - 1] + [profiles[|profiles| - 1]];
    }
  }

  lemma {:induction false} NewestOf(events: seq<Event>, asOf: int, e: Event) returns (f: Event)
    requires UniqueVersions(events) && e in events && Visible(e, asOf)
    ensures Newest(events, asOf, f) && f.record == e.record && (f == e || RankBefore(e, f))
  {
    var n := |events| - 1;
    var front, last := events[..n], events[n];
    assert events == front + [last];
    var best: Event;
    if e in front {
      best := NewestOf(front, asOf, e);
      f := if Visible(last, asOf) && last.record == e.record && RankBefore(best, last) then last else best;
    } else if exists d :: d in front && Visible(d, asOf) && d.record == e.record {
      var d :| d in front && Visible(d, asOf) && d.record == e.record;
      best := NewestOf(front, asOf, d);
      f := if RankBefore(best, last) then last else best;
    } else {
      f := last;
    }
  }

  /** The published order is by descending score, ties by record. */
  lemma DecisionsAreSorted(decide: Decide, events: seq<Event>, profiles: seq<Profile>, asOf: int)
    requires ReplayAt(decide, events, profiles, asOf).Success?
    ensures StrictlySorted(ByScore(), ReplayAt(decide, events, profiles, asOf).value.decisions)
  {
    var rows := VisibleRows(events, asOf);
    RowsAreOrdered(events, asOf);
    SortSorts(ByRecord(), NewestRows(events, events, asOf));
    var p := ProfileAt(profiles, asOf).value;
    var decisions := Decisions(decide, rows, p, asOf);
    assert forall i, j :: 0 <= i < j < |decisions| ==> ByRecord()(rows[i], rows[j]) && decisions[i].0.record < decisions[j].0.record;
    SortSorts(ByScore(), decisions);
  }
}
