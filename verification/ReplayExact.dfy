/** What a replay consists of, in terms of its inputs alone: instants, profiles and field values. */
module ReplayExact {
  import opened Wrappers
  import opened Sorting
  import opened Replay

  /** `d` comes before `e` by effective, observed and created instant, then by version. */
  predicate Precedes(d: Event, e: Event) {
    if d.effective != e.effective then d.effective < e.effective
    else if d.observed != e.observed then d.observed < e.observed
    else if d.created != e.created then d.created < e.created
    else d.version < e.version
  }

  /** All that had happened, had been observed and had been recorded by the instant. */
  ghost predicate Past(events: seq<Event>, asOf: int, e: Event) {
    e in events && e.effective <= asOf && e.observed <= asOf && e.created <= asOf
  }

  /** The last event of its record that is past. */
  ghost predicate LastOfRecord(events: seq<Event>, asOf: int, e: Event) {
    && Past(events, asOf, e)
    && forall d :: Past(events, asOf, d) && d.record == e.record && d != e ==> Precedes(d, e)
  }

  /** The thirteen fields that decisions may use. */
  lemma UsedFields(k: string)
    ensures IsFeature(k)
            <==> || k == "title" || k == "buyer_name" || k == "procurement_type" || k == "regions" || k == "estimated_amount"
                 || k == "currency" || k == "published_at" || k == "closes_at" || k == "required_certifications"
                 || k == "required_capabilities" || k == "participation_constraints" || k == "description"
                 || k == "lifecycle_stage"
  {
  }

  /** The row shows the event, with the fields of its enrichment over its own once that is available. */
  ghost predicate ShowsEvent(r: Row, e: Event, asOf: int) {
    && r.record == e.record && r.version == e.version
    && r.effective == e.effective && r.observed == e.observed && r.created == e.created
    && (if e.enrichment.Some? && e.enrichment.value.availableAt <= asOf then
          && r.extraction == Some(e.enrichment.value.extraction)
          && (forall k :: k in r.fields <==> IsFeature(k) && (k in e.fields || k in e.enrichment.value.fields))
          && (forall k :: k in r.fields ==>
                r.fields[k] == if k in e.enrichment.value.fields then e.enrichment.value.fields[k] else e.fields[k])
        else
          && r.extraction == None
          && (forall k :: k in r.fields <==> IsFeature(k) && k in e.fields)
          && (forall k :: k in r.fields ==> r.fields[k] == e.fields[k]))
  }

  lemma RowShowsEvent(e: Event, asOf: int, r: Row)
    ensures ShowsEvent(r, e, asOf) <==> r == RowOf(e, asOf)
  {
    var shown := RowOf(e, asOf);
    if ShowsEvent(r, e, asOf) {
      assert r.fields.Keys == shown.fields.Keys;
      assert r.fields == shown.fields;
    }
  }

  lemma NewestIsLast(events: seq<Event>, asOf: int, e: Event)
    ensures Newest(events, asOf, e) <==> LastOfRecord(events, asOf, e)
  {
  }

  /** The rows of a replay are exactly the last past event of every record, as it was known then. */
  lemma RowsAreLastEvents(events: seq<Event>, asOf: int, r: Row)
    requires UniqueVersions(events)
    ensures r in VisibleRows(events, asOf) <==> exists e :: LastOfRecord(events, asOf, e) && ShowsEvent(r, e, asOf)
  {
    SortKeepsMembers(ByRecord(), NewestRows(events, events, asOf));
    NewestRowsMembers(events, events, asOf);
    forall e ensures LastOfRecord(events, asOf, e) && ShowsEvent(r, e, asOf) <==> Newest(events, asOf, e) && r == RowOf(e, asOf) {
      NewestIsLast(events, asOf, e);
      RowShowsEvent(e, asOf, r);
    }
  }

  /** Every record with a past event has a row, and no row shows anything that was not past. */
  lemma EveryPastRecordHasARow(events: seq<Event>, asOf: int, d: Event)
    requires UniqueVersions(events) && Past(events, asOf, d)
    ensures exists r :: r in VisibleRows(events, asOf) && r.record == d.record
    ensures forall r :: r in VisibleRows(events, asOf) ==> r.effective <= asOf && r.observed <= asOf && r.created <= asOf
  {
    assert Visible(d, asOf);
    var e := NewestOf(events, asOf, d);
    NewestIsLast(events, asOf, e);
    RowShowsEvent(e, asOf, RowOf(e, asOf));
    RowsAreLastEvents(events, asOf, RowOf(e, asOf));
    forall r | r in VisibleRows(events, asOf) ensures r.effective <= asOf && r.observed <= asOf && r.created <= asOf {
      RowsAreLastEvents(events, asOf, r);
    }
  }

  // ----- the whole replay

  /** The latest profile available at the instant; of two available at once, that with the greater id. */
  ghost predicate IsLatestProfile(profiles: seq<Profile>, asOf: int, p: Profile) {
    && p in profiles && p.availableAt <= asOf
    && forall q :: q in profiles && q.availableAt <= asOf ==>
         q.availableAt < p.availableAt || (q.availableAt == p.availableAt && q.id <= p.id)
  }

  /** A decision on the last event of a record, made from its row and the profile. */
  ghost predicate IsDecision(decide: Decide, events: seq<Event>, p: Profile, asOf: int, d: (Row, Decision)) {
    && (exists e :: LastOfRecord(events, asOf, e) && ShowsEvent(d.0, e, asOf))
    && d.1 == decide(d.0.fields, p.fields, asOf, d.0.version)
  }

  predicate Ordered(decisions: seq<(Row, Decision)>) {
    forall i, j :: 0 <= i < j < |decisions| ==>
      decisions[i].1.score > decisions[j].1.score
      || (decisions[i].1.score == decisions[j].1.score && decisions[i].0.record < decisions[j].0.record)
  }

  /** The records of the decisions that allow a recommendation, in the order of the decisions. */
  ghost predicate RanksAllowed(decisions: seq<(Row, Decision)>, ranked: seq<int>) {
    && (forall x :: x in ranked <==> AllowsRecord(decisions, x))
    && forall i, j :: 0 <= i < j < |ranked| ==> AllowedInOrder(decisions, ranked[i], ranked[j])
  }

  ghost predicate AllowedInOrder(decisions: seq<(Row, Decision)>, x: int, y: int) {
    exists a, b :: 0 <= a < b < |decisions| && decisions[a].0.record == x && decisions[b].0.record == y
  }

  ghost predicate AllowsRecord(decisions: seq<(Row, Decision)>, x: int) {
    exists i :: 0 <= i < |decisions| && decisions[i].1.allows && decisions[i].0.record == x
  }

  lemma {:induction false} AllowedMembers(decisions: seq<(Row, Decision)>, x: int)
    ensures x in Allowed(decisions) <==> AllowsRecord(decisions, x)
  {
    if decisions != [] {
      var rest := decisions[1..];
      AllowedMembers(rest, x);
      if i :| 0 <= i < |rest| && rest[i].1.allows && rest[i].0.record == x { assert decisions[i + 1] == rest[i]; }
      if i :| 0 <= i < |decisions| && decisions[i].1.allows && decisions[i].0.record == x {
        if i > 0 { assert rest[i - 1] == decisions[i]; }
      }
    }
  }

  lemma {:induction false} AllowedOrder(decisions: seq<(Row, Decision)>, i: nat, j: nat)
    requires i < j < |Allowed(decisions)|
    ensures AllowedInOrder(decisions, Allowed(decisions)[i], Allowed(decisions)[j])
  {
    var rest, ranked := decisions[1..], Allowed(decisions);
    if !decisions[0].1.allows {
      AllowedOrder(rest, i, j);
      LaterInOrder(decisions, ranked[i], ranked[j]);
    } else if i > 0 {
      AllowedOrder(rest, i - 1, j - 1);
      LaterInOrder(decisions, ranked[i], ranked[j]);
    } else {
      AllowedMembers(rest, ranked[j]);
      FirstInOrder(decisions, ranked[j]);
    }
  }

  lemma AllowedAreRanked(decisions: seq<(Row, Decision)>)
    ensures RanksAllowed(decisions, Allowed(decisions))
  {
    forall x ensures x in Allowed(decisions) <==> AllowsRecord(decisions, x) { AllowedMembers(decisions, x); }
    forall i, j | 0 <= i < j < |Allowed(decisions)|
      ensures AllowedInOrder(decisions, Allowed(decisions)[i], Allowed(decisions)[j])
    {
      AllowedOrder(decisions, i, j);
    }
  }

  lemma LaterInOrder(decisions: seq<(Row, Decision)>, x: int, y: int)
    requires decisions != [] && AllowedInOrder(decisions[1..], x, y)
    ensures AllowedInOrder(decisions, x, y)
  {
    var rest := decisions[1..];
    var a, b :| 0 <= a < b < |rest| && rest[a].0.record == x && rest[b].0.record == y;
    assert decisions[a + 1].0.record == x && decisions[b + 1].0.record == y;
  }

  lemma FirstInOrder(decisions: seq<(Row, Decision)>, y: int)
    requires decisions != [] && AllowsRecord(decisions[1..], y)
    ensures AllowedInOrder(decisions, decisions[0].0.record, y)
  {
    var rest := decisions[1..];
    var b :| 0 <= b < |rest| && rest[b].1.allows && rest[b].0.record == y;
    assert decisions[b + 1].0.record == y;
  }

  lemma ProfileIsLatest(profiles: seq<Profile>, asOf: int)
    ensures LatestProfile(profiles, asOf).Some? ==> IsLatestProfile(profiles, asOf, LatestProfile(profiles, asOf).value)
    ensures LatestProfile(profiles, asOf) == None ==> forall p :: p in profiles ==> p.availableAt > asOf
  {
    LatestProfileExact(profiles, asOf);
  }

  lemma DecisionsExact(decide: Decide, rows: seq<Row>, p: Profile, asOf: int, d: (Row, Decision))
    ensures d in Decisions(decide, rows, p, asOf) <==> d.0 in rows && d.1 == decide(d.0.fields, p.fields, asOf, d.0.version)
  {
    var ds := Decisions(decide, rows, p, asOf);
    if d.0 in rows && d.1 == decide(d.0.fields, p.fields, asOf, d.0.version) {
      var i :| 0 <= i < |rows| && rows[i] == d.0;
      assert ds[i] == d;
    }
  }

  /** A replay decides, with the latest profile available, on exactly the last past event of every record, and
      orders the decisions by descending score, then record. */
  lemma ReplayIsExact(decide: Decide, events: seq<Event>, profiles: seq<Profile>, asOf: int) returns (p: Profile)
    requires ReplayAt(decide, events, profiles, asOf).Success?
    ensures IsLatestProfile(profiles, asOf, p)
    ensures var v := ReplayAt(decide, events, profiles, asOf).value;
            && v.asOf == asOf && v.profile == p.id && v.availableAt == p.availableAt
            && (forall d :: d in v.decisions <==> IsDecision(decide, events, p, asOf, d))
            && Ordered(v.decisions)
            && RanksAllowed(v.decisions, v.ranked)
  {
    p := LatestProfile(profiles, asOf).value;
    ProfileIsLatest(profiles, asOf);
    var rows := VisibleRows(events, asOf);
    var decisions := Decisions(decide, rows, p, asOf);
    SortKeepsMembers(ByScore(), decisions);
    forall d ensures d in Sort(ByScore(), decisions) <==> IsDecision(decide, events, p, asOf, d) {
      DecisionsExact(decide, rows, p, asOf, d);
      RowsAreLastEvents(events, asOf, d.0);
    }
    DecisionsAreSorted(decide, events, profiles, asOf);
    SortedIsOrdered(Sort(ByScore(), decisions));
    AllowedAreRanked(Sort(ByScore(), decisions));
  }

  lemma SortedIsOrdered(decisions: seq<(Row, Decision)>)
    requires StrictlySorted(ByScore(), decisions)
    ensures Ordered(decisions)
  {
    forall i, j | 0 <= i < j < |decisions|
      ensures decisions[i].1.score > decisions[j].1.score
              || (decisions[i].1.score == decisions[j].1.score && decisions[i].0.record < decisions[j].0.record)
    {
      assert ByScore()(decisions[i], decisions[j]);
    }
  }

  /** When there is no replay, and why. */
  lemma ReplayFailsIff(decide: Decide, events: seq<Event>, profiles: seq<Profile>, asOf: int)
    ensures var result := ReplayAt(decide, events, profiles, asOf);
            && (result == Failure(NoProfile) <==> forall p :: p in profiles ==> p.availableAt > asOf)
            && (result == Failure(ProfileIncomplete) ==>
                  exists p :: IsLatestProfile(profiles, asOf, p) && ("industries" !in p.fields || "capabilities" !in p.fields))
            && (result == Failure(DuplicateVersion) ==>
                  exists i, j :: 0 <= i < j < |events| && events[i].version == events[j].version)
            && (result.Success? ==>
                  && (exists p :: IsLatestProfile(profiles, asOf, p) && "industries" in p.fields && "capabilities" in p.fields)
                  && forall i, j :: 0 <= i < j < |events| ==> events[i].version != events[j].version)
  {
    ProfileIsLatest(profiles, asOf);
    var p := LatestProfile(profiles, asOf);
    assert p.Some? ==> IsLatestProfile(profiles, asOf, p.value);
  }

  // ----- independence of the future

  /** What was known of an event at the instant: an enrichment that comes later is not there. */
  function KnownBy(e: Event, asOf: int): Event {
    e.(enrichment := if e.enrichment.Some? && e.enrichment.value.availableAt <= asOf then e.enrichment else None)
  }

  ghost predicate Knows(events: seq<Event>, asOf: int, k: Event) {
    exists e :: Past(events, asOf, e) && KnownBy(e, asOf) == k
  }

  /** Both tables know the same of the past, in whatever order. */
  ghost predicate AgreeOnPast(a: seq<Event>, b: seq<Event>, asOf: int) {
    forall k :: Knows(a, asOf, k) <==> Knows(b, asOf, k)
  }

  lemma KnownTheSame(e: Event, f: Event, asOf: int, r: Row)
    requires KnownBy(f, asOf) == KnownBy(e, asOf)
    ensures f.record == e.record && f.version == e.version
    ensures f.effective == e.effective && f.observed == e.observed && f.created == e.created
    ensures ShowsEvent(r, e, asOf) <==> ShowsEvent(r, f, asOf)
  {
    RowShowsEvent(e, asOf, r);
    RowShowsEvent(f, asOf, r);
    assert RowOf(e, asOf) == RowOf(f, asOf);
  }

  lemma LastInBoth(a: seq<Event>, b: seq<Event>, asOf: int, e: Event, f: Event)
    requires UniqueVersions(b) && AgreeOnPast(a, b, asOf)
    requires LastOfRecord(a, asOf, e) && Past(b, asOf, f)
    requires f.record == e.record && f.version == e.version
    requires f.effective == e.effective && f.observed == e.observed && f.created == e.created
    ensures LastOfRecord(b, asOf, f)
  {
    forall d | Past(b, asOf, d) && d.record == f.record && d != f ensures Precedes(d, f) {
      assert Knows(b, asOf, KnownBy(d, asOf));
      var d' :| Past(a, asOf, d') && KnownBy(d', asOf) == KnownBy(d, asOf);
      DifferentVersions(b, d, f);
      assert d'.version == d.version && d'.record == d.record;
      assert Precedes(d', e);
    }
  }

  lemma LastShownByBoth(a: seq<Event>, b: seq<Event>, asOf: int, r: Row)
    requires UniqueVersions(a) && UniqueVersions(b) && AgreeOnPast(a, b, asOf)
    requires exists e :: LastOfRecord(a, asOf, e) && ShowsEvent(r, e, asOf)
    ensures exists f :: LastOfRecord(b, asOf, f) && ShowsEvent(r, f, asOf)
  {
    var e :| LastOfRecord(a, asOf, e) && ShowsEvent(r, e, asOf);
    assert Knows(a, asOf, KnownBy(e, asOf));
    var f :| Past(b, asOf, f) && KnownBy(f, asOf) == KnownBy(e, asOf);
    KnownTheSame(e, f, asOf, r);
    LastInBoth(a, b, asOf, e, f);
  }

  lemma DifferentVersions(events: seq<Event>, d: Event, e: Event)
    requires UniqueVersions(events) && d in events && e in events && d != e
    ensures d.version != e.version
  {
    var i :| 0 <= i < |events| && events[i] == d;
    var j :| 0 <= j < |events| && events[j] == e;
  }

  lemma RowsIgnoreFuture(a: seq<Event>, b: seq<Event>, asOf: int)
    requires UniqueVersions(a) && UniqueVersions(b) && AgreeOnPast(a, b, asOf)
    ensures VisibleRows(a, asOf) == VisibleRows(b, asOf)
  {
    forall r ensures r in VisibleRows(a, asOf) <==> r in VisibleRows(b, asOf) {
      ShownByBoth(a, b, asOf, r);
    }
    SameRows(a, b, asOf);
  }

  lemma ShownByBoth(a: seq<Event>, b: seq<Event>, asOf: int, r: Row)
    requires UniqueVersions(a) && UniqueVersions(b) && AgreeOnPast(a, b, asOf)
    ensures r in VisibleRows(a, asOf) <==> r in VisibleRows(b, asOf)
  {
    RowsAreLastEvents(a, asOf, r);
    RowsAreLastEvents(b, asOf, r);
    if r in VisibleRows(a, asOf) { LastShownByBoth(a, b, asOf, r); }
    if r in VisibleRows(b, asOf) { LastShownByBoth(b, a, asOf, r); }
  }

  lemma SameProfile(ps: seq<Profile>, qs: seq<Profile>, asOf: int)
    requires UniqueProfiles(ps) && UniqueProfiles(qs)
    requires forall p: Profile :: p.availableAt <= asOf ==> (p in ps <==> p in qs)
    ensures LatestProfile(ps, asOf) == LatestProfile(qs, asOf)
  {
    ProfileIsLatest(ps, asOf);
    ProfileIsLatest(qs, asOf);
  }

  /** Events with any instant after `asOf`, enrichments and profiles that come later, and the order of the
      tables make no difference: changing, adding or removing them leaves the replay unchanged. */
  lemma ReplayIgnoresFuture(decide: Decide, a: seq<Event>, b: seq<Event>, ps: seq<Profile>, qs: seq<Profile>, asOf: int)
    requires UniqueVersions(a) && UniqueVersions(b) && AgreeOnPast(a, b, asOf)
    requires UniqueProfiles(ps) && UniqueProfiles(qs)
    requires forall p: Profile :: p.availableAt <= asOf ==> (p in ps <==> p in qs)
    ensures ReplayAt(decide, a, ps, asOf) == ReplayAt(decide, b, qs, asOf)
  {
    RowsIgnoreFuture(a, b, asOf);
    SameProfile(ps, qs, asOf);
  }

  lemma SameRows(a: seq<Event>, b: seq<Event>, asOf: int)
    requires UniqueVersions(a) && UniqueVersions(b)
    requires forall r :: r in VisibleRows(a, asOf) <==> r in VisibleRows(b, asOf)
    ensures VisibleRows(a, asOf) == VisibleRows(b, asOf)
  {
    RowsAreOrdered(a, asOf);
    RowsAreOrdered(b, asOf);
    SortSorts(ByRecord(), NewestRows(a, a, asOf));
    SortSorts(ByRecord(), NewestRows(b, b, asOf));
    SortedIsUnique(ByRecord(), VisibleRows(a, asOf), VisibleRows(b, asOf));
  }

  /** As the instant grows, the event shown for a record is the same or a later one. */
  lemma SelectionNeverRegresses(events: seq<Event>, before: int, after: int, e: Event)
    requires before <= after && UniqueVersions(events) && LastOfRecord(events, before, e)
    ensures exists f :: LastOfRecord(events, after, f) && f.record == e.record && (f == e || Precedes(e, f))
  {
    assert Visible(e, after);
    var f := NewestOf(events, after, e);
    NewestIsLast(events, after, f);
  }
}
