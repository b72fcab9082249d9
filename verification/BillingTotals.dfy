/** Any order and any number of deliveries credit each eligible invoice exactly once. */
module BillingTotals {
  import opened Wrappers
  import opened Keys
  import L = Ledger
  import opened Billing
  import opened BillingExact

  function DeliverAll(s: State, scope: string, events: seq<Event>): State {
    if events == [] then s
    else ProcessEvent(DeliverAll(s, scope, events[..|events| - 1]), scope, events[|events| - 1]).0
  }

  function UnitsOf(policies: map<Key, PricePolicy>, scope: string, invoice: Invoice): int {
    if (scope, invoice.price) in policies then policies[(scope, invoice.price)].units else 0
  }

  ghost function Pick(invoices: set<Invoice>): (i: Invoice)
    requires invoices != {}
    ensures i in invoices
  {
    var i :| i in invoices; i
  }

  ghost function SumUnits(policies: map<Key, PricePolicy>, scope: string, invoices: set<Invoice>): int {
    if invoices == {} then 0
    else
      var i := Pick(invoices);
      UnitsOf(policies, scope, i) + SumUnits(policies, scope, invoices - {i})
  }

  /** The event was not recorded before, and its invoice was not applied before. */
  predicate IsNew(s: State, scope: string, e: Event) {
    (scope, e.id) !in s.observations && e.body.Paid? && (scope, e.body.invoice.id) !in s.applications
  }

  /** The distinct new invoices of one customer that the registered mappings and prices make eligible. */
  function Eligible(s: State, scope: string, events: seq<Event>, customer: string): set<Invoice> {
    set e | e in events && IsNew(s, scope, e) && e.body.invoice.customer == customer
            && Priced(s, scope, e.body.invoice) :: e.body.invoice
  }

  /** One content per event identity, and one per invoice identity. */
  ghost predicate Consistent(events: seq<Event>) {
    && (forall e, e' :: e in events && e' in events && e.id == e'.id ==> e == e')
    && (forall e, e' :: e in events && e' in events && e.body.Paid? && e'.body.Paid? ==>
          (e.body.invoice.id == e'.body.invoice.id ==> e.body.invoice == e'.body.invoice))
  }

  ghost predicate FitsRange(s: State, scope: string, events: seq<Event>) {
    forall c :: (scope, c) in s.mappings && s.mappings[(scope, c)] in s.accounts ==>
      s.accounts[s.mappings[(scope, c)]].available + SumUnits(s.policies, scope, Eligible(s, scope, events, c))
      <= L.MAX_CREDITS
  }

  lemma {:induction false} SumSplit(policies: map<Key, PricePolicy>, scope: string, invoices: set<Invoice>, i: Invoice)
    requires i in invoices
    ensures SumUnits(policies, scope, invoices)
            == UnitsOf(policies, scope, i) + SumUnits(policies, scope, invoices - {i})
    decreases invoices
  {
    var p := Pick(invoices);
    if p != i {
      SumSplit(policies, scope, invoices - {p}, i);
      SumSplit(policies, scope, invoices - {i}, p);
      assert invoices - {p} - {i} == invoices - {i} - {p};
    }
  }

  lemma {:induction false} SumMonotone(policies: map<Key, PricePolicy>, scope: string, a: set<Invoice>, b: set<Invoice>)
    requires a <= b
    requires forall k :: k in policies ==> 0 <= policies[k].units
    ensures SumUnits(policies, scope, a) <= SumUnits(policies, scope, b)
    decreases b
  {
    if b != {} {
      var i := Pick(b);
      if i in a {
        SumSplit(policies, scope, a, i);
        SumMonotone(policies, scope, a - {i}, b - {i});
      } else {
        SumMonotone(policies, scope, a, b - {i});
      }
    }
  }

  /** The delivery contradicts what was recorded before the first of these deliveries. */
  predicate Conflicts(s: State, scope: string, e: Event) {
    if (scope, e.id) in s.observations then s.observations[(scope, e.id)].raw != e.raw
    else
      && e.body.Paid? && (scope, e.body.invoice.id) in s.applications
      && s.applications[(scope, e.body.invoice.id)].invoice != e.body.invoice
  }

  /** What was recorded stays, and the new records are those of the delivered events. */
  ghost predicate Seen(s0: State, s: State, scope: string, done: seq<Event>) {
    && (forall k :: k in s0.observations ==> k in s.observations && s.observations[k] == s0.observations[k])
    && (forall e :: e in done && !Conflicts(s0, scope, e) ==>
          (scope, e.id) in s.observations && s.observations[(scope, e.id)].raw == e.raw)
    && (forall k :: k in s.observations && k.0 == scope && k !in s0.observations ==>
          exists e :: e in done && !Conflicts(s0, scope, e) && e.id == k.1)
  }

  ghost predicate AppliedExactly(s0: State, s: State, scope: string, done: seq<Event>) {
    && (forall k :: k in s0.applications ==> k in s.applications && s.applications[k] == s0.applications[k])
    && (forall k :: k in s.applications && k.0 == scope && k !in s0.applications ==>
          var i := s.applications[k].invoice; i in Eligible(s0, scope, done, i.customer))
    && (forall c, i :: i in Eligible(s0, scope, done, c) ==>
          (scope, i.id) in s.applications && s.applications[(scope, i.id)].invoice == i)
  }

  ghost predicate AllOwed(s0: State, s: State, scope: string, done: seq<Event>) {
    forall c :: (scope, c) in s0.mappings ==> Owed(s0, s, scope, done, c)
  }

  /** How far the tables have come after the deliveries `done`, starting from `s0`. */
  ghost predicate Progress(s0: State, s: State, scope: string, done: seq<Event>) {
    && Inv(s) && s.mappings == s0.mappings && s.policies == s0.policies
    && Seen(s0, s, scope, done) && AppliedExactly(s0, s, scope, done) && AllOwed(s0, s, scope, done)
  }

  ghost predicate Owed(s0: State, s: State, scope: string, done: seq<Event>, c: string)
    requires (scope, c) in s0.mappings
  {
    var o := s0.mappings[(scope, c)];
    && o in s0.accounts && o in s.accounts
    && s.accounts[o].available
       == s0.accounts[o].available + SumUnits(s0.policies, scope, Eligible(s0, scope, done, c))
    && s.accounts[o].reserved == s0.accounts[o].reserved
  }

  lemma OneDelivery(s0: State, s: State, scope: string, done: seq<Event>, e: Event)
    requires Inv(s0) && ValidScope(scope) && Progress(s0, s, scope, done)
    requires Consistent(done + [e]) && FitsRange(s0, scope, done + [e])
    ensures Progress(s0, ProcessEvent(s, scope, e).0, scope, done + [e])
  {
    if (scope, e.id) in s.observations || Conflicts(s0, scope, e) {
      UnchangedProgress(s0, s, scope, done, e);
    } else if e.body.Other? || !Priced(s, scope, e.body.invoice) || (scope, e.body.invoice.id) in s.applications {
      UncreditedProgress(s0, s, scope, done, e);
    } else {
      CreditedProgress(s0, s, scope, done, e);
    }
  }

  /** An event that was recorded, before or among these deliveries, or contradicts what was, changes nothing. */
  lemma UnchangedProgress(s0: State, s: State, scope: string, done: seq<Event>, e: Event)
    requires ValidScope(scope) && Progress(s0, s, scope, done) && Consistent(done + [e])
    requires (scope, e.id) in s.observations || Conflicts(s0, scope, e)
    ensures ProcessEvent(s, scope, e).0 == s
    ensures Progress(s0, s, scope, done + [e])
  {
    if (scope, e.id) in s.observations && (scope, e.id) !in s0.observations {
      RecordedAmongThese(s0, s, scope, done, e);
      assert forall x :: x in done + [e] <==> x in done;
      SameEvents(s0, s, scope, done, done + [e]);
    } else {
      assert !IsNew(s0, scope, e);
      SkippedEvent(s0, s, scope, done, e);
    }
  }

  lemma RecordedAmongThese(s0: State, s: State, scope: string, done: seq<Event>, e: Event)
    requires Seen(s0, s, scope, done) && Consistent(done + [e])
    requires (scope, e.id) in s.observations && (scope, e.id) !in s0.observations
    ensures e in done && !Conflicts(s0, scope, e) && s.observations[(scope, e.id)].raw == e.raw
  {
    var x :| x in done && !Conflicts(s0, scope, x) && x.id == e.id;
    assert x in done + [e] && e in done + [e];
  }

  lemma SameEvents(s0: State, s: State, scope: string, a: seq<Event>, b: seq<Event>)
    requires Progress(s0, s, scope, a)
    requires forall x :: x in b <==> x in a
    ensures Progress(s0, s, scope, b)
  {
    assert forall c :: Eligible(s0, scope, b, c) == Eligible(s0, scope, a, c);
    forall c | (scope, c) in s0.mappings ensures Owed(s0, s, scope, b, c) { assert Owed(s0, s, scope, a, c); }
  }

  lemma SkippedEvent(s0: State, s: State, scope: string, done: seq<Event>, e: Event)
    requires Progress(s0, s, scope, done) && !IsNew(s0, scope, e)
    requires Conflicts(s0, scope, e) || (scope, e.id) in s0.observations
    ensures Progress(s0, s, scope, done + [e])
  {
    SameEligible(s0, scope, done, e);
    SeenSkipped(s0, s, scope, done, e);
    forall c | (scope, c) in s0.mappings ensures Owed(s0, s, scope, done + [e], c) {
      assert Owed(s0, s, scope, done, c);
    }
  }

  lemma SeenSkipped(s0: State, s: State, scope: string, done: seq<Event>, e: Event)
    requires Seen(s0, s, scope, done) && (Conflicts(s0, scope, e) || (scope, e.id) in s0.observations)
    ensures Seen(s0, s, scope, done + [e])
  {
    forall k | k in s.observations && k.0 == scope && k !in s0.observations
      ensures exists x :: x in done + [e] && !Conflicts(s0, scope, x) && x.id == k.1
    {
      var x :| x in done && !Conflicts(s0, scope, x) && x.id == k.1;
      assert x in done + [e];
    }
  }

  lemma UncreditedProgress(s0: State, s: State, scope: string, done: seq<Event>, e: Event)
    requires ValidScope(scope) && Progress(s0, s, scope, done) && Consistent(done + [e])
    requires (scope, e.id) !in s.observations && !Conflicts(s0, scope, e)
    requires e.body.Other? || !Priced(s, scope, e.body.invoice) || (scope, e.body.invoice.id) in s.applications
    ensures Progress(s0, ProcessEvent(s, scope, e).0, scope, done + [e])
  {
    var t := ProcessEvent(s, scope, e).0;
    EventKeepsInv(s, scope, e);
    if e.body.Paid? && (scope, e.body.invoice.id) in s.applications {
      AppliedIsSame(s0, s, scope, done, e);
    }
    SamePriced(s0, s, scope, e);
    SameEligible(s0, scope, done, e);
    ObservedProgress(s0, s, t, scope, done, e, t.observations[(scope, e.id)]);
  }

  lemma SamePriced(s0: State, s: State, scope: string, e: Event)
    requires s.mappings == s0.mappings && s.policies == s0.policies
    ensures e.body.Paid? ==> (Priced(s0, scope, e.body.invoice) <==> Priced(s, scope, e.body.invoice))
  {
  }

  /** An invoice that is already applied has the content it was applied with. */
  lemma AppliedIsSame(s0: State, s: State, scope: string, done: seq<Event>, e: Event)
    requires Progress(s0, s, scope, done) && Consistent(done + [e])
    requires (scope, e.id) !in s.observations && !Conflicts(s0, scope, e)
    requires e.body.Paid? && (scope, e.body.invoice.id) in s.applications
    ensures s.applications[(scope, e.body.invoice.id)].invoice == e.body.invoice
    ensures (scope, e.body.invoice.id) in s0.applications
            || e.body.invoice in Eligible(s0, scope, done, e.body.invoice.customer)
  {
    var k := (scope, e.body.invoice.id);
    var i := s.applications[k].invoice;
    if k !in s0.applications {
      assert ApplicationGranted(s, k);
      var x :| x in done && IsNew(s0, scope, x) && x.body.invoice == i;
      assert x in done + [e] && e in done + [e];
    }
  }

  lemma SameEligible(s0: State, scope: string, done: seq<Event>, e: Event)
    requires !IsNew(s0, scope, e) || !Priced(s0, scope, e.body.invoice)
             || e.body.invoice in Eligible(s0, scope, done, e.body.invoice.customer)
    ensures forall c :: Eligible(s0, scope, done + [e], c) == Eligible(s0, scope, done, c)
  {
  }

  lemma SeenAfter(s0: State, s: State, t: State, scope: string, done: seq<Event>, e: Event, o: Observation)
    requires Seen(s0, s, scope, done) && (scope, e.id) !in s.observations && o.raw == e.raw && !Conflicts(s0, scope, e)
    requires t.observations == s.observations[(scope, e.id) := o]
    ensures Seen(s0, t, scope, done + [e])
  {
    forall k | k in t.observations && k.0 == scope && k !in s0.observations
      ensures exists x :: x in done + [e] && !Conflicts(s0, scope, x) && x.id == k.1
    {
      if k == (scope, e.id) {
        assert e in done + [e];
      } else {
        var x :| x in done && !Conflicts(s0, scope, x) && x.id == k.1;
        assert x in done + [e];
      }
    }
  }

  lemma ObservedProgress(s0: State, s: State, t: State, scope: string, done: seq<Event>, e: Event, o: Observation)
    requires Progress(s0, s, scope, done) && Inv(t)
    requires forall c :: Eligible(s0, scope, done + [e], c) == Eligible(s0, scope, done, c)
    requires (scope, e.id) !in s.observations && o.raw == e.raw && !Conflicts(s0, scope, e)
    requires t == s.(observations := s.observations[(scope, e.id) := o])
    ensures Progress(s0, t, scope, done + [e])
  {
    SeenAfter(s0, s, t, scope, done, e, o);
    forall c | (scope, c) in s0.mappings ensures Owed(s0, t, scope, done + [e], c) {
      assert Owed(s0, s, scope, done, c);
    }
  }

  lemma CreditedProgress(s0: State, s: State, scope: string, done: seq<Event>, e: Event)
    requires Inv(s0) && ValidScope(scope) && Progress(s0, s, scope, done)
    requires FitsRange(s0, scope, done + [e]) && !Conflicts(s0, scope, e)
    requires e.body.Paid? && Priced(s, scope, e.body.invoice)
    requires (scope, e.body.invoice.id) !in s.applications && (scope, e.id) !in s.observations
    ensures Progress(s0, ProcessEvent(s, scope, e).0, scope, done + [e])
  {
    EventKeepsInv(s, scope, e);
    RangeSuffices(s0, s, scope, done, e);
    CreditEffect(s, scope, e, e.body.invoice);
    CreditedTables(s0, s, ProcessEvent(s, scope, e).0, scope, done, e);
  }

  lemma RangeSuffices(s0: State, s: State, scope: string, done: seq<Event>, e: Event)
    requires AppliedExactly(s0, s, scope, done) && AllOwed(s0, s, scope, done) && FitsRange(s0, scope, done + [e])
    requires IsNew(s0, scope, e) && Priced(s0, scope, e.body.invoice)
    requires (scope, e.body.invoice.id) !in s.applications
    ensures var o := s0.mappings[(scope, e.body.invoice.customer)];
            o in s.accounts && s.accounts[o].available + UnitsOf(s0.policies, scope, e.body.invoice) <= L.MAX_CREDITS
  {
    NewlyEligible(s0, s, scope, done, e);
    assert Owed(s0, s, scope, done, e.body.invoice.customer);
  }

  lemma CreditedTables(s0: State, s: State, t: State, scope: string, done: seq<Event>, e: Event)
    requires MappingsOk(s0) && Seen(s0, s, scope, done) && !Conflicts(s0, scope, e)
    requires AppliedExactly(s0, s, scope, done) && AllOwed(s0, s, scope, done)
    requires IsNew(s0, scope, e) && Priced(s0, scope, e.body.invoice)
    requires (scope, e.body.invoice.id) !in s.applications && (scope, e.id) !in s.observations
    requires (scope, e.id) in t.observations && t.observations[(scope, e.id)].raw == e.raw
    requires t.observations == s.observations[(scope, e.id) := t.observations[(scope, e.id)]]
    requires (scope, e.body.invoice.id) in t.applications
    requires t.applications == s.applications[(scope, e.body.invoice.id) := t.applications[(scope, e.body.invoice.id)]]
    requires t.applications[(scope, e.body.invoice.id)].invoice == e.body.invoice
    requires var o := s0.mappings[(scope, e.body.invoice.customer)];
             && o in s.accounts && o in t.accounts && t.accounts == s.accounts[o := t.accounts[o]]
             && t.accounts[o].available == s.accounts[o].available + UnitsOf(s0.policies, scope, e.body.invoice)
             && t.accounts[o].reserved == s.accounts[o].reserved
    ensures Seen(s0, t, scope, done + [e])
    ensures AppliedExactly(s0, t, scope, done + [e]) && AllOwed(s0, t, scope, done + [e])
  {
    SeenAfter(s0, s, t, scope, done, e, t.observations[(scope, e.id)]);
    AppliedAfter(s0, s, t, scope, done, e);
    OwedAfter(s0, s, t, scope, done, e);
  }

  lemma AppliedAfter(s0: State, s: State, t: State, scope: string, done: seq<Event>, e: Event)
    requires AppliedExactly(s0, s, scope, done)
    requires IsNew(s0, scope, e) && (scope, e.body.invoice.id) !in s.applications
    requires t.applications.Keys == s.applications.Keys + {(scope, e.body.invoice.id)}
    requires forall k :: k in s.applications ==> t.applications[k] == s.applications[k]
    requires t.applications[(scope, e.body.invoice.id)].invoice == e.body.invoice
    requires Priced(s0, scope, e.body.invoice)
    ensures AppliedExactly(s0, t, scope, done + [e])
  {
    NewlyEligible(s0, s, scope, done, e);
    forall c, i | i in Eligible(s0, scope, done + [e], c)
      ensures (scope, i.id) in t.applications && t.applications[(scope, i.id)].invoice == i
    {
      assert i in Eligible(s0, scope, done, c) || i == e.body.invoice;
    }
  }

  lemma OwedAfter(s0: State, s: State, t: State, scope: string, done: seq<Event>, e: Event)
    requires MappingsOk(s0) && AppliedExactly(s0, s, scope, done) && AllOwed(s0, s, scope, done)
    requires IsNew(s0, scope, e) && Priced(s0, scope, e.body.invoice)
    requires (scope, e.body.invoice.id) !in s.applications
    requires var i := e.body.invoice;
             var o := s0.mappings[(scope, i.customer)];
             && o in s.accounts && o in t.accounts && t.accounts == s.accounts[o := t.accounts[o]]
             && t.accounts[o].available == s.accounts[o].available + UnitsOf(s0.policies, scope, i)
             && t.accounts[o].reserved == s.accounts[o].reserved
    ensures AllOwed(s0, t, scope, done + [e])
  {
    NewlyEligible(s0, s, scope, done, e);
    forall c | (scope, c) in s0.mappings ensures Owed(s0, t, scope, done + [e], c) {
      assert Owed(s0, s, scope, done, c);
      assert s0.mappings[(scope, c)] == SandboxCustomer(scope, c);
      assert s0.mappings[(scope, e.body.invoice.customer)] == SandboxCustomer(scope, e.body.invoice.customer);
    }
  }

  lemma NewlyEligible(s0: State, s: State, scope: string, done: seq<Event>, e: Event)
    requires AppliedExactly(s0, s, scope, done)
    requires IsNew(s0, scope, e) && Priced(s0, scope, e.body.invoice)
    requires (scope, e.body.invoice.id) !in s.applications
    ensures var i := e.body.invoice;
            var before, after := Eligible(s0, scope, done, i.customer), Eligible(s0, scope, done + [e], i.customer);
            && after == before + {i}
            && SumUnits(s0.policies, scope, after) == SumUnits(s0.policies, scope, before) + UnitsOf(s0.policies, scope, i)
    ensures forall c :: c != e.body.invoice.customer ==> Eligible(s0, scope, done + [e], c) == Eligible(s0, scope, done, c)
  {
    var i := e.body.invoice;
    var before, after := Eligible(s0, scope, done, i.customer), Eligible(s0, scope, done + [e], i.customer);
    assert i !in before;
    assert e in done + [e];
    assert after == before + {i};
    SumSplit(s0.policies, scope, after, i);
    assert after - {i} == before;
  }

  lemma PrefixPremises(s0: State, scope: string, events: seq<Event>)
    requires events != [] && Inv(s0)
    requires Consistent(events) && FitsRange(s0, scope, events)
    ensures var front := events[..|events| - 1]; Consistent(front) && FitsRange(s0, scope, front)
  {
    var front := events[..|events| - 1];
    assert forall e :: e in front ==> e in events;
    forall c | (scope, c) in s0.mappings
      ensures SumUnits(s0.policies, scope, Eligible(s0, scope, front, c))
              <= SumUnits(s0.policies, scope, Eligible(s0, scope, events, c))
    {
      SumMonotone(s0.policies, scope, Eligible(s0, scope, front, c), Eligible(s0, scope, events, c));
    }
  }

  lemma {:induction false} DeliveriesProgress(s0: State, scope: string, events: seq<Event>)
    requires Inv(s0) && ValidScope(scope) && Consistent(events) && FitsRange(s0, scope, events)
    ensures Progress(s0, DeliverAll(s0, scope, events), scope, events)
  {
    if events != [] {
      var front, e := events[..|events| - 1], events[|events| - 1];
      assert front + [e] == events;
      PrefixPremises(s0, scope, events);
      DeliveriesProgress(s0, scope, front);
      OneDelivery(s0, DeliverAll(s0, scope, front), scope, front, e);
    }
  }

  /** From any state of the books, deliveries in any order raise every mapped balance by exactly the units of
      its distinct new eligible invoices: those of unrecorded events, not applied before. */
  lemma EachInvoiceIsCreditedOnce(s0: State, scope: string, events: seq<Event>, customer: string)
    requires Inv(s0) && Consistent(events) && FitsRange(s0, scope, events)
    requires (scope, customer) in s0.mappings
    ensures var o := s0.mappings[(scope, customer)];
            var t := DeliverAll(s0, scope, events);
            o in s0.accounts && o in t.accounts
            && t.accounts[o].available == s0.accounts[o].available
                 + SumUnits(s0.policies, scope, Eligible(s0, scope, events, customer))
  {
    DeliveriesProgress(s0, scope, events);
    assert Owed(s0, DeliverAll(s0, scope, events), scope, events, customer);
  }

  /** Order and multiplicity do not matter: two delivery sequences with the same events end with the same
      balances. */
  lemma DeliveryOrderIsIrrelevant(s0: State, scope: string, events: seq<Event>, events': seq<Event>, customer: string)
    requires Inv(s0) && Consistent(events) && FitsRange(s0, scope, events)
    requires forall e :: e in events <==> e in events'
    requires (scope, customer) in s0.mappings
    ensures var o := s0.mappings[(scope, customer)];
            var t, t' := DeliverAll(s0, scope, events), DeliverAll(s0, scope, events');
            o in t.accounts && o in t'.accounts && t.accounts[o].available == t'.accounts[o].available
  {
    assert forall c :: Eligible(s0, scope, events', c) == Eligible(s0, scope, events, c);
    EachInvoiceIsCreditedOnce(s0, scope, events, customer);
    EachInvoiceIsCreditedOnce(s0, scope, events', customer);
  }
}
