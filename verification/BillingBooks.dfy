/** The sandbox books balance: in every reachable state grant entries, applications and "applied"
    observations determine each other one to one, and every balance is the sum of its applications. */
module BillingBooks {
  import opened Wrappers
  import opened Keys
  import L = Ledger
  import opened Billing

  // ----- ledgers stay valid

  ghost predicate Sound(s: State) {
    forall o :: o in s.accounts ==> L.Valid(s.accounts[o])
  }

  lemma DeliveryKeepsSound(s: State, scope: string, e: Event)
    requires Sound(s)
    ensures Sound(ProcessEvent(s, scope, e).0)
  {
    var t := ProcessEvent(s, scope, e).0;
    var o, r := DeliverySpends(s, scope, e);
    L.PerformForKeepsValid(s.accounts, o, r);
  }

  /** A delivery changes the accounts by one ledger request at most. */
  lemma DeliverySpends(s: State, scope: string, e: Event) returns (o: Owner, r: L.Request)
    ensures var t := ProcessEvent(s, scope, e).0;
            t.accounts == s.accounts || t.accounts == L.PerformFor(s.accounts, o, r).0
  {
    o, r := NamedOwner(""), L.SettleRequest(PlainReservation(""), PlainKey(""), L.ToCommitHold);
    if e.body.Paid? && Obstacle(s, scope, e.body.invoice) == None {
      var invoice := e.body.invoice;
      o, r := s.mappings[(scope, invoice.customer)], GrantFor(invoice, s.policies[(scope, invoice.price)]);
      CreditSpends(s, scope, e, invoice);
    }
  }

  lemma CreditSpends(s: State, scope: string, e: Event, invoice: Invoice)
    requires Obstacle(s, scope, invoice) == None
    ensures var t := Credit(s, scope, e, invoice).0;
            t.accounts == s.accounts
            || t.accounts == L.PerformFor(s.accounts, s.mappings[(scope, invoice.customer)],
                                          GrantFor(invoice, s.policies[(scope, invoice.price)])).0
  {
  }

  lemma StepKeepsSound(s: State, a: Action)
    requires Sound(s)
    ensures Sound(Step(s, a))
  {
    match a
    case Customer(scope, customer) => L.EmptyIsValid(L.BillingSandbox);
    case Price(_, _, _) =>
    case Deliver(scope, event) => DeliveryKeepsSound(s, scope, event);
    case BudgetRequest(owner, request) => L.PerformForKeepsValid(s.accounts, owner, request);
  }

  lemma {:induction false} RunKeepsSound(s: State, actions: seq<Action>)
    requires Sound(s)
    ensures Sound(Run(s, actions))
    decreases actions
  {
    if actions != [] {
      StepKeepsSound(s, actions[0]);
      RunKeepsSound(Step(s, actions[0]), actions[1..]);
    }
  }

  // ----- one to one

  predicate IsSandbox(s: State, o: Owner) {
    o in s.accounts && s.accounts[o].kind == L.BillingSandbox && o.SandboxCustomer?
  }

  /** The entry is the grant of the application with its invoice identity, for the application's units. */
  predicate Books(s: State, o: Owner, e: L.Entry) {
    && o.SandboxCustomer? && e.operation == L.Grant && e.key.InvoiceKey?
    && (o.scope, e.key.invoice) in s.applications
    && s.applications[(o.scope, e.key.invoice)].account == o
    && s.applications[(o.scope, e.key.invoice)].units == e.amount
  }

  predicate EntryAt(s: State, k: Key, i: nat)
    requires k in s.applications
  {
    var o := s.applications[k].account;
    && IsSandbox(s, o) && i < |s.accounts[o].entries|
    && s.accounts[o].entries[i].key == InvoiceKey(k.1)
  }

  /** Every entry of the account books an application, and no two of them the same one. */
  ghost predicate EntriesOneToOne(s: State, o: Owner)
    requires o in s.accounts
  {
    var entries := s.accounts[o].entries;
    (forall i :: 0 <= i < |entries| ==> Books(s, o, entries[i])) && L.DistinctKeys(entries)
  }

  /** Every application was applied by one event, and every applied event has its application. */
  ghost predicate EventsOneToOne(s: State) {
    && (forall k :: k in s.applications ==> exists event :: AppliedBy(s, k.0, event, k.1))
    && (forall scope, event, event', invoice ::
          AppliedBy(s, scope, event, invoice) && AppliedBy(s, scope, event', invoice) ==> event == event')
    && (forall scope, event, invoice :: AppliedBy(s, scope, event, invoice) ==> (scope, invoice) in s.applications)
  }

  ghost predicate OneToOne(s: State) {
    && (forall o :: IsSandbox(s, o) ==> EntriesOneToOne(s, o))
    && (forall k :: k in s.applications ==> exists i :: EntryAt(s, k, i))
    && EventsOneToOne(s)
  }

  lemma EntryIsBooked(s: State, o: Owner, i: nat)
    requires GrantsMatchApplications(s) && IsSandbox(s, o) && L.DistinctKeys(s.accounts[o].entries)
    requires i < |s.accounts[o].entries|
    ensures Books(s, o, s.accounts[o].entries[i])
  {
    var entries := s.accounts[o].entries;
    var e := entries[i];
    assert EntryApplied(s, o, e);
    assert ApplicationGranted(s, (o.scope, e.key.invoice));
    L.LookupFinds(entries, e.key);
    var j :| 0 <= j < |entries| && entries[j] == L.Lookup(entries, e.key).value;
    assert j == i;
  }

  lemma ApplicationHasEntry(s: State, k: Key)
    requires GrantsMatchApplications(s) && k in s.applications
    ensures exists i :: EntryAt(s, k, i)
  {
    assert ApplicationGranted(s, k);
    var entries := s.accounts[s.applications[k].account].entries;
    L.LookupFinds(entries, InvoiceKey(k.1));
    var i :| 0 <= i < |entries| && entries[i] == L.Lookup(entries, InvoiceKey(k.1)).value;
    assert EntryAt(s, k, i);
  }

  lemma InvariantIsOneToOne(s: State)
    requires GrantsMatchApplications(s) && ObservationsMatchApplications(s) && Sound(s)
    ensures OneToOne(s)
  {
    forall o | IsSandbox(s, o) ensures EntriesOneToOne(s, o) {
      SandboxOneToOne(s, o);
    }
    forall k | k in s.applications ensures exists i :: EntryAt(s, k, i) { ApplicationHasEntry(s, k); }
    MatchIsOneToOne(s);
  }

  lemma SandboxOneToOne(s: State, o: Owner)
    requires GrantsMatchApplications(s) && IsSandbox(s, o) && L.DistinctKeys(s.accounts[o].entries)
    ensures EntriesOneToOne(s, o)
  {
    forall i | 0 <= i < |s.accounts[o].entries| ensures Books(s, o, s.accounts[o].entries[i]) {
      EntryIsBooked(s, o, i);
    }
  }

  lemma MatchIsOneToOne(s: State)
    requires ObservationsMatchApplications(s)
    ensures EventsOneToOne(s)
  {
  }

  // ----- balances

  ghost function PickKey(keys: set<Key>): (k: Key)
    requires keys != {}
    ensures k in keys
  {
    var k :| k in keys; k
  }

  ghost function SumApplied(applications: map<Key, Application>, keys: set<Key>): int
    requires keys <= applications.Keys
  {
    if keys == {} then 0
    else
      var k := PickKey(keys);
      applications[k].units + SumApplied(applications, keys - {k})
  }

  lemma {:induction false} SumAppliedSplit(applications: map<Key, Application>, keys: set<Key>, k: Key)
    requires keys <= applications.Keys && k in keys
    ensures SumApplied(applications, keys) == applications[k].units + SumApplied(applications, keys - {k})
    decreases keys
  {
    var p := PickKey(keys);
    if p != k {
      SumAppliedSplit(applications, keys - {p}, k);
      SumAppliedSplit(applications, keys - {k}, p);
      assert keys - {p} - {k} == keys - {k} - {p};
    }
  }

  /** The applications booked by the first `n` entries of an account. */
  function BookedKeys(o: Owner, entries: seq<L.Entry>, n: nat): set<Key>
    requires n <= |entries| && o.SandboxCustomer?
  {
    set i | 0 <= i < n && entries[i].key.InvoiceKey? :: (o.scope, entries[i].key.invoice)
  }

  lemma NextBooked(s: State, o: Owner, n: nat)
    requires IsSandbox(s, o) && EntriesOneToOne(s, o) && 1 <= n <= |s.accounts[o].entries|
    ensures var entries := s.accounts[o].entries;
            var k := (o.scope, entries[n - 1].key.invoice);
            && k !in BookedKeys(o, entries, n - 1)
            && BookedKeys(o, entries, n) == BookedKeys(o, entries, n - 1) + {k}
            && k in s.applications && s.applications[k].units == entries[n - 1].amount
            && entries[n - 1].operation == L.Grant
  {
    var entries := s.accounts[o].entries;
    assert Books(s, o, entries[n - 1]);
  }

  lemma {:induction false} PrefixIsSum(s: State, o: Owner, n: nat)
    requires IsSandbox(s, o) && EntriesOneToOne(s, o) && n <= |s.accounts[o].entries|
    ensures BookedKeys(o, s.accounts[o].entries, n) <= s.applications.Keys
    ensures L.Balance(s.accounts[o].entries[..n])
         == (SumApplied(s.applications, BookedKeys(o, s.accounts[o].entries, n)), 0)
  {
    var entries := s.accounts[o].entries;
    if n > 0 {
      var before, after := BookedKeys(o, entries, n - 1), BookedKeys(o, entries, n);
      var k := (o.scope, entries[n - 1].key.invoice);
      PrefixIsSum(s, o, n - 1);
      NextBooked(s, o, n);
      SumAppliedSplit(s.applications, after, k);
      assert after - {k} == before;
      assert entries[..n][..n - 1] == entries[..n - 1];
    }
  }

  function KeysOf(s: State, o: Owner): set<Key> {
    set k | k in s.applications && s.applications[k].account == o
  }

  lemma AllKeysBooked(s: State, o: Owner)
    requires OneToOne(s) && GrantsMatchApplications(s) && IsSandbox(s, o)
    ensures BookedKeys(o, s.accounts[o].entries, |s.accounts[o].entries|) == KeysOf(s, o)
  {
    var entries := s.accounts[o].entries;
    var booked := BookedKeys(o, entries, |entries|);
    forall k | k in KeysOf(s, o) ensures k in booked {
      var i :| EntryAt(s, k, i);
      assert ApplicationGranted(s, k);
    }
    forall k | k in booked ensures k in KeysOf(s, o) {
      var i :| 0 <= i < |entries| && entries[i].key.InvoiceKey? && (o.scope, entries[i].key.invoice) == k;
      assert Books(s, o, entries[i]);
    }
  }

  /** In every reachable state, sandbox grant entries, applications and "applied" observations determine
      each other one to one with equal amounts, and each sandbox balance is the sum of the units of the
      account's applications, with nothing reserved. */
  lemma BooksBalance(actions: seq<Action>, o: Owner)
    ensures var s := Run(Init(), actions);
            && OneToOne(s)
            && (o in s.accounts && s.accounts[o].kind == L.BillingSandbox ==>
                  && s.accounts[o].available == SumApplied(s.applications, KeysOf(s, o))
                  && s.accounts[o].reserved == 0)
  {
    var s := Run(Init(), actions);
    RunKeepsInv(Init(), actions);
    RunKeepsSound(Init(), actions);
    InvariantIsOneToOne(s);
    if o in s.accounts && s.accounts[o].kind == L.BillingSandbox {
      BalanceIsSum(s, o);
    }
  }

  lemma BalanceIsSum(s: State, o: Owner)
    requires OneToOne(s) && GrantsMatchApplications(s) && IsSandbox(s, o) && L.AuditTrail(s.accounts[o])
    ensures s.accounts[o].available == SumApplied(s.applications, KeysOf(s, o)) && s.accounts[o].reserved == 0
  {
    var entries := s.accounts[o].entries;
    PrefixIsSum(s, o, |entries|);
    AllKeysBooked(s, o);
    assert entries[..|entries|] == entries;
  }
}
