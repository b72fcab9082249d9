/** Sandbox billing: exactly-once crediting of paid invoices.

    Digests are content digests, so comparing two of them is comparing what they digest. */
module Billing {
  import opened Wrappers
  import opened Keys
  import L = Ledger

  const MAX_PRICE_UNITS := 1_000_000

  /** `details` stands for the facts that are recorded but never branched on. */
  datatype Invoice = Invoice(id: string, customer: string, price: string, currency: string, amount: int, details: string)

  datatype Review = UnmappedCustomer | UnmappedPrice | PricePolicyMismatch | Unsupported(reason: string)

  /** The contract yields an invoice or a reason to review it, never both. */
  datatype Body = Paid(invoice: Invoice) | Other(review: Option<Review>)

  datatype Event = Event(id: string, raw: string, body: Body)

  datatype PricePolicy = PricePolicy(currency: string, amount: int, units: int)

  datatype Application = Application(invoice: Invoice, account: Owner, units: int)

  datatype Status = Applied | Duplicate | Observed | Reviewed

  datatype Observation = Observation(raw: string, outcome: Status, review: Option<Review>, application: Option<string>)

  datatype Receipt = Receipt(status: Status, credited: bool, duplicate: bool, review: Option<Review>)

  datatype Error =
    | InvalidInput | EventConflict | InvoiceConflict | AccountConflict | PriceConflict
    | AccountMissing | LedgerCorruption | LedgerRefused(error: L.Error)

  /** Every table is keyed by the scope and the identity within it. */
  type Key = (string, string)

  datatype State = State(
    mappings: map<Key, Owner>,
    policies: map<Key, PricePolicy>,
    accounts: map<Owner, L.Account>,
    applications: map<Key, Application>,
    observations: map<Key, Observation>)

  // ----- registration

  predicate ValidCurrency(c: string) {
    |c| == 3 && forall i :: 0 <= i < 3 ==> 'a' <= c[i] <= 'z'
  }

  predicate WordChar(c: char) {
    'a' <= c <= 'z' || 'A' <= c <= 'Z' || '0' <= c <= '9' || c == '_'
  }

  predicate ValidScope(s: string) {
    && 1 <= |s| <= 64 && s[0] != '_' && WordChar(s[0])
    && forall i :: 1 <= i < |s| ==> WordChar(s[i]) || s[i] == '-'
  }

  /** An identifier with this prefix: a lower-case word, an underscore, and up to 190 word characters. */
  predicate ValidId(s: string, prefix: string) {
    && |s| <= 200 && prefix + "_" <= s
    && exists u :: 1 <= u < |s| - 1 && IsIdSplit(s, u)
  }

  predicate IsIdSplit(s: string, u: nat)
    requires 1 <= u < |s| - 1
  {
    && 'a' <= s[0] <= 'z' && s[u] == '_' && |s| - u - 1 <= 190
    && (forall i :: 0 <= i < u ==> 'a' <= s[i] <= 'z' || '0' <= s[i] <= '9')
    && forall i :: u < i < |s| ==> WordChar(s[i])
  }

  function RegisterCustomer(s: State, scope: string, customer: string): (State, Result<Owner, Error>) {
    if !ValidScope(scope) || !ValidId(customer, "cus") then (s, Failure(InvalidInput))
    else if (scope, customer) in s.mappings then (s, Success(s.mappings[(scope, customer)]))
    else
      var owner := SandboxCustomer(scope, customer);
      if owner in s.accounts then (s, Failure(AccountConflict))
      else
        (s.(accounts := s.accounts[owner := L.Empty(L.BillingSandbox)],
            mappings := s.mappings[(scope, customer) := owner]), Success(owner))
  }

  function RegisterPrice(s: State, scope: string, price: string, policy: PricePolicy): (State, Result<PricePolicy, Error>) {
    if !(ValidScope(scope) && ValidId(price, "price")
         && L.ValidAmount(policy.amount) && 1 <= policy.units <= MAX_PRICE_UNITS && ValidCurrency(policy.currency))
    then (s, Failure(InvalidInput))
    else if (scope, price) in s.policies then
      if s.policies[(scope, price)] != policy then (s, Failure(PriceConflict))
      else (s, Success(policy))
    else (s.(policies := s.policies[(scope, price) := policy]), Success(policy))
  }

  // ----- one delivery

  /** Why an invoice cannot be credited under the registered customers and prices. */
  function Obstacle(s: State, scope: string, invoice: Invoice): Option<Review> {
    if (scope, invoice.customer) !in s.mappings then Some(UnmappedCustomer)
    else if (scope, invoice.price) !in s.policies then Some(UnmappedPrice)
    else
      var policy := s.policies[(scope, invoice.price)];
      if (policy.currency, policy.amount) != (invoice.currency, invoice.amount) then Some(PricePolicyMismatch)
      else None
  }

  function GrantFor(invoice: Invoice, policy: PricePolicy): L.Request {
    L.GrantRequest(L.BillingSandbox, policy.units, InvoiceKey(invoice.id), SandboxInvoice(invoice.id))
  }

  function Observe(s: State, scope: string, e: Event, status: Status, review: Option<Review>, application: Option<string>)
    : (State, Result<Receipt, Error>)
  {
    var outcome := if review.Some? then Reviewed else status;
    (s.(observations := s.observations[(scope, e.id) := Observation(e.raw, outcome, review, application)]),
     Success(Receipt(outcome, outcome == Applied, outcome == Duplicate, review)))
  }

  function Credit(s: State, scope: string, e: Event, invoice: Invoice): (State, Result<Receipt, Error>)
    requires Obstacle(s, scope, invoice) == None
  {
    var owner, policy := s.mappings[(scope, invoice.customer)], s.policies[(scope, invoice.price)];
    if owner !in s.accounts then (s, Failure(AccountMissing))
    else
      var (accounts, result) := L.PerformFor(s.accounts, owner, GrantFor(invoice, policy));
      if result.Failure? then (s, Failure(LedgerRefused(result.error)))
      else if !result.value.applied then (s, Failure(LedgerCorruption))
      else
        var application := Application(invoice, owner, policy.units);
        Observe(s.(accounts := accounts, applications := s.applications[(scope, invoice.id) := application]),
                scope, e, Applied, None, Some(invoice.id))
  }

  /** Processes one signed event; a failure is a rollback. */
  function ProcessEvent(s: State, scope: string, e: Event): (State, Result<Receipt, Error>) {
    if !ValidScope(scope) then (s, Failure(InvalidInput))
    else if (scope, e.id) in s.observations then
      var previous := s.observations[(scope, e.id)];
      if previous.raw != e.raw then (s, Failure(EventConflict))
      else (s, Success(Receipt(previous.outcome, false, true, previous.review)))
    else match e.body {
      case Other(review) => Observe(s, scope, e, Observed, review, None)
      case Paid(invoice) =>
        if (scope, invoice.id) in s.applications then
          if s.applications[(scope, invoice.id)].invoice != invoice then (s, Failure(InvoiceConflict))
          else Observe(s, scope, e, Duplicate, None, Some(invoice.id))
        else
          var obstacle := Obstacle(s, scope, invoice);
          if obstacle.Some? then Observe(s, scope, e, Observed, obstacle, None)
          else Credit(s, scope, e, invoice)
    }
  }

  // ----- everything that can happen to the billing tables

  datatype Action =
    | Customer(scope: string, customer: string)
    | Price(scope: string, price: string, policy: PricePolicy)
    | Deliver(scope: string, event: Event)
    | BudgetRequest(owner: Owner, request: L.Request)   // a request of the internal credit service

  function Step(s: State, a: Action): State {
    match a
    case Customer(scope, customer) => RegisterCustomer(s, scope, customer).0
    case Price(scope, price, policy) => RegisterPrice(s, scope, price, policy).0
    case Deliver(scope, event) => ProcessEvent(s, scope, event).0
    case BudgetRequest(owner, request) =>
      if L.ExpectedKind(request) == L.InternalBudget
      then s.(accounts := L.PerformFor(s.accounts, owner, request).0) else s
  }

  function Run(s: State, actions: seq<Action>): State
    decreases actions
  {
    if actions == [] then s else Run(Step(s, actions[0]), actions[1..])
  }

  function Init(): State {
    State(map[], map[], map[], map[], map[])
  }

  // ----- the invariant

  ghost predicate MappingsOk(s: State) {
    && (forall k :: k in s.mappings ==>
          && ValidScope(k.0)
          && s.mappings[k] == SandboxCustomer(k.0, k.1)
          && s.mappings[k] in s.accounts
          && s.accounts[s.mappings[k]].kind == L.BillingSandbox)
    && (forall o :: o in s.accounts && s.accounts[o].kind == L.BillingSandbox ==>
          o.SandboxCustomer? && (o.scope, o.customer) in s.mappings)
    && (forall k :: k in s.policies ==> 1 <= s.policies[k].units <= MAX_PRICE_UNITS)
  }

  /** A sandbox entry is the grant of one applied invoice of the account's own scope. */
  predicate EntryApplied(s: State, o: Owner, e: L.Entry) {
    && o.SandboxCustomer?
    && e.operation == L.Grant && e.key.InvoiceKey?
    && (o.scope, e.key.invoice) in s.applications
    && s.applications[(o.scope, e.key.invoice)].account == o
  }

  predicate ApplicationGranted(s: State, k: Key)
    requires k in s.applications
  {
    var a := s.applications[k];
    && a.invoice.id == k.1
    && a.account == SandboxCustomer(k.0, a.invoice.customer)
    && a.account in s.accounts
    && s.accounts[a.account].kind == L.BillingSandbox
    && var found := L.Lookup(s.accounts[a.account].entries, InvoiceKey(k.1));
    found.Some? && found.value.operation == L.Grant && found.value.amount == a.units
  }

  /** Applications and sandbox grant entries determine each other. */
  ghost predicate GrantsMatchApplications(s: State) {
    && (forall o, i :: o in s.accounts && s.accounts[o].kind == L.BillingSandbox && 0 <= i < |s.accounts[o].entries| ==>
          EntryApplied(s, o, s.accounts[o].entries[i]))
    && (forall k :: k in s.applications ==> ApplicationGranted(s, k))
  }

  predicate AppliedBy(s: State, scope: string, event: string, invoice: string) {
    (scope, event) in s.observations
    && s.observations[(scope, event)].outcome == Applied
    && s.observations[(scope, event)].application == Some(invoice)
  }

  /** Applications and "applied" observations determine each other. */
  ghost predicate ObservationsMatchApplications(s: State) {
    && (forall k :: k in s.observations && s.observations[k].outcome == Applied ==>
          s.observations[k].application.Some? && (k.0, s.observations[k].application.value) in s.applications)
    && (forall k :: k in s.applications ==> exists event :: AppliedBy(s, k.0, event, k.1))
    && (forall scope, event, event', invoice ::
          AppliedBy(s, scope, event, invoice) && AppliedBy(s, scope, event', invoice) ==> event == event')
  }

  ghost predicate Inv(s: State) {
    && MappingsOk(s)
    && GrantsMatchApplications(s)
    && ObservationsMatchApplications(s)
  }

  lemma FreshInvoiceKey(s: State, scope: string, invoice: Invoice)
    requires Inv(s)
    requires (scope, invoice.id) !in s.applications && (scope, invoice.customer) in s.mappings
    ensures L.Lookup(s.accounts[s.mappings[(scope, invoice.customer)]].entries, InvoiceKey(invoice.id)) == None
  {
    var o := s.mappings[(scope, invoice.customer)];
    var entries := s.accounts[o].entries;
    L.LookupFinds(entries, InvoiceKey(invoice.id));
    forall i | 0 <= i < |entries| ensures entries[i].key != InvoiceKey(invoice.id) {
      assert EntryApplied(s, o, entries[i]);
    }
  }

  /** What a credited invoice does: one grant entry of the policy's units on the customer's account, its
      application, and the observation that records it.  Only the integer range can stop it. */
  lemma CreditEffect(s: State, scope: string, e: Event, invoice: Invoice)
    requires Inv(s)
    requires (scope, invoice.id) !in s.applications && Obstacle(s, scope, invoice) == None
    ensures var owner, policy := s.mappings[(scope, invoice.customer)], s.policies[(scope, invoice.price)];
            var a := s.accounts[owner];
            var (t, result) := Credit(s, scope, e, invoice);
            if a.available > L.MAX_CREDITS - policy.units
            then t == s && result == Failure(LedgerRefused(L.OutOfRange))
            else
              var entry := L.Entry(L.Grant, policy.units, InvoiceKey(invoice.id), SandboxInvoice(invoice.id), None,
                                   a.available + policy.units, a.reserved);
              && result == Success(Receipt(Applied, true, false, None))
              && t.accounts == s.accounts[owner := a.(available := a.available + policy.units, entries := a.entries + [entry])]
              && t.applications == s.applications[(scope, invoice.id) := Application(invoice, owner, policy.units)]
              && t.observations == s.observations[(scope, e.id) := Observation(e.raw, Applied, None, Some(invoice.id))]
              && t.mappings == s.mappings && t.policies == s.policies
  {
    FreshInvoiceKey(s, scope, invoice);
  }

  lemma CreditKeepsInv(s: State, scope: string, e: Event, invoice: Invoice)
    requires Inv(s)
    requires (scope, e.id) !in s.observations
    requires (scope, invoice.id) !in s.applications && Obstacle(s, scope, invoice) == None
    ensures Inv(Credit(s, scope, e, invoice).0)
  {
    CreditEffect(s, scope, e, invoice);
    var owner := s.mappings[(scope, invoice.customer)];
    var a, units := s.accounts[owner], s.policies[(scope, invoice.price)].units;
    if a.available <= L.MAX_CREDITS - units {
      var entry := L.Entry(L.Grant, units, InvoiceKey(invoice.id), SandboxInvoice(invoice.id), None,
                           a.available + units, a.reserved);
      CreditedKeepsInv(s, Credit(s, scope, e, invoice).0, scope, e, invoice, owner, entry);
    }
  }

  lemma CreditedKeepsInv(s: State, t: State, scope: string, e: Event, invoice: Invoice, owner: Owner, entry: L.Entry)
    requires Inv(s)
    requires (scope, e.id) !in s.observations
    requires (scope, invoice.id) !in s.applications
    requires (scope, invoice.customer) in s.mappings && s.mappings[(scope, invoice.customer)] == owner
    requires entry.operation == L.Grant && entry.key == InvoiceKey(invoice.id)
    requires owner in t.accounts && t.accounts == s.accounts[owner := t.accounts[owner]]
    requires t.accounts[owner].kind == L.BillingSandbox
    requires t.accounts[owner].entries == s.accounts[owner].entries + [entry]
    requires t.applications == s.applications[(scope, invoice.id) := Application(invoice, owner, entry.amount)]
    requires t.observations == s.observations[(scope, e.id) := Observation(e.raw, Applied, None, Some(invoice.id))]
    requires t.mappings == s.mappings && t.policies == s.policies
    ensures Inv(t)
  {
    FreshInvoiceKey(s, scope, invoice);
    GrantKeepsMatch(s, t, scope, invoice, owner, entry);
    ObservationKeepsMatch(s, t, scope, e.id, invoice.id);
    GrantKeepsMappings(s, t, owner);
  }

  lemma GrantKeepsMappings(s: State, t: State, owner: Owner)
    requires MappingsOk(s) && t.mappings == s.mappings && t.policies == s.policies
    requires owner in s.accounts && owner in t.accounts && t.accounts == s.accounts[owner := t.accounts[owner]]
    requires s.accounts[owner].kind == t.accounts[owner].kind == L.BillingSandbox
    ensures MappingsOk(t)
  {
  }

  lemma GrantKeepsMatch(s: State, t: State, scope: string, invoice: Invoice, owner: Owner, entry: L.Entry)
    requires GrantsMatchApplications(s)
    requires owner == SandboxCustomer(scope, invoice.customer) && owner in s.accounts
    requires s.accounts[owner].kind == L.BillingSandbox
    requires (scope, invoice.id) !in s.applications
    requires entry.operation == L.Grant && entry.key == InvoiceKey(invoice.id)
    requires L.Lookup(s.accounts[owner].entries, InvoiceKey(invoice.id)) == None
    requires owner in t.accounts && t.accounts == s.accounts[owner := t.accounts[owner]]
    requires t.accounts[owner].kind == L.BillingSandbox
    requires t.accounts[owner].entries == s.accounts[owner].entries + [entry]
    requires t.applications == s.applications[(scope, invoice.id) := Application(invoice, owner, entry.amount)]
    ensures GrantsMatchApplications(t)
  {
    var entries := s.accounts[owner].entries;
    forall o, i | o in t.accounts && t.accounts[o].kind == L.BillingSandbox && 0 <= i < |t.accounts[o].entries|
      ensures EntryApplied(t, o, t.accounts[o].entries[i])
    {
      if o != owner || i < |entries| {
        assert EntryApplied(s, o, s.accounts[o].entries[i]);
      }
    }
    forall k | k in t.applications ensures ApplicationGranted(t, k) {
      if k in s.applications { assert ApplicationGranted(s, k); }
      L.LookupExtends(entries, [entry], InvoiceKey(k.1));
    }
  }

  lemma ObservationKeepsMatch(s: State, t: State, scope: string, event: string, invoice: string)
    requires ObservationsMatchApplications(s)
    requires (scope, event) !in s.observations
    requires t.observations.Keys == s.observations.Keys + {(scope, event)}
    requires forall k :: k in s.observations ==> t.observations[k] == s.observations[k]
    requires var o := t.observations[(scope, event)];
             if o.outcome == Applied
             then o.application == Some(invoice) && (scope, invoice) !in s.applications
                  && t.applications.Keys == s.applications.Keys + {(scope, invoice)}
             else t.applications == s.applications
    ensures ObservationsMatchApplications(t)
  {
    forall k | k in t.applications ensures exists ev :: AppliedBy(t, k.0, ev, k.1) {
      if k in s.applications {
        var ev :| AppliedBy(s, k.0, ev, k.1);
        assert AppliedBy(t, k.0, ev, k.1);
      } else {
        assert AppliedBy(t, scope, event, invoice);
      }
    }
    forall sc, ev, ev', i | AppliedBy(t, sc, ev, i) && AppliedBy(t, sc, ev', i) ensures ev == ev' {
      assert (AppliedBy(s, sc, ev, i) || (sc, ev) == (scope, event)) && (AppliedBy(s, sc, ev', i) || (sc, ev') == (scope, event));
      assert AppliedBy(s, sc, ev, i) || AppliedBy(s, sc, ev', i) ==> (sc, i) in s.applications;
    }
  }

  lemma ObserveKeepsInv(s: State, scope: string, e: Event, status: Status, review: Option<Review>, application: Option<string>)
    requires Inv(s) && (scope, e.id) !in s.observations && status != Applied
    ensures Inv(Observe(s, scope, e, status, review, application).0)
  {
    var t := Observe(s, scope, e, status, review, application).0;
    ObservationKeepsMatch(s, t, scope, e.id, "");
    GrantsSurvive(s, t);
  }

  predicate SameSandboxes(s: State, t: State) {
    && (forall o :: o in s.accounts && s.accounts[o].kind == L.BillingSandbox ==> o in t.accounts && t.accounts[o] == s.accounts[o])
    && (forall o :: o in t.accounts && t.accounts[o].kind == L.BillingSandbox ==>
          (o in s.accounts && t.accounts[o] == s.accounts[o]) || t.accounts[o].entries == [])
  }

  lemma GrantsSurvive(s: State, t: State)
    requires GrantsMatchApplications(s) && t.applications == s.applications && SameSandboxes(s, t)
    ensures GrantsMatchApplications(t)
  {
    forall k | k in t.applications ensures ApplicationGranted(t, k) { assert ApplicationGranted(s, k); }
    forall o, i | o in t.accounts && t.accounts[o].kind == L.BillingSandbox && 0 <= i < |t.accounts[o].entries|
      ensures EntryApplied(t, o, t.accounts[o].entries[i])
    {
      assert EntryApplied(s, o, s.accounts[o].entries[i]);
    }
  }

  lemma SameObservationsMatch(s: State, t: State)
    requires ObservationsMatchApplications(s)
    requires t.observations == s.observations && t.applications == s.applications
    ensures ObservationsMatchApplications(t)
  {
    assert forall sc, ev, i :: AppliedBy(t, sc, ev, i) == AppliedBy(s, sc, ev, i);
  }

  lemma CustomerKeepsInv(s: State, scope: string, customer: string)
    requires Inv(s)
    ensures Inv(RegisterCustomer(s, scope, customer).0)
  {
    var t := RegisterCustomer(s, scope, customer).0;
    if t != s {
      NewAccountKeepsInv(s, t, scope, customer);
    }
  }

  lemma NewAccountKeepsInv(s: State, t: State, scope: string, customer: string)
    requires Inv(s) && ValidScope(scope) && SandboxCustomer(scope, customer) !in s.accounts
    requires t == s.(accounts := s.accounts[SandboxCustomer(scope, customer) := L.Empty(L.BillingSandbox)],
                     mappings := s.mappings[(scope, customer) := SandboxCustomer(scope, customer)])
    ensures Inv(t)
  {
    SameObservationsMatch(s, t);
    GrantsSurvive(s, t);
    assert MappingsOk(t);
  }

  lemma PriceKeepsInv(s: State, scope: string, price: string, policy: PricePolicy)
    requires Inv(s)
    ensures Inv(RegisterPrice(s, scope, price, policy).0)
  {
    PolicyKeepsInv(s, RegisterPrice(s, scope, price, policy).0);
  }

  lemma PolicyKeepsInv(s: State, t: State)
    requires Inv(s) && t == s.(policies := t.policies)
    requires forall k :: k in t.policies ==> 1 <= t.policies[k].units <= MAX_PRICE_UNITS
    ensures Inv(t)
  {
    SameObservationsMatch(s, t);
    GrantsSurvive(s, t);
    assert MappingsOk(t);
  }

  /** Requests of the internal credit service never reach a sandbox account. */
  lemma BudgetSparesSandbox(accounts: map<Owner, L.Account>, owner: Owner, r: L.Request)
    requires L.ExpectedKind(r) == L.InternalBudget
    ensures var after := L.PerformFor(accounts, owner, r).0;
            && (forall o :: o in accounts ==> o in after && after[o].kind == accounts[o].kind)
            && (forall o :: o in accounts && accounts[o].kind == L.BillingSandbox ==> after[o] == accounts[o])
            && (forall o :: o in after && o !in accounts ==> after[o].kind == L.InternalBudget)
  {
  }

  lemma BudgetKeepsInv(s: State, owner: Owner, r: L.Request)
    requires Inv(s) && L.ExpectedKind(r) == L.InternalBudget
    ensures Inv(s.(accounts := L.PerformFor(s.accounts, owner, r).0))
  {
    var t := s.(accounts := L.PerformFor(s.accounts, owner, r).0);
    BudgetSparesSandbox(s.accounts, owner, r);
    SameObservationsMatch(s, t);
    GrantsSurvive(s, t);
    SandboxesStayMapped(s, t);
  }

  lemma SandboxesStayMapped(s: State, t: State)
    requires MappingsOk(s) && SameSandboxes(s, t) && t.mappings == s.mappings && t.policies == s.policies
    requires forall o :: o in t.accounts && t.accounts[o].kind == L.BillingSandbox ==> o in s.accounts && s.accounts[o] == t.accounts[o]
    ensures MappingsOk(t)
  {
  }

  lemma EventKeepsInv(s: State, scope: string, e: Event)
    requires Inv(s)
    ensures Inv(ProcessEvent(s, scope, e).0)
  {
    if ValidScope(scope) && (scope, e.id) !in s.observations {
      match e.body
      case Other(review) => ObserveKeepsInv(s, scope, e, Observed, review, None);
      case Paid(invoice) =>
        if (scope, invoice.id) in s.applications {
          ObserveKeepsInv(s, scope, e, Duplicate, None, Some(invoice.id));
        } else if Obstacle(s, scope, invoice).Some? {
          ObserveKeepsInv(s, scope, e, Observed, Obstacle(s, scope, invoice), None);
        } else {
          CreditKeepsInv(s, scope, e, invoice);
        }
    }
  }

  lemma StepKeepsInv(s: State, a: Action)
    requires Inv(s)
    ensures Inv(Step(s, a))
  {
    match a
    case Customer(scope, customer) => CustomerKeepsInv(s, scope, customer);
    case Price(scope, price, policy) => PriceKeepsInv(s, scope, price, policy);
    case Deliver(scope, event) => EventKeepsInv(s, scope, event);
    case BudgetRequest(owner, request) =>
      if L.ExpectedKind(request) == L.InternalBudget { BudgetKeepsInv(s, owner, request); }
  }

  lemma {:induction false} RunKeepsInv(s: State, actions: seq<Action>)
    requires Inv(s)
    ensures Inv(Run(s, actions))
    decreases actions
  {
    if actions != [] {
      StepKeepsInv(s, actions[0]);
      RunKeepsInv(Step(s, actions[0]), actions[1..]);
    }
  }

  // ----- main results

  /** In every reachable state only malformed or conflicting input or the integer range can make a delivery
      fail: the guards against a missing account and against a grant without its application are never
      taken. */
  lemma OnlyConflictsAndRangeFail(actions: seq<Action>, scope: string, e: Event)
    ensures var s := Run(Init(), actions);
            var result := ProcessEvent(s, scope, e).1;
            && (result.Failure? ==>
                  result.error in {InvalidInput, EventConflict, InvoiceConflict, LedgerRefused(L.OutOfRange)})
            && (result == Failure(InvalidInput) <==> !ValidScope(scope))
  {
    RunKeepsInv(Init(), actions);
    FailureCauses(Run(Init(), actions), scope, e);
  }

  lemma FailureCauses(s: State, scope: string, e: Event)
    requires Inv(s)
    ensures var result := ProcessEvent(s, scope, e).1;
            && (result.Failure? ==>
                  result.error in {InvalidInput, EventConflict, InvoiceConflict, LedgerRefused(L.OutOfRange)})
            && (result == Failure(InvalidInput) <==> !ValidScope(scope))
  {
    if (scope, e.id) !in s.observations && e.body.Paid? && (scope, e.body.invoice.id) !in s.applications
       && Obstacle(s, scope, e.body.invoice) == None
    {
      CreditEffect(s, scope, e, e.body.invoice);
    }
  }

  /** A delivery that was recorded once changes nothing when it is repeated, whatever was registered or
      credited in between; in particular an event reviewed for a missing mapping is never credited later. */
  lemma RepeatedDeliveryIsNoOp(s: State, scope: string, e: Event, between: seq<Action>)
    requires ProcessEvent(s, scope, e).1.Success?
    ensures var t := Run(ProcessEvent(s, scope, e).0, between);
            && ProcessEvent(t, scope, e).0 == t
            && ProcessEvent(t, scope, e).1.Success?
            && !ProcessEvent(t, scope, e).1.value.credited
  {
    var first := ProcessEvent(s, scope, e).0;
    SuccessIsRecorded(s, scope, e);
    ObservationsStay(first, between, (scope, e.id));
    RecordedIsReplayed(Run(first, between), scope, e);
  }

  lemma SuccessIsRecorded(s: State, scope: string, e: Event)
    requires ProcessEvent(s, scope, e).1.Success?
    ensures var t := ProcessEvent(s, scope, e).0;
            (scope, e.id) in t.observations && t.observations[(scope, e.id)].raw == e.raw
  {
    if e.body.Paid? && Obstacle(s, scope, e.body.invoice) == None {
      CreditIsRecorded(s, scope, e, e.body.invoice);
    }
  }

  lemma CreditIsRecorded(s: State, scope: string, e: Event, invoice: Invoice)
    requires Obstacle(s, scope, invoice) == None
    ensures var (t, result) := Credit(s, scope, e, invoice);
            result.Success? ==> (scope, e.id) in t.observations && t.observations[(scope, e.id)].raw == e.raw
  {
  }

  lemma RecordedIsReplayed(s: State, scope: string, e: Event)
    requires ValidScope(scope) && (scope, e.id) in s.observations && s.observations[(scope, e.id)].raw == e.raw
    ensures var (t, result) := ProcessEvent(s, scope, e);
            t == s && result.Success? && !result.value.credited
  {
  }

  predicate StillThere(s: State, t: State, k: Key) {
    k in s.observations ==> k in t.observations && t.observations[k] == s.observations[k]
  }

  lemma DeliveryKeepsObservations(s: State, scope: string, e: Event, k: Key)
    ensures StillThere(s, ProcessEvent(s, scope, e).0, k)
  {
  }

  lemma StepKeepsObservations(s: State, a: Action, k: Key)
    ensures StillThere(s, Step(s, a), k)
  {
    match a
    case Deliver(scope, event) => DeliveryKeepsObservations(s, scope, event, k);
    case _ =>
  }

  lemma {:induction false} ObservationsStay(s: State, actions: seq<Action>, k: Key)
    ensures StillThere(s, Run(s, actions), k)
    decreases actions
  {
    if actions != [] {
      StepKeepsObservations(s, actions[0], k);
      ObservationsStay(Step(s, actions[0]), actions[1..], k);
    }
  }

  // ----- the service, updating its tables in place

  class BillingTables {
    var mappings: map<Key, Owner>
    var policies: map<Key, PricePolicy>
    var accounts: map<Owner, L.Account>
    var applications: map<Key, Application>
    var observations: map<Key, Observation>

    ghost function View(): State
      reads this
    {
      State(mappings, policies, accounts, applications, observations)
    }

    constructor ()
      ensures View() == Init()
    {
      mappings, policies, accounts, applications, observations := map[], map[], map[], map[], map[];
    }

    method AddCustomer(scope: string, customer: string) returns (result: Result<Owner, Error>)
      modifies this`mappings, this`accounts
      ensures (View(), result) == RegisterCustomer(old(View()), scope, customer)
    {
      if !ValidScope(scope) || !ValidId(customer, "cus") {
        return Failure(InvalidInput);
      }
      if (scope, customer) in mappings {
        return Success(mappings[(scope, customer)]);
      }
      var owner := SandboxCustomer(scope, customer);
      if owner in accounts {
        return Failure(AccountConflict);
      }
      accounts := accounts[owner := L.Empty(L.BillingSandbox)];
      mappings := mappings[(scope, customer) := owner];
      return Success(owner);
    }

    method AddPrice(scope: string, price: string, policy: PricePolicy) returns (result: Result<PricePolicy, Error>)
      modifies this`policies
      ensures (View(), result) == RegisterPrice(old(View()), scope, price, policy)
    {
      if !ValidScope(scope) || !ValidId(price, "price") {
        return Failure(InvalidInput);
      }
      if !(L.ValidAmount(policy.amount) && 1 <= policy.units <= MAX_PRICE_UNITS && ValidCurrency(policy.currency)) {
        return Failure(InvalidInput);
      }
      if (scope, price) in policies {
        if policies[(scope, price)] != policy {
          return Failure(PriceConflict);
        }
        return Success(policy);
      }
      policies := policies[(scope, price) := policy];
      return Success(policy);
    }

    method Process(scope: string, e: Event) returns (result: Result<Receipt, Error>)
      modifies this`accounts, this`applications, this`observations
      ensures (View(), result) == ProcessEvent(old(View()), scope, e)
    {
      if !ValidScope(scope) {
        return Failure(InvalidInput);
      }
      if (scope, e.id) in observations {
        var previous := observations[(scope, e.id)];
        if previous.raw != e.raw {
          return Failure(EventConflict);
        }
        return Success(Receipt(previous.outcome, false, true, previous.review));
      }
      var status, review, application := Observed, None, None;
      match e.body {
        case Other(r) => review := r;
        case Paid(invoice) =>
          if (scope, invoice.id) in applications {
            if applications[(scope, invoice.id)].invoice != invoice {
              return Failure(InvoiceConflict);
            }
            status, application := Duplicate, Some(invoice.id);
          } else if (scope, invoice.customer) !in mappings {
            review := Some(UnmappedCustomer);
          } else if (scope, invoice.price) !in policies {
            review := Some(UnmappedPrice);
          } else {
            var owner, policy := mappings[(scope, invoice.customer)], policies[(scope, invoice.price)];
            if (policy.currency, policy.amount) != (invoice.currency, invoice.amount) {
              review := Some(PricePolicyMismatch);
            } else if owner !in accounts {
              return Failure(AccountMissing);
            } else {
              var after, granted := L.Charge(accounts, owner, GrantFor(invoice, policy));
              if granted.Failure? {
                return Failure(LedgerRefused(granted.error));
              }
              if !granted.value.applied {
                return Failure(LedgerCorruption);
              }
              accounts := after;
              applications := applications[(scope, invoice.id) := Application(invoice, owner, policy.units)];
              status, application := Applied, Some(invoice.id);
            }
          }
      }
      if review.Some? {
        status := Reviewed;
      }
      observations := observations[(scope, e.id) := Observation(e.raw, status, review, application)];
      return Success(Receipt(status, status == Applied, status == Duplicate, review));
    }
  }
}
