/** The credit ledger: one account, its reservations and its append-only entries. */
module Ledger {
  import opened Wrappers
  import opened Keys

  // Bound checked by the service and range of the integer columns.
  const MAX_CREDITS := 2_147_483_647

  datatype Kind = InternalBudget | BillingSandbox
  datatype Operation = Grant | Reserve | Commit | Refund
  datatype Status = Reserved | Committed | Refunded
  datatype Decision = ToCommitHold | ToRefundHold

  datatype Reservation = Reservation(amount: int, status: Status, reference: Reference, createdAt: int)

  datatype Entry = Entry(
    operation: Operation, amount: int, key: IdempotencyKey, reference: Reference,
    reservation: Option<ReservationKey>, availableAfter: int, reservedAfter: int)

  datatype Account = Account(
    kind: Kind, available: int, reserved: int,
    reservations: map<ReservationKey, Reservation>, entries: seq<Entry>)

  datatype Error =
    | InvalidAmount | WrongKind | KeyReused | ReservationExists | InsufficientCredits
    | ReservationNotFound | AlreadySettled | InconsistentBalance | OutOfRange

  datatype Receipt = Receipt(entry: Entry, applied: bool)

  datatype Request =
    | GrantRequest(expected: Kind, amount: int, key: IdempotencyKey, reference: Reference)
    | ReserveRequest(amount: int, hold: ReservationKey, key: IdempotencyKey, reference: Reference, now: int)
    | SettleRequest(hold: ReservationKey, key: IdempotencyKey, decision: Decision)

  /** A failed request raises, and the caller's rollback leaves the account as it was. */
  datatype Transaction = Transaction(account: Account, result: Result<Receipt, Error>)

  function Empty(kind: Kind): Account {
    Account(kind, 0, 0, map[], [])
  }

  predicate InRange(n: int) {
    0 <= n <= MAX_CREDITS
  }

  predicate ValidAmount(n: int) {
    1 <= n <= MAX_CREDITS
  }

  function Lookup(entries: seq<Entry>, key: IdempotencyKey): Option<Entry> {
    if entries == [] then None
    else if entries[0].key == key then Some(entries[0])
    else Lookup(entries[1..], key)
  }

  predicate SameInput(e: Entry, operation: Operation, amount: int, reference: Reference) {
    e.operation == operation && e.amount == amount && e.reference == reference
  }

  function OperationOf(d: Decision): Operation {
    if d == ToCommitHold then Commit else Refund
  }

  function StatusOf(d: Decision): Status {
    if d == ToCommitHold then Committed else Refunded
  }

  function Fail(a: Account, e: Error): Transaction {
    Transaction(a, Failure(e))
  }

  // ----- what each request does

  function Perform(a: Account, r: Request): Transaction {
    match r
    case GrantRequest(expected, amount, key, reference) =>
      if !ValidAmount(amount) then Fail(a, InvalidAmount)
      else if a.kind != expected then Fail(a, WrongKind)
      else match Lookup(a.entries, key) {
        case Some(e) => Replayed(a, e, Grant, amount, reference)
        case None =>
          if a.available > MAX_CREDITS - amount then Fail(a, OutOfRange)
          else Append(a.(available := a.available + amount), Grant, amount, key, reference, None)
      }
    case ReserveRequest(amount, hold, key, reference, now) =>
      if !ValidAmount(amount) then Fail(a, InvalidAmount)
      else if a.kind != InternalBudget then Fail(a, WrongKind)
      else match Lookup(a.entries, key) {
        case Some(e) => Replayed(a, e, Reserve, amount, reference)
        case None =>
          if hold in a.reservations then Fail(a, ReservationExists)
          else if a.available < amount then Fail(a, InsufficientCredits)
          else if !InRange(a.reserved + amount) then Fail(a, OutOfRange)
          else Append(
            a.(available := a.available - amount, reserved := a.reserved + amount,
               reservations := a.reservations[hold := Reservation(amount, Reserved, reference, now)]),
            Reserve, amount, key, reference, Some(hold))
      }
    case SettleRequest(hold, key, decision) =>
      if a.kind != InternalBudget then Fail(a, WrongKind)
      else if hold !in a.reservations then Fail(a, ReservationNotFound)
      else
        var row := a.reservations[hold];
        match Lookup(a.entries, key) {
          case Some(e) => Replayed(a, e, OperationOf(decision), row.amount, row.reference)
          case None =>
            if row.status != Reserved then Fail(a, AlreadySettled)
            else if a.reserved < row.amount then Fail(a, InconsistentBalance)
            else
              var available := if decision == ToRefundHold then a.available + row.amount else a.available;
              if decision == ToRefundHold && !InRange(available) then Fail(a, OutOfRange)
              else Append(
                a.(available := available, reserved := a.reserved - row.amount,
                   reservations := a.reservations[hold := row.(status := StatusOf(decision))]),
                OperationOf(decision), row.amount, key, row.reference, Some(hold))
        }
  }

  function Replayed(a: Account, e: Entry, operation: Operation, amount: int, reference: Reference): Transaction {
    if SameInput(e, operation, amount, reference) then Transaction(a, Success(Receipt(e, false)))
    else Fail(a, KeyReused)
  }

  /** Adds the audit entry of a mutation that has already been made to the balances of `a`. */
  function Append(a: Account, operation: Operation, amount: int, key: IdempotencyKey,
                  reference: Reference, hold: Option<ReservationKey>): Transaction {
    var e := Entry(operation, amount, key, reference, hold, a.available, a.reserved);
    Transaction(a.(entries := a.entries + [e]), Success(Receipt(e, true)))
  }

  function Run(a: Account, rs: seq<Request>): Account
    decreases rs
  {
    if rs == [] then a else Run(Perform(a, rs[0]).account, rs[1..])
  }

  // ----- the table of accounts

  function ExpectedKind(r: Request): Kind {
    if r.GrantRequest? then r.expected else InternalBudget
  }

  /** Locks the owner's account, creating it when absent, and performs one request on it.  When the request
      raises, the rollback also removes an account that was created for it. */
  function PerformFor(accounts: map<Owner, Account>, owner: Owner, r: Request)
    : (result: (map<Owner, Account>, Result<Receipt, Error>))
  {
    var a := if owner in accounts then accounts[owner] else Empty(ExpectedKind(r));
    var t := Perform(a, r);
    if t.result.Success? then (accounts[owner := t.account], t.result) else (accounts, t.result)
  }

  // ----- what the entries say, independently of the balances

  function Post(balance: (int, int), e: Entry): (int, int) {
    match e.operation
    case Grant => (balance.0 + e.amount, balance.1)
    case Reserve => (balance.0 - e.amount, balance.1 + e.amount)
    case Commit => (balance.0, balance.1 - e.amount)
    case Refund => (balance.0 + e.amount, balance.1 - e.amount)
  }

  function Balance(entries: seq<Entry>): (int, int) {
    if entries == [] then (0, 0)
    else Post(Balance(entries[..|entries| - 1]), entries[|entries| - 1])
  }

  function Total(entries: seq<Entry>, operation: Operation): int {
    if entries == [] then 0
    else
      var last := entries[|entries| - 1];
      Total(entries[..|entries| - 1], operation) + if last.operation == operation then last.amount else 0
  }

  function Count(entries: seq<Entry>, hold: ReservationKey, operation: Operation): nat {
    if entries == [] then 0
    else
      var last := entries[|entries| - 1];
      Count(entries[..|entries| - 1], hold, operation)
      + if last.reservation == Some(hold) && last.operation == operation then 1 else 0
  }

  function OpenAmount(r: Reservation): int {
    if r.status == Reserved then r.amount else 0
  }

  ghost function PickKey(m: map<ReservationKey, Reservation>): (k: ReservationKey)
    requires m != map[]
    ensures k in m
  {
    assert m.Keys == {} ==> m == map[];
    var k :| k in m.Keys; k
  }

  ghost function OpenSum(m: map<ReservationKey, Reservation>): int
    decreases |m|
  {
    if m == map[] then 0
    else
      var k := PickKey(m);
      assert (m - {k}).Keys == m.Keys - {k};
      OpenAmount(m[k]) + OpenSum(m - {k})
  }

  // ----- the invariant

  ghost predicate AuditTrail(a: Account) {
    && Balance(a.entries) == (a.available, a.reserved)
    && forall i :: 0 <= i < |a.entries| ==>
         Balance(a.entries[..i + 1]) == (a.entries[i].availableAfter, a.entries[i].reservedAfter)
  }

  ghost predicate DistinctKeys(entries: seq<Entry>) {
    forall i, j :: 0 <= i < j < |entries| ==> entries[i].key != entries[j].key
  }

  ghost predicate HoldsMatchEntries(a: Account) {
    && (forall h :: Count(a.entries, h, Reserve) == (if h in a.reservations then 1 else 0))
    && (forall h :: Count(a.entries, h, Commit) ==
                    (if h in a.reservations && a.reservations[h].status == Committed then 1 else 0))
    && (forall h :: Count(a.entries, h, Refund) ==
                    (if h in a.reservations && a.reservations[h].status == Refunded then 1 else 0))
    && forall i :: 0 <= i < |a.entries| ==> EntryFitsHold(a, a.entries[i])
  }

  predicate EntryFitsHold(a: Account, e: Entry) {
    && (e.operation == Grant <==> e.reservation == None)
    && (e.reservation.Some? ==>
          && e.reservation.value in a.reservations
          && a.reservations[e.reservation.value].amount == e.amount
          && a.reservations[e.reservation.value].reference == e.reference)
  }

  ghost predicate Valid(a: Account) {
    && InRange(a.available) && InRange(a.reserved)
    && (forall h :: h in a.reservations ==> ValidAmount(a.reservations[h].amount))
    && a.reserved == OpenSum(a.reservations)
    && AuditTrail(a)
    && DistinctKeys(a.entries)
    && HoldsMatchEntries(a)
  }

  // ----- proofs

  lemma {:induction false} OpenSumSplit(m: map<ReservationKey, Reservation>, k: ReservationKey)
    requires k in m
    ensures OpenSum(m) == OpenAmount(m[k]) + OpenSum(m - {k})
    decreases |m|
  {
    var p := PickKey(m);
    if p != k {
      assert (m - {p}).Keys == m.Keys - {p} && (m - {k}).Keys == m.Keys - {k};
      OpenSumSplit(m - {p}, k);
      OpenSumSplit(m - {k}, p);
      assert (m - {p}) - {k} == (m - {k}) - {p};
    }
  }

  lemma OpenSumUpdate(m: map<ReservationKey, Reservation>, k: ReservationKey, r: Reservation)
    ensures OpenSum(m[k := r]) == OpenSum(m) + OpenAmount(r) - (if k in m then OpenAmount(m[k]) else 0)
  {
    OpenSumSplit(m[k := r], k);
    if k in m {
      OpenSumSplit(m, k);
      assert m[k := r] - {k} == m - {k};
    } else {
      assert m[k := r] - {k} == m;
    }
  }

  lemma {:induction false} OpenSumCovers(m: map<ReservationKey, Reservation>, k: ReservationKey)
    requires k in m
    requires forall h :: h in m ==> ValidAmount(m[h].amount)
    ensures 0 <= OpenSum(m - {k})
    ensures OpenAmount(m[k]) <= OpenSum(m)
    decreases |m|
  {
    OpenSumSplit(m, k);
    var rest := m - {k};
    assert rest.Keys == m.Keys - {k};
    if rest != map[] {
      var p := PickKey(rest);
      OpenSumCovers(rest, p);
      OpenSumSplit(rest, p);
    }
  }

  lemma {:induction false} LookupFinds(entries: seq<Entry>, key: IdempotencyKey)
    ensures Lookup(entries, key).Some? ==> Lookup(entries, key).value in entries && Lookup(entries, key).value.key == key
    ensures Lookup(entries, key) == None ==> forall i :: 0 <= i < |entries| ==> entries[i].key != key
  {
    if entries != [] && entries[0].key != key {
      LookupFinds(entries[1..], key);
      assert forall i :: 0 < i < |entries| ==> entries[i] == entries[1..][i - 1];
    }
  }

  lemma {:induction false} LookupExtends(before: seq<Entry>, more: seq<Entry>, key: IdempotencyKey)
    ensures Lookup(before, key).Some? ==> Lookup(before + more, key) == Lookup(before, key)
    ensures Lookup(before, key) == None ==> Lookup(before + more, key) == Lookup(more, key)
  {
    if before == [] {
      assert before + more == more;
    } else {
      assert (before + more)[1..] == before[1..] + more;
      LookupExtends(before[1..], more, key);
    }
  }

  /** The invariant survives one appended entry once the parts it touches are accounted for. */
  lemma AppendKeepsTrail(a: Account, b: Account, e: Entry)
    requires AuditTrail(a)
    requires b.entries == a.entries + [e]
    requires Post((a.available, a.reserved), e) == (b.available, b.reserved)
    requires (e.availableAfter, e.reservedAfter) == (b.available, b.reserved)
    ensures AuditTrail(b)
  {
    assert b.entries[..|a.entries|] == a.entries;
    forall i | 0 <= i < |b.entries|
      ensures Balance(b.entries[..i + 1]) == (b.entries[i].availableAfter, b.entries[i].reservedAfter)
    {
      if i < |a.entries| {
        assert b.entries[..i + 1] == a.entries[..i + 1];
      } else {
        assert b.entries[..i + 1] == b.entries;
      }
    }
  }

  lemma AppendCounts(entries: seq<Entry>, e: Entry)
    ensures forall h, op :: Count(entries + [e], h, op) ==
              Count(entries, h, op) + if e.reservation == Some(h) && e.operation == op then 1 else 0
  {
    assert (entries + [e])[..|entries|] == entries;
  }

  lemma AppendKeepsDistinct(entries: seq<Entry>, e: Entry)
    requires DistinctKeys(entries) && Lookup(entries, e.key) == None
    ensures DistinctKeys(entries + [e])
  {
    LookupFinds(entries, e.key);
  }

  lemma GrantKeepsHolds(a: Account, b: Account, e: Entry)
    requires HoldsMatchEntries(a)
    requires b.entries == a.entries + [e] && b.reservations == a.reservations
    requires e.operation == Grant && e.reservation == None
    ensures HoldsMatchEntries(b)
  {
    AppendCounts(a.entries, e);
    forall i | 0 <= i < |b.entries| ensures EntryFitsHold(b, b.entries[i]) {
      assert i < |a.entries| ==> EntryFitsHold(a, a.entries[i]);
    }
  }

  lemma ReserveKeepsHolds(a: Account, b: Account, e: Entry, hold: ReservationKey, row: Reservation)
    requires HoldsMatchEntries(a)
    requires hold !in a.reservations && row.status == Reserved
    requires b.entries == a.entries + [e] && b.reservations == a.reservations[hold := row]
    requires e.operation == Reserve && e.reservation == Some(hold)
    requires row.amount == e.amount && row.reference == e.reference
    ensures HoldsMatchEntries(b)
  {
    AppendCounts(a.entries, e);
    forall i | 0 <= i < |b.entries| ensures EntryFitsHold(b, b.entries[i]) {
      assert i < |a.entries| ==> EntryFitsHold(a, a.entries[i]);
    }
  }

  lemma SettleKeepsHolds(a: Account, b: Account, e: Entry, hold: ReservationKey, d: Decision)
    requires HoldsMatchEntries(a)
    requires hold in a.reservations && a.reservations[hold].status == Reserved
    requires b.reservations == a.reservations[hold := a.reservations[hold].(status := StatusOf(d))]
    requires b.entries == a.entries + [e]
    requires e.operation == OperationOf(d) && e.reservation == Some(hold)
    requires a.reservations[hold].amount == e.amount && a.reservations[hold].reference == e.reference
    ensures HoldsMatchEntries(b)
  {
    AppendCounts(a.entries, e);
    forall i | 0 <= i < |b.entries| ensures EntryFitsHold(b, b.entries[i]) {
      assert i < |a.entries| ==> EntryFitsHold(a, a.entries[i]);
    }
  }

  /** What a mutation appends, and that its balances are the ones the entry posts. */
  lemma AppliedShape(a: Account, r: Request) returns (e: Entry)
    requires Perform(a, r).result.Success? && Perform(a, r).result.value.applied
    ensures Perform(a, r).result.value.entry == e
    ensures Perform(a, r).account.entries == a.entries + [e]
    ensures Lookup(a.entries, e.key) == None
    ensures var b := Perform(a, r).account;
            && Post((a.available, a.reserved), e) == (b.available, b.reserved)
            && (e.availableAfter, e.reservedAfter) == (b.available, b.reserved)
  {
    e := Perform(a, r).result.value.entry;
  }

  lemma HoldsKept(a: Account, r: Request)
    requires HoldsMatchEntries(a)
    requires Perform(a, r).result.Success? && Perform(a, r).result.value.applied
    ensures HoldsMatchEntries(Perform(a, r).account)
  {
    var b := Perform(a, r).account;
    var e := AppliedShape(a, r);
    match r
    case GrantRequest(_, _, _, _) => GrantKeepsHolds(a, b, e);
    case ReserveRequest(_, hold, _, _, _) => ReserveKeepsHolds(a, b, e, hold, b.reservations[hold]);
    case SettleRequest(hold, _, decision) => SettleKeepsHolds(a, b, e, hold, decision);
  }

  lemma SumKept(a: Account, r: Request)
    requires InRange(a.available) && InRange(a.reserved)
    requires a.reserved == OpenSum(a.reservations)
    requires forall h :: h in a.reservations ==> ValidAmount(a.reservations[h].amount)
    ensures var b := Perform(a, r).account;
            && InRange(b.available) && InRange(b.reserved)
            && b.reserved == OpenSum(b.reservations)
            && (forall h :: h in b.reservations ==> ValidAmount(b.reservations[h].amount))
  {
    var b := Perform(a, r).account;
    if !r.GrantRequest? && r.hold in b.reservations {
      OpenSumUpdate(a.reservations, r.hold, b.reservations[r.hold]);
      assert b.reservations == a.reservations || b.reservations == a.reservations[r.hold := b.reservations[r.hold]];
    }
  }

  /** Every request keeps the invariant, whatever its outcome. */
  lemma PerformKeepsValid(a: Account, r: Request)
    requires Valid(a)
    ensures Valid(Perform(a, r).account)
  {
    var t := Perform(a, r);
    SumKept(a, r);
    if t.result.Success? && t.result.value.applied {
      HoldsKept(a, r);
      var e := AppliedShape(a, r);
      AppendKeepsTrail(a, t.account, e);
      AppendKeepsDistinct(a.entries, e);
    } else {
      assert t.account == a;
    }
  }

  lemma EmptyIsValid(kind: Kind)
    ensures Valid(Empty(kind))
  {
  }

  lemma {:induction false} RunKeepsValid(a: Account, rs: seq<Request>)
    requires Valid(a)
    ensures Valid(Run(a, rs))
    decreases rs
  {
    if rs != [] {
      PerformKeepsValid(a, rs[0]);
      RunKeepsValid(Perform(a, rs[0]).account, rs[1..]);
    }
  }

  lemma {:induction false} BalanceConserves(entries: seq<Entry>)
    ensures Balance(entries).0 + Balance(entries).1 + Total(entries, Commit) == Total(entries, Grant)
  {
    if entries != [] {
      BalanceConserves(entries[..|entries| - 1]);
    }
  }

  /** In every state any run of requests can reach: available + reserved + committed = granted; reserved
      is the sum of the open holds; every entry records the fold of the ledger up to and including it;
      each hold has one reserve entry and one settlement exactly when it is terminal. */
  lemma ReachableAccounting(kind: Kind, rs: seq<Request>)
    ensures var a := Run(Empty(kind), rs);
            && a.available + a.reserved + Total(a.entries, Commit) == Total(a.entries, Grant)
            && a.reserved == OpenSum(a.reservations)
            && 0 <= a.available <= MAX_CREDITS && 0 <= a.reserved <= MAX_CREDITS
            && AuditTrail(a) && DistinctKeys(a.entries) && HoldsMatchEntries(a)
  {
    EmptyIsValid(kind);
    RunKeepsValid(Empty(kind), rs);
    BalanceConserves(Run(Empty(kind), rs).entries);
  }

  /** The "balance is inconsistent" guard of settlement is dead code in every reachable state. */
  lemma InconsistentGuardNeverFires(kind: Kind, rs: seq<Request>, r: Request)
    ensures Perform(Run(Empty(kind), rs), r).result != Failure(InconsistentBalance)
  {
    EmptyIsValid(kind);
    RunKeepsValid(Empty(kind), rs);
    var a := Run(Empty(kind), rs);
    if r.SettleRequest? && r.hold in a.reservations {
      OpenSumCovers(a.reservations, r.hold);
    }
  }

  /** `b` is a later state of `a`: nothing recorded is lost or rewritten, and settled holds stay settled. */
  ghost predicate Later(a: Account, b: Account) {
    && a.kind == b.kind
    && a.entries <= b.entries
    && forall h :: h in a.reservations ==>
         && h in b.reservations
         && b.reservations[h].amount == a.reservations[h].amount
         && b.reservations[h].reference == a.reservations[h].reference
         && b.reservations[h].createdAt == a.reservations[h].createdAt
         && (a.reservations[h].status != Reserved ==> b.reservations[h] == a.reservations[h])
  }

  lemma {:induction false} RunIsLater(a: Account, rs: seq<Request>)
    ensures Later(a, Run(a, rs))
    decreases rs
  {
    if rs != [] {
      var b := Perform(a, rs[0]).account;
      assert Later(a, b);
      RunIsLater(b, rs[1..]);
    }
  }

  /** Replaying a request that once succeeded, at any later time and after any other requests, returns
      the original entry, reports that nothing was applied, and leaves the account unchanged. */
  lemma ReplayIsNoOp(a: Account, r: Request, between: seq<Request>)
    requires Perform(a, r).result.Success?
    ensures var b := Run(Perform(a, r).account, between);
            Perform(b, r) == Transaction(b, Success(Receipt(Perform(a, r).result.value.entry, false)))
  {
    EntryStays(a, r, between);
    LookupFinds(a.entries, r.key);
    RunIsLater(Perform(a, r).account, between);
  }

  lemma EntryStays(a: Account, r: Request, between: seq<Request>)
    requires Perform(a, r).result.Success?
    ensures Lookup(Run(Perform(a, r).account, between).entries, r.key) == Some(Perform(a, r).result.value.entry)
  {
    var first := Perform(a, r);
    var e := first.result.value.entry;
    LookupFinds(a.entries, r.key);
    LookupExtends(a.entries, [e], r.key);
    var b := Run(first.account, between);
    RunIsLater(first.account, between);
    var more := b.entries[|first.account.entries|..];
    assert b.entries == first.account.entries + more;
    LookupExtends(first.account.entries, more, r.key);
  }

  /** Returning an open hold with a fresh key is not always possible: it succeeds exactly when the sum of
      the available balance and the hold still fits the integer range.  The service does not check this
      before it updates the row, because granting looks at the available balance alone. */
  lemma RefundSucceedsIff(a: Account, hold: ReservationKey, key: IdempotencyKey)
    requires Valid(a) && a.kind == InternalBudget
    requires hold in a.reservations && a.reservations[hold].status == Reserved
    requires Lookup(a.entries, key) == None
    ensures Perform(a, SettleRequest(hold, key, ToRefundHold)).result.Success?
            <==> a.available + a.reservations[hold].amount <= MAX_CREDITS
    ensures Perform(a, SettleRequest(hold, key, ToCommitHold)).result.Success?
  {
    OpenSumCovers(a.reservations, hold);
  }

  lemma GrantApplied(a: Account, amount: int, key: IdempotencyKey, reference: Reference)
    requires a.kind == InternalBudget && Lookup(a.entries, key) == None
    requires ValidAmount(amount) && a.available + amount <= MAX_CREDITS
    ensures Perform(a, GrantRequest(InternalBudget, amount, key, reference)).account
         == a.(available := a.available + amount,
               entries := a.entries + [Entry(Grant, amount, key, reference, None, a.available + amount, a.reserved)])
  {
  }

  lemma HoldApplied(a: Account, amount: int, hold: ReservationKey, key: IdempotencyKey, reference: Reference)
    requires a.kind == InternalBudget && hold !in a.reservations && Lookup(a.entries, key) == None
    requires ValidAmount(amount) && a.available >= amount && InRange(a.reserved + amount)
    ensures Perform(a, ReserveRequest(amount, hold, key, reference, 0)).account
         == a.(available := a.available - amount, reserved := a.reserved + amount,
               reservations := a.reservations[hold := Reservation(amount, Reserved, reference, 0)],
               entries := a.entries + [Entry(Reserve, amount, key, reference, Some(hold), a.available - amount, a.reserved + amount)])
  {
  }

  lemma {:induction false} RunApart(a: Account, front: seq<Request>, r: Request)
    ensures Run(a, front + [r]) == Perform(Run(a, front), r).account
    decreases front
  {
    if front == [] {
      assert front + [r] == [r] && [r][1..] == [];
      assert Run(a, [r]) == Run(Perform(a, r).account, []);
    } else {
      assert (front + [r])[1..] == front[1..] + [r];
      RunApart(Perform(a, front[0]).account, front[1..], r);
    }
  }

  predicate Different(k1: IdempotencyKey, k2: IdempotencyKey, k3: IdempotencyKey, k4: IdempotencyKey) {
    k1 != k2 && k1 != k3 && k1 != k4 && k2 != k3 && k2 != k4 && k3 != k4
  }

  /** Requests that reach an account whose open hold cannot be refunded: it held all a balance can hold, and
      was then granted one unit more. */
  function Overfilled(reference: Reference, h: ReservationKey, k1: IdempotencyKey, k2: IdempotencyKey, k3: IdempotencyKey)
    : seq<Request>
  {
    [GrantRequest(InternalBudget, MAX_CREDITS, k1, reference),
     ReserveRequest(MAX_CREDITS, h, k2, reference, 0),
     GrantRequest(InternalBudget, 1, k3, reference)]
  }

  lemma RefundCanBeRefused(reference: Reference, h: ReservationKey,
                           k1: IdempotencyKey, k2: IdempotencyKey, k3: IdempotencyKey, k4: IdempotencyKey)
    requires Different(k1, k2, k3, k4)
    ensures var a := Run(Empty(InternalBudget), Overfilled(reference, h, k1, k2, k3));
            && h in a.reservations && a.reservations[h].status == Reserved
            && Perform(a, SettleRequest(h, k4, ToRefundHold)).result == Failure(OutOfRange)
  {
    var rs := Overfilled(reference, h, k1, k2, k3);
    var e1 := Entry(Grant, MAX_CREDITS, k1, reference, None, MAX_CREDITS, 0);
    var e2 := Entry(Reserve, MAX_CREDITS, k2, reference, Some(h), 0, MAX_CREDITS);
    var e3 := Entry(Grant, 1, k3, reference, None, 1, MAX_CREDITS);
    var holds := map[h := Reservation(MAX_CREDITS, Reserved, reference, 0)];
    FreshKeys(e1, e2, e3, k4);
    GrantApplied(Empty(InternalBudget), MAX_CREDITS, k1, reference);
    HoldApplied(Account(InternalBudget, MAX_CREDITS, 0, map[], [e1]), MAX_CREDITS, h, k2, reference);
    GrantApplied(Account(InternalBudget, 0, MAX_CREDITS, holds, [e1, e2]), 1, k3, reference);
    RunApart(Empty(InternalBudget), [], rs[0]);
    RunApart(Empty(InternalBudget), [rs[0]], rs[1]);
    RunApart(Empty(InternalBudget), [rs[0], rs[1]], rs[2]);
    assert [] + [rs[0]] == [rs[0]] && [rs[0]] + [rs[1]] == [rs[0], rs[1]] && [rs[0], rs[1]] + [rs[2]] == rs;
    assert Run(Empty(InternalBudget), rs) == Account(InternalBudget, 1, MAX_CREDITS, holds, [e1, e2, e3]);
  }

  lemma FreshKeys(e1: Entry, e2: Entry, e3: Entry, k: IdempotencyKey)
    requires Different(e1.key, e2.key, e3.key, k)
    ensures Lookup([e1], e2.key) == None && Lookup([e1, e2], e3.key) == None && Lookup([e1, e2, e3], k) == None
    ensures [] + [e1] == [e1] && [e1] + [e2] == [e1, e2] && [e1, e2] + [e3] == [e1, e2, e3]
  {
    LookupExtends([e1], [e2], e3.key);
    LookupExtends([e1], [e2], k);
    LookupExtends([e1, e2], [e3], k);
  }

  lemma {:induction false} CountCovers(entries: seq<Entry>, e: Entry, hold: ReservationKey)
    requires e in entries && e.reservation == Some(hold)
    ensures Count(entries, hold, e.operation) >= 1
  {
    var n := |entries| - 1;
    if entries[n] != e {
      assert entries == entries[..n] + [entries[n]];
      CountCovers(entries[..n], e, hold);
    }
  }

  /** A settlement that does not raise leaves the hold settled as decided when its key is fresh or already
      names this hold.  When the key names an entry of another hold with the same amount and reference, the
      call reports success and settles nothing, because the replay check does not compare reservations. */
  lemma SettledAsDecidedUnlessKeyIsForeign(a: Account, hold: ReservationKey, key: IdempotencyKey, d: Decision)
    requires Valid(a) && Perform(a, SettleRequest(hold, key, d)).result.Success?
    ensures var found, b := Lookup(a.entries, key), Perform(a, SettleRequest(hold, key, d)).account;
            if found.Some? && found.value.reservation != Some(hold)
            then b == a
            else hold in b.reservations && b.reservations[hold].status == StatusOf(d)
  {
    var found := Lookup(a.entries, key);
    if found.Some? && found.value.reservation == Some(hold) {
      LookupFinds(a.entries, key);
      CountCovers(a.entries, found.value, hold);
    }
  }

  /** Requests that commit one of two equal holds. */
  function HalfSettled(reference: Reference, h1: ReservationKey, h2: ReservationKey,
                       k1: IdempotencyKey, k2: IdempotencyKey, k3: IdempotencyKey, k4: IdempotencyKey): seq<Request>
  {
    [GrantRequest(InternalBudget, 2, k1, reference), ReserveRequest(1, h1, k2, reference, 0),
     ReserveRequest(1, h2, k3, reference, 0), SettleRequest(h1, k4, ToCommitHold)]
  }

  /** Settling the other one with the same key is reported as done, and leaves it open. */
  lemma ForeignKeySettlesNothing(reference: Reference, h1: ReservationKey, h2: ReservationKey,
                                 k1: IdempotencyKey, k2: IdempotencyKey, k3: IdempotencyKey, k4: IdempotencyKey)
    requires Different(k1, k2, k3, k4) && h1 != h2
    ensures var a := Run(Empty(InternalBudget), HalfSettled(reference, h1, h2, k1, k2, k3, k4));
            var t := Perform(a, SettleRequest(h2, k4, ToCommitHold));
            && t.result.Success? && t.account == a
            && h2 in a.reservations && a.reservations[h2].status == Reserved
  {
    var rs := HalfSettled(reference, h1, h2, k1, k2, k3, k4);
    var a3 := TwoHoldsOpen(reference, h1, h2, k1, k2, k3, k4);
    assert rs[..3] + [rs[3]] == rs;
    RunApart(Empty(InternalBudget), rs[..3], rs[3]);
    var b := Perform(a3, rs[3]).account;
    LookupExtends(a3.entries, [b.entries[3]], k4);
  }

  lemma TwoHoldsOpen(reference: Reference, h1: ReservationKey, h2: ReservationKey,
                     k1: IdempotencyKey, k2: IdempotencyKey, k3: IdempotencyKey, k4: IdempotencyKey) returns (a: Account)
    requires Different(k1, k2, k3, k4) && h1 != h2
    ensures a == Run(Empty(InternalBudget), HalfSettled(reference, h1, h2, k1, k2, k3, k4)[..3])
    ensures a.kind == InternalBudget && a.reserved == 2 && |a.entries| == 3 && Lookup(a.entries, k4) == None
    ensures a.reservations == map[h1 := Reservation(1, Reserved, reference, 0)][h2 := Reservation(1, Reserved, reference, 0)]
  {
    var rs := HalfSettled(reference, h1, h2, k1, k2, k3, k4);
    var e1 := Entry(Grant, 2, k1, reference, None, 2, 0);
    var e2 := Entry(Reserve, 1, k2, reference, Some(h1), 1, 1);
    var e3 := Entry(Reserve, 1, k3, reference, Some(h2), 0, 2);
    var holds := map[h1 := Reservation(1, Reserved, reference, 0)];
    a := Account(InternalBudget, 0, 2, holds[h2 := Reservation(1, Reserved, reference, 0)], [e1, e2, e3]);
    FreshKeys(e1, e2, e3, k4);
    GrantApplied(Empty(InternalBudget), 2, k1, reference);
    HoldApplied(Account(InternalBudget, 2, 0, map[], [e1]), 1, h1, k2, reference);
    HoldApplied(Account(InternalBudget, 1, 1, holds, [e1, e2]), 1, h2, k3, reference);
    RunApart(Empty(InternalBudget), [], rs[0]);
    RunApart(Empty(InternalBudget), [rs[0]], rs[1]);
    RunApart(Empty(InternalBudget), [rs[0], rs[1]], rs[2]);
    assert [] + [rs[0]] == [rs[0]] && [rs[0]] + [rs[1]] == [rs[0], rs[1]] && [rs[0], rs[1]] + [rs[2]] == rs[..3];
  }

  lemma PerformForIsLater(accounts: map<Owner, Account>, o: Owner, r: Request, owner: Owner)
    requires owner in accounts
    ensures var after := PerformFor(accounts, o, r).0;
            owner in after && Later(accounts[owner], after[owner])
  {
    RunIsLater(accounts[owner], [r]);
    assert Run(accounts[owner], [r]) == Run(Perform(accounts[owner], r).account, []);
    RunIsLater(accounts[owner], []);
  }

  lemma PerformForKeepsValid(accounts: map<Owner, Account>, o: Owner, r: Request)
    requires forall owner :: owner in accounts ==> Valid(accounts[owner])
    ensures var after := PerformFor(accounts, o, r).0;
            forall owner :: owner in after ==> Valid(after[owner])
  {
    var a := if o in accounts then accounts[o] else Empty(ExpectedKind(r));
    EmptyIsValid(ExpectedKind(r));
    PerformKeepsValid(a, r);
    var after := PerformFor(accounts, o, r).0;
    forall owner | owner in after ensures Valid(after[owner]) {
      assert after[owner] == Perform(a, r).account || after[owner] == accounts[owner];
    }
  }

  // ----- the service, updating rows in place

  class CreditAccount {
    const kind: Kind
    var available: int
    var reserved: int
    var reservations: map<ReservationKey, Reservation>
    var entries: seq<Entry>

    function View(): Account
      reads this
    {
      Account(kind, available, reserved, reservations, entries)
    }

    constructor (kind: Kind)
      ensures View() == Empty(kind)
    {
      this.kind := kind;
      available, reserved, reservations, entries := 0, 0, map[], [];
    }

    /** The object for a row of the table. */
    constructor Load(row: Account)
      ensures View() == row
    {
      kind := row.kind;
      available, reserved, reservations, entries := row.available, row.reserved, row.reservations, row.entries;
    }

    method Find(key: IdempotencyKey) returns (found: Option<Entry>)
      ensures found == Lookup(entries, key)
    {
      var i := 0;
      while i < |entries|
        invariant 0 <= i <= |entries|
        invariant Lookup(entries, key) == Lookup(entries[i..], key)
      {
        if entries[i].key == key {
          return Some(entries[i]);
        }
        i := i + 1;
      }
      return None;
    }

    method Record(operation: Operation, amount: int, key: IdempotencyKey, reference: Reference,
                  hold: Option<ReservationKey>) returns (receipt: Receipt)
      modifies this`entries
      ensures View() == Append(old(View()), operation, amount, key, reference, hold).account
      ensures Success(receipt) == Append(old(View()), operation, amount, key, reference, hold).result
    {
      var e := Entry(operation, amount, key, reference, hold, available, reserved);
      entries := entries + [e];
      receipt := Receipt(e, true);
    }

    method GrantCredits(expected: Kind, amount: int, key: IdempotencyKey, reference: Reference)
      returns (result: Result<Receipt, Error>)
      modifies this
      ensures Perform(old(View()), GrantRequest(expected, amount, key, reference)) == Transaction(View(), result)
    {
      if !ValidAmount(amount) {
        return Failure(InvalidAmount);
      }
      if kind != expected {
        return Failure(WrongKind);
      }
      var existing := Find(key);
      if existing.Some? {
        if !SameInput(existing.value, Grant, amount, reference) {
          return Failure(KeyReused);
        }
        return Success(Receipt(existing.value, false));
      }
      if available > MAX_CREDITS - amount {
        return Failure(OutOfRange);
      }
      available := available + amount;
      var receipt := Record(Grant, amount, key, reference, None);
      return Success(receipt);
    }

    method ReserveCredits(amount: int, hold: ReservationKey, key: IdempotencyKey, reference: Reference, now: int)
      returns (result: Result<Receipt, Error>)
      modifies this
      ensures Perform(old(View()), ReserveRequest(amount, hold, key, reference, now)) == Transaction(View(), result)
    {
      if !ValidAmount(amount) {
        return Failure(InvalidAmount);
      }
      if kind != InternalBudget {
        return Failure(WrongKind);
      }
      var existing := Find(key);
      if existing.Some? {
        if !SameInput(existing.value, Reserve, amount, reference) {
          return Failure(KeyReused);
        }
        return Success(Receipt(existing.value, false));
      }
      if hold in reservations {
        return Failure(ReservationExists);
      }
      if available < amount {
        return Failure(InsufficientCredits);
      }
      if !InRange(reserved + amount) {
        return Failure(OutOfRange);
      }
      available := available - amount;
      reserved := reserved + amount;
      reservations := reservations[hold := Reservation(amount, Reserved, reference, now)];
      var receipt := Record(Reserve, amount, key, reference, Some(hold));
      return Success(receipt);
    }

    method Settle(hold: ReservationKey, key: IdempotencyKey, decision: Decision)
      returns (result: Result<Receipt, Error>)
      modifies this
      ensures Perform(old(View()), SettleRequest(hold, key, decision)) == Transaction(View(), result)
    {
      if kind != InternalBudget {
        return Failure(WrongKind);
      }
      if hold !in reservations {
        return Failure(ReservationNotFound);
      }
      var row := reservations[hold];
      var existing := Find(key);
      if existing.Some? {
        if !SameInput(existing.value, OperationOf(decision), row.amount, row.reference) {
          return Failure(KeyReused);
        }
        return Success(Receipt(existing.value, false));
      }
      if row.status != Reserved {
        return Failure(AlreadySettled);
      }
      if reserved < row.amount {
        return Failure(InconsistentBalance);
      }
      if decision == ToRefundHold && !InRange(available + row.amount) {
        return Failure(OutOfRange);
      }
      reserved := reserved - row.amount;
      if decision == ToRefundHold {
        available := available + row.amount;
      }
      reservations := reservations[hold := row.(status := StatusOf(decision))];
      var receipt := Record(OperationOf(decision), row.amount, key, row.reference, Some(hold));
      return Success(receipt);
    }
  }

  /** Locks the owner's row, inserting an empty one of the expected kind when there is none, performs one
      request on it and writes it back.  A request that raises is rolled back with the insertion. */
  method Charge(accounts: map<Owner, Account>, owner: Owner, r: Request)
    returns (after: map<Owner, Account>, result: Result<Receipt, Error>)
    ensures (after, result) == PerformFor(accounts, owner, r)
  {
    after := accounts;
    if owner !in after {
      after := after[owner := Empty(ExpectedKind(r))];
    }
    var account := new CreditAccount.Load(after[owner]);
    match r {
      case GrantRequest(expected, amount, key, reference) =>
        result := account.GrantCredits(expected, amount, key, reference);
      case ReserveRequest(amount, hold, key, reference, now) =>
        result := account.ReserveCredits(amount, hold, key, reference, now);
      case SettleRequest(hold, key, decision) =>
        result := account.Settle(hold, key, decision);
    }
    assert after[owner := account.View()] == accounts[owner := account.View()];
    after := if result.Success? then after[owner := account.View()] else accounts;
  }
}
