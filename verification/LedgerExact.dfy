/** When a request on an account succeeds, in terms of the account's rows and numbers alone. */
module LedgerExact {
  import opened Wrappers
  import opened Keys
  import opened Ledger

  /** The account has an entry with this key. */
  predicate KeyTaken(a: Account, key: IdempotencyKey) {
    exists i :: 0 <= i < |a.entries| && a.entries[i].key == key
  }

  lemma FreshIsNotFound(a: Account, key: IdempotencyKey)
    ensures Lookup(a.entries, key) == None <==> !KeyTaken(a, key)
  {
    LookupFinds(a.entries, key);
  }

  // ----- requests with a fresh key

  /** A grant with a fresh key succeeds exactly on an account of the expected kind, for a positive 32-bit
      amount that the available balance has room for, and then adds it there. */
  lemma GrantSucceedsIff(a: Account, expected: Kind, amount: int, key: IdempotencyKey, reference: Reference)
    requires !KeyTaken(a, key)
    ensures var t := Perform(a, GrantRequest(expected, amount, key, reference));
            && (t.result.Success? <==>
                  a.kind == expected && 1 <= amount <= 2147483647 && a.available + amount <= 2147483647)
            && (t.result.Success? ==>
                  && t.account.available == a.available + amount && t.account.reserved == a.reserved
                  && t.account.reservations == a.reservations)
            && (t.result == Failure(InvalidAmount) <==> !(1 <= amount <= 2147483647))
            && (t.result == Failure(WrongKind) <==> 1 <= amount <= 2147483647 && a.kind != expected)
            && (t.result.Failure? ==> t.account == a)
  {
    FreshIsNotFound(a, key);
  }

  /** A reservation with a fresh key succeeds exactly on an internal budget, for a positive 32-bit amount that
      is available and fits the reserved balance, under a key without a hold; and then moves it. */
  lemma ReserveSucceedsIff(a: Account, amount: int, hold: ReservationKey, key: IdempotencyKey, reference: Reference, now: int)
    requires !KeyTaken(a, key) && 0 <= a.reserved
    ensures var t := Perform(a, ReserveRequest(amount, hold, key, reference, now));
            && (t.result.Success? <==>
                  && a.kind == InternalBudget && 1 <= amount <= 2147483647 && hold !in a.reservations
                  && amount <= a.available && a.reserved + amount <= 2147483647)
            && (t.result.Success? ==>
                  && t.account.available == a.available - amount && t.account.reserved == a.reserved + amount
                  && hold in t.account.reservations
                  && t.account.reservations[hold] == Reservation(amount, Reserved, reference, now)
                  && forall h :: h in a.reservations ==> h in t.account.reservations && t.account.reservations[h] == a.reservations[h])
            && (t.result == Failure(InsufficientCredits) <==>
                  a.kind == InternalBudget && 1 <= amount <= 2147483647 && hold !in a.reservations && a.available < amount)
            && (t.result == Failure(ReservationExists) <==>
                  a.kind == InternalBudget && 1 <= amount <= 2147483647 && hold in a.reservations)
            && (t.result.Failure? ==> t.account == a)
  {
    FreshIsNotFound(a, key);
  }

  /** A settlement with a fresh key succeeds exactly for an open hold of an internal budget, a refund only
      when the available balance has room; and then ends the hold and moves its units. */
  lemma SettleSucceedsIff(a: Account, hold: ReservationKey, key: IdempotencyKey, d: Decision)
    requires Valid(a) && !KeyTaken(a, key)
    ensures var t := Perform(a, SettleRequest(hold, key, d));
            && (t.result.Success? <==>
                  && a.kind == InternalBudget && hold in a.reservations && a.reservations[hold].status == Reserved
                  && (d == ToRefundHold ==> a.available + a.reservations[hold].amount <= 2147483647))
            && (t.result.Success? ==>
                  var units := a.reservations[hold].amount;
                  && t.account.available == a.available + (if d == ToRefundHold then units else 0)
                  && t.account.reserved == a.reserved - units
                  && t.account.reservations == a.reservations[hold := a.reservations[hold].(
                       status := if d == ToRefundHold then Refunded else Committed)])
            && (t.result == Failure(ReservationNotFound) <==> a.kind == InternalBudget && hold !in a.reservations)
            && (t.result == Failure(AlreadySettled) <==>
                  a.kind == InternalBudget && hold in a.reservations && a.reservations[hold].status != Reserved)
            && (t.result.Failure? ==> t.account == a)
  {
    FreshIsNotFound(a, key);
    if hold in a.reservations {
      OpenSumCovers(a.reservations, hold);
    }
  }

  // ----- requests with a key that was used

  /** What a request asks the ledger to record; a settlement asks for the amount and reference of its hold. */
  datatype Asked = Asked(operation: Operation, amount: int, reference: Reference)

  predicate CanAsk(a: Account, r: Request) {
    r.SettleRequest? ==> r.hold in a.reservations
  }

  function AskedBy(a: Account, r: Request): Asked
    requires CanAsk(a, r)
  {
    match r
    case GrantRequest(_, amount, _, reference) => Asked(Grant, amount, reference)
    case ReserveRequest(amount, _, _, reference, _) => Asked(Reserve, amount, reference)
    case SettleRequest(hold, _, d) =>
      Asked(if d == ToCommitHold then Commit else Refund, a.reservations[hold].amount, a.reservations[hold].reference)
  }

  /** The request passes the checks that come before its key is looked up. */
  predicate Admissible(a: Account, r: Request) {
    match r
    case GrantRequest(expected, amount, _, _) => 1 <= amount <= 2147483647 && a.kind == expected
    case ReserveRequest(amount, _, _, _, _) => 1 <= amount <= 2147483647 && a.kind == InternalBudget
    case SettleRequest(hold, _, _) => a.kind == InternalBudget && hold in a.reservations
  }

  lemma AdmissibleWhenSuccessful(a: Account, r: Request)
    requires Perform(a, r).result.Success?
    ensures Admissible(a, r) && CanAsk(a, r)
  {
  }

  /** The entry of a successful request records its key and what was asked. */
  lemma EntryRecordsRequest(a: Account, r: Request)
    requires Perform(a, r).result.Success?
    ensures Admissible(a, r) && CanAsk(a, r)
    ensures var e := Perform(a, r).result.value.entry;
            e.key == r.key && Asked(e.operation, e.amount, e.reference) == AskedBy(a, r)
  {
    AdmissibleWhenSuccessful(a, r);
    LookupFinds(a.entries, r.key);
  }

  /** A key is bound to what it was first used for: after a successful request, and whatever came in between,
      another admissible request with the same key succeeds exactly when it asks for the same operation,
      amount and reference, and is refused as a reuse otherwise; and in neither case does anything change. */
  lemma KeyIsBound(a: Account, r: Request, between: seq<Request>, again: Request)
    requires Perform(a, r).result.Success? && again.key == r.key
    requires Admissible(Run(Perform(a, r).account, between), again)
    ensures Admissible(a, r) && CanAsk(a, r)
    ensures var b := Run(Perform(a, r).account, between);
            var t := Perform(b, again);
            && t.account == b
            && (if AskedBy(b, again) == AskedBy(a, r)
                then t.result == Success(Receipt(Perform(a, r).result.value.entry, false))
                else t.result == Failure(KeyReused))
  {
    EntryRecordsRequest(a, r);
    EntryStays(a, r, between);
  }
}
