/** The credit fence around hosted extraction, as a transition system.

    Workers run persist_extraction concurrently; an operator may resolve holds and grant credits; inputs
    change at any time; workers crash at any time; the clock never goes back.  One action is one committed
    transaction, or a rollback.  A worker holds the row lock of its version from Relock (or, without a
    policy, from Attempt) until Finish, Crash or the end of Recheck, and an action that needs a lock held
    by somebody else does nothing. */
module Fence {
  import opened Wrappers
  import opened Keys
  import L = Ledger

  const GRACE := 120

  datatype Work = Work(version: nat, extraction: Extraction)

  datatype Policy = Policy(account: Owner, units: int)

  datatype Funding = Unfunded | Funded(account: Owner)

  /** Where a worker is between two transactions. */
  datatype Pc =
    | Idle
    | Ticketed(work: Work, account: Owner)     // hold committed, lock released
    | Relocked(work: Work, account: Owner)     // lock taken again, nothing rechecked yet
    | Calling(work: Work, account: Owner)      // provider call running under the lock
    | CallingUnfunded(work: Work)              // the same, without a credit policy

  datatype Call = Call(work: Work, funding: Funding, at: int)

  datatype State = State(
    clock: int,
    accounts: map<Owner, L.Account>,
    inputs: map<nat, nat>,                     // version -> current document bundle, if it has pages
    results: map<Work, Funding>,
    workers: seq<Pc>,
    calls: seq<Call>)                          // provider calls ever started, oldest first

  datatype Action =
    | Tick(seconds: nat)
    | ChangeInput(version: nat, document: Option<nat>)
    | OperatorGrant(owner: Owner, amount: int, key: IdempotencyKey, reference: Reference)
    | Attempt(worker: nat, version: nat, extractor: nat, expected: Option<Extraction>,
              policy: Option<Policy>, createdAt: int)
    | Relock(worker: nat)
    | Recheck(worker: nat, cached: bool)
    | Finish(worker: nat)
    | Crash(worker: nat)
    | Resolve(owner: Owner, work: Work, decision: L.Decision)

  datatype Outcome =
    | Blocked | Done | NoSuitablePages | Stale | Existing | InProgress | ReviewRequired
    | LedgerRefused(error: L.Error) | TicketIssued | CallStarted | Returned | Stored
    | NotFound | TooRecent | Settled

  function Init(clock: int, workers: nat): State {
    State(clock, map[], map[], map[], seq(workers, i => Idle), [])
  }

  // ----- locks and keys

  predicate HoldsLock(pc: Pc, version: nat) {
    (pc.Relocked? || pc.Calling? || pc.CallingUnfunded?) && pc.work.version == version
  }

  predicate LockFree(s: State, version: nat) {
    forall i :: 0 <= i < |s.workers| ==> !HoldsLock(s.workers[i], version)
  }

  function Hold(w: Work): ReservationKey {
    ExtractionReservation(w.version, w.extraction)
  }

  function Ticket(w: Work, p: Purpose): IdempotencyKey {
    TicketKey(w.version, w.extraction, p)
  }

  predicate HoldAt(s: State, owner: Owner, w: Work) {
    owner in s.accounts && Hold(w) in s.accounts[owner].reservations
  }

  function RowAt(s: State, owner: Owner, w: Work): L.Reservation
    requires HoldAt(s, owner, w)
  {
    s.accounts[owner].reservations[Hold(w)]
  }

  predicate Prior(s: State, owner: Owner, w: Work) {
    HoldAt(s, owner, w) && RowAt(s, owner, w).reference.HostedExtraction?
  }

  predicate Recent(s: State, row: L.Reservation) {
    row.createdAt > s.clock - GRACE
  }

  // ----- transactions of the worker

  function Move(s: State, worker: nat, pc: Pc): State
    requires worker < |s.workers|
  {
    s.(workers := s.workers[worker := pc])
  }

  function StartCall(s: State, worker: nat, pc: Pc, call: Call): State
    requires worker < |s.workers|
  {
    Move(s, worker, pc).(calls := s.calls + [call])
  }

  function DoAttempt(s: State, worker: nat, version: nat, extractor: nat, expected: Option<Extraction>,
                     policy: Option<Policy>, createdAt: int): (State, Outcome)
  {
    if worker >= |s.workers| || s.workers[worker] != Idle || !LockFree(s, version) || createdAt > s.clock
    then (s, Blocked)
    else if version !in s.inputs then (s, NoSuitablePages)
    else
      var w := Work(version, Extraction(s.inputs[version], extractor));
      if expected.Some? && expected.value != w.extraction then (s, Stale)
      else if w in s.results then (s, Existing)
      else if exists o :: o in s.accounts && Prior(s, o, w) && RowAt(s, o, w).status == L.Reserved && Recent(s, RowAt(s, o, w))
      then (s, InProgress)
      else if exists o :: o in s.accounts && Prior(s, o, w) then (s, ReviewRequired)
      else match policy {
        case None => (StartCall(s, worker, CallingUnfunded(w), Call(w, Unfunded, s.clock)), CallStarted)
        case Some(p) =>
          var (accounts, result) := L.PerformFor(s.accounts, p.account, ReserveFor(w, p, createdAt));
          if result.Failure? then (s, LedgerRefused(result.error))
          else (Move(s.(accounts := accounts), worker, Ticketed(w, p.account)), TicketIssued)
      }
  }

  function ReserveFor(w: Work, p: Policy, createdAt: int): L.Request {
    L.ReserveRequest(p.units, Hold(w), Ticket(w, ToReserve), HostedExtraction(w.version), createdAt)
  }

  function SettleFor(w: Work, p: Purpose, d: L.Decision): L.Request {
    L.SettleRequest(Hold(w), Ticket(w, p), d)
  }

  function DoRelock(s: State, worker: nat): (State, Outcome) {
    if worker >= |s.workers| || !s.workers[worker].Ticketed? || !LockFree(s, s.workers[worker].work.version)
    then (s, Blocked)
    else (Move(s, worker, Relocked(s.workers[worker].work, s.workers[worker].account)), Done)
  }

  /** The session keeps rows it has already loaded, so the status it compares may be the copy made when the
      hold was created (`cached`), which reads "reserved" whatever the table says now. */
  function DoRecheck(s: State, worker: nat, cached: bool): (State, Outcome) {
    if worker >= |s.workers| || !s.workers[worker].Relocked? then (s, Blocked)
    else
      var w, account := s.workers[worker].work, s.workers[worker].account;
      if !(Prior(s, account, w)
           && (cached || RowAt(s, account, w).status == L.Reserved)
           && Recent(s, RowAt(s, account, w)))
      then (Move(s, worker, Idle), ReviewRequired)
      else if InputChanged(s, w) || w in s.results then
        var (accounts, result) := L.PerformFor(s.accounts, account, SettleFor(w, ToRefund, L.ToRefundHold));
        if result.Failure? then (Move(s, worker, Idle), ReviewRequired)
        else (Move(s.(accounts := accounts), worker, Idle), Returned)
      else (StartCall(s, worker, Calling(w, account), Call(w, Funded(account), s.clock)), CallStarted)
  }

  predicate InputChanged(s: State, w: Work) {
    w.version !in s.inputs || Extraction(s.inputs[w.version], w.extraction.extractor) != w.extraction
  }

  /** The result row and the debit are stored by one commit; a duplicate row or a refused debit undoes both. */
  function DoFinish(s: State, worker: nat): (State, Outcome) {
    if worker >= |s.workers| || !(s.workers[worker].Calling? || s.workers[worker].CallingUnfunded?) then (s, Blocked)
    else
      var pc := s.workers[worker];
      if pc.work in s.results then (Move(s, worker, Idle), ReviewRequired)
      else if pc.CallingUnfunded? then
        (Move(s.(results := s.results[pc.work := Unfunded]), worker, Idle), Stored)
      else
        var (accounts, result) := L.PerformFor(s.accounts, pc.account, SettleFor(pc.work, ToCommit, L.ToCommitHold));
        if result.Failure? then (Move(s, worker, Idle), ReviewRequired)
        else (Move(s.(accounts := accounts, results := s.results[pc.work := Funded(pc.account)]), worker, Idle), Stored)
  }

  function DoCrash(s: State, worker: nat): (State, Outcome) {
    if worker >= |s.workers| then (s, Blocked) else (Move(s, worker, Idle), ReviewRequired)
  }

  // ----- transactions of the operator

  function OperatorPurpose(d: L.Decision): Purpose {
    if d == L.ToCommitHold then ToOperatorCommit else ToOperatorRefund
  }

  function DoResolve(s: State, owner: Owner, w: Work, d: L.Decision): (State, Outcome) {
    if !Prior(s, owner, w) then (s, NotFound)
    else if !LockFree(s, RowAt(s, owner, w).reference.version) then (s, Blocked)
    else if Recent(s, RowAt(s, owner, w)) then (s, TooRecent)
    else
      var (accounts, result) := L.PerformFor(s.accounts, owner, SettleFor(w, OperatorPurpose(d), d));
      if result.Failure? then (s, LedgerRefused(result.error))
      else (s.(accounts := accounts), Settled)
  }

  function DoGrant(s: State, owner: Owner, amount: int, key: IdempotencyKey, reference: Reference): (State, Outcome) {
    var (accounts, result) := L.PerformFor(s.accounts, owner, L.GrantRequest(L.InternalBudget, amount, key, reference));
    if result.Failure? then (s, LedgerRefused(result.error)) else (s.(accounts := accounts), Done)
  }

  // ----- runs

  function Act(s: State, a: Action): (State, Outcome) {
    match a
    case Tick(seconds) => (s.(clock := s.clock + seconds), Done)
    case ChangeInput(version, document) =>
      (s.(inputs := if document.Some? then s.inputs[version := document.value] else s.inputs - {version}), Done)
    case OperatorGrant(owner, amount, key, reference) => DoGrant(s, owner, amount, key, reference)
    case Attempt(worker, version, extractor, expected, policy, createdAt) =>
      DoAttempt(s, worker, version, extractor, expected, policy, createdAt)
    case Relock(worker) => DoRelock(s, worker)
    case Recheck(worker, cached) => DoRecheck(s, worker, cached)
    case Finish(worker) => DoFinish(s, worker)
    case Crash(worker) => DoCrash(s, worker)
    case Resolve(owner, work, decision) => DoResolve(s, owner, work, decision)
  }

  function Step(s: State, a: Action): State {
    Act(s, a).0
  }

  function Run(s: State, actions: seq<Action>): State
    decreases actions
  {
    if actions == [] then s else Run(Step(s, actions[0]), actions[1..])
  }

  lemma FourSteps(s: State, a: Action, b: Action, c: Action, d: Action)
    ensures Run(s, [a, b, c, d]) == Step(Step(Step(Step(s, a), b), c), d)
  {
    assert [a, b, c, d][1..] == [b, c, d] && [b, c, d][1..] == [c, d] && [c, d][1..] == [d] && [d][1..] == [];
    var t := Step(s, a);
    var u := Step(t, b);
    assert Run(u, [c, d]) == Run(Step(u, c), [d]);
    assert Run(t, [b, c, d]) == Run(u, [c, d]);
  }

  /** The calls ever started for one piece of work. */
  function CallsFor(calls: seq<Call>, w: Work): seq<Call> {
    if calls == [] then []
    else
      var last := calls[|calls| - 1];
      CallsFor(calls[..|calls| - 1], w) + if last.work == w then [last] else []
  }

  function FundedCalls(calls: seq<Call>, w: Work): nat {
    if calls == [] then 0
    else
      var last := calls[|calls| - 1];
      FundedCalls(calls[..|calls| - 1], w) + if last.work == w && last.funding.Funded? then 1 else 0
  }
}
