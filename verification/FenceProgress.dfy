/** What an attempt achieves that others leave alone: the fence is not safe merely by doing nothing. */
module FenceProgress {
  import opened Wrappers
  import opened Keys
  import L = Ledger
  import X = LedgerExact
  import opened Fence
  import opened FenceSafety

  function CurrentWork(s: State, version: nat, extractor: nat): Work
    requires version in s.inputs
  {
    Work(version, Extraction(s.inputs[version], extractor))
  }

  /** The policy's account can pay for this work and nothing stands in its way. */
  predicate CanStart(s: State, worker: nat, version: nat, extractor: nat, p: Policy) {
    && worker < |s.workers| && s.workers[worker] == Idle && LockFree(s, version)
    && version in s.inputs
    && var w := CurrentWork(s, version, extractor);
    && w !in s.results
    && (forall o :: o in s.accounts ==> Hold(w) !in s.accounts[o].reservations)
    && p.account in s.accounts
    && CanPay(s.accounts[p.account], w, p.units)
  }

  predicate CanPay(a: L.Account, w: Work, units: int) {
    && a.kind == L.InternalBudget && L.ValidAmount(units)
    && units <= a.available && 0 <= a.reserved && a.reserved + units <= L.MAX_CREDITS
    && L.Lookup(a.entries, Ticket(w, ToReserve)) == None
    && KeysFree(a, w)
  }

  /** Nobody has used the keys by which the worker will settle. */
  predicate KeysFree(a: L.Account, w: Work) {
    L.Lookup(a.entries, Ticket(w, ToCommit)) == None && L.Lookup(a.entries, Ticket(w, ToRefund)) == None
  }

  // ----- an attempt under way

  /** A worker has a ticket for `w` whose hold is open and can still be settled by it. */
  predicate UnderWay(s: State, worker: nat, w: Work, p: Policy, createdAt: int) {
    && worker < |s.workers| && HasTicket(s.workers[worker])
    && s.workers[worker].work == w && s.workers[worker].account == p.account
    && w !in s.results
    && HoldAt(s, p.account, w)
    && RowAt(s, p.account, w) == L.Reservation(p.units, L.Reserved, HostedExtraction(w.version), createdAt)
    && KeysFree(s.accounts[p.account], w)
  }

  ghost predicate Pending(s: State, worker: nat, w: Work, p: Policy, createdAt: int) {
    Inv(s) && Sound(s) && UnderWay(s, worker, w, p, createdAt)
  }

  /** The action is not this worker's, and no operator grant takes one of its keys. */
  predicate NotMine(a: Action, worker: nat, w: Work) {
    match a
    case Attempt(k, _, _, _, _, _) => k != worker
    case Relock(k) => k != worker
    case Recheck(k, _) => k != worker
    case Finish(k) => k != worker
    case Crash(k) => k != worker
    case OperatorGrant(_, _, key, _) => key != Ticket(w, ToCommit) && key != Ticket(w, ToRefund)
    case _ => true
  }

  predicate AllNotMine(actions: seq<Action>, worker: nat, w: Work) {
    forall i :: 0 <= i < |actions| ==> NotMine(actions[i], worker, w)
  }

  predicate LeavesInput(actions: seq<Action>, w: Work) {
    forall i :: 0 <= i < |actions| && actions[i].ChangeInput? ==> actions[i].version != w.version
  }

  /** No operator can settle the hold: it is too young, or the worker has the lock. */
  predicate Shielded(s: State, worker: nat, w: Work, createdAt: int)
    requires worker < |s.workers|
  {
    s.clock < createdAt + GRACE || HoldsLock(s.workers[worker], w.version)
  }

  lemma RequestSparesHold(a: L.Account, r: L.Request, w: Work)
    requires Hold(w) in a.reservations && KeysFree(a, w)
    requires r.key != Ticket(w, ToCommit) && r.key != Ticket(w, ToRefund)
    requires r.SettleRequest? ==> r.hold != Hold(w)
    ensures var b := L.Perform(a, r).account;
            Hold(w) in b.reservations && b.reservations[Hold(w)] == a.reservations[Hold(w)] && KeysFree(b, w)
  {
    var t := L.Perform(a, r);
    if Applied(t) {
      var e := L.AppliedShape(a, r);
      assert e.key == r.key;
      L.LookupExtends(a.entries, [e], Ticket(w, ToCommit));
      L.LookupExtends(a.entries, [e], Ticket(w, ToRefund));
    }
  }

  /** The hold and the keys survive a request of somebody else. */
  predicate HoldSpared(s: State, t: State, owner: Owner, w: Work)
    requires HoldAt(s, owner, w)
  {
    HoldAt(t, owner, w) && RowAt(t, owner, w) == RowAt(s, owner, w) && KeysFree(t.accounts[owner], w)
  }

  lemma RequestSpares(s: State, t: State, owner: Owner, w: Work, o: Owner, r: L.Request)
    requires HoldAt(s, owner, w) && KeysFree(s.accounts[owner], w)
    requires t.accounts == s.accounts || t.accounts == L.PerformFor(s.accounts, o, r).0
    requires r.key != Ticket(w, ToCommit) && r.key != Ticket(w, ToRefund)
    requires r.SettleRequest? ==> r.hold != Hold(w)
    ensures HoldSpared(s, t, owner, w)
  {
    RequestSparesHold(s.accounts[owner], r, w);
  }

  lemma ResolveSpares(s: State, owner: Owner, w: Work, o: Owner, v: Work, d: L.Decision)
    requires HoldAt(s, owner, w) && KeysFree(s.accounts[owner], w)
    requires RowAt(s, owner, w).reference == HostedExtraction(w.version)
    requires Recent(s, RowAt(s, owner, w)) || !LockFree(s, w.version)
    ensures HoldSpared(s, DoResolve(s, o, v, d).0, owner, w)
  {
    var t := DoResolve(s, o, v, d).0;
    if (o, v) == (owner, w) {
      assert t == s;
    } else if o != owner {
      assert t.accounts == s.accounts || t.accounts == L.PerformFor(s.accounts, o, SettleFor(v, OperatorPurpose(d), d)).0;
    } else {
      RequestSpares(s, t, owner, w, o, SettleFor(v, OperatorPurpose(d), d));
    }
  }

  lemma GrantSpares(s: State, a: Action, owner: Owner, w: Work)
    requires a.OperatorGrant? && NotMine(a, 0, w) && HoldAt(s, owner, w) && KeysFree(s.accounts[owner], w)
    ensures HoldSpared(s, Step(s, a), owner, w)
  {
    RequestSpares(s, Step(s, a), owner, w, a.owner, L.GrantRequest(L.InternalBudget, a.amount, a.key, a.reference));
  }

  lemma AttemptSpares(s: State, a: Action, owner: Owner, w: Work)
    requires a.Attempt? && HoldAt(s, owner, w) && KeysFree(s.accounts[owner], w)
    ensures HoldSpared(s, Step(s, a), owner, w)
  {
    var t := DoAttempt(s, a.worker, a.version, a.extractor, a.expected, a.policy, a.createdAt).0;
    AttemptSpends(s, a.worker, a.version, a.extractor, a.expected, a.policy, a.createdAt);
    if t.accounts != s.accounts {
      RequestSpares(s, t, owner, w, a.policy.value.account,
                    ReserveFor(Work(a.version, Extraction(s.inputs[a.version], a.extractor)), a.policy.value, a.createdAt));
    }
  }

  lemma RecheckSpares(s: State, k: nat, cached: bool, owner: Owner, w: Work)
    requires HoldAt(s, owner, w) && KeysFree(s.accounts[owner], w)
    requires k < |s.workers| && HasTicket(s.workers[k]) ==> s.workers[k].work != w
    ensures HoldSpared(s, DoRecheck(s, k, cached).0, owner, w)
  {
    var t := DoRecheck(s, k, cached).0;
    RecheckSpends(s, k, cached);
    if t.accounts != s.accounts {
      RequestSpares(s, t, owner, w, s.workers[k].account, SettleFor(s.workers[k].work, ToRefund, L.ToRefundHold));
    }
  }

  lemma FinishSpares(s: State, k: nat, owner: Owner, w: Work)
    requires HoldAt(s, owner, w) && KeysFree(s.accounts[owner], w)
    requires k < |s.workers| && HasTicket(s.workers[k]) ==> s.workers[k].work != w
    ensures HoldSpared(s, DoFinish(s, k).0, owner, w)
  {
    var t := DoFinish(s, k).0;
    FinishSpends(s, k);
    if t.accounts != s.accounts {
      RequestSpares(s, t, owner, w, s.workers[k].account, SettleFor(s.workers[k].work, ToCommit, L.ToCommitHold));
    }
  }

  /** No other worker has a ticket for the same work. */
  predicate OnlyTicket(s: State, worker: nat, w: Work) {
    forall k :: 0 <= k < |s.workers| && k != worker && HasTicket(s.workers[k]) ==> s.workers[k].work != w
  }

  lemma TicketIsOnly(s: State, worker: nat, w: Work)
    requires WorkersApart(s) && worker < |s.workers| && HasTicket(s.workers[worker]) && s.workers[worker].work == w
    ensures OnlyTicket(s, worker, w)
  {
    forall k | 0 <= k < |s.workers| && k != worker && HasTicket(s.workers[k]) ensures s.workers[k].work != w {
      assert Apart(s.workers[k], s.workers[worker]);
    }
  }

  lemma ShieldHolds(s: State, worker: nat, w: Work, p: Policy, createdAt: int)
    requires UnderWay(s, worker, w, p, createdAt) && Shielded(s, worker, w, createdAt)
    ensures Recent(s, RowAt(s, p.account, w)) || !LockFree(s, w.version)
  {
  }

  lemma OtherStepSpares(s: State, a: Action, worker: nat, w: Work, p: Policy, createdAt: int)
    requires UnderWay(s, worker, w, p, createdAt) && OnlyTicket(s, worker, w)
    requires NotMine(a, worker, w) && Shielded(s, worker, w, createdAt)
    ensures HoldSpared(s, Step(s, a), p.account, w)
  {
    match a
    case OperatorGrant(_, _, _, _) => GrantSpares(s, a, p.account, w);
    case Attempt(_, _, _, _, _, _) => AttemptSpares(s, a, p.account, w);
    case Recheck(k, cached) => RecheckSpares(s, k, cached, p.account, w);
    case Finish(k) => FinishSpares(s, k, p.account, w);
    case Resolve(o, v, d) =>
      ShieldHolds(s, worker, w, p, createdAt);
      ResolveSpares(s, p.account, w, o, v, d);
    case _ =>
  }

  /** What an action of somebody else leaves to this worker. */
  predicate WorkerKept(s: State, t: State, worker: nat)
    requires worker < |s.workers|
  {
    worker < |t.workers| && t.workers[worker] == s.workers[worker] && s.clock <= t.clock
  }

  lemma OtherStepKeepsWorker(s: State, a: Action, worker: nat, w: Work)
    requires worker < |s.workers| && NotMine(a, worker, w)
    ensures WorkerKept(s, Step(s, a), worker)
  {
  }

  lemma StepKeepsInput(s: State, a: Action, w: Work)
    requires a.ChangeInput? ==> a.version != w.version
    ensures InputChanged(Step(s, a), w) == InputChanged(s, w)
  {
  }

  lemma OtherStepKeepsPending(s: State, a: Action, worker: nat, w: Work, p: Policy, createdAt: int)
    requires Pending(s, worker, w, p, createdAt) && NotMine(a, worker, w) && Shielded(s, worker, w, createdAt)
    ensures Pending(Step(s, a), worker, w, p, createdAt)
  {
    StepKeepsInv(s, a);
    StepKeepsSound(s, a);
    TicketIsOnly(s, worker, w);
    OtherStepSpares(s, a, worker, w, p, createdAt);
    OtherStepKeepsWorker(s, a, worker, w);
    StillUnderWay(s, Step(s, a), worker, w, p, createdAt);
  }

  lemma StillUnderWay(s: State, t: State, worker: nat, w: Work, p: Policy, createdAt: int)
    requires UnderWay(s, worker, w, p, createdAt) && HoldSpared(s, t, p.account, w) && WorkerKept(s, t, worker)
    requires WorkersOk(t)
    ensures UnderWay(t, worker, w, p, createdAt)
  {
    assert WorkerOk(t, t.workers[worker]);
  }

  lemma {:induction false} OthersKeepWorker(s: State, actions: seq<Action>, worker: nat, w: Work)
    requires worker < |s.workers| && AllNotMine(actions, worker, w)
    ensures WorkerKept(s, Run(s, actions), worker)
    decreases actions
  {
    if actions != [] {
      assert forall i :: 0 <= i < |actions[1..]| ==> actions[1..][i] == actions[i + 1];
      OtherStepKeepsWorker(s, actions[0], worker, w);
      OthersKeepWorker(Step(s, actions[0]), actions[1..], worker, w);
    }
  }

  lemma {:induction false} RunKeepsInput(s: State, actions: seq<Action>, w: Work)
    requires LeavesInput(actions, w)
    ensures InputChanged(Run(s, actions), w) == InputChanged(s, w)
    decreases actions
  {
    if actions != [] {
      assert forall i :: 0 <= i < |actions[1..]| ==> actions[1..][i] == actions[i + 1];
      StepKeepsInput(s, actions[0], w);
      RunKeepsInput(Step(s, actions[0]), actions[1..], w);
    }
  }

  /** A shield that lasts to the end of a run covers its first step and the rest. */
  lemma ShieldLasts(s: State, actions: seq<Action>, worker: nat, w: Work, createdAt: int)
    requires actions != [] && worker < |s.workers| && AllNotMine(actions, worker, w)
    requires Run(s, actions).clock < createdAt + GRACE || HoldsLock(s.workers[worker], w.version)
    ensures var t := Step(s, actions[0]);
            && Shielded(s, worker, w, createdAt) && NotMine(actions[0], worker, w)
            && AllNotMine(actions[1..], worker, w)
            && WorkerKept(s, t, worker)
            && Run(s, actions) == Run(t, actions[1..])
            && (Run(t, actions[1..]).clock < createdAt + GRACE || HoldsLock(t.workers[worker], w.version))
  {
    assert forall i :: 0 <= i < |actions[1..]| ==> actions[1..][i] == actions[i + 1];
    OthersKeepWorker(s, actions, worker, w);
    OtherStepKeepsWorker(s, actions[0], worker, w);
  }

  /** Whatever the others do, the attempt stays under way while it is shielded. */
  lemma {:induction false} OthersKeepPending(s: State, actions: seq<Action>, worker: nat, w: Work, p: Policy, createdAt: int)
    requires Pending(s, worker, w, p, createdAt) && AllNotMine(actions, worker, w)
    requires Run(s, actions).clock < createdAt + GRACE || HoldsLock(s.workers[worker], w.version)
    ensures Pending(Run(s, actions), worker, w, p, createdAt)
    decreases actions
  {
    if actions != [] {
      ShieldLasts(s, actions, worker, w, createdAt);
      OtherStepKeepsPending(s, actions[0], worker, w, p, createdAt);
      OthersKeepPending(Step(s, actions[0]), actions[1..], worker, w, p, createdAt);
    }
  }

  // ----- the worker's own steps

  /** The account with the hold of `w` on it. */
  function Held(a: L.Account, w: Work, units: int, now: int): L.Account {
    var available, reserved := a.available - units, a.reserved + units;
    a.(available := available, reserved := reserved,
       reservations := a.reservations[Hold(w) := L.Reservation(units, L.Reserved, HostedExtraction(w.version), now)],
       entries := a.entries + [L.Entry(L.Reserve, units, Ticket(w, ToReserve), HostedExtraction(w.version), Some(Hold(w)),
                                       available, reserved)])
  }

  lemma HoldIsTaken(a: L.Account, w: Work, units: int, now: int, owner: Owner)
    requires CanPay(a, w, units) && Hold(w) !in a.reservations
    ensures var t := L.Perform(a, ReserveFor(w, Policy(owner, units), now));
            t.account == Held(a, w, units, now) && t.result.Success?
  {
  }

  lemma HeldKeysFree(a: L.Account, w: Work, units: int, now: int)
    requires CanPay(a, w, units)
    ensures KeysFree(Held(a, w, units, now), w)
  {
    var e := Held(a, w, units, now).entries[|a.entries|];
    L.LookupExtends(a.entries, [e], Ticket(w, ToCommit));
    L.LookupExtends(a.entries, [e], Ticket(w, ToRefund));
  }

  /** The job expects nothing, or the very extraction that the current input would give. */
  predicate NotStale(s: State, version: nat, extractor: nat, expected: Option<Extraction>)
    requires version in s.inputs
  {
    expected == None || expected == Some(Extraction(s.inputs[version], extractor))
  }

  /** The first transaction takes the hold: the units move from available to reserved. */
  lemma AttemptStep(s: State, worker: nat, version: nat, extractor: nat, expected: Option<Extraction>, p: Policy)
    requires CanStart(s, worker, version, extractor, p) && NotStale(s, version, extractor, expected)
    ensures var w := CurrentWork(s, version, extractor);
            Step(s, Attempt(worker, version, extractor, expected, Some(p), s.clock))
            == s.(accounts := s.accounts[p.account := Held(s.accounts[p.account], w, p.units, s.clock)],
                  workers := s.workers[worker := Ticketed(w, p.account)])
  {
    var w := CurrentWork(s, version, extractor);
    HoldIsTaken(s.accounts[p.account], w, p.units, s.clock, p.account);
    assert forall o :: o in s.accounts ==> !Prior(s, o, w);
  }

  lemma HeldIsUnderWay(s: State, t: State, worker: nat, w: Work, p: Policy)
    requires worker < |s.workers| && w !in s.results && p.account in s.accounts && CanPay(s.accounts[p.account], w, p.units)
    requires t == s.(accounts := s.accounts[p.account := Held(s.accounts[p.account], w, p.units, s.clock)],
                     workers := s.workers[worker := Ticketed(w, p.account)])
    ensures UnderWay(t, worker, w, p, s.clock)
  {
    HeldKeysFree(s.accounts[p.account], w, p.units, s.clock);
  }

  lemma AttemptTakesHold(s: State, worker: nat, version: nat, extractor: nat, expected: Option<Extraction>, p: Policy)
    requires Inv(s) && Sound(s) && CanStart(s, worker, version, extractor, p) && NotStale(s, version, extractor, expected)
    ensures var w := CurrentWork(s, version, extractor);
            var t := Step(s, Attempt(worker, version, extractor, expected, Some(p), s.clock));
            && t.accounts == s.accounts[p.account := Held(s.accounts[p.account], w, p.units, s.clock)]
            && worker < |t.workers| && t.workers[worker] == Ticketed(w, p.account)
            && Pending(t, worker, w, p, s.clock) && !InputChanged(t, w)
  {
    var w := CurrentWork(s, version, extractor);
    var a := Attempt(worker, version, extractor, expected, Some(p), s.clock);
    AttemptStep(s, worker, version, extractor, expected, p);
    HeldIsUnderWay(s, Step(s, a), worker, w, p);
    StepKeepsInv(s, a);
    StepKeepsSound(s, a);
  }

  lemma RelockStep(s: State, worker: nat, w: Work, p: Policy, createdAt: int)
    requires UnderWay(s, worker, w, p, createdAt) && s.workers[worker].Ticketed? && LockFree(s, w.version)
    ensures var t := Step(s, Relock(worker));
            t == s.(workers := s.workers[worker := Relocked(w, p.account)]) && UnderWay(t, worker, w, p, createdAt)
  {
  }

  lemma RelockTakesLock(s: State, worker: nat, w: Work, p: Policy, createdAt: int)
    requires Pending(s, worker, w, p, createdAt) && s.workers[worker].Ticketed? && LockFree(s, w.version)
    ensures var t := Step(s, Relock(worker));
            && t.workers == s.workers[worker := Relocked(w, p.account)] && t.inputs == s.inputs
            && Pending(t, worker, w, p, createdAt)
  {
    RelockStep(s, worker, w, p, createdAt);
    StepKeepsInv(s, Relock(worker));
    StepKeepsSound(s, Relock(worker));
  }

  lemma RecheckStep(s: State, worker: nat, w: Work, p: Policy, createdAt: int, cached: bool)
    requires UnderWay(s, worker, w, p, createdAt) && s.workers[worker].Relocked?
    requires s.clock < createdAt + GRACE && !InputChanged(s, w)
    ensures var t := Step(s, Recheck(worker, cached));
            && t == StartCall(s, worker, Calling(w, p.account), Call(w, Funded(p.account), s.clock))
            && UnderWay(t, worker, w, p, createdAt)
  {
    assert Prior(s, p.account, w) && Recent(s, RowAt(s, p.account, w));
  }

  lemma FirstCallCounts(s: State, w: Work, account: Owner)
    requires WorkersOk(s) && CallsOk(s)
    requires exists i :: 0 <= i < |s.workers| && s.workers[i] == Relocked(w, account)
    ensures FundedCalls(s.calls + [Call(w, Funded(account), s.clock)], w) == 1
  {
    var i :| 0 <= i < |s.workers| && s.workers[i] == Relocked(w, account);
    assert WorkerOk(s, s.workers[i]);
    CountFunded(s.calls, w);
    assert (s.calls + [Call(w, Funded(account), s.clock)])[..|s.calls|] == s.calls;
  }

  /** Rechecked within the grace period on unchanged input, the attempt starts its call. */
  lemma RecheckStartsCall(s: State, worker: nat, w: Work, p: Policy, createdAt: int, cached: bool)
    requires Pending(s, worker, w, p, createdAt) && s.workers[worker].Relocked?
    requires s.clock < createdAt + GRACE && !InputChanged(s, w)
    ensures var t := Step(s, Recheck(worker, cached));
            && t.calls == s.calls + [Call(w, Funded(p.account), s.clock)]
            && worker < |t.workers| && t.workers[worker] == Calling(w, p.account)
            && Pending(t, worker, w, p, createdAt)
            && FundedCalls(t.calls, w) == 1
  {
    RecheckStep(s, worker, w, p, createdAt, cached);
    assert s.workers[worker] == Relocked(w, p.account);
    FirstCallCounts(s, w, p.account);
    StepKeepsInv(s, Recheck(worker, cached));
    StepKeepsSound(s, Recheck(worker, cached));
  }

  lemma HoldIsCovered(a: L.Account, w: Work)
    requires L.Valid(a) && Hold(w) in a.reservations && a.reservations[Hold(w)].status == L.Reserved
    ensures a.reserved >= a.reservations[Hold(w)].amount
  {
    L.OpenSumCovers(a.reservations, Hold(w));
  }

  /** What the settlement of an open hold with a fresh key does to the account. */
  lemma SettlementEffect(a: L.Account, w: Work, p: Purpose, d: L.Decision)
    requires L.Valid(a) && a.kind == L.InternalBudget
    requires Hold(w) in a.reservations && a.reservations[Hold(w)].status == L.Reserved
    requires L.Lookup(a.entries, Ticket(w, p)) == None
    ensures var t := L.Perform(a, SettleFor(w, p, d));
            var units := a.reservations[Hold(w)].amount;
            var back := if d == L.ToRefundHold then units else 0;
            if d == L.ToRefundHold && a.available + units > L.MAX_CREDITS
            then t.result == Failure(L.OutOfRange)
            else
              && t.result.Success? && t.account.available == a.available + back && t.account.reserved == a.reserved - units
              && Hold(w) in t.account.reservations && t.account.reservations[Hold(w)].status == L.StatusOf(d)
  {
    HoldIsCovered(a, w);
  }

  lemma FinishCharges(s: State, worker: nat, w: Work, p: Policy, createdAt: int)
    requires UnderWay(s, worker, w, p, createdAt) && s.workers[worker].Calling?
    requires L.Valid(s.accounts[p.account]) && s.accounts[p.account].kind == L.InternalBudget
    ensures Charges(s, Step(s, Finish(worker)), worker, w, p)
  {
    SettlementEffect(s.accounts[p.account], w, ToCommit, L.ToCommitHold);
  }

  /** The result is stored and exactly the policy's units leave the reserved balance. */
  predicate Charges(s: State, t: State, worker: nat, w: Work, p: Policy)
    requires p.account in s.accounts && worker < |s.workers|
  {
    && t.results == s.results[w := Funded(p.account)]
    && t.calls == s.calls && t.workers == s.workers[worker := Idle]
    && p.account in t.accounts
    && t.accounts == s.accounts[p.account := t.accounts[p.account]]
    && t.accounts[p.account].available == s.accounts[p.account].available
    && t.accounts[p.account].reserved == s.accounts[p.account].reserved - p.units
    && HoldAt(t, p.account, w) && RowAt(t, p.account, w).status == L.Committed
  }

  // ----- main results

  /** States of an attempt whose steps are separated by anything the others do. */
  function AfterAttempt(s: State, worker: nat, version: nat, extractor: nat, expected: Option<Extraction>, p: Policy,
                        xs: seq<Action>): State {
    Run(Step(s, Attempt(worker, version, extractor, expected, Some(p), s.clock)), xs)
  }

  /** An attempt is charged whatever other workers and operators do in between, provided they leave its input
      and its keys alone, the version's lock is free when the worker returns for it, and it gets to its
      recheck within the grace period: one call, one stored result, and exactly the policy's units. */
  lemma AttemptIsCharged(s: State, worker: nat, version: nat, extractor: nat, expected: Option<Extraction>, p: Policy,
                         cached: bool, xs: seq<Action>, ys: seq<Action>, zs: seq<Action>)
    requires Inv(s) && Sound(s) && CanStart(s, worker, version, extractor, p) && NotStale(s, version, extractor, expected)
    requires var w := CurrentWork(s, version, extractor);
             && AllNotMine(xs, worker, w) && AllNotMine(ys, worker, w) && AllNotMine(zs, worker, w)
             && LeavesInput(xs, w) && LeavesInput(ys, w)
    requires LockFree(AfterAttempt(s, worker, version, extractor, expected, p, xs), version)
    requires Run(Step(AfterAttempt(s, worker, version, extractor, expected, p, xs), Relock(worker)), ys).clock < s.clock + GRACE
    ensures var w := CurrentWork(s, version, extractor);
            var t1 := Step(s, Attempt(worker, version, extractor, expected, Some(p), s.clock));
            var t2 := Run(Step(Run(t1, xs), Relock(worker)), ys);
            var t3 := Step(t2, Recheck(worker, cached));
            var t4 := Run(t3, zs);
            var t5 := Step(t4, Finish(worker));
            && t1.accounts == s.accounts[p.account := Held(s.accounts[p.account], w, p.units, s.clock)]
            && t3.calls == t2.calls + [Call(w, Funded(p.account), t2.clock)]
            && p.account in t4.accounts && worker < |t4.workers| && Charges(t4, t5, worker, w, p)
            && FundedCalls(t5.calls, w) == 1
  {
    var w := CurrentWork(s, version, extractor);
    AttemptTakesHold(s, worker, version, extractor, expected, p);
    var t1 := Step(s, Attempt(worker, version, extractor, expected, Some(p), s.clock));
    var u1 := Run(t1, xs);
    OthersKeepWorker(t1, xs, worker, w);
    ClockAfterRelock(u1, worker, ys, w);
    OthersKeepPending(t1, xs, worker, w, p, s.clock);
    RunKeepsInput(t1, xs, w);
    RelockTakesLock(u1, worker, w, p, s.clock);
    AttemptGoesOn(Step(u1, Relock(worker)), worker, w, p, s.clock, cached, ys, zs);
  }

  lemma ClockAfterRelock(s: State, worker: nat, ys: seq<Action>, w: Work)
    requires worker < |s.workers| && AllNotMine(ys, worker, w)
    ensures s.clock <= Run(Step(s, Relock(worker)), ys).clock
  {
    OthersKeepWorker(Step(s, Relock(worker)), ys, worker, w);
  }

  lemma AttemptGoesOn(s: State, worker: nat, w: Work, p: Policy, createdAt: int, cached: bool, ys: seq<Action>, zs: seq<Action>)
    requires Pending(s, worker, w, p, createdAt) && s.workers[worker].Relocked? && !InputChanged(s, w)
    requires AllNotMine(ys, worker, w) && AllNotMine(zs, worker, w) && LeavesInput(ys, w)
    requires Run(s, ys).clock < createdAt + GRACE
    ensures var t2 := Run(s, ys);
            var t3 := Step(t2, Recheck(worker, cached));
            var t4 := Run(t3, zs);
            var t5 := Step(t4, Finish(worker));
            && t3.calls == t2.calls + [Call(w, Funded(p.account), t2.clock)]
            && p.account in t4.accounts && worker < |t4.workers| && Charges(t4, t5, worker, w, p)
            && FundedCalls(t5.calls, w) == 1
  {
    var t2 := Run(s, ys);
    OthersKeepPending(s, ys, worker, w, p, createdAt);
    OthersKeepWorker(s, ys, worker, w);
    RunKeepsInput(s, ys, w);
    RecheckStartsCall(t2, worker, w, p, createdAt, cached);
    var t3 := Step(t2, Recheck(worker, cached));
    OthersKeepPending(t3, zs, worker, w, p, createdAt);
    OthersKeepWorker(t3, zs, worker, w);
    FinishCharges(Run(t3, zs), worker, w, p, createdAt);
    CallStands(t3, zs, worker, w, p);
  }

  /** Calls are never forgotten, so the one call stays the only one. */
  lemma CallStands(s: State, zs: seq<Action>, worker: nat, w: Work, p: Policy)
    requires Inv(s) && FundedCalls(s.calls, w) == 1
    ensures FundedCalls(Run(s, zs).calls, w) == 1
  {
    RunKeepsInv(s, zs);
    CountFunded(Run(s, zs).calls, w);
    FundedGrows(s, zs, w);
  }

  lemma {:induction false} FundedGrows(s: State, zs: seq<Action>, w: Work)
    requires Inv(s)
    ensures FundedCalls(Run(s, zs).calls, w) >= FundedCalls(s.calls, w)
    decreases zs
  {
    if zs != [] {
      CallStart(s, zs[0]);
      var t := Step(s, zs[0]);
      if t.calls != s.calls {
        assert t.calls[..|t.calls| - 1] == s.calls;
      }
      StepKeepsInv(s, zs[0]);
      FundedGrows(t, zs[1..], w);
    }
  }

  /** When the input changed before the recheck, the worker starts no call and gives the units back, and only
      the integer range can keep it from doing so; then the hold stays open for review. */
  lemma ChangedInputIsRefunded(s: State, worker: nat, w: Work, p: Policy, createdAt: int, cached: bool)
    requires UnderWay(s, worker, w, p, createdAt) && s.workers[worker].Relocked?
    requires L.Valid(s.accounts[p.account]) && s.accounts[p.account].kind == L.InternalBudget
    requires s.clock < createdAt + GRACE && InputChanged(s, w)
    ensures var (t, outcome) := DoRecheck(s, worker, cached);
            && t.calls == s.calls && t.results == s.results && t.workers == s.workers[worker := Idle]
            && if s.accounts[p.account].available + p.units > L.MAX_CREDITS
               then outcome == ReviewRequired && t.accounts == s.accounts
               else
                 && outcome == Returned && p.account in t.accounts
                 && t.accounts == s.accounts[p.account := t.accounts[p.account]]
                 && t.accounts[p.account].available == s.accounts[p.account].available + p.units
                 && t.accounts[p.account].reserved == s.accounts[p.account].reserved - p.units
                 && HoldAt(t, p.account, w) && RowAt(t, p.account, w).status == L.Refunded
  {
    SettlementEffect(s.accounts[p.account], w, ToRefund, L.ToRefundHold);
  }

  /** Every state of a run meets the premises of the results above. */
  lemma ReachableIsSound(clock: int, workers: nat, actions: seq<Action>)
    ensures Inv(Run(Init(clock, workers), actions)) && Sound(Run(Init(clock, workers), actions))
  {
    InitInv(clock, workers);
    RunKeepsInv(Init(clock, workers), actions);
    LedgersStayValid(Init(clock, workers), actions);
  }

  // ----- a refund that the worker cannot make

  /** A worker's hold takes the whole balance, the operator grants one unit more, and the input goes away. */
  function Overtaken(w: Work, o: Owner, k1: IdempotencyKey, k2: IdempotencyKey, reference: Reference): seq<Action> {
    [OperatorGrant(o, L.MAX_CREDITS, k1, reference), ChangeInput(w.version, Some(w.extraction.document)),
     Attempt(0, w.version, w.extraction.extractor, None, Some(Policy(o, L.MAX_CREDITS)), 0),
     OperatorGrant(o, 1, k2, reference), Relock(0), ChangeInput(w.version, None)]
  }

  predicate PlainKeys(w: Work, k1: IdempotencyKey, k2: IdempotencyKey) {
    k1 != k2 && forall p: Purpose :: k1 != Ticket(w, p) && k2 != Ticket(w, p)
  }

  lemma GrantStep(s: State, o: Owner, a: L.Account, amount: int, k: IdempotencyKey, reference: Reference)
    requires a == if o in s.accounts then s.accounts[o] else L.Empty(L.InternalBudget)
    requires a.kind == L.InternalBudget && L.Lookup(a.entries, k) == None
    requires L.ValidAmount(amount) && a.available + amount <= L.MAX_CREDITS
    ensures Step(s, OperatorGrant(o, amount, k, reference)) == s.(accounts := s.accounts[o := Granted(a, amount, k, reference)])
  {
    L.GrantApplied(a, amount, k, reference);
  }

  function Granted(a: L.Account, amount: int, k: IdempotencyKey, reference: Reference): L.Account {
    a.(available := a.available + amount,
       entries := a.entries + [L.Entry(L.Grant, amount, k, reference, None, a.available + amount, a.reserved)])
  }

  /** The account of such a run after the first grant, the hold and the second grant. */
  lemma OvertakenAccount(w: Work, k1: IdempotencyKey, k2: IdempotencyKey, reference: Reference)
    requires PlainKeys(w, k1, k2)
    ensures var a := Granted(L.Empty(L.InternalBudget), L.MAX_CREDITS, k1, reference);
            && CanPay(a, w, L.MAX_CREDITS)
            && L.Lookup(Held(a, w, L.MAX_CREDITS, 0).entries, k2) == None
            && KeysFree(Granted(Held(a, w, L.MAX_CREDITS, 0), 1, k2, reference), w)
  {
    var a := Granted(L.Empty(L.InternalBudget), L.MAX_CREDITS, k1, reference);
    var e := a.entries[0];
    assert a.entries == [e];
    assert forall p: Purpose :: L.Lookup([e], Ticket(w, p)) == None;
    var h := Held(a, w, L.MAX_CREDITS, 0);
    L.LookupExtends(a.entries, [h.entries[1]], k2);
    HeldKeysFree(a, w, L.MAX_CREDITS, 0);
    var g := Granted(h, 1, k2, reference);
    L.LookupExtends(h.entries, [g.entries[2]], Ticket(w, ToCommit));
    L.LookupExtends(h.entries, [g.entries[2]], Ticket(w, ToRefund));
  }

  lemma OvertakenStart(w: Work, o: Owner, k1: IdempotencyKey, k2: IdempotencyKey, reference: Reference)
    ensures var run := Overtaken(w, o, k1, k2, reference);
            Step(Step(Init(0, 1), run[0]), run[1])
            == State(0, map[o := Granted(L.Empty(L.InternalBudget), L.MAX_CREDITS, k1, reference)],
                     map[w.version := w.extraction.document], map[], [Idle], [])
  {
    GrantStep(Init(0, 1), o, L.Empty(L.InternalBudget), L.MAX_CREDITS, k1, reference);
    assert Init(0, 1).workers == [Idle];
  }

  lemma OvertakenRun(w: Work, o: Owner, k1: IdempotencyKey, k2: IdempotencyKey, reference: Reference)
    requires PlainKeys(w, k1, k2)
    ensures var s := Run(Init(0, 1), Overtaken(w, o, k1, k2, reference));
            && UnderWay(s, 0, w, Policy(o, L.MAX_CREDITS), 0) && s.workers[0].Relocked?
            && s.clock == 0 && InputChanged(s, w) && s.accounts[o].available == 1
  {
    var run, p := Overtaken(w, o, k1, k2, reference), Policy(o, L.MAX_CREDITS);
    var a := Granted(L.Empty(L.InternalBudget), L.MAX_CREDITS, k1, reference);
    OvertakenAccount(w, k1, k2, reference);
    var s0 := Init(0, 1);
    OvertakenStart(w, o, k1, k2, reference);
    var s2 := Step(Step(s0, run[0]), run[1]);
    assert s2 == State(0, map[o := a], map[w.version := w.extraction.document], map[], [Idle], []);
    AttemptStep(s2, 0, w.version, w.extraction.extractor, None, p);
    var s3 := Step(s2, run[2]);
    HeldIsUnderWay(s2, s3, 0, w, p);
    GrantStep(s3, o, Held(a, w, L.MAX_CREDITS, 0), 1, k2, reference);
    var s4 := Step(s3, run[3]);
    RelockStep(s4, 0, w, p, 0);
    var s5 := Step(s4, run[4]);
    FourSteps(s0, run[0], run[1], run[2], run[3]);
    TwoMore(s0, run);
  }

  lemma TwoMore(s: State, run: seq<Action>)
    requires |run| == 6
    ensures Run(s, run) == Step(Step(Run(s, [run[0], run[1], run[2], run[3]]), run[4]), run[5])
  {
    RunLast(s, run[..5], run[5]);
    RunLast(s, run[..4], run[4]);
    assert run == run[..5] + [run[5]] && run[..5] == run[..4] + [run[4]];
    assert run[..4] == [run[0], run[1], run[2], run[3]];
  }

  lemma {:induction false} RunLast(s: State, actions: seq<Action>, a: Action)
    ensures Run(s, actions + [a]) == Step(Run(s, actions), a)
    decreases actions
  {
    if actions == [] {
      assert actions + [a] == [a] && [a][1..] == [];
      assert Run(s, [a]) == Run(Step(s, a), []);
    } else {
      assert (actions + [a])[1..] == actions[1..] + [a];
      RunLast(Step(s, actions[0]), actions[1..], a);
    }
  }

  /** For every piece of work and account there is a run in which the worker's refund is refused by the range:
      it stops for review with the hold still open, and no call was ever made. */
  lemma WorkerRefundCanBeRefused(w: Work, o: Owner, k1: IdempotencyKey, k2: IdempotencyKey, reference: Reference, cached: bool)
    requires PlainKeys(w, k1, k2)
    ensures var s := Run(Init(0, 1), Overtaken(w, o, k1, k2, reference));
            var (t, outcome) := DoRecheck(s, 0, cached);
            && outcome == ReviewRequired && t.accounts == s.accounts && t.workers[0] == Idle
            && HoldAt(t, o, w) && RowAt(t, o, w).status == L.Reserved
            && FundedCalls(t.calls, w) == 0
  {
    var run := Overtaken(w, o, k1, k2, reference);
    var s := Run(Init(0, 1), run);
    OvertakenRun(w, o, k1, k2, reference);
    ReachableIsSound(0, 1, run);
    TicketHasNoCall(s, 0, w);
    TakenRangeRefuses(s, w, Policy(o, L.MAX_CREDITS), cached);
  }

  lemma TicketHasNoCall(s: State, worker: nat, w: Work)
    requires Inv(s) && worker < |s.workers| && s.workers[worker].Relocked? && s.workers[worker].work == w
    ensures FundedCalls(s.calls, w) == 0
  {
    assert WorkerOk(s, s.workers[worker]);
    CountFunded(s.calls, w);
  }

  lemma TakenRangeRefuses(s: State, w: Work, p: Policy, cached: bool)
    requires UnderWay(s, 0, w, p, 0) && s.workers[0].Relocked?
    requires L.Valid(s.accounts[p.account]) && s.accounts[p.account].kind == L.InternalBudget
    requires s.clock == 0 && InputChanged(s, w) && s.accounts[p.account].available + p.units > L.MAX_CREDITS
    ensures var (t, outcome) := DoRecheck(s, 0, cached);
            && outcome == ReviewRequired && t.accounts == s.accounts && t.workers[0] == Idle && t.calls == s.calls
            && HoldAt(t, p.account, w) && RowAt(t, p.account, w).status == L.Reserved
  {
    ChangedInputIsRefunded(s, 0, w, p, 0, cached);
  }

  // ----- an operator's decision

  /** A hold left open by a failed worker is not lost: in every reachable state an operator can settle it
      exactly when the version's lock is free, the grace period is over, nobody took the operator's key, and a refund fits the range. */
  lemma OldHoldIsResolvableIff(clock: int, workers: nat, actions: seq<Action>, owner: Owner, w: Work, d: L.Decision)
    ensures var s := Run(Init(clock, workers), actions);
            HoldAt(s, owner, w) && RowAt(s, owner, w).status == L.Reserved ==>
              && (DoResolve(s, owner, w, d).1 == Settled <==> Resolvable(s, owner, w, d))
              && (DoResolve(s, owner, w, d).1 == Settled ==> Settles(s, DoResolve(s, owner, w, d).0, owner, Hold(w), d))
  {
    ReachableIsSound(clock, workers, actions);
    var s := Run(Init(clock, workers), actions);
    if HoldAt(s, owner, w) && RowAt(s, owner, w).status == L.Reserved {
      SettledIffResolvable(s, owner, w, d);
      ResolveSettles(s, owner, w, d);
    }
  }

  /** The units of the hold leave the reserved balance, a refund makes them available again, and nothing else
      changes. */
  ghost predicate Settles(s: State, t: State, owner: Owner, hold: ReservationKey, d: L.Decision) {
    && owner in s.accounts && hold in s.accounts[owner].reservations && owner in t.accounts
    && t == s.(accounts := s.accounts[owner := t.accounts[owner]])
    && var a, b := s.accounts[owner], t.accounts[owner];
    var row := a.reservations[hold];
    && b.reserved == a.reserved - row.amount
    && b.available == a.available + (if d == L.ToRefundHold then row.amount else 0)
    && b.reservations == a.reservations[hold := row.(status := if d == L.ToRefundHold then L.Refunded else L.Committed)]
  }

  lemma ResolveSettles(s: State, owner: Owner, w: Work, d: L.Decision)
    requires HoldAt(s, owner, w) && RowAt(s, owner, w).status == L.Reserved
    requires L.Valid(s.accounts[owner]) && s.accounts[owner].kind == L.InternalBudget && Explained(s.accounts[owner], s.clock)
    ensures DoResolve(s, owner, w, d).1 == Settled ==> Settles(s, DoResolve(s, owner, w, d).0, owner, Hold(w), d)
  {
    var a, key := s.accounts[owner], Ticket(w, OperatorPurpose(d));
    X.FreshIsNotFound(a, key);
    if L.Lookup(a.entries, key) == None {
      X.SettleSucceedsIff(a, Hold(w), key, d);
    } else {
      OpenHoldKeyIsForeign(a, w, OperatorPurpose(d), d, s.clock);
    }
  }

  predicate Resolvable(s: State, owner: Owner, w: Work, d: L.Decision)
    requires HoldAt(s, owner, w)
  {
    && LockFree(s, w.version)
    && RowAt(s, owner, w).createdAt + GRACE <= s.clock
    && L.Lookup(s.accounts[owner].entries, Ticket(w, OperatorPurpose(d))) == None
    && (d == L.ToRefundHold ==> s.accounts[owner].available + RowAt(s, owner, w).amount <= L.MAX_CREDITS)
  }

  lemma SettledIffResolvable(s: State, owner: Owner, w: Work, d: L.Decision)
    requires HoldAt(s, owner, w) && RowAt(s, owner, w).status == L.Reserved
    requires L.Valid(s.accounts[owner]) && s.accounts[owner].kind == L.InternalBudget && Explained(s.accounts[owner], s.clock)
    ensures DoResolve(s, owner, w, d).1 == Settled <==> Resolvable(s, owner, w, d)
  {
    var a := s.accounts[owner];
    OpenHoldIsHosted(a, w, s.clock);
    if L.Lookup(a.entries, Ticket(w, OperatorPurpose(d))) == None {
      SettlementEffect(a, w, OperatorPurpose(d), d);
    } else {
      OpenHoldKeyIsForeign(a, w, OperatorPurpose(d), d, s.clock);
    }
  }

  lemma OpenHoldIsHosted(a: L.Account, w: Work, clock: int)
    requires Explained(a, clock) && Hold(w) in a.reservations
    ensures a.reservations[Hold(w)].reference == HostedExtraction(w.version)
  {
  }

  /** While a hold is open, an entry under one of its settlement keys is not a settlement. */
  lemma OpenHoldKeyIsForeign(a: L.Account, w: Work, p: Purpose, d: L.Decision, clock: int)
    requires Explained(a, clock) && p != ToReserve && OperationFor(p) == L.OperationOf(d)
    requires Hold(w) in a.reservations && a.reservations[Hold(w)].status == L.Reserved
    requires L.Lookup(a.entries, Ticket(w, p)).Some?
    ensures L.Perform(a, SettleFor(w, p, d)).result.Failure?
  {
    assert !Posted(a, w, p);
  }
}
