/** Safety of the extraction fence over every run of its transition system. */
module FenceSafety {
  import opened Wrappers
  import opened Keys
  import L = Ledger
  import opened Fence

  // ----- what a ledger account says about one piece of work

  function OperationFor(p: Purpose): L.Operation {
    match p
    case ToReserve => L.Reserve
    case ToCommit => L.Commit
    case ToOperatorCommit => L.Commit
    case ToRefund => L.Refund
    case ToOperatorRefund => L.Refund
  }

  /** The account's ledger holds the entry the fence writes for this purpose. */
  predicate Posted(a: L.Account, w: Work, p: Purpose) {
    var e := L.Lookup(a.entries, Ticket(w, p));
    e.Some? && e.value.operation == OperationFor(p)
  }

  datatype Standing = Absent | Open(createdAt: int) | Closed(createdAt: int, via: Purpose)

  function StandingIn(a: L.Account, w: Work): Standing {
    if Hold(w) !in a.reservations then Absent
    else
      var row := a.reservations[Hold(w)];
      match row.status
      case Reserved => Open(row.createdAt)
      case Committed => Closed(row.createdAt, if Posted(a, w, ToCommit) then ToCommit else ToOperatorCommit)
      case Refunded => Closed(row.createdAt, if Posted(a, w, ToRefund) then ToRefund else ToOperatorRefund)
  }

  predicate Fits(status: L.Status, p: Purpose) {
    match p
    case ToReserve => true
    case ToCommit => status == L.Committed
    case ToOperatorCommit => status == L.Committed
    case ToRefund => status == L.Refunded
    case ToOperatorRefund => status == L.Refunded
  }

  /** Holds of the fence are what their ledger entries say they are. */
  ghost predicate Explained(a: L.Account, clock: int) {
    && (forall h :: h in a.reservations ==>
          && h.ExtractionReservation?
          && a.reservations[h].reference == HostedExtraction(h.version)
          && a.reservations[h].createdAt <= clock)
    && (forall w: Work, p: Purpose :: Posted(a, w, p) ==>
          Hold(w) in a.reservations && Fits(a.reservations[Hold(w)].status, p))
    && (forall w: Work :: StandingIn(a, w).Closed? ==> Posted(a, w, StandingIn(a, w).via))
    && (forall w: Work :: !(Posted(a, w, ToCommit) && Posted(a, w, ToOperatorCommit)))
    && (forall w: Work :: !(Posted(a, w, ToRefund) && Posted(a, w, ToOperatorRefund)))
  }

  predicate Applied(t: L.Transaction) {
    t.result.Success? && t.result.value.applied
  }

  lemma PostedAfter(a: L.Account, e: L.Entry, b: L.Account, w: Work, p: Purpose)
    requires b.entries == a.entries + [e] && L.Lookup(a.entries, e.key) == None
    ensures Posted(b, w, p) <==> Posted(a, w, p) || (e.key == Ticket(w, p) && e.operation == OperationFor(p))
  {
    L.LookupExtends(a.entries, [e], Ticket(w, p));
  }

  lemma GrantEffect(a: L.Account, r: L.Request, clock: int)
    requires Explained(a, clock) && r.GrantRequest?
    ensures Explained(L.Perform(a, r).account, clock)
    ensures forall w :: StandingIn(L.Perform(a, r).account, w) == StandingIn(a, w)
  {
    var t := L.Perform(a, r);
    if Applied(t) {
      var e := L.AppliedShape(a, r);
      assert t.account.reservations == a.reservations && e.operation == L.Grant;
      GrantStanding(a, e, t.account, clock);
    }
  }

  lemma GrantStanding(a: L.Account, e: L.Entry, b: L.Account, clock: int)
    requires Explained(a, clock)
    requires b.entries == a.entries + [e] && L.Lookup(a.entries, e.key) == None && e.operation == L.Grant
    requires b.reservations == a.reservations
    ensures Explained(b, clock)
    ensures forall w :: StandingIn(b, w) == StandingIn(a, w)
  {
    forall w, p ensures Posted(b, w, p) <==> Posted(a, w, p) { PostedAfter(a, e, b, w, p); }
    forall w ensures StandingIn(b, w) == StandingIn(a, w) {}
  }

  lemma ReserveEffect(a: L.Account, w0: Work, policy: Policy, createdAt: int, clock: int)
    requires Explained(a, clock) && createdAt <= clock
    requires StandingIn(a, w0) == Absent
    requires L.Perform(a, ReserveFor(w0, policy, createdAt)).result.Success?
    ensures var b := L.Perform(a, ReserveFor(w0, policy, createdAt)).account;
            && Explained(b, clock)
            && StandingIn(b, w0) == Open(createdAt)
            && forall w :: w != w0 ==> StandingIn(b, w) == StandingIn(a, w)
  {
    var r := ReserveFor(w0, policy, createdAt);
    var t := L.Perform(a, r);
    assert !Posted(a, w0, ToReserve);
    assert Applied(t);
    var e := L.AppliedShape(a, r);
    ReserveStanding(a, e, t.account, w0, t.account.reservations[Hold(w0)], clock);
  }

  lemma ReserveStanding(a: L.Account, e: L.Entry, b: L.Account, w0: Work, row: L.Reservation, clock: int)
    requires Explained(a, clock) && Hold(w0) !in a.reservations
    requires b.entries == a.entries + [e] && L.Lookup(a.entries, e.key) == None
    requires e.key == Ticket(w0, ToReserve) && e.operation == L.Reserve
    requires b.reservations == a.reservations[Hold(w0) := row]
    requires row.status == L.Reserved && row.createdAt <= clock && row.reference == HostedExtraction(w0.version)
    ensures Explained(b, clock)
    ensures StandingIn(b, w0) == Open(row.createdAt)
    ensures forall w :: w != w0 ==> StandingIn(b, w) == StandingIn(a, w)
  {
    forall w, p ensures Posted(b, w, p) <==> Posted(a, w, p) || (w == w0 && p == ToReserve) {
      PostedAfter(a, e, b, w, p);
    }
    forall w | w != w0 ensures StandingIn(b, w) == StandingIn(a, w) { assert Hold(w) != Hold(w0); }
  }

  /** A settlement that does not raise leaves the hold closed by exactly this purpose. */
  lemma SettleEffect(a: L.Account, w0: Work, p0: Purpose, d: L.Decision, clock: int)
    requires Explained(a, clock)
    requires p0 != ToReserve && OperationFor(p0) == L.OperationOf(d)
    requires L.Perform(a, SettleFor(w0, p0, d)).result.Success?
    ensures var b := L.Perform(a, SettleFor(w0, p0, d)).account;
            && Explained(b, clock)
            && StandingIn(a, w0) != Absent
            && StandingIn(b, w0) == Closed(StandingIn(a, w0).createdAt, p0)
            && (StandingIn(a, w0).Open? || b == a)
            && forall w :: w != w0 ==> StandingIn(b, w) == StandingIn(a, w)
  {
    var r := SettleFor(w0, p0, d);
    var t := L.Perform(a, r);
    if Applied(t) {
      var e := L.AppliedShape(a, r);
      assert a.reservations[Hold(w0)].status == L.Reserved;
      SettleStanding(a, e, t.account, w0, p0, L.StatusOf(d), clock);
    } else {
      assert Posted(a, w0, p0);
    }
  }

  lemma SettleStanding(a: L.Account, e: L.Entry, b: L.Account, w0: Work, p0: Purpose, status: L.Status, clock: int)
    requires Explained(a, clock)
    requires Hold(w0) in a.reservations && a.reservations[Hold(w0)].status == L.Reserved
    requires p0 != ToReserve && Fits(status, p0) && status != L.Reserved
    requires b.entries == a.entries + [e] && L.Lookup(a.entries, e.key) == None
    requires e.key == Ticket(w0, p0) && e.operation == OperationFor(p0)
    requires b.reservations == a.reservations[Hold(w0) := a.reservations[Hold(w0)].(status := status)]
    ensures Explained(b, clock)
    ensures StandingIn(b, w0) == Closed(a.reservations[Hold(w0)].createdAt, p0)
    ensures forall w :: w != w0 ==> StandingIn(b, w) == StandingIn(a, w)
  {
    forall w, p ensures Posted(b, w, p) <==> Posted(a, w, p) || (w == w0 && p == p0) {
      PostedAfter(a, e, b, w, p);
    }
    forall w | w != w0 ensures StandingIn(b, w) == StandingIn(a, w) { assert Hold(w) != Hold(w0); }
  }

  // ----- the invariant

  function St(s: State, owner: Owner, w: Work): Standing {
    if owner in s.accounts then StandingIn(s.accounts[owner], w) else Absent
  }

  ghost predicate AccountsExplained(s: State) {
    forall o :: o in s.accounts ==> Explained(s.accounts[o], s.clock)
  }

  /** Whoever pays, a piece of work has one hold. */
  ghost predicate OneHold(s: State) {
    forall o, o', w :: St(s, o, w) != Absent && St(s, o', w) != Absent ==> o == o'
  }

  predicate HasTicket(pc: Pc) {
    pc.Ticketed? || pc.Relocked? || pc.Calling?
  }

  predicate ByOperator(p: Purpose) {
    p == ToOperatorCommit || p == ToOperatorRefund
  }

  predicate NoFundedCall(s: State, w: Work) {
    forall i :: 0 <= i < |s.calls| && s.calls[i].work == w ==> s.calls[i].funding == Unfunded
  }

  ghost predicate WorkerOk(s: State, pc: Pc) {
    match pc
    case Idle => true
    case CallingUnfunded(w) => w !in s.results && forall o :: St(s, o, w) == Absent
    case Calling(w, o) => w !in s.results && St(s, o, w).Open?
    case _ =>
      && pc.work !in s.results
      && NoFundedCall(s, pc.work)
      && var st := St(s, pc.account, pc.work);
      && st != Absent
      && (st.Closed? ==> ByOperator(st.via) && st.createdAt + GRACE <= s.clock)
  }

  ghost predicate WorkersOk(s: State) {
    forall i :: 0 <= i < |s.workers| ==> WorkerOk(s, s.workers[i])
  }

  predicate Apart(a: Pc, b: Pc) {
    && (HasTicket(a) && HasTicket(b) ==> a.work != b.work)
    && (a != Idle && HoldsLock(a, a.work.version) ==> !HoldsLock(b, a.work.version))
  }

  ghost predicate WorkersApart(s: State) {
    forall i, j :: 0 <= i < |s.workers| && 0 <= j < |s.workers| && i != j ==> Apart(s.workers[i], s.workers[j])
  }

  predicate CallOk(s: State, c: Call) {
    c.funding.Funded? ==>
      var st := St(s, c.funding.account, c.work);
      st != Absent && (st.Closed? ==> st.via != ToRefund)
  }

  ghost predicate CallsOk(s: State) {
    && (forall i :: 0 <= i < |s.calls| ==> CallOk(s, s.calls[i]))
    && forall i, j :: 0 <= i < j < |s.calls| && s.calls[i].funding.Funded? && s.calls[j].funding.Funded? ==>
         s.calls[i].work != s.calls[j].work
  }

  predicate Charged(s: State, owner: Owner, w: Work) {
    St(s, owner, w).Closed? && St(s, owner, w).via == ToCommit
  }

  ghost predicate ResultsOk(s: State) {
    && (forall o, w :: Charged(s, o, w) <==> w in s.results && s.results[w] == Funded(o))
    && forall o, w :: w in s.results && s.results[w] == Unfunded ==> St(s, o, w) == Absent
  }

  ghost predicate Inv(s: State) {
    && AccountsExplained(s) && OneHold(s) && WorkersOk(s) && WorkersApart(s) && CallsOk(s) && ResultsOk(s)
  }

  // ----- every action keeps the invariant

  lemma InitInv(clock: int, workers: nat)
    ensures Inv(Init(clock, workers))
  {
  }

  lemma PriorIsHold(s: State, o: Owner, w: Work)
    requires AccountsExplained(s)
    ensures Prior(s, o, w) <==> St(s, o, w) != Absent
  {
  }

  /** A worker that stops, or changes program counter without touching a table. */
  lemma MoveKeepsInv(s: State, worker: nat, pc: Pc)
    requires Inv(s) && worker < |s.workers|
    requires WorkerOk(s, pc)
    requires forall j :: 0 <= j < |s.workers| && j != worker ==> Apart(pc, s.workers[j]) && Apart(s.workers[j], pc)
    ensures Inv(Move(s, worker, pc))
  {
    var t := Move(s, worker, pc);
    assert forall o, w :: St(t, o, w) == St(s, o, w);
    assert WorkersOk(t) by {
      forall i | 0 <= i < |t.workers| ensures WorkerOk(t, t.workers[i]) {
        assert WorkerOk(s, t.workers[i]);
      }
    }
    assert CallsOk(t) by {
      forall i | 0 <= i < |t.calls| ensures CallOk(t, t.calls[i]) { assert CallOk(s, t.calls[i]); }
    }
    assert ResultsOk(t) by {
      forall o, w ensures Charged(t, o, w) == Charged(s, o, w) {}
    }
  }

  /** The accounts change, but what they say about work does not. */
  lemma SameStandingKeepsInv(s: State, t: State)
    requires Inv(s)
    requires t == s.(accounts := t.accounts, clock := t.clock, inputs := t.inputs) && s.clock <= t.clock
    requires AccountsExplained(t)
    requires forall o, w :: St(t, o, w) == St(s, o, w)
    ensures Inv(t)
  {
    forall i | 0 <= i < |t.workers| ensures WorkerOk(t, t.workers[i]) { assert WorkerOk(s, t.workers[i]); }
    forall i | 0 <= i < |t.calls| ensures CallOk(t, t.calls[i]) { assert CallOk(s, t.calls[i]); }
    forall o, w ensures Charged(t, o, w) == Charged(s, o, w) {}
  }

  /** PerformFor touches one account; these are the facts the actions need about the others. */
  lemma OtherAccounts(s: State, owner: Owner, accounts: map<Owner, L.Account>, a: L.Account)
    requires accounts == s.accounts[owner := a]
    ensures forall o, w :: o != owner ==> St(s.(accounts := accounts), o, w) == St(s, o, w)
    ensures forall w :: St(s.(accounts := accounts), owner, w) == StandingIn(a, w)
  {
  }

  lemma GrantKeepsInv(s: State, owner: Owner, amount: int, key: IdempotencyKey, reference: Reference)
    requires Inv(s)
    ensures Inv(DoGrant(s, owner, amount, key, reference).0)
  {
    var r := L.GrantRequest(L.InternalBudget, amount, key, reference);
    var (accounts, result) := L.PerformFor(s.accounts, owner, r);
    if result.Success? {
      var a := if owner in s.accounts then s.accounts[owner] else L.Empty(L.InternalBudget);
      var b := L.Perform(a, r).account;
      GrantEffect(a, r, s.clock);
      OtherAccounts(s, owner, accounts, b);
      var t := s.(accounts := accounts);
      forall o, w ensures St(t, o, w) == St(s, o, w) {
        if o == owner { assert StandingIn(b, w) == StandingIn(a, w); }
      }
      SameStandingKeepsInv(s, t);
    }
  }

  /** One hold changes standing on behalf of worker `i`, which then moves to `pc`. */
  lemma HoldChangeKeepsInv(s: State, t: State, o0: Owner, w0: Work)
    requires Inv(s)
    requires t.clock == s.clock && |t.workers| == |s.workers|
    requires AccountsExplained(t) && OneHold(t)
    requires forall o, w :: (o, w) != (o0, w0) ==> St(t, o, w) == St(s, o, w)
    requires WorkersOk(t) && WorkersApart(t) && CallsOk(t)
    requires forall w :: w != w0 ==> (w in t.results <==> w in s.results)
    requires forall w :: w != w0 && w in t.results ==> t.results[w] == s.results[w]
    requires forall o :: Charged(t, o, w0) <==> w0 in t.results && t.results[w0] == Funded(o)
    requires w0 in t.results && t.results[w0] == Unfunded ==> forall o :: St(t, o, w0) == Absent
    ensures Inv(t)
  {
    forall o, w ensures Charged(t, o, w) <==> w in t.results && t.results[w] == Funded(o) {
      assert w != w0 ==> Charged(t, o, w) == Charged(s, o, w);
    }
    forall o, w | w in t.results && t.results[w] == Unfunded ensures St(t, o, w) == Absent {
      assert w != w0 ==> St(s, o, w) == Absent;
    }
  }

  /** Workers other than `worker` are not disturbed when the standing of `w0` changes, provided none of them
      has a ticket for it, or the ones that have may see it closed by the operator. */
  lemma OthersUndisturbed(s: State, t: State, worker: nat, o0: Owner, w0: Work)
    requires Inv(s) && worker < |s.workers|
    requires t.clock == s.clock && |t.workers| == |s.workers|
    requires forall j :: 0 <= j < |s.workers| && j != worker ==> t.workers[j] == s.workers[j]
    requires forall o, w :: (o, w) != (o0, w0) ==> St(t, o, w) == St(s, o, w)
    requires forall w :: w != w0 ==> (w in t.results <==> w in s.results)
    requires forall i :: 0 <= i < |t.calls| ==> (i < |s.calls| && t.calls[i] == s.calls[i]) || t.calls[i].work == w0
    requires forall j :: 0 <= j < |s.workers| && j != worker && s.workers[j] != Idle ==> s.workers[j].work != w0
    requires WorkerOk(t, t.workers[worker])
    ensures WorkersOk(t)
  {
    forall j | 0 <= j < |t.workers| ensures WorkerOk(t, t.workers[j]) {
      if j != worker {
        assert WorkerOk(s, s.workers[j]);
      }
    }
  }

  lemma AttemptKeepsInv(s: State, worker: nat, version: nat, extractor: nat, expected: Option<Extraction>,
                        policy: Option<Policy>, createdAt: int)
    requires Inv(s)
    ensures Inv(DoAttempt(s, worker, version, extractor, expected, policy, createdAt).0)
  {
    var (t, outcome) := DoAttempt(s, worker, version, extractor, expected, policy, createdAt);
    if t != s {
      var w := Work(version, Extraction(s.inputs[version], extractor));
      assert forall o :: o in s.accounts ==> !Prior(s, o, w);
      assert forall o :: St(s, o, w) == Absent;
      forall j | 0 <= j < |s.workers| && s.workers[j] != Idle ensures s.workers[j].work != w {
        assert WorkerOk(s, s.workers[j]);
        assert !HoldsLock(s.workers[j], version);
      }
      match policy
      case None => UnfundedCallKeepsInv(s, worker, w);
      case Some(p) => ReserveKeepsInv(s, worker, w, p, createdAt);
    }
  }

  lemma UnfundedCallKeepsInv(s: State, worker: nat, w: Work)
    requires Inv(s) && worker < |s.workers| && s.workers[worker] == Idle
    requires LockFree(s, w.version) && w !in s.results
    requires forall o :: St(s, o, w) == Absent
    ensures Inv(StartCall(s, worker, CallingUnfunded(w), Call(w, Unfunded, s.clock)))
  {
    var m := Move(s, worker, CallingUnfunded(w));
    MoveKeepsInv(s, worker, CallingUnfunded(w));
    CallKeepsInv(m, Call(w, Unfunded, s.clock));
  }

  /** Recording the start of a call keeps the invariant when no other call of its kind was started. */
  lemma CallKeepsInv(s: State, c: Call)
    requires Inv(s)
    requires CallOk(s, c)
    requires c.funding.Funded? ==> NoFundedCall(s, c.work)
    requires c.funding.Funded? ==> forall j :: 0 <= j < |s.workers| && (s.workers[j].Ticketed? || s.workers[j].Relocked?) ==>
               s.workers[j].work != c.work
    ensures Inv(s.(calls := s.calls + [c]))
  {
    var t := s.(calls := s.calls + [c]);
    assert forall o, w :: St(t, o, w) == St(s, o, w);
    forall i | 0 <= i < |t.workers| ensures WorkerOk(t, t.workers[i]) { assert WorkerOk(s, t.workers[i]); }
    forall i | 0 <= i < |t.calls| ensures CallOk(t, t.calls[i]) {
      assert i < |s.calls| ==> CallOk(s, s.calls[i]);
    }
    forall o, w ensures Charged(t, o, w) == Charged(s, o, w) {}
  }

  lemma ReserveKeepsInv(s: State, worker: nat, w: Work, p: Policy, createdAt: int)
    requires Inv(s) && worker < |s.workers| && s.workers[worker] == Idle
    requires createdAt <= s.clock && w !in s.results
    requires forall o :: St(s, o, w) == Absent
    requires forall j :: 0 <= j < |s.workers| && s.workers[j] != Idle ==> s.workers[j].work != w
    ensures var (accounts, result) := L.PerformFor(s.accounts, p.account, ReserveFor(w, p, createdAt));
            result.Success? ==> Inv(Move(s.(accounts := accounts), worker, Ticketed(w, p.account)))
  {
    var r := ReserveFor(w, p, createdAt);
    var (accounts, result) := L.PerformFor(s.accounts, p.account, r);
    if result.Success? {
      var a := if p.account in s.accounts then s.accounts[p.account] else L.Empty(L.InternalBudget);
      assert St(s, p.account, w) == Absent;
      ReserveEffect(a, w, p, createdAt, s.clock);
      var t := Move(s.(accounts := accounts), worker, Ticketed(w, p.account));
      StandingChanged(s, t, p.account, w, a, L.Perform(a, r).account);
      ReservedByWorker(s, t, worker, w, p, createdAt);
    }
  }

  lemma ReservedByWorker(s: State, t: State, worker: nat, w: Work, p: Policy, createdAt: int)
    requires Inv(s) && worker < |s.workers| && s.workers[worker] == Idle && w !in s.results
    requires forall o :: St(s, o, w) == Absent
    requires forall j :: 0 <= j < |s.workers| && s.workers[j] != Idle ==> s.workers[j].work != w
    requires t == s.(accounts := t.accounts, workers := s.workers[worker := Ticketed(w, p.account)]) && AccountsExplained(t)
    requires St(t, p.account, w) == Open(createdAt)
    requires forall o, v :: (o, v) != (p.account, w) ==> St(t, o, v) == St(s, o, v)
    ensures Inv(t)
  {
    assert NoFundedCall(s, w) by {
      forall i | 0 <= i < |s.calls| && s.calls[i].work == w ensures s.calls[i].funding == Unfunded {
        assert CallOk(s, s.calls[i]);
      }
    }
    OthersUndisturbed(s, t, worker, p.account, w);
    assert CallsOk(t) by {
      forall i | 0 <= i < |t.calls| ensures CallOk(t, t.calls[i]) { assert CallOk(s, s.calls[i]); }
    }
    assert WorkersApart(t);
    assert OneHold(t);
    HoldChangeKeepsInv(s, t, p.account, w);
  }

  /** Lifts the change of one account to the standing of all of them. */
  lemma StandingChanged(s: State, t: State, o0: Owner, w0: Work, a: L.Account, b: L.Account)
    requires t.accounts == s.accounts[o0 := b]
    requires a == if o0 in s.accounts then s.accounts[o0] else L.Empty(L.InternalBudget)
    requires forall w :: w != w0 ==> StandingIn(b, w) == StandingIn(a, w)
    ensures forall o, w :: (o, w) != (o0, w0) ==> St(t, o, w) == St(s, o, w)
    ensures St(t, o0, w0) == StandingIn(b, w0)
  {
    forall o, w | (o, w) != (o0, w0) ensures St(t, o, w) == St(s, o, w) {
      if o == o0 { assert StandingIn(b, w) == StandingIn(a, w); }
    }
  }

  lemma RelockKeepsInv(s: State, worker: nat)
    requires Inv(s)
    ensures Inv(DoRelock(s, worker).0)
  {
    if DoRelock(s, worker).0 != s {
      var pc := s.workers[worker];
      assert WorkerOk(s, pc);
      forall j | 0 <= j < |s.workers| && j != worker
        ensures Apart(Relocked(pc.work, pc.account), s.workers[j]) && Apart(s.workers[j], Relocked(pc.work, pc.account))
      {
        assert Apart(pc, s.workers[j]) && !HoldsLock(s.workers[j], pc.work.version);
      }
      MoveKeepsInv(s, worker, Relocked(pc.work, pc.account));
    }
  }

  lemma CrashKeepsInv(s: State, worker: nat)
    requires Inv(s)
    ensures Inv(DoCrash(s, worker).0)
  {
    if worker < |s.workers| {
      MoveKeepsInv(s, worker, Idle);
    }
  }

  /** A rechecked hold is really open: an operator resolves only holds of at least GRACE, the worker starts
      only under younger ones, both under the same lock and by one clock. */
  lemma RecheckedHoldIsOpen(s: State, worker: nat)
    requires Inv(s) && worker < |s.workers| && s.workers[worker].Relocked?
    requires var w, o := s.workers[worker].work, s.workers[worker].account;
             Prior(s, o, w) && Recent(s, RowAt(s, o, w))
    ensures St(s, s.workers[worker].account, s.workers[worker].work).Open?
  {
    assert WorkerOk(s, s.workers[worker]);
  }

  lemma RecheckKeepsInv(s: State, worker: nat, cached: bool)
    requires Inv(s)
    ensures Inv(DoRecheck(s, worker, cached).0)
  {
    if worker < |s.workers| && s.workers[worker].Relocked? {
      var w, account := s.workers[worker].work, s.workers[worker].account;
      MoveKeepsInv(s, worker, Idle);
      if Prior(s, account, w) && Recent(s, RowAt(s, account, w)) {
        RecheckedHoldIsOpen(s, worker);
        if InputChanged(s, w) || w in s.results {
          SettleKeepsInv(s, worker, w, account, ToRefund, L.ToRefundHold, s.results);
        } else {
          assert WorkerOk(s, s.workers[worker]);
          var m := Move(s, worker, Calling(w, account));
          forall j | 0 <= j < |s.workers| && j != worker
            ensures Apart(Calling(w, account), s.workers[j]) && Apart(s.workers[j], Calling(w, account))
          {
            assert Apart(s.workers[worker], s.workers[j]) && Apart(s.workers[j], s.workers[worker]);
          }
          MoveKeepsInv(s, worker, Calling(w, account));
          assert St(m, account, w) == St(s, account, w);
          forall j | 0 <= j < |m.workers| && (m.workers[j].Ticketed? || m.workers[j].Relocked?)
            ensures m.workers[j].work != w
          {
            assert j != worker && Apart(s.workers[worker], s.workers[j]);
          }
          CallKeepsInv(m, Call(w, Funded(account), s.clock));
        }
      }
    }
  }

  /** The worker that owns the only ticket for an open hold settles it and stops.  A commit stores the result
      with it; a refund is issued only before any call. */
  lemma SettleKeepsInv(s: State, worker: nat, w: Work, account: Owner, p: Purpose, d: L.Decision,
                       results: map<Work, Funding>)
    requires Inv(s) && worker < |s.workers|
    requires HasTicket(s.workers[worker]) && s.workers[worker].work == w && s.workers[worker].account == account
    requires St(s, account, w).Open?
    requires (p == ToCommit && d == L.ToCommitHold) || (p == ToRefund && d == L.ToRefundHold)
    requires p == ToCommit ==> results == s.results[w := Funded(account)]
    requires p == ToRefund ==> results == s.results && NoFundedCall(s, w)
    ensures var (accounts, result) := L.PerformFor(s.accounts, account, SettleFor(w, p, d));
            result.Success? ==> Inv(Move(s.(accounts := accounts, results := results), worker, Idle))
  {
    var (accounts, result) := L.PerformFor(s.accounts, account, SettleFor(w, p, d));
    if result.Success? {
      SettledTables(s, worker, w, account, p, d, results);
      SettledByWorker(s, Move(s.(accounts := accounts, results := results), worker, Idle), worker, w, account, p);
    }
  }

  /** The standings after the worker's settlement, whatever else its transaction stores. */
  lemma SettledTables(s: State, worker: nat, w: Work, account: Owner, p: Purpose, d: L.Decision, results: map<Work, Funding>)
    requires AccountsExplained(s) && OneHold(s) && worker < |s.workers|
    requires p != ToReserve && OperationFor(p) == L.OperationOf(d)
    requires L.PerformFor(s.accounts, account, SettleFor(w, p, d)).1.Success?
    ensures var t := Move(s.(accounts := L.PerformFor(s.accounts, account, SettleFor(w, p, d)).0, results := results), worker, Idle);
            && AccountsExplained(t)
            && St(t, account, w) == Closed(St(s, account, w).createdAt, p)
            && forall o, v :: (o, v) != (account, w) ==> St(t, o, v) == St(s, o, v)
  {
    SettleStates(s, account, w, p, d);
    var u := s.(accounts := L.PerformFor(s.accounts, account, SettleFor(w, p, d)).0);
    var t := Move(u.(results := results), worker, Idle);
    forall o, v ensures St(t, o, v) == St(u, o, v) {}
  }

  /** What a settlement that does not raise does to the standing of all holds. */
  lemma SettleStates(s: State, account: Owner, w: Work, p: Purpose, d: L.Decision)
    requires AccountsExplained(s) && OneHold(s)
    requires p != ToReserve && OperationFor(p) == L.OperationOf(d)
    requires L.PerformFor(s.accounts, account, SettleFor(w, p, d)).1.Success?
    ensures var t := s.(accounts := L.PerformFor(s.accounts, account, SettleFor(w, p, d)).0);
            && AccountsExplained(t)
            && St(s, account, w) != Absent
            && St(t, account, w) == Closed(St(s, account, w).createdAt, p)
            && (St(s, account, w).Open? || t == s)
            && forall o, v :: (o, v) != (account, w) ==> St(t, o, v) == St(s, o, v)
  {
    var a := if account in s.accounts then s.accounts[account] else L.Empty(L.InternalBudget);
    SettleEffect(a, w, p, d, s.clock);
    var b := L.Perform(a, SettleFor(w, p, d)).account;
    var t := s.(accounts := L.PerformFor(s.accounts, account, SettleFor(w, p, d)).0);
    assert t.accounts == s.accounts[account := b];
    StandingChanged(s, t, account, w, a, b);
    assert account in s.accounts;
    if b == a { assert t.accounts == s.accounts; }
  }

  lemma SettledByWorker(s: State, t: State, worker: nat, w: Work, account: Owner, p: Purpose)
    requires Inv(s) && worker < |s.workers|
    requires HasTicket(s.workers[worker]) && s.workers[worker].work == w && s.workers[worker].account == account
    requires t.clock == s.clock && t.calls == s.calls && t.workers == s.workers[worker := Idle]
    requires AccountsExplained(t) && St(s, account, w).Open?
    requires St(t, account, w) == Closed(St(s, account, w).createdAt, p)
    requires forall o, v :: (o, v) != (account, w) ==> St(t, o, v) == St(s, o, v)
    requires p == ToCommit || (p == ToRefund && NoFundedCall(s, w))
    requires t.results == if p == ToCommit then s.results[w := Funded(account)] else s.results
    ensures Inv(t)
  {
    assert WorkerOk(s, s.workers[worker]);
    forall j | 0 <= j < |s.workers| && j != worker && s.workers[j] != Idle ensures s.workers[j].work != w {
      assert Apart(s.workers[worker], s.workers[j]) && WorkerOk(s, s.workers[j]);
    }
    OthersUndisturbed(s, t, worker, account, w);
    SettledCallsOk(s, t, account, w);
    OneHoldStays(s, t, account, w);
    StoppedApart(s, t, worker);
    assert Charged(t, account, w) <==> p == ToCommit;
    assert w !in s.results;
    HoldChangeKeepsInv(s, t, account, w);
  }

  lemma StoppedApart(s: State, t: State, worker: nat)
    requires WorkersApart(s) && worker < |s.workers| && t.workers == s.workers[worker := Idle]
    ensures WorkersApart(t)
  {
    forall i, j | 0 <= i < |t.workers| && 0 <= j < |t.workers| && i != j ensures Apart(t.workers[i], t.workers[j]) {
      assert Apart(s.workers[i], s.workers[j]);
    }
  }

  lemma SettledCallsOk(s: State, t: State, account: Owner, w: Work)
    requires CallsOk(s) && OneHold(s) && t.calls == s.calls
    requires forall o, v :: (o, v) != (account, w) ==> St(t, o, v) == St(s, o, v)
    requires St(s, account, w) != Absent && St(t, account, w).Closed?
    requires St(t, account, w).via == ToRefund ==> NoFundedCall(s, w)
    ensures CallsOk(t)
  {
    forall i | 0 <= i < |t.calls| ensures CallOk(t, t.calls[i]) { assert CallOk(s, s.calls[i]); }
  }

  lemma FinishKeepsInv(s: State, worker: nat)
    requires Inv(s)
    ensures Inv(DoFinish(s, worker).0)
  {
    if worker < |s.workers| && (s.workers[worker].Calling? || s.workers[worker].CallingUnfunded?) {
      var pc := s.workers[worker];
      assert WorkerOk(s, pc);
      MoveKeepsInv(s, worker, Idle);
      if pc.Calling? {
        SettleKeepsInv(s, worker, pc.work, pc.account, ToCommit, L.ToCommitHold, s.results[pc.work := Funded(pc.account)]);
      } else if pc.work !in s.results {
        UnfundedFinishKeepsInv(s, worker);
      }
    }
  }

  lemma UnfundedFinishKeepsInv(s: State, worker: nat)
    requires Inv(s) && worker < |s.workers| && s.workers[worker].CallingUnfunded?
    ensures Inv(Move(s.(results := s.results[s.workers[worker].work := Unfunded]), worker, Idle))
  {
    var pc := s.workers[worker];
    var t := Move(s.(results := s.results[pc.work := Unfunded]), worker, Idle);
    assert WorkerOk(s, pc);
    assert forall o, w :: St(t, o, w) == St(s, o, w);
    forall j | 0 <= j < |s.workers| && j != worker && s.workers[j] != Idle ensures s.workers[j].work != pc.work {
      assert Apart(pc, s.workers[j]) && WorkerOk(s, s.workers[j]);
    }
    OthersUndisturbed(s, t, worker, NamedOwner(""), pc.work);
    StoppedApart(s, t, worker);
    assert CallsOk(t) by {
      forall i | 0 <= i < |t.calls| ensures CallOk(t, t.calls[i]) { assert CallOk(s, t.calls[i]); }
    }
    assert forall o :: !Charged(t, o, pc.work);
    HoldChangeKeepsInv(s, t, NamedOwner(""), pc.work);
  }

  lemma ResolveKeepsInv(s: State, owner: Owner, w: Work, d: L.Decision)
    requires Inv(s)
    ensures Inv(DoResolve(s, owner, w, d).0)
  {
    if Prior(s, owner, w) && LockFree(s, RowAt(s, owner, w).reference.version) && !Recent(s, RowAt(s, owner, w)) {
      OperatorClosesHold(s, owner, w, d);
    }
  }

  lemma OperatorClosesHold(s: State, owner: Owner, w: Work, d: L.Decision)
    requires Inv(s) && Prior(s, owner, w)
    requires LockFree(s, RowAt(s, owner, w).reference.version) && !Recent(s, RowAt(s, owner, w))
    ensures var (accounts, result) := L.PerformFor(s.accounts, owner, SettleFor(w, OperatorPurpose(d), d));
            result.Success? ==> Inv(s.(accounts := accounts))
  {
    var (accounts, result) := L.PerformFor(s.accounts, owner, SettleFor(w, OperatorPurpose(d), d));
    if result.Success? {
      var t := s.(accounts := accounts);
      SettleStates(s, owner, w, OperatorPurpose(d), d);
      if t != s {
        OldHold(s, owner, w);
        SettledByOperator(s, t, owner, w, OperatorPurpose(d));
      }
    }
  }

  lemma OldHold(s: State, owner: Owner, w: Work)
    requires AccountsExplained(s) && Prior(s, owner, w) && !Recent(s, RowAt(s, owner, w))
    ensures RowAt(s, owner, w).reference == HostedExtraction(w.version)
    ensures St(s, owner, w) != Absent && St(s, owner, w).createdAt + GRACE <= s.clock
  {
    assert Explained(s.accounts[owner], s.clock);
  }

  /** An operator closes a hold only without a worker's lock on its version, and only when it is old enough. */
  lemma SettledByOperator(s: State, t: State, owner: Owner, w: Work, p: Purpose)
    requires Inv(s) && LockFree(s, w.version) && ByOperator(p)
    requires t == s.(accounts := t.accounts) && AccountsExplained(t)
    requires St(s, owner, w).Open? && St(s, owner, w).createdAt + GRACE <= s.clock
    requires St(t, owner, w) == Closed(St(s, owner, w).createdAt, p)
    requires forall o, v :: (o, v) != (owner, w) ==> St(t, o, v) == St(s, o, v)
    ensures Inv(t)
  {
    forall j | 0 <= j < |t.workers| ensures WorkerOk(t, t.workers[j]) {
      assert WorkerOk(s, s.workers[j]) && !HoldsLock(s.workers[j], w.version);
      TicketSeesOperator(s, t, s.workers[j], owner, w, p);
    }
    SettledCallsOk(s, t, owner, w);
    OneHoldStays(s, t, owner, w);
    assert forall o :: Charged(t, o, w) == Charged(s, o, w);
    HoldChangeKeepsInv(s, t, owner, w);
  }

  lemma OneHoldStays(s: State, t: State, owner: Owner, w: Work)
    requires OneHold(s) && St(s, owner, w) != Absent
    requires forall o, v :: (o, v) != (owner, w) ==> St(t, o, v) == St(s, o, v)
    ensures OneHold(t)
  {
    forall o, o', v | St(t, o, v) != Absent && St(t, o', v) != Absent ensures o == o' {
      assert St(s, o, v) != Absent && St(s, o', v) != Absent;
    }
  }

  lemma TicketSeesOperator(s: State, t: State, pc: Pc, owner: Owner, w: Work, p: Purpose)
    requires WorkerOk(s, pc) && !HoldsLock(pc, w.version) && ByOperator(p)
    requires t == s.(accounts := t.accounts)
    requires St(s, owner, w).Open? && St(s, owner, w).createdAt + GRACE <= s.clock
    requires St(t, owner, w) == Closed(St(s, owner, w).createdAt, p)
    requires forall o, v :: (o, v) != (owner, w) ==> St(t, o, v) == St(s, o, v)
    ensures WorkerOk(t, pc)
  {
  }

  lemma StepKeepsInv(s: State, a: Action)
    requires Inv(s)
    ensures Inv(Step(s, a))
  {
    match a
    case Tick(_) => SameStandingKeepsInv(s, Step(s, a));
    case ChangeInput(_, _) => SameStandingKeepsInv(s, Step(s, a));
    case OperatorGrant(owner, amount, key, reference) => GrantKeepsInv(s, owner, amount, key, reference);
    case Attempt(worker, version, extractor, expected, policy, createdAt) =>
      AttemptKeepsInv(s, worker, version, extractor, expected, policy, createdAt);
    case Relock(worker) => RelockKeepsInv(s, worker);
    case Recheck(worker, cached) => RecheckKeepsInv(s, worker, cached);
    case Finish(worker) => FinishKeepsInv(s, worker);
    case Crash(worker) => CrashKeepsInv(s, worker);
    case Resolve(owner, work, decision) => ResolveKeepsInv(s, owner, work, decision);
  }

  lemma {:induction false} RunKeepsInv(s: State, actions: seq<Action>)
    requires Inv(s)
    ensures Inv(Run(s, actions))
    decreases actions
  {
    if actions != [] {
      StepKeepsInv(s, actions[0]);
      RunKeepsInv(Step(s, actions[0]), actions[1..]);
    }
  }

  // ----- main results

  lemma {:induction false} CountFunded(calls: seq<Call>, w: Work)
    requires forall i, j :: 0 <= i < j < |calls| && calls[i].funding.Funded? && calls[j].funding.Funded? ==>
               calls[i].work != calls[j].work
    ensures FundedCalls(calls, w) <= 1
    ensures FundedCalls(calls, w) == 0 <==> forall i :: 0 <= i < |calls| && calls[i].work == w ==> calls[i].funding == Unfunded
  {
    if calls != [] {
      var rest, last := calls[..|calls| - 1], calls[|calls| - 1];
      CountFunded(rest, w);
      assert forall i :: 0 <= i < |rest| ==> calls[i] == rest[i];
      if last.work == w && last.funding.Funded? {
        assert forall i :: 0 <= i < |rest| && rest[i].work == w ==> rest[i].funding == Unfunded;
      }
    }
  }

  /** At most one credit-funded provider call ever starts for a version and extraction identity, under any
      interleaving of workers, crashes, input changes and operator decisions, whichever account pays. */
  lemma AtMostOneFundedCall(clock: int, workers: nat, actions: seq<Action>, w: Work)
    ensures FundedCalls(Run(Init(clock, workers), actions).calls, w) <= 1
  {
    InitInv(clock, workers);
    RunKeepsInv(Init(clock, workers), actions);
    CountFunded(Run(Init(clock, workers), actions).calls, w);
  }

  /** The calls for this work are paid by credits. */
  predicate FundedFor(calls: seq<Call>, w: Work) {
    forall i :: 0 <= i < |calls| && calls[i].work == w ==> calls[i].funding.Funded?
  }

  /** An attempt that could be for this work uses one of the policies a deployment permits (None: no policy). */
  ghost predicate Permitted(policies: iset<Option<Policy>>, w: Work, a: Action) {
    a.Attempt? && a.version == w.version && a.extractor == w.extraction.extractor ==> a.policy in policies
  }

  ghost predicate PermittedRun(policies: iset<Option<Policy>>, w: Work, actions: seq<Action>) {
    forall i :: 0 <= i < |actions| ==> Permitted(policies, w, actions[i])
  }

  lemma PermittedStepFunds(policies: iset<Option<Policy>>, s: State, a: Action, w: Work)
    requires None !in policies && Permitted(policies, w, a)
    requires FundedFor(s.calls, w)
    ensures FundedFor(Step(s, a).calls, w)
  {
  }

  lemma {:induction false} PermittedRunFunds(policies: iset<Option<Policy>>, s: State, actions: seq<Action>, w: Work)
    requires None !in policies && PermittedRun(policies, w, actions)
    requires FundedFor(s.calls, w)
    ensures FundedFor(Run(s, actions).calls, w)
    decreases actions
  {
    if actions != [] {
      assert forall i :: 0 <= i < |actions[1..]| ==> actions[1..][i] == actions[i + 1];
      PermittedStepFunds(policies, s, actions[0], w);
      PermittedRunFunds(policies, Step(s, actions[0]), actions[1..], w);
    }
  }

  lemma {:induction false} FundedForCount(calls: seq<Call>, w: Work)
    requires FundedFor(calls, w)
    ensures |CallsFor(calls, w)| == FundedCalls(calls, w)
  {
    if calls != [] {
      FundedForCount(calls[..|calls| - 1], w);
    }
  }

  /** With a policy on every attempt that could be for this work, at most one call of any kind starts for it,
      whatever happens to other work. */
  lemma AtMostOneCall(policies: iset<Option<Policy>>, clock: int, workers: nat, actions: seq<Action>, w: Work)
    requires None !in policies && PermittedRun(policies, w, actions)
    ensures |CallsFor(Run(Init(clock, workers), actions).calls, w)| <= 1
  {
    AtMostOneFundedCall(clock, workers, actions, w);
    PermittedRunFunds(policies, Init(clock, workers), actions, w);
    FundedForCount(Run(Init(clock, workers), actions).calls, w);
  }

  /** No run of a deployment starts two calls for this work. */
  ghost predicate NeverRepeats(policies: iset<Option<Policy>>, w: Work) {
    forall clock, workers, actions :: PermittedRun(policies, w, actions) ==>
      |CallsFor(Run(Init(clock, workers), actions).calls, w)| <= 1
  }

  /** A crash of an attempt without a policy releases the lock and leaves nothing behind. */
  function Repeating(w: Work): seq<Action> {
    var attempt := Attempt(0, w.version, w.extraction.extractor, None, None, 0);
    [ChangeInput(w.version, Some(w.extraction.document)), attempt, Crash(0), attempt]
  }

  lemma UnfundedAttempt(s: State, w: Work)
    requires s == State(0, map[], map[w.version := w.extraction.document], map[], [Idle], s.calls)
    ensures Step(s, Attempt(0, w.version, w.extraction.extractor, None, None, 0))
         == s.(workers := [CallingUnfunded(w)], calls := s.calls + [Call(w, Unfunded, 0)])
  {
    assert LockFree(s, w.version);
  }

  lemma RepeatingCallsTwice(w: Work)
    ensures |CallsFor(Run(Init(0, 1), Repeating(w)).calls, w)| == 2
  {
    var run := Repeating(w);
    var c := Call(w, Unfunded, 0);
    var s1 := State(0, map[], map[w.version := w.extraction.document], map[], [Idle], []);
    assert Step(Init(0, 1), run[0]) == s1 by { assert seq(1, i => Idle) == [Idle]; }
    UnfundedAttempt(s1, w);
    assert [] + [c] == [c];
    var s3 := s1.(calls := [c]);
    assert Step(s1.(workers := [CallingUnfunded(w)], calls := [c]), Crash(0)) == s3;
    UnfundedAttempt(s3, w);
    FourSteps(Init(0, 1), run[0], run[1], run[2], run[3]);
    assert [c] + [c] == [c, c];
    assert [c, c][..1] == [c] && [c][..0] == [];
    assert CallsFor([c], w) == [c];
  }

  /** The bound of one call holds for a piece of work exactly when every attempt that could be for it must
      carry a policy. */
  lemma NeverRepeatsIff(policies: iset<Option<Policy>>, w: Work)
    ensures NeverRepeats(policies, w) <==> None !in policies
  {
    if None !in policies {
      forall clock, workers, actions | PermittedRun(policies, w, actions)
        ensures |CallsFor(Run(Init(clock, workers), actions).calls, w)| <= 1
      {
        AtMostOneCall(policies, clock, workers, actions, w);
      }
    } else {
      RepeatingCallsTwice(w);
      assert PermittedRun(policies, w, Repeating(w));
    }
  }

  /** A call paid by credits needs an open hold and no such call before it; any other needs no hold at all. */
  ghost predicate MayStart(s: State, c: Call) {
    if c.funding.Funded?
    then HoldAt(s, c.funding.account, c.work)
         && RowAt(s, c.funding.account, c.work).status == L.Reserved
         && FundedCalls(s.calls, c.work) == 0
    else forall o :: !HoldAt(s, o, c.work)
  }

  /** Whichever way the status is read, a funded call starts only while the hold is really open, and no
      call without a policy starts once any hold exists. */
  lemma CallStartsUnderOpenHold(clock: int, workers: nat, actions: seq<Action>, a: Action)
    ensures var s := Run(Init(clock, workers), actions);
            Step(s, a).calls == s.calls || exists c :: Step(s, a).calls == s.calls + [c] && MayStart(s, c)
  {
    InitInv(clock, workers);
    RunKeepsInv(Init(clock, workers), actions);
    CallStart(Run(Init(clock, workers), actions), a);
  }

  lemma CallStart(s: State, a: Action)
    requires Inv(s)
    ensures Step(s, a).calls == s.calls || exists c :: Step(s, a).calls == s.calls + [c] && MayStart(s, c)
  {
    var t := Step(s, a);
    if t.calls != s.calls {
      if a.Recheck? {
        RecheckCall(s, a.worker, a.cached);
      } else {
        AttemptCall(s, a.worker, a.version, a.extractor, a.expected, a.policy, a.createdAt);
      }
    }
  }

  lemma RecheckCall(s: State, worker: nat, cached: bool)
    requires Inv(s) && DoRecheck(s, worker, cached).0.calls != s.calls
    ensures exists c :: DoRecheck(s, worker, cached).0.calls == s.calls + [c] && MayStart(s, c)
  {
    var pc := s.workers[worker];
    RecheckedHoldIsOpen(s, worker);
    assert WorkerOk(s, pc);
    CountFunded(s.calls, pc.work);
    assert MayStart(s, Call(pc.work, Funded(pc.account), s.clock));
  }

  lemma AttemptCall(s: State, worker: nat, version: nat, extractor: nat, expected: Option<Extraction>,
                    policy: Option<Policy>, createdAt: int)
    requires Inv(s) && DoAttempt(s, worker, version, extractor, expected, policy, createdAt).0.calls != s.calls
    ensures exists c :: DoAttempt(s, worker, version, extractor, expected, policy, createdAt).0.calls == s.calls + [c]
                        && MayStart(s, c)
  {
    var w := Work(version, Extraction(s.inputs[version], extractor));
    forall o ensures !HoldAt(s, o, w) {
      if o in s.accounts { PriorIsHold(s, o, w); assert !Prior(s, o, w); }
    }
    assert MayStart(s, Call(w, Unfunded, s.clock));
  }

  lemma HolderUnique(s: State, o: Owner, o': Owner, w: Work)
    requires OneHold(s)
    ensures St(s, o, w) != Absent && St(s, o', w) != Absent ==> o == o'
    ensures HoldAt(s, o, w) <==> St(s, o, w) != Absent
    ensures HoldAt(s, o', w) <==> St(s, o', w) != Absent
  {
  }

  lemma AttemptSpends(s: State, worker: nat, version: nat, extractor: nat, expected: Option<Extraction>,
                      policy: Option<Policy>, createdAt: int)
    ensures var t := DoAttempt(s, worker, version, extractor, expected, policy, createdAt).0;
            t.accounts == s.accounts
            || (policy.Some? && version in s.inputs
                && t.accounts == L.PerformFor(s.accounts, policy.value.account,
                                              ReserveFor(Work(version, Extraction(s.inputs[version], extractor)), policy.value, createdAt)).0)
  {
  }

  lemma RecheckSpends(s: State, worker: nat, cached: bool)
    ensures var t := DoRecheck(s, worker, cached).0;
            t.accounts == s.accounts
            || (worker < |s.workers| && s.workers[worker].Relocked?
                && t.accounts == L.PerformFor(s.accounts, s.workers[worker].account,
                                              SettleFor(s.workers[worker].work, ToRefund, L.ToRefundHold)).0)
  {
  }

  lemma FinishSpends(s: State, worker: nat)
    ensures var t := DoFinish(s, worker).0;
            t.accounts == s.accounts
            || (worker < |s.workers| && s.workers[worker].Calling?
                && t.accounts == L.PerformFor(s.accounts, s.workers[worker].account,
                                              SettleFor(s.workers[worker].work, ToCommit, L.ToCommitHold)).0)
  {
  }

  /** Every change of the accounts is one ledger request for one owner. */
  lemma AccountsChange(s: State, a: Action) returns (o: Owner, r: L.Request)
    ensures L.ExpectedKind(r) == L.InternalBudget
    ensures Step(s, a).accounts == s.accounts || Step(s, a).accounts == L.PerformFor(s.accounts, o, r).0
  {
    o, r := NamedOwner(""), SettleFor(Work(0, Extraction(0, 0)), ToCommit, L.ToCommitHold);
    match a
    case OperatorGrant(owner, amount, key, reference) =>
      o, r := owner, L.GrantRequest(L.InternalBudget, amount, key, reference);
    case Attempt(worker, version, extractor, expected, policy, createdAt) =>
      AttemptSpends(s, worker, version, extractor, expected, policy, createdAt);
      if policy.Some? && version in s.inputs {
        o := policy.value.account;
        r := ReserveFor(Work(version, Extraction(s.inputs[version], extractor)), policy.value, createdAt);
      }
    case Recheck(worker, cached) =>
      RecheckSpends(s, worker, cached);
      if worker < |s.workers| && s.workers[worker].Relocked? {
        o, r := s.workers[worker].account, SettleFor(s.workers[worker].work, ToRefund, L.ToRefundHold);
      }
    case Finish(worker) =>
      FinishSpends(s, worker);
      if worker < |s.workers| && s.workers[worker].Calling? {
        o, r := s.workers[worker].account, SettleFor(s.workers[worker].work, ToCommit, L.ToCommitHold);
      }
    case Resolve(owner, work, d) =>
      o, r := owner, SettleFor(work, OperatorPurpose(d), d);
    case _ =>
  }

  /** Settled holds stay settled. */
  lemma StepKeepsClosed(s: State, a: Action, o: Owner, w: Work)
    requires Inv(s) && HoldAt(s, o, w)
    ensures HoldAt(Step(s, a), o, w)
    ensures RowAt(s, o, w).status != L.Reserved ==> RowAt(Step(s, a), o, w) == RowAt(s, o, w)
  {
    var owner, r := AccountsChange(s, a);
    L.PerformForIsLater(s.accounts, owner, r, o);
  }

  function UnfundedCount(calls: seq<Call>, w: Work): int {
    |CallsFor(calls, w)| - FundedCalls(calls, w)
  }

  lemma QuietStep(s: State, a: Action, o: Owner, w: Work)
    requires Inv(s) && HoldAt(s, o, w)
    ensures RowAt(s, o, w).status != L.Reserved ==> CallsFor(Step(s, a).calls, w) == CallsFor(s.calls, w)
    ensures UnfundedCount(Step(s, a).calls, w) == UnfundedCount(s.calls, w)
  {
    var t := Step(s, a);
    CallStart(s, a);
    if t.calls != s.calls {
      var c :| t.calls == s.calls + [c] && MayStart(s, c);
      assert t.calls[..|t.calls| - 1] == s.calls;
      if c.work == w && c.funding.Funded? {
        HolderUnique(s, o, c.funding.account, w);
      }
    }
  }

  lemma {:induction false} QuietAfterHold(s: State, actions: seq<Action>, o: Owner, w: Work)
    requires Inv(s) && HoldAt(s, o, w)
    ensures RowAt(s, o, w).status != L.Reserved ==> CallsFor(Run(s, actions).calls, w) == CallsFor(s.calls, w)
    ensures UnfundedCount(Run(s, actions).calls, w) == UnfundedCount(s.calls, w)
    decreases actions
  {
    if actions != [] {
      StepKeepsInv(s, actions[0]);
      StepKeepsClosed(s, actions[0], o, w);
      QuietStep(s, actions[0], o, w);
      QuietAfterHold(Step(s, actions[0]), actions[1..], o, w);
    }
  }

  /** Once a hold is settled, by the worker or by the operator, no provider call for that work ever starts
      again; and once a hold exists at all, no call outside the credit policy does. */
  lemma NoCallAfterSettlement(clock: int, workers: nat, before: seq<Action>, after: seq<Action>, o: Owner, w: Work)
    ensures var s := Run(Init(clock, workers), before);
            var t := Run(s, after);
            HoldAt(s, o, w) ==>
              && (RowAt(s, o, w).status != L.Reserved ==> CallsFor(t.calls, w) == CallsFor(s.calls, w))
              && UnfundedCount(t.calls, w) == UnfundedCount(s.calls, w)
  {
    InitInv(clock, workers);
    RunKeepsInv(Init(clock, workers), before);
    var s := Run(Init(clock, workers), before);
    if HoldAt(s, o, w) {
      QuietAfterHold(s, after, o, w);
    }
  }

  /** A stored result is charged exactly when the worker's own commit entry stands in the paying ledger. */
  lemma ChargedIffStored(clock: int, workers: nat, actions: seq<Action>, o: Owner, w: Work)
    ensures var s := Run(Init(clock, workers), actions);
            (w in s.results && s.results[w] == Funded(o))
            <==> (HoldAt(s, o, w) && RowAt(s, o, w).status == L.Committed && Posted(s.accounts[o], w, ToCommit))
  {
    InitInv(clock, workers);
    RunKeepsInv(Init(clock, workers), actions);
    var s := Run(Init(clock, workers), actions);
    assert Charged(s, o, w) <==> w in s.results && s.results[w] == Funded(o);
    if o in s.accounts {
      assert Explained(s.accounts[o], s.clock);
    }
  }

  /** A refund issued by the worker means that no funded call was ever made for the work. */
  lemma WorkerRefundMeansNoCall(clock: int, workers: nat, actions: seq<Action>, o: Owner, w: Work)
    ensures var s := Run(Init(clock, workers), actions);
            o in s.accounts && Posted(s.accounts[o], w, ToRefund) ==> FundedCalls(s.calls, w) == 0
  {
    InitInv(clock, workers);
    RunKeepsInv(Init(clock, workers), actions);
    var s := Run(Init(clock, workers), actions);
    CountFunded(s.calls, w);
    if o in s.accounts && Posted(s.accounts[o], w, ToRefund) {
      assert Explained(s.accounts[o], s.clock);
      forall i | 0 <= i < |s.calls| && s.calls[i].work == w ensures s.calls[i].funding == Unfunded {
        assert CallOk(s, s.calls[i]);
        if s.calls[i].funding.Funded? {
          HolderUnique(s, o, s.calls[i].funding.account, w);
        }
      }
    }
  }

  /** A worker that fails at any point after its ticket, before, during or after its call, leaves the tables
      as they are: nothing stored, and its hold on record, open unless an operator closed it after the grace
      period; during the call it is always open.  The branch of the recheck that finds an existing result is
      never taken. */
  lemma FailureLeavesHoldOpen(clock: int, workers: nat, actions: seq<Action>, worker: nat)
    ensures var s := Run(Init(clock, workers), actions);
            worker < |s.workers| && HasTicket(s.workers[worker]) ==>
              var pc, t := s.workers[worker], Step(s, Crash(worker));
              && t == s.(workers := s.workers[worker := Idle])
              && pc.work !in t.results
              && HoldAt(t, pc.account, pc.work)
              && (RowAt(t, pc.account, pc.work).status == L.Reserved
                  || (!pc.Calling? && RowAt(t, pc.account, pc.work).createdAt + GRACE <= s.clock))
              && (!pc.Calling? ==> FundedCalls(t.calls, pc.work) == 0)
  {
    InitInv(clock, workers);
    RunKeepsInv(Init(clock, workers), actions);
    var s := Run(Init(clock, workers), actions);
    if worker < |s.workers| && HasTicket(s.workers[worker]) {
      assert WorkerOk(s, s.workers[worker]);
      CountFunded(s.calls, s.workers[worker].work);
    }
  }

  /** The fence spends by ledger requests only, so every account keeps the ledger's invariant. */
  ghost predicate Sound(s: State) {
    forall o :: o in s.accounts ==> L.Valid(s.accounts[o]) && s.accounts[o].kind == L.InternalBudget
  }

  lemma StepKeepsSound(s: State, a: Action)
    requires Sound(s)
    ensures Sound(Step(s, a))
  {
    var o, r := AccountsChange(s, a);
    L.PerformForKeepsValid(s.accounts, o, r);
    StepKeepsKinds(s, a);
  }

  lemma StepKeepsKinds(s: State, a: Action)
    requires forall o :: o in s.accounts ==> s.accounts[o].kind == L.InternalBudget
    ensures forall o :: o in Step(s, a).accounts ==> Step(s, a).accounts[o].kind == L.InternalBudget
  {
    var o, r := AccountsChange(s, a);
    KindsKept(s.accounts, o, r);
  }

  lemma {:induction false} LedgersStayValid(s: State, actions: seq<Action>)
    requires Sound(s)
    ensures Sound(Run(s, actions))
    decreases actions
  {
    if actions != [] {
      StepKeepsSound(s, actions[0]);
      LedgersStayValid(Step(s, actions[0]), actions[1..]);
    }
  }

  lemma KindsKept(accounts: map<Owner, L.Account>, o: Owner, r: L.Request)
    requires forall owner :: owner in accounts ==> accounts[owner].kind == L.InternalBudget
    requires L.ExpectedKind(r) == L.InternalBudget
    ensures var after := L.PerformFor(accounts, o, r).0;
            forall owner :: owner in after ==> after[owner].kind == L.InternalBudget
  {
  }
}
