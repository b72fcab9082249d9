/** The extraction service updating its tables in place.  Each method is one transaction of the program,
    proved to do exactly what the corresponding action of the transition system does. */
module FenceService {
  import opened Wrappers
  import opened Keys
  import L = Ledger
  import opened Fence

  class ExtractionTables {
    var clock: int
    var accounts: map<Owner, L.Account>
    var inputs: map<nat, nat>
    var results: map<Work, Funding>
    var workers: seq<Pc>
    var calls: seq<Call>

    ghost function View(): State
      reads this
    {
      State(clock, accounts, inputs, results, workers, calls)
    }

    constructor (clock: int, workerCount: nat)
      ensures View() == Init(clock, workerCount)
    {
      this.clock := clock;
      accounts, inputs, results, calls := map[], map[], map[], [];
      workers := seq(workerCount, i => Idle);
    }

    /** Locks and updates the account row; a request that raises changes nothing. */
    method Charge(owner: Owner, r: L.Request) returns (result: Result<L.Receipt, L.Error>)
      modifies this`accounts
      ensures (accounts, result) == L.PerformFor(old(accounts), owner, r)
    {
      var after;
      after, result := L.Charge(accounts, owner, r);
      accounts := after;
    }

    method IsLockFree(version: nat) returns (free: bool)
      ensures free == LockFree(View(), version)
    {
      var i := 0;
      while i < |workers|
        invariant 0 <= i <= |workers|
        invariant forall j :: 0 <= j < i ==> !HoldsLock(workers[j], version)
      {
        if HoldsLock(workers[i], version) {
          return false;
        }
        i := i + 1;
      }
      return true;
    }

    /** The global fence: any earlier hold for this work, whichever account it is on, stops the attempt. */
    method AssertNoPriorAttempt(w: Work) returns (raised: Option<Outcome>)
      ensures raised ==
        if exists o :: o in accounts && Prior(View(), o, w) && RowAt(View(), o, w).status == L.Reserved && Recent(View(), RowAt(View(), o, w))
        then Some(InProgress)
        else if exists o :: o in accounts && Prior(View(), o, w) then Some(ReviewRequired)
        else None
    {
      var owners := accounts.Keys;
      raised := None;
      while owners != {}
        invariant owners <= accounts.Keys
        invariant raised == None || raised == Some(ReviewRequired)
        invariant raised == None <==> forall o :: o in accounts && o !in owners ==> !Prior(View(), o, w)
        invariant forall o :: o in accounts && o !in owners && Prior(View(), o, w) ==>
                    !(RowAt(View(), o, w).status == L.Reserved && Recent(View(), RowAt(View(), o, w)))
        decreases owners
      {
        var o :| o in owners;
        owners := owners - {o};
        if Hold(w) in accounts[o].reservations {
          var row := accounts[o].reservations[Hold(w)];
          if row.reference.HostedExtraction? {
            if row.status == L.Reserved && row.createdAt > clock - GRACE {
              return Some(InProgress);
            }
            raised := Some(ReviewRequired);
          }
        }
      }
    }

    /** First transaction of persist_extraction: up to the durable hold, or to an unfunded call. */
    method BeginAttempt(worker: nat, version: nat, extractor: nat, expected: Option<Extraction>,
                        policy: Option<Policy>, createdAt: int) returns (outcome: Outcome)
      modifies this
      ensures (View(), outcome) == DoAttempt(old(View()), worker, version, extractor, expected, policy, createdAt)
    {
      if worker >= |workers| || workers[worker] != Idle || createdAt > clock {
        return Blocked;
      }
      var free := IsLockFree(version);
      if !free {
        return Blocked;
      }
      if version !in inputs {
        return NoSuitablePages;
      }
      var w := Work(version, Extraction(inputs[version], extractor));
      if expected.Some? && expected.value != w.extraction {
        return Stale;
      }
      if w in results {
        return Existing;
      }
      var raised := AssertNoPriorAttempt(w);
      if raised.Some? {
        return raised.value;
      }
      if policy.None? {
        workers := workers[worker := CallingUnfunded(w)];
        calls := calls + [Call(w, Unfunded, clock)];
        return CallStarted;
      }
      var charged := Charge(policy.value.account, ReserveFor(w, policy.value, createdAt));
      if charged.Failure? {
        return LedgerRefused(charged.error);
      }
      workers := workers[worker := Ticketed(w, policy.value.account)];
      return TicketIssued;
    }

    method TakeLockAgain(worker: nat) returns (outcome: Outcome)
      modifies this`workers
      ensures (View(), outcome) == DoRelock(old(View()), worker)
    {
      if worker >= |workers| || !workers[worker].Ticketed? {
        return Blocked;
      }
      var free := IsLockFree(workers[worker].work.version);
      if !free {
        return Blocked;
      }
      workers := workers[worker := Relocked(workers[worker].work, workers[worker].account)];
      return Done;
    }

    method AssertOpenReservation(account: Owner, w: Work, cached: bool) returns (open: bool)
      ensures open <==> Prior(View(), account, w)
                        && (cached || RowAt(View(), account, w).status == L.Reserved)
                        && Recent(View(), RowAt(View(), account, w))
    {
      if account !in accounts || Hold(w) !in accounts[account].reservations {
        return false;
      }
      var row := accounts[account].reservations[Hold(w)];
      if !row.reference.HostedExtraction? {
        return false;
      }
      var status := if cached then L.Reserved else row.status;
      return status == L.Reserved && !(row.createdAt <= clock - GRACE);
    }

    /** Second transaction, up to the provider call: recheck the hold and the input, refund or start. */
    method RecheckAndStart(worker: nat, cached: bool) returns (outcome: Outcome)
      modifies this
      ensures (View(), outcome) == DoRecheck(old(View()), worker, cached)
    {
      if worker >= |workers| || !workers[worker].Relocked? {
        return Blocked;
      }
      var w, account := workers[worker].work, workers[worker].account;
      var open := AssertOpenReservation(account, w, cached);
      if !open {
        workers := workers[worker := Idle];
        return ReviewRequired;
      }
      if w.version !in inputs || Extraction(inputs[w.version], w.extraction.extractor) != w.extraction || w in results {
        var charged := Charge(account, SettleFor(w, ToRefund, L.ToRefundHold));
        workers := workers[worker := Idle];
        return if charged.Failure? then ReviewRequired else Returned;
      }
      workers := workers[worker := Calling(w, account)];
      calls := calls + [Call(w, Funded(account), clock)];
      return CallStarted;
    }

    /** The provider answered: store the result, and with it the debit. */
    method StoreResult(worker: nat) returns (outcome: Outcome)
      modifies this
      ensures (View(), outcome) == DoFinish(old(View()), worker)
    {
      if worker >= |workers| || !(workers[worker].Calling? || workers[worker].CallingUnfunded?) {
        return Blocked;
      }
      var pc := workers[worker];
      workers := workers[worker := Idle];
      if pc.work in results {
        return ReviewRequired;
      }
      if pc.CallingUnfunded? {
        results := results[pc.work := Unfunded];
        return Stored;
      }
      var charged := Charge(pc.account, SettleFor(pc.work, ToCommit, L.ToCommitHold));
      if charged.Failure? {
        return ReviewRequired;
      }
      results := results[pc.work := Funded(pc.account)];
      return Stored;
    }

    method ResolveReservation(owner: Owner, w: Work, d: L.Decision) returns (outcome: Outcome)
      modifies this`accounts
      ensures (View(), outcome) == DoResolve(old(View()), owner, w, d)
    {
      if owner !in accounts || Hold(w) !in accounts[owner].reservations {
        return NotFound;
      }
      var row := accounts[owner].reservations[Hold(w)];
      if !row.reference.HostedExtraction? {
        return NotFound;
      }
      var free := IsLockFree(row.reference.version);
      if !free {
        return Blocked;
      }
      if row.createdAt > clock - GRACE {
        return TooRecent;
      }
      var charged := Charge(owner, SettleFor(w, OperatorPurpose(d), d));
      return if charged.Failure? then LedgerRefused(charged.error) else Settled;
    }
  }
}
