/** Which transactions of the extraction fence do something, and what, in terms of the tables alone. */
module FenceExact {
  import opened Wrappers
  import opened Keys
  import L = Ledger
  import X = LedgerExact
  import opened Fence
  import opened FenceSafety

  // ----- the first transaction

  /** Some account has a hold for the work. */
  ghost predicate Held(s: State, w: Work) {
    exists o :: o in s.accounts && ExtractionReservation(w.version, w.extraction) in s.accounts[o].reservations
  }

  /** The work of an attempt on the current input: nobody holds or stored it, and a job that knows what it
      expects expects just that. */
  ghost predicate IsOpenWork(s: State, version: nat, expected: Option<Extraction>, w: Work) {
    && version in s.inputs && w.version == version && w.extraction.document == s.inputs[version]
    && (expected.Some? ==> w.extraction == expected.value)
    && w !in s.results && !Held(s, w)
  }

  /** The account exists as an internal budget with the units available and room for them, and the key by
      which the worker reserves is fresh. */
  predicate CanReserve(s: State, w: Work, p: Policy) {
    && p.account in s.accounts && s.accounts[p.account].kind == L.InternalBudget
    && 1 <= p.units <= 2147483647 && p.units <= s.accounts[p.account].available
    && s.accounts[p.account].reserved + p.units <= 2147483647
    && !X.KeyTaken(s.accounts[p.account], TicketKey(w.version, w.extraction, ToReserve))
  }

  lemma HeldIsPrior(s: State, o: Owner, w: Work)
    requires AccountsExplained(s)
    ensures Prior(s, o, w) <==> o in s.accounts && ExtractionReservation(w.version, w.extraction) in s.accounts[o].reservations
  {
    if o in s.accounts { assert Explained(s.accounts[o], s.clock); }
  }

  lemma ReservationNeeds(s: State, w: Work, p: Policy, at: int)
    requires AccountsExplained(s) && Sound(s) && !Held(s, w)
    ensures L.PerformFor(s.accounts, p.account, ReserveFor(w, p, at)).1.Success? <==> CanReserve(s, w, p)
  {
    var a := if p.account in s.accounts then s.accounts[p.account] else L.Empty(L.InternalBudget);
    assert a.kind == L.InternalBudget && 0 <= a.reserved;
    assert Hold(w) !in a.reservations;
    if X.KeyTaken(a, Ticket(w, ToReserve)) {
      X.FreshIsNotFound(a, Ticket(w, ToReserve));
      UnpostedKeyIsForeign(a, w, s.clock, ReserveFor(w, p, at));
    } else {
      X.ReserveSucceedsIff(a, p.units, Hold(w), Ticket(w, ToReserve), HostedExtraction(w.version), at);
    }
  }

  /** Without a hold, an entry under the reservation key is not a reservation. */
  lemma UnpostedKeyIsForeign(a: L.Account, w: Work, clock: int, r: L.Request)
    requires Explained(a, clock) && Hold(w) !in a.reservations
    requires r.ReserveRequest? && r.key == Ticket(w, ToReserve) && L.Lookup(a.entries, r.key).Some?
    ensures L.Perform(a, r).result.Failure?
  {
    assert !Posted(a, w, ToReserve);
  }

  lemma NobodyHolds(s: State, w: Work)
    requires AccountsExplained(s)
    ensures Held(s, w) <==> exists o :: o in s.accounts && Prior(s, o, w)
  {
    forall o ensures Prior(s, o, w) <==> o in s.accounts && Hold(w) in s.accounts[o].reservations { HeldIsPrior(s, o, w); }
  }

  /** The lock of a version is held exactly while some worker is between taking it for the second time and the
      end of its work on that version. */
  lemma LockedIff(s: State, version: nat)
    ensures !LockFree(s, version) <==> exists i :: 0 <= i < |s.workers| && LockOf(s.workers[i]) == Some(version)
  {
    forall pc: Pc ensures HoldsLock(pc, version) <==> LockOf(pc) == Some(version) { }
  }

  function LockOf(pc: Pc): Option<nat> {
    match pc
    case Relocked(w, _) => Some(w.version)
    case Calling(w, _) => Some(w.version)
    case CallingUnfunded(w) => Some(w.version)
    case Ticketed(_, _) => None
    case Idle => None
  }

  predicate MayAttempt(s: State, worker: nat, version: nat) {
    worker < |s.workers| && s.workers[worker] == Idle && LockFree(s, version) && version in s.inputs
  }

  /** Everything else that stops an attempt before the policy is looked at. */
  lemma OnlyOpenWorkGoesOn(s: State, worker: nat, version: nat, extractor: nat, expected: Option<Extraction>, policy: Option<Policy>, at: int)
    requires AccountsExplained(s) && at <= s.clock
    requires !(MayAttempt(s, worker, version) && IsOpenWork(s, version, expected, Work(version, Extraction(s.inputs[version], extractor))))
    ensures var (t, outcome) := DoAttempt(s, worker, version, extractor, expected, policy, at);
            t == s && outcome != TicketIssued && outcome != CallStarted
  {
    if version in s.inputs {
      NobodyHolds(s, Work(version, Extraction(s.inputs[version], extractor)));
    }
  }

  lemma OpenWorkGoesOn(s: State, worker: nat, version: nat, extractor: nat, expected: Option<Extraction>, policy: Option<Policy>, at: int)
    requires AccountsExplained(s) && at <= s.clock && MayAttempt(s, worker, version)
    requires IsOpenWork(s, version, expected, Work(version, Extraction(s.inputs[version], extractor)))
    ensures var w := Work(version, Extraction(s.inputs[version], extractor));
            var (t, outcome) := DoAttempt(s, worker, version, extractor, expected, policy, at);
            match policy
            case None =>
              outcome == CallStarted && t == StartCall(s, worker, CallingUnfunded(w), Call(w, Unfunded, s.clock))
            case Some(p) =>
              var (accounts, result) := L.PerformFor(s.accounts, p.account, ReserveFor(w, p, at));
              if result.Success? then outcome == TicketIssued && t == Move(s.(accounts := accounts), worker, Ticketed(w, p.account))
              else outcome == LedgerRefused(result.error) && t == s
  {
    NobodyHolds(s, Work(version, Extraction(s.inputs[version], extractor)));
  }

  /** An attempt under a policy issues a ticket exactly when the worker is idle, the version unlocked, the work
      open and not stale, and the account can pay; and the ticket is for that work and that account. */
  lemma TicketIff(s: State, worker: nat, version: nat, extractor: nat, expected: Option<Extraction>, p: Policy, at: int)
    requires Inv(s) && Sound(s) && at <= s.clock
    ensures var (t, outcome) := DoAttempt(s, worker, version, extractor, expected, Some(p), at);
            && (outcome == TicketIssued <==>
                  && MayAttempt(s, worker, version)
                  && var w := Work(version, Extraction(s.inputs[version], extractor));
                  IsOpenWork(s, version, expected, w) && CanReserve(s, w, p))
            && (outcome != TicketIssued ==> t == s)
            && (outcome == TicketIssued ==>
                  t.workers == s.workers[worker := Ticketed(Work(version, Extraction(s.inputs[version], extractor)), p.account)])
  {
    if MayAttempt(s, worker, version) && IsOpenWork(s, version, expected, Work(version, Extraction(s.inputs[version], extractor))) {
      OpenWorkGoesOn(s, worker, version, extractor, expected, Some(p), at);
      ReservationNeeds(s, Work(version, Extraction(s.inputs[version], extractor)), p, at);
    } else {
      OnlyOpenWorkGoesOn(s, worker, version, extractor, expected, Some(p), at);
    }
  }

  /** An attempt without a policy calls the provider exactly when the work is open and not stale. */
  lemma UnfundedCallIff(s: State, worker: nat, version: nat, extractor: nat, expected: Option<Extraction>, at: int)
    requires Inv(s) && at <= s.clock
    ensures var (t, outcome) := DoAttempt(s, worker, version, extractor, expected, None, at);
            && (outcome == CallStarted <==>
                  && MayAttempt(s, worker, version)
                  && IsOpenWork(s, version, expected, Work(version, Extraction(s.inputs[version], extractor))))
            && (outcome != CallStarted ==> t == s)
            && (outcome == CallStarted ==>
                  && t.calls == s.calls + [Call(Work(version, Extraction(s.inputs[version], extractor)), Unfunded, s.clock)]
                  && t.accounts == s.accounts && t.results == s.results)
  {
    if MayAttempt(s, worker, version) && IsOpenWork(s, version, expected, Work(version, Extraction(s.inputs[version], extractor))) {
      OpenWorkGoesOn(s, worker, version, extractor, expected, None, at);
    } else {
      OnlyOpenWorkGoesOn(s, worker, version, extractor, expected, None, at);
    }
  }

  /** A job that expects another extraction than the current input gives does nothing at all: it reserves no
      credits, takes no lock and calls no provider. */
  lemma StaleJobDoesNothing(s: State, worker: nat, version: nat, extractor: nat, x: Extraction, policy: Option<Policy>, at: int)
    requires version in s.inputs ==> x.document != s.inputs[version] || x.extractor != extractor
    ensures Step(s, Attempt(worker, version, extractor, Some(x), policy, at)) == s
  {
  }

  /** In any run, whatever a job starts is what it expects, on the input that is current then. */
  lemma JobStartsWhatItExpects(s: State, worker: nat, version: nat, extractor: nat, x: Extraction, policy: Option<Policy>, at: int)
    requires Step(s, Attempt(worker, version, extractor, Some(x), policy, at)) != s
    ensures var t := Step(s, Attempt(worker, version, extractor, Some(x), policy, at));
            && worker < |t.workers| && t.workers[worker] != Idle
            && t.workers[worker].work == Work(version, x)
            && version in s.inputs && x == Extraction(s.inputs[version], extractor)
            && (|t.calls| > |s.calls| ==> t.calls[|s.calls|].work == Work(version, x))
  {
  }

  /** What stops an attempt that could otherwise start, in the order in which it is noticed. */
  lemma AttemptRefusals(s: State, worker: nat, version: nat, extractor: nat, expected: Option<Extraction>, policy: Option<Policy>, at: int)
    requires AccountsExplained(s) && OneHold(s) && at <= s.clock
    requires worker < |s.workers| && s.workers[worker] == Idle && LockFree(s, version)
    ensures var (t, outcome) := DoAttempt(s, worker, version, extractor, expected, policy, at);
            && (outcome == NoSuitablePages <==> version !in s.inputs)
            && (version in s.inputs ==>
                  var w := Work(version, Extraction(s.inputs[version], extractor));
                  && (outcome == Stale <==> expected.Some? && expected.value != w.extraction)
                  && (outcome == Existing <==> (expected.Some? ==> expected.value == w.extraction) && w in s.results)
                  && (outcome == InProgress <==>
                        && (expected.Some? ==> expected.value == w.extraction) && w !in s.results
                        && InFlight(s, w, s.clock - 120))
                  && (outcome == ReviewRequired <==>
                        && (expected.Some? ==> expected.value == w.extraction) && w !in s.results
                        && Held(s, w) && !InFlight(s, w, s.clock - 120)))
  {
    if version in s.inputs {
      var w := Work(version, Extraction(s.inputs[version], extractor));
      forall o ensures Prior(s, o, w) <==> o in s.accounts && Hold(w) in s.accounts[o].reservations { HeldIsPrior(s, o, w); }
      forall o ensures OpenSince(s, o, w, s.clock - 120) <==>
                       o in s.accounts && Prior(s, o, w) && RowAt(s, o, w).status == L.Reserved && Recent(s, RowAt(s, o, w)) {}
    }
  }

  /** The account has an open hold for the work that was made after the instant. */
  predicate OpenSince(s: State, o: Owner, w: Work, since: int) {
    && o in s.accounts && ExtractionReservation(w.version, w.extraction) in s.accounts[o].reservations
    && var row := s.accounts[o].reservations[ExtractionReservation(w.version, w.extraction)];
    row.status == L.Reserved && row.createdAt > since
  }

  ghost predicate InFlight(s: State, w: Work, since: int) {
    exists o :: OpenSince(s, o, w, since)
  }

  // ----- after the second lock

  /** The recheck starts a call exactly for a hold made less than two minutes ago, read as open, on unchanged
      input; nothing else about the tables changes. */
  lemma RecheckStartsIff(s: State, worker: nat, cached: bool)
    requires Inv(s) && worker < |s.workers| && s.workers[worker].Relocked?
    ensures var (t, outcome) := DoRecheck(s, worker, cached);
            var w, o := s.workers[worker].work, s.workers[worker].account;
            && (outcome == CallStarted <==>
                  && OpenSince(s, o, w, s.clock - 120)
                  && w.version in s.inputs && s.inputs[w.version] == w.extraction.document)
            && (outcome == CallStarted ==>
                  && t.calls == s.calls + [Call(w, Funded(o), s.clock)] && t.accounts == s.accounts && t.results == s.results)
            && (outcome != CallStarted ==> t.calls == s.calls && t.results == s.results && t.workers[worker] == Idle)
            && (!OpenSince(s, o, w, s.clock - 120) ==> outcome == ReviewRequired && t.accounts == s.accounts)
  {
    var w, o := s.workers[worker].work, s.workers[worker].account;
    assert WorkerOk(s, s.workers[worker]);
    HeldIsPrior(s, o, w);
    if Prior(s, o, w) && Recent(s, RowAt(s, o, w)) {
      RecheckedHoldIsOpen(s, worker);
    }
  }

  /** In whatever state the tables are, no call starts for stored work, nor under a hold that is read as settled. */
  lemma RecheckGuards(s: State, worker: nat, cached: bool)
    requires DoRecheck(s, worker, cached).1 == CallStarted
    ensures var pc := s.workers[worker];
            && pc.work !in s.results && Prior(s, pc.account, pc.work)
            && (cached || RowAt(s, pc.account, pc.work).status == L.Reserved)
  {
  }

  /** An unfunded call's result is stored, and nothing is charged for it. */
  lemma UnfundedResultIsStored(s: State, worker: nat)
    requires Inv(s) && worker < |s.workers| && s.workers[worker].CallingUnfunded?
    ensures var (t, outcome) := DoFinish(s, worker);
            && outcome == Stored && t.accounts == s.accounts && t.calls == s.calls
            && t.results == s.results[s.workers[worker].work := Unfunded] && t.workers[worker] == Idle
  {
    assert WorkerOk(s, s.workers[worker]);
  }

  // ----- the surroundings

  /** What time, new attachments and failing workers do to the tables. */
  lemma SurroundingsAct(s: State, seconds: nat, version: nat, document: nat, worker: nat)
    requires worker < |s.workers|
    ensures Step(s, Tick(seconds)).clock == s.clock + seconds && Step(s, Tick(seconds)) == s.(clock := s.clock + seconds)
    ensures var t := Step(s, ChangeInput(version, Some(document)));
            t == s.(inputs := t.inputs) && t.inputs == s.inputs[version := document]
    ensures var t := Step(s, ChangeInput(version, None));
            t == s.(inputs := t.inputs) && t.inputs == s.inputs - {version}
    ensures Step(s, Crash(worker)) == s.(workers := s.workers[worker := Idle])
  {
  }

  /** A ticket's lock is taken again exactly when the version is free. */
  lemma RelockIff(s: State, worker: nat, w: Work, o: Owner)
    requires worker < |s.workers| && s.workers[worker] == Ticketed(w, o)
    ensures Step(s, Relock(worker)) == if LockFree(s, w.version) then s.(workers := s.workers[worker := Relocked(w, o)]) else s
  {
  }

  /** A grant under a fresh key, to a budget or to an owner without an account, adds its units exactly when
      they fit. */
  lemma GrantAdds(s: State, o: Owner, amount: int, key: IdempotencyKey, reference: Reference)
    requires o in s.accounts ==> s.accounts[o].kind == L.InternalBudget && !X.KeyTaken(s.accounts[o], key)
    ensures var before := if o in s.accounts then s.accounts[o].available else 0;
            var t := Step(s, OperatorGrant(o, amount, key, reference));
            if 1 <= amount && before + amount <= 2147483647 && amount <= 2147483647
            then o in t.accounts && t == s.(accounts := s.accounts[o := t.accounts[o]]) && t.accounts[o].available == before + amount
                 && t.accounts[o].reserved == if o in s.accounts then s.accounts[o].reserved else 0
            else t == s
  {
    X.GrantSucceedsIff(if o in s.accounts then s.accounts[o] else L.Empty(L.InternalBudget), L.InternalBudget, amount, key, reference);
  }

  // ----- the operator

  /** What an operator is told about a hold that is not settled. */
  lemma ResolveRefusals(s: State, o: Owner, w: Work, d: L.Decision)
    requires AccountsExplained(s)
    ensures var (t, outcome) := DoResolve(s, o, w, d);
            && (outcome == NotFound <==> !(o in s.accounts && ExtractionReservation(w.version, w.extraction) in s.accounts[o].reservations))
            && (outcome == TooRecent <==>
                  && o in s.accounts && ExtractionReservation(w.version, w.extraction) in s.accounts[o].reservations
                  && LockFree(s, w.version)
                  && s.accounts[o].reservations[ExtractionReservation(w.version, w.extraction)].createdAt > s.clock - 120)
            && (outcome in {NotFound, TooRecent, Blocked} ==> t == s)
            && t.calls == s.calls && t.results == s.results && t.workers == s.workers
  {
    HeldIsPrior(s, o, w);
    if o in s.accounts { assert Explained(s.accounts[o], s.clock); }
  }
}
