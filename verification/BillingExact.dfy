/** When a delivery is credited, and what it is reviewed for otherwise, in terms of the tables alone. */
module BillingExact {
  import opened Wrappers
  import opened Keys
  import L = Ledger
  import opened Billing

  /** The event is to be decided: its scope is valid, and neither it nor its invoice was dealt with. */
  predicate Undecided(s: State, scope: string, e: Event) {
    && ValidScope(scope) && (scope, e.id) !in s.observations
    && e.body.Paid? && (scope, e.body.invoice.id) !in s.applications
  }

  /** The customer is mapped and the price is registered for the very currency and amount that were paid. */
  predicate Priced(s: State, scope: string, i: Invoice) {
    && (scope, i.customer) in s.mappings && (scope, i.price) in s.policies
    && s.policies[(scope, i.price)].currency == i.currency
    && s.policies[(scope, i.price)].amount == i.amount
  }

  predicate FitsBalance(s: State, scope: string, i: Invoice)
    requires Priced(s, scope, i)
  {
    var o := s.mappings[(scope, i.customer)];
    o in s.accounts && s.accounts[o].available + s.policies[(scope, i.price)].units <= L.MAX_CREDITS
  }

  lemma PricedIsEligible(s: State, scope: string, i: Invoice)
    ensures Obstacle(s, scope, i) == None <==> Priced(s, scope, i)
  {
  }

  /** A delivery is credited exactly when its event and invoice are new, its customer is mapped, its price is
      registered for what was paid, and the units fit the balance; and then they are added to it. */
  lemma CreditedIff(s: State, scope: string, e: Event)
    requires Inv(s)
    ensures var (t, result) := ProcessEvent(s, scope, e);
            && (result.Success? && result.value.credited
                <==> Undecided(s, scope, e) && Priced(s, scope, e.body.invoice) && FitsBalance(s, scope, e.body.invoice))
            && (result.Success? && result.value.credited ==>
                  var i := e.body.invoice;
                  var o := s.mappings[(scope, i.customer)];
                  && o in s.accounts && o in t.accounts
                  && t.accounts == s.accounts[o := t.accounts[o]]
                  && t.accounts[o].available == s.accounts[o].available + s.policies[(scope, i.price)].units
                  && t.accounts[o].reserved == s.accounts[o].reserved)
            && (!(result.Success? && result.value.credited) ==> t.accounts == s.accounts && t.applications == s.applications)
  {
    if Undecided(s, scope, e) && Priced(s, scope, e.body.invoice) {
      PricedIsCredited(s, scope, e);
    } else {
      OthersAreNotCredited(s, scope, e);
    }
  }

  lemma PricedIsCredited(s: State, scope: string, e: Event)
    requires Inv(s) && Undecided(s, scope, e) && Priced(s, scope, e.body.invoice)
    ensures var (t, result) := ProcessEvent(s, scope, e);
            var i := e.body.invoice;
            var o := s.mappings[(scope, i.customer)];
            if FitsBalance(s, scope, i) then
              && result == Success(Receipt(Applied, true, false, None))
              && o in s.accounts && o in t.accounts
              && t.accounts == s.accounts[o := t.accounts[o]]
              && t.accounts[o].available == s.accounts[o].available + s.policies[(scope, i.price)].units
              && t.accounts[o].reserved == s.accounts[o].reserved
            else result == Failure(LedgerRefused(L.OutOfRange)) && t == s
  {
    PricedIsEligible(s, scope, e.body.invoice);
    CreditEffect(s, scope, e, e.body.invoice);
  }

  lemma OthersAreNotCredited(s: State, scope: string, e: Event)
    requires !(Undecided(s, scope, e) && Priced(s, scope, e.body.invoice))
    ensures var (t, result) := ProcessEvent(s, scope, e);
            !(result.Success? && result.value.credited) && t.accounts == s.accounts && t.applications == s.applications
  {
    if e.body.Paid? { PricedIsEligible(s, scope, e.body.invoice); }
  }

  /** What an undecided paid invoice is reviewed for, each with its exact condition: an unmapped customer
      first, then an unregistered price, then a price registered for something else. */
  lemma ReviewedIff(s: State, scope: string, e: Event)
    requires Inv(s) && Undecided(s, scope, e)
    ensures var (t, result) := ProcessEvent(s, scope, e);
            var i := e.body.invoice;
            && (result == Success(Receipt(Reviewed, false, false, Some(UnmappedCustomer)))
                <==> (scope, i.customer) !in s.mappings)
            && (result == Success(Receipt(Reviewed, false, false, Some(UnmappedPrice)))
                <==> (scope, i.customer) in s.mappings && (scope, i.price) !in s.policies)
            && (result == Success(Receipt(Reviewed, false, false, Some(PricePolicyMismatch)))
                <==> (scope, i.customer) in s.mappings && (scope, i.price) in s.policies
                     && (s.policies[(scope, i.price)].currency != i.currency || s.policies[(scope, i.price)].amount != i.amount))
            && (result == Failure(LedgerRefused(L.OutOfRange))
                <==> Priced(s, scope, i) && !FitsBalance(s, scope, i))
  {
    if Priced(s, scope, e.body.invoice) {
      PricedIsCredited(s, scope, e);
    } else {
      PricedIsEligible(s, scope, e.body.invoice);
    }
  }

  /** Every delivery that is not a replay and does not raise leaves one record of what it was: a duplicate when
      the invoice was applied before with the same content, and otherwise what the event itself says. */
  lemma RecordedOutcome(s: State, scope: string, e: Event)
    requires ValidScope(scope) && (scope, e.id) !in s.observations
    ensures var (t, result) := ProcessEvent(s, scope, e);
            && (e.body.Other? ==>
                  && result == Success(Receipt(if e.body.review.Some? then Reviewed else Observed, false, false, e.body.review))
                  && t.accounts == s.accounts && t.applications == s.applications)
            && (e.body.Paid? && (scope, e.body.invoice.id) in s.applications ==>
                  if s.applications[(scope, e.body.invoice.id)].invoice == e.body.invoice
                  then result == Success(Receipt(Duplicate, false, true, None)) && t.accounts == s.accounts && t.applications == s.applications
                  else result == Failure(InvoiceConflict) && t == s)
            && (result.Success? ==>
                  && t.observations.Keys == s.observations.Keys + {(scope, e.id)}
                  && t.observations[(scope, e.id)].raw == e.raw
                  && t.observations[(scope, e.id)].outcome == result.value.status
                  && t.observations[(scope, e.id)].review == result.value.review
                  && forall k :: k in s.observations ==> t.observations[k] == s.observations[k])
  {
    if e.body.Paid? && Obstacle(s, scope, e.body.invoice) == None {
      CreditRecords(s, scope, e, e.body.invoice);
    }
  }

  lemma CreditRecords(s: State, scope: string, e: Event, i: Invoice)
    requires (scope, e.id) !in s.observations && Obstacle(s, scope, i) == None
    ensures var (t, result) := Credit(s, scope, e, i);
            result.Success? ==>
              && t.observations == s.observations[(scope, e.id) := t.observations[(scope, e.id)]]
              && t.observations[(scope, e.id)].raw == e.raw
              && t.observations[(scope, e.id)].outcome == result.value.status
              && t.observations[(scope, e.id)].review == result.value.review
  {
  }

  /** A replay repeats what was recorded and credits nothing, and another content under the same event
      identity is refused. */
  lemma ReplayedOutcome(s: State, scope: string, e: Event)
    requires ValidScope(scope) && (scope, e.id) in s.observations
    ensures var o := s.observations[(scope, e.id)];
            ProcessEvent(s, scope, e)
            == (s, if o.raw == e.raw then Success(Receipt(o.outcome, false, true, o.review)) else Failure(EventConflict))
  {
  }

  /** A customer gets an empty sandbox account of its own, once; one that exists under that owner for another
      reason is never taken. */
  lemma RegistrationIff(s: State, scope: string, customer: string)
    ensures var (t, result) := RegisterCustomer(s, scope, customer);
            && (result == Failure(InvalidInput) <==> !(ValidScope(scope) && ValidId(customer, "cus")))
            && (result == Failure(AccountConflict)
                <==> ValidScope(scope) && ValidId(customer, "cus") && (scope, customer) !in s.mappings
                     && SandboxCustomer(scope, customer) in s.accounts)
            && (result.Success? ==>
                  && (scope, customer) in t.mappings && result.value == t.mappings[(scope, customer)]
                  && (if (scope, customer) in s.mappings then t == s
                      else
                        && result.value == SandboxCustomer(scope, customer) && result.value !in s.accounts
                        && result.value in t.accounts && t.accounts[result.value] == L.Empty(L.BillingSandbox)))
            && (result.Failure? ==> t == s)
  {
  }

  predicate ValidTerms(scope: string, price: string, p: PricePolicy) {
    && ValidScope(scope) && ValidId(price, "price") && ValidCurrency(p.currency)
    && 1 <= p.amount <= 2147483647 && 1 <= p.units <= 1000000
  }

  /** A price is registered once, for valid terms: the same terms again are accepted, other terms are refused. */
  lemma PriceIsFixed(s: State, scope: string, price: string, policy: PricePolicy)
    ensures var (t, result) := RegisterPrice(s, scope, price, policy);
            var known := (scope, price) in s.policies;
            && (result == Failure(InvalidInput) <==> !ValidTerms(scope, price, policy))
            && (result == Failure(PriceConflict)
                <==> ValidTerms(scope, price, policy) && known && s.policies[(scope, price)] != policy)
            && (result == Success(policy)
                <==> ValidTerms(scope, price, policy) && (known ==> s.policies[(scope, price)] == policy))
            && t == if result.Success? then s.(policies := s.policies[(scope, price) := policy]) else s
  {
    if (scope, price) in s.policies && s.policies[(scope, price)] == policy {
      assert s.policies[(scope, price) := policy] == s.policies;
    }
  }

  // ----- spelling

  predicate Lower(c: char) {
    'a' <= c <= 'z'
  }

  predicate Numeral(c: char) {
    '0' <= c <= '9'
  }

  predicate Alphanumeric(c: char) {
    Lower(c) || 'A' <= c <= 'Z' || Numeral(c)
  }

  /** A scope is one to 64 letters, numerals, underscores and hyphens that start with a letter or numeral. */
  lemma ScopeIff(s: string)
    ensures ValidScope(s)
            <==> 1 <= |s| <= 64 && Alphanumeric(s[0])
                 && forall i :: 0 <= i < |s| ==> Alphanumeric(s[i]) || s[i] == '_' || s[i] == '-'
  {
  }

  /** A currency is three lower-case letters. */
  lemma CurrencyIff(s: string)
    ensures ValidCurrency(s) <==> |s| == 3 && Lower(s[0]) && Lower(s[1]) && Lower(s[2])
  {
  }

  /** What stands before the underscore of an identifier, and what stands after it. */
  predicate IsWord(head: string) {
    head != "" && Lower(head[0]) && forall i :: 0 <= i < |head| ==> Lower(head[i]) || Numeral(head[i])
  }

  predicate IsTail(tail: string) {
    1 <= |tail| <= 190 && forall i :: 0 <= i < |tail| ==> Alphanumeric(tail[i]) || tail[i] == '_'
  }

  /** An identifier is at most 200 characters long and starts with its prefix and an underscore, and an
      underscore parts it into a lower-case word and a tail. */
  lemma IdIff(s: string, prefix: string)
    ensures ValidId(s, prefix)
            <==> |s| <= 200 && prefix + "_" <= s
                 && exists head, tail :: s == head + "_" + tail && IsWord(head) && IsTail(tail)
  {
    if ValidId(s, prefix) {
      var u :| 1 <= u < |s| - 1 && IsIdSplit(s, u);
      assert s == s[..u] + "_" + s[u + 1..] && IsWord(s[..u]) && IsTail(s[u + 1..]);
    }
    if head, tail :| s == head + "_" + tail && IsWord(head) && IsTail(tail) {
      assert IsIdSplit(s, |head|);
    }
  }
}
