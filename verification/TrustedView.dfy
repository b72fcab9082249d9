/** Conflicts between upstream and attachment claims, and the view that withholds them.

    Amount and currency are one group: they conflict together and are withheld together. */
module TrustedView {
  import opened Wrappers
  import opened Spans

  const AMOUNT := "estimated_amount"
  const CURRENCY := "currency"

  function BudgetFields(): set<string> {
    {AMOUNT, CURRENCY}
  }

  /** When a stated value means the same as the normalized one.  Comparing decimals, instants and lists of
      distinct items is left to the parameter; every other field is compared as it is. */
  datatype Comparison = Comparison(parsed: (string, Value, Value) -> bool)

  predicate IsParsedField(f: string) {
    f in [AMOUNT, "published_at", "closes_at"]
  }

  predicate Equivalent(c: Comparison, f: string, upstream: Value, stated: Value) {
    if IsParsedField(f) then c.parsed(f, upstream, stated)
    else if upstream.Items? && stated.Items? then
      (set i | i in upstream.items) == (set i | i in stated.items)
    else upstream == stated
  }

  /** What the schema guarantees of validated claims. */
  predicate Coherent(claims: Claims) {
    AMOUNT in claims <==> CURRENCY in claims
  }

  // ----- conflicts

  predicate Differs(c: Comparison, upstream: Claims, claims: Claims, f: string) {
    f in claims && f in upstream && upstream[f] != Items([]) && !Equivalent(c, f, upstream[f], claims[f])
  }

  /** A stated value differs from a normalized one that is no empty list: for numbers and instants if they are
      read differently, for two lists if some item is in one of them alone, and otherwise if it is another
      value. */
  lemma DiffersIff(c: Comparison, upstream: Claims, claims: Claims, f: string, was: Value, now: Value)
    requires f in upstream && f in claims && upstream[f] == was && claims[f] == now
    ensures f in {"estimated_amount", "published_at", "closes_at"} ==>
              (Differs(c, upstream, claims, f) <==> was != Items([]) && !c.parsed(f, was, now))
    ensures f !in {"estimated_amount", "published_at", "closes_at"} && was.Items? && now.Items? ==>
              (Differs(c, upstream, claims, f) <==> was.items != [] && exists i :: (i in was.items) != (i in now.items))
    ensures f !in {"estimated_amount", "published_at", "closes_at"} && !(was.Items? && now.Items?) ==>
              (Differs(c, upstream, claims, f) <==> was != Items([]) && was != now)
  {
    if was.Items? && now.Items? {
      ItemsDifferIff(was.items, now.items);
    }
  }

  lemma ItemsDifferIff(a: seq<string>, b: seq<string>)
    ensures (set i | i in a) != (set i | i in b) <==> exists i :: (i in a) != (i in b)
  {
    var these, those := set i | i in a, set i | i in b;
    if i :| (i in a) != (i in b) {
      assert (i in these) != (i in those);
    }
    if these != those {
      var i :| (i in these) != (i in those);
      assert (i in a) != (i in b);
    }
  }

  function Grouped(fields: set<string>): set<string> {
    if BudgetFields() * fields != {} then fields + BudgetFields() else fields
  }

  /** The fields recorded as conflicting when an extraction is stored.  `upstream` holds the normalized
      values that are not null. */
  method FindConflicts(c: Comparison, upstream: Claims, claims: Claims) returns (conflicts: set<string>)
    requires Coherent(claims)
    ensures conflicts == Grouped(set f | f in claims && Differs(c, upstream, claims, f))
    ensures forall f :: f in conflicts ==> f in claims
  {
    conflicts := {};
    var left := claims.Keys;
    while left != {}
      invariant left <= claims.Keys
      invariant conflicts == set f | f in claims && f !in left && Differs(c, upstream, claims, f)
      decreases left
    {
      var f :| f in left;
      left := left - {f};
      if f in upstream && upstream[f] != Items([]) && !Equivalent(c, f, upstream[f], claims[f]) {
        conflicts := conflicts + {f};
      }
    }
    assert conflicts == set f | f in claims && Differs(c, upstream, claims, f);
    if AMOUNT in conflicts || CURRENCY in conflicts {
      conflicts := conflicts + BudgetFields();
    }
  }

  // ----- the view

  function View(claims: Claims, recorded: set<string>): Claims {
    map f | f in claims && f !in Grouped(recorded) :: claims[f]
  }

  /** The claims that may be used, given the conflicts recorded with them. */
  method TrustedClaims(claims: Claims, recorded: set<string>) returns (fields: Claims)
    ensures fields == View(claims, recorded)
  {
    fields := claims;
    var withheld := recorded;
    if AMOUNT in recorded || CURRENCY in recorded {
      withheld := withheld + BudgetFields();
    }
    assert BudgetFields() * recorded != {} <==> AMOUNT in recorded || CURRENCY in recorded by {
      if AMOUNT in recorded { assert AMOUNT in BudgetFields() * recorded; }
      if CURRENCY in recorded { assert CURRENCY in BudgetFields() * recorded; }
    }
    var left := withheld;
    while left != {}
      invariant left <= withheld == Grouped(recorded)
      invariant fields == map f | f in claims && f !in withheld - left :: claims[f]
      decreases left
    {
      var f :| f in left;
      left := left - {f};
      fields := fields - {f};
    }
  }

  /** Whatever was recorded, amount and currency survive together or not at all; and recording conflicts
      with or without the group leads to the same view. */
  lemma ViewKeepsMoneyTogether(claims: Claims, recorded: set<string>)
    requires Coherent(claims)
    ensures Coherent(View(claims, recorded))
    ensures View(claims, recorded) == View(claims, Grouped(recorded))
  {
    if AMOUNT in recorded || CURRENCY in recorded {
      assert AMOUNT in BudgetFields() * recorded || CURRENCY in BudgetFields() * recorded;
    }
    assert Grouped(Grouped(recorded)) == Grouped(recorded);
  }

  /** A claim is withheld exactly when it differs from upstream, or is money and either half of the money
      does; so a claim that survives never contradicts upstream. */
  lemma WithheldIff(c: Comparison, upstream: Claims, claims: Claims, f: string)
    requires Coherent(claims) && f in claims
    ensures var recorded := set g | g in claims && Differs(c, upstream, claims, g);
            f !in View(claims, recorded)
            <==> Differs(c, upstream, claims, f)
                 || (f in BudgetFields() && (Differs(c, upstream, claims, AMOUNT) || Differs(c, upstream, claims, CURRENCY)))
  {
    var recorded := set g | g in claims && Differs(c, upstream, claims, g);
    if AMOUNT in recorded || CURRENCY in recorded {
      assert AMOUNT in BudgetFields() * recorded || CURRENCY in BudgetFields() * recorded;
    }
  }
}
