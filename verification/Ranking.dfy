/** The deterministic ranking score in exact arithmetic: its range, its monotonicity and its rounding. */
module Ranking {
  import opened Wrappers

  const SCALE := 100000.0          // five decimal places
  const ROUNDING := 0.000005       // half a unit in the last place

  datatype Features = Features(lexical: real, capability: real, category: real, amount: real, recency: real)

  // ----- features

  predicate InUnit(x: real) {
    0.0 <= x <= 1.0
  }

  /** Case folding, tokenizing and upper-casing are arbitrary total functions of their text. */
  datatype Words = Words(norm: string -> string, tokens: string -> set<string>, upper: string -> string)

  datatype Profile = Profile(industries: seq<string>, capabilities: seq<string>,
                             lower: Option<real>, upper: Option<real>, currency: Option<string>)

  datatype Opportunity = Opportunity(title: string, body: string, category: Option<string>, required: seq<string>,
                                     amount: Option<real>, currency: Option<string>)

  /** Share of the wanted words that are found; zero when nothing is wanted. */
  function Share(wanted: set<string>, found: set<string>): real {
    if wanted == {} then 0.0 else |wanted * found| as real / |wanted| as real
  }

  function Max(a: real, b: real): real {
    if a < b then b else a
  }

  function Abs(x: real): real {
    if x < 0.0 then -x else x
  }

  function Tokens(w: Words, texts: seq<string>): set<string> {
    set t, token | t in texts && token in w.tokens(w.norm(t)) :: token
  }

  function LexicalScore(w: Words, p: Profile, o: Opportunity): real {
    Share(Tokens(w, p.industries + p.capabilities),
          Tokens(w, [o.title, o.body, if o.category.Some? then o.category.value else ""]))
  }

  predicate Occurs(part: string, text: string) {
    exists i :: 0 <= i <= |text| - |part| && OccursAt(part, text, i)
  }

  predicate OccursAt(part: string, text: string, i: nat)
    requires i + |part| <= |text|
  {
    text[i..i + |part|] == part
  }

  /** The required capabilities, blank ones left out. */
  function Required(w: Words, o: Opportunity): set<string> {
    set c | c in o.required && w.norm(c) != "" :: w.norm(c)
  }

  /** The profile's own capabilities that the text names. */
  function Named(w: Words, p: Profile, o: Opportunity): set<string> {
    set c | c in p.capabilities && Occurs(w.norm(c), w.norm(o.title + " " + o.body)) :: w.norm(c)
  }

  function Owned(w: Words, p: Profile): set<string> {
    set c | c in p.capabilities :: w.norm(c)
  }

  function CapabilityScore(w: Words, p: Profile, o: Opportunity): real {
    Share(if Required(w, o) != {} then Required(w, o) else Named(w, p, o), Owned(w, p))
  }

  function CategoryScore(w: Words, p: Profile, o: Opportunity): real {
    if o.category == None || o.category.value == "" || p.industries == [] then 0.0
    else if exists i :: i in p.industries && w.norm(i) == w.norm(o.category.value) then 1.0 else 0.0
  }

  datatype AmountReason = AmountUnknown | ProfileCurrencyUnknown | CurrencyMismatch | BelowRange | AboveRange | WithinRange

  function AmountScore(w: Words, p: Profile, o: Opportunity): (real, AmountReason)
  {
    var amount, currency, profileCurrency, lower, upper := o.amount, o.currency, p.currency, p.lower, p.upper;
    if amount == None || currency == None then (0.0, AmountUnknown)
    else if profileCurrency == None then (0.0, ProfileCurrencyUnknown)
    else if w.upper(currency.value) != w.upper(profileCurrency.value) then (0.0, CurrencyMismatch)
    else if lower.Some? && amount.value < lower.value then (0.0, BelowRange)
    else if upper.Some? && amount.value > upper.value then (0.0, AboveRange)
    else if lower == None || upper == None || upper.value <= lower.value then (1.0, WithinRange)
    else
      var midpoint := (lower.value + upper.value) / 2.0;
      var half := (upper.value - lower.value) / 2.0;
      (Max(0.0, 1.0 - Abs(amount.value - midpoint) / half), WithinRange)
  }

  /** Days since publication and until the deadline, when known; None for publication after the instant. */
  function RecencyScore(age: Option<real>, remaining: Option<real>): Option<real> {
    if age.Some? && age.value < 0.0 then None
    else if remaining.Some? && remaining.value < 0.0 then Some(0.0)
    else
      var recency := if age.Some? then Max(0.0, 1.0 - age.value / 30.0) else 0.0;
      var deadline := if remaining.Some? then Max(0.0, 1.0 - remaining.value / 45.0) else 0.0;
      Some((recency + deadline) / 2.0)
  }

  lemma SharesInUnit(wanted: set<string>, found: set<string>)
    ensures InUnit(Share(wanted, found))
    ensures wanted != {} ==> (Share(wanted, found) == 1.0 <==> wanted <= found)
  {
    if wanted != {} {
      var both, missing := wanted * found, wanted - found;
      assert wanted == both + missing;
      assert |wanted| == |both| + |missing|;
      QuotientOfCounts(|both|, |wanted|);
      assert missing == {} <==> wanted <= found;
    }
  }

  lemma QuotientOfCounts(part: nat, whole: nat)
    requires part <= whole && whole > 0
    ensures InUnit(part as real / whole as real)
    ensures part as real / whole as real == 1.0 <==> part == whole
  {
    var q := part as real / whole as real;
    assert q * whole as real == part as real;
    if part == whole { assert q == 1.0; }
  }

  /** Without usable requirements the capability score is all or nothing: one exactly when the text names a
      capability of the profile.  A capability that normalizes to nothing is named by every text. */
  lemma CapabilityIsAllOrNothing(w: Words, p: Profile, o: Opportunity)
    requires Required(w, o) == {}
    ensures CapabilityScore(w, p, o)
         == if exists c :: c in p.capabilities && Occurs(w.norm(c), w.norm(o.title + " " + o.body)) then 1.0 else 0.0
    ensures (exists c :: c in p.capabilities && w.norm(c) == "") ==> CapabilityScore(w, p, o) == 1.0
  {
    var text := w.norm(o.title + " " + o.body);
    SharesInUnit(Named(w, p, o), Owned(w, p));
    if c :| c in p.capabilities && Occurs(w.norm(c), text) {
      assert w.norm(c) in Named(w, p, o);
    }
    forall c | c in p.capabilities && w.norm(c) == "" ensures Occurs(w.norm(c), text) {
      assert OccursAt(w.norm(c), text, 0);
    }
  }

  /** The amount score lies in the unit interval, and is positive only for a known amount within the range
      and in the profile's currency, upper and lower case aside. */
  lemma AmountsInUnit(w: Words, p: Profile, o: Opportunity)
    ensures InUnit(AmountScore(w, p, o).0)
    ensures AmountScore(w, p, o).0 > 0.0 ==>
              && o.amount.Some? && o.currency.Some? && p.currency.Some?
              && w.upper(o.currency.value) == w.upper(p.currency.value)
              && (p.lower.Some? ==> p.lower.value <= o.amount.value) && (p.upper.Some? ==> o.amount.value <= p.upper.value)
  {
    if o.amount.Some? && p.lower.Some? && p.upper.Some? && p.upper.value > p.lower.value {
      var off := Abs(o.amount.value - (p.lower.value + p.upper.value) / 2.0);
      QuotientNonnegative(off, (p.upper.value - p.lower.value) / 2.0);
    }
  }

  lemma QuotientNonnegative(x: real, y: real)
    requires x >= 0.0 && y > 0.0
    ensures x / y >= 0.0
  {
  }

  lemma RecencyInUnit(age: Option<real>, remaining: Option<real>)
    requires RecencyScore(age, remaining).Some?
    ensures InUnit(RecencyScore(age, remaining).value)
  {
  }

  // ----- rounding

  /** Decimal.quantize to five places with ties to even, in units of the last place. */
  function Units(x: real): int {
    var scaled := x * SCALE;
    var down := scaled.Floor;
    var rest := scaled - down as real;
    if rest < 0.5 then down else if rest > 0.5 then down + 1 else if down % 2 == 0 then down else down + 1
  }

  function Quantize(x: real): real {
    Units(x) as real / SCALE
  }

  function Clamp(x: real): real {
    if x < 0.0 then 0.0 else if x > 1.0 then 1.0 else x
  }

  function Bounded(x: real): real {
    Quantize(Clamp(x))
  }

  lemma QuantizeIsClose(x: real)
    ensures x - ROUNDING <= Quantize(x) <= x + ROUNDING
  {
  }

  /** Rounding is to the nearest fifth decimal place, and of two equally near to the even one. */
  lemma TiesGoToEven(x: real)
    ensures -0.5 <= x * SCALE - Units(x) as real <= 0.5
    ensures x * SCALE - Units(x) as real == 0.5 || x * SCALE - Units(x) as real == -0.5 ==> Units(x) % 2 == 0
  {
  }

  lemma QuantizeMonotone(x: real, y: real)
    requires x <= y
    ensures Quantize(x) <= Quantize(y)
  {
    var a, b := (x * SCALE).Floor, (y * SCALE).Floor;
    assert Units(x) <= Units(y);
  }

  lemma BoundedInUnit(x: real)
    ensures InUnit(Bounded(x))
  {
    assert Units(0.0) == 0 && Units(1.0) == 100000;
    QuantizeMonotone(0.0, Clamp(x));
    QuantizeMonotone(Clamp(x), 1.0);
  }

  // ----- the score

  function Weighted(f: Features): real {
    f.lexical * 0.25 + f.capability * 0.25 + f.category * 0.20 + f.amount * 0.15 + f.recency * 0.15
  }

  function Rounded(f: Features): Features {
    Features(Bounded(f.lexical), Bounded(f.capability), Bounded(f.category), Bounded(f.amount), Bounded(f.recency))
  }

  function FeatureScore(f: Features): real {
    Bounded(Weighted(Rounded(f)))
  }

  function FinalScore(f: Features, semantic: Option<real>): real {
    if semantic == None then FeatureScore(f)
    else Bounded(FeatureScore(f) * 0.80 + Bounded(semantic.value) * 0.20)
  }

  predicate AllInUnit(f: Features) {
    InUnit(f.lexical) && InUnit(f.capability) && InUnit(f.category) && InUnit(f.amount) && InUnit(f.recency)
  }

  predicate AtMost(f: Features, g: Features) {
    && f.lexical <= g.lexical && f.capability <= g.capability && f.category <= g.category
    && f.amount <= g.amount && f.recency <= g.recency
  }

  lemma RoundedInUnit(f: Features)
    ensures AllInUnit(Rounded(f))
  {
    BoundedInUnit(f.lexical);
    BoundedInUnit(f.capability);
    BoundedInUnit(f.category);
    BoundedInUnit(f.amount);
    BoundedInUnit(f.recency);
  }

  /** The weights sum to one, so neither clamp of the score ever changes a value. */
  lemma ClampIsIdle(f: Features, semantic: Option<real>)
    ensures Clamp(Weighted(Rounded(f))) == Weighted(Rounded(f))
    ensures semantic.Some? ==>
              var mixed := FeatureScore(f) * 0.80 + Bounded(semantic.value) * 0.20; Clamp(mixed) == mixed
    ensures InUnit(FinalScore(f, semantic))
  {
    RoundedInUnit(f);
    BoundedInUnit(Weighted(Rounded(f)));
    if semantic.Some? {
      BoundedInUnit(semantic.value);
      BoundedInUnit(FeatureScore(f) * 0.80 + Bounded(semantic.value) * 0.20);
    }
  }

  lemma BoundedMonotone(x: real, y: real)
    requires x <= y
    ensures Bounded(x) <= Bounded(y)
  {
    QuantizeMonotone(Clamp(x), Clamp(y));
  }

  /** Raising any feature, or the semantic score, never lowers the final score. */
  lemma ScoreIsMonotone(f: Features, g: Features, semantic: Option<real>, higher: Option<real>)
    requires AtMost(f, g)
    requires semantic.Some? == higher.Some? && (semantic.Some? ==> semantic.value <= higher.value)
    ensures FeatureScore(f) <= FeatureScore(g)
    ensures FinalScore(f, semantic) <= FinalScore(g, higher)
  {
    BoundedMonotone(f.lexical, g.lexical);
    BoundedMonotone(f.capability, g.capability);
    BoundedMonotone(f.category, g.category);
    BoundedMonotone(f.amount, g.amount);
    BoundedMonotone(f.recency, g.recency);
    BoundedMonotone(Weighted(Rounded(f)), Weighted(Rounded(g)));
    if semantic.Some? {
      BoundedMonotone(semantic.value, higher.value);
      BoundedMonotone(FeatureScore(f) * 0.80 + Bounded(semantic.value) * 0.20,
                      FeatureScore(g) * 0.80 + Bounded(higher.value) * 0.20);
    }
  }

  /** Rounding every feature and then the sum stays within one unit of the fifth decimal place of the exact
      weighted sum. */
  lemma ScoreIsClose(f: Features)
    requires AllInUnit(f)
    ensures Weighted(f) - 2.0 * ROUNDING <= FeatureScore(f) <= Weighted(f) + 2.0 * ROUNDING
  {
    QuantizeIsClose(f.lexical);
    QuantizeIsClose(f.capability);
    QuantizeIsClose(f.category);
    QuantizeIsClose(f.amount);
    QuantizeIsClose(f.recency);
    ClampIsIdle(f, None);
    QuantizeIsClose(Weighted(Rounded(f)));
  }

  /** The features of an opportunity for a profile; None when it was published after the instant. */
  function FeaturesOf(w: Words, p: Profile, o: Opportunity, age: Option<real>, remaining: Option<real>): Option<Features> {
    var recency := RecencyScore(age, remaining);
    if recency == None then None
    else Some(Features(LexicalScore(w, p, o), CapabilityScore(w, p, o), CategoryScore(w, p, o), AmountScore(w, p, o).0, recency.value))
  }

  /** Every feature lies in the unit interval, so the rounded score of any opportunity stays within one unit
      of the fifth decimal place of the exact weighted sum. */
  lemma OpportunityScoreIsClose(w: Words, p: Profile, o: Opportunity, age: Option<real>, remaining: Option<real>)
    requires FeaturesOf(w, p, o, age, remaining).Some?
    ensures var f := FeaturesOf(w, p, o, age, remaining).value;
            AllInUnit(f) && Weighted(f) - 2.0 * ROUNDING <= FeatureScore(f) <= Weighted(f) + 2.0 * ROUNDING
  {
    SharesInUnit(Tokens(w, p.industries + p.capabilities),
                 Tokens(w, [o.title, o.body, if o.category.Some? then o.category.value else ""]));
    SharesInUnit(if Required(w, o) != {} then Required(w, o) else Named(w, p, o), Owned(w, p));
    AmountsInUnit(w, p, o);
    RecencyInUnit(age, remaining);
    ScoreIsClose(FeaturesOf(w, p, o, age, remaining).value);
  }

  // ----- what each feature contributes

  /** Each feature contributes in its own proportion: a quarter, a quarter, a fifth and twice three twentieths
      of what it changes by. */
  lemma FeaturesContribute(f: Features, x: real)
    ensures Weighted(f.(lexical := f.lexical + x)) == Weighted(f) + x / 4.0
    ensures Weighted(f.(capability := f.capability + x)) == Weighted(f) + x / 4.0
    ensures Weighted(f.(category := f.category + x)) == Weighted(f) + x / 5.0
    ensures Weighted(f.(amount := f.amount + x)) == Weighted(f) + 3.0 * x / 20.0
    ensures Weighted(f.(recency := f.recency + x)) == Weighted(f) + 3.0 * x / 20.0
    ensures Weighted(Features(0.0, 0.0, 0.0, 0.0, 0.0)) == 0.0
  {
  }

  /** A semantic score counts a fifth and the features four fifths, up to the rounding of both. */
  lemma SemanticContributes(f: Features, semantic: real)
    requires InUnit(semantic)
    ensures var mixed := FeatureScore(f) * 4.0 / 5.0 + semantic / 5.0;
            mixed - 2.0 * ROUNDING <= FinalScore(f, Some(semantic)) <= mixed + 2.0 * ROUNDING
    ensures FinalScore(f, None) == FeatureScore(f)
  {
    QuantizeIsClose(semantic);
    ClampIsIdle(f, Some(semantic));
    QuantizeIsClose(FeatureScore(f) * 0.80 + Bounded(semantic) * 0.20);
  }

  /** An amount in the middle of the profile's range scores one, at either end zero, and in between in
      proportion to its distance from the nearer end; without a range any amount scores one. */
  lemma AmountScoreShape(w: Words, p: Profile, o: Opportunity)
    requires o.amount.Some? && o.currency.Some? && p.currency.Some? && w.upper(o.currency.value) == w.upper(p.currency.value)
    ensures p.lower.Some? && p.upper.Some? && p.lower.value <= o.amount.value <= p.upper.value && p.lower.value < p.upper.value ==>
              var (score, reason) := AmountScore(w, p, o);
              var near := if o.amount.value - p.lower.value <= p.upper.value - o.amount.value then o.amount.value - p.lower.value
                          else p.upper.value - o.amount.value;
              score * (p.upper.value - p.lower.value) == 2.0 * near && reason == WithinRange
    ensures p.lower == None && p.upper == None ==> AmountScore(w, p, o) == (1.0, WithinRange)
    ensures p.lower.Some? && o.amount.value < p.lower.value ==> AmountScore(w, p, o) == (0.0, BelowRange)
    ensures (p.lower == None || p.lower.value <= o.amount.value) && p.upper.Some? && o.amount.value > p.upper.value ==>
              AmountScore(w, p, o) == (0.0, AboveRange)
    ensures (p.lower == None) != (p.upper == None)
            && (p.lower.Some? ==> p.lower.value <= o.amount.value) && (p.upper.Some? ==> o.amount.value <= p.upper.value) ==>
              AmountScore(w, p, o) == (1.0, WithinRange)
  {
    if p.lower.Some? && p.upper.Some? && p.lower.value <= o.amount.value <= p.upper.value && p.lower.value < p.upper.value {
      Closeness(o.amount.value, p.lower.value, p.upper.value);
    }
  }

  lemma Closeness(x: real, lower: real, upper: real)
    requires lower <= x <= upper && lower < upper
    ensures var midpoint, half := (lower + upper) / 2.0, (upper - lower) / 2.0;
            var near := if x - lower <= upper - x then x - lower else upper - x;
            && 0.0 <= 1.0 - Abs(x - midpoint) / half
            && (1.0 - Abs(x - midpoint) / half) * (upper - lower) == 2.0 * near
  {
    var midpoint, half := (lower + upper) / 2.0, (upper - lower) / 2.0;
    var q := Abs(x - midpoint) / half;
    assert q * half == Abs(x - midpoint);
    AtMostOne(Abs(x - midpoint), half);
    assert (1.0 - q) * (upper - lower) == (upper - lower) - 2.0 * (q * half);
  }

  lemma AtMostOne(x: real, y: real)
    requires x <= y && y > 0.0
    ensures x / y <= 1.0
  {
  }

  /** One of the texts reads as x. */
  predicate Reads(w: Words, texts: seq<string>, x: string) {
    exists t :: t in texts && w.norm(t) == x
  }

  /** One of the texts holds the word. */
  predicate Holds(w: Words, texts: seq<string>, word: string) {
    exists t :: t in texts && word in w.tokens(w.norm(t))
  }

  /** The capabilities asked for, as they read, are looked for among those of the profile; blank ones are not
      asked for. */
  lemma RequiredAreCounted(w: Words, p: Profile, o: Opportunity, wanted: set<string>, owned: set<string>)
    requires forall x :: x in wanted <==> x != "" && Reads(w, o.required, x)
    requires forall x :: x in owned <==> Reads(w, p.capabilities, x)
    ensures wanted != {} ==> CapabilityScore(w, p, o) * |wanted| as real == |wanted * owned| as real
  {
    forall x ensures x in Required(w, o) <==> x in wanted { RequiredReads(w, o, x); }
    forall x ensures x in Owned(w, p) <==> x in owned { OwnedReads(w, p, x); }
    assert Required(w, o) == wanted && Owned(w, p) == owned;
    if wanted != {} { ShareCounts(wanted, owned); }
  }

  lemma RequiredReads(w: Words, o: Opportunity, x: string)
    ensures x in Required(w, o) <==> x != "" && Reads(w, o.required, x)
  {
  }

  lemma OwnedReads(w: Words, p: Profile, x: string)
    ensures x in Owned(w, p) <==> Reads(w, p.capabilities, x)
  {
  }

  lemma ShareCounts(wanted: set<string>, found: set<string>)
    requires wanted != {}
    ensures Share(wanted, found) * |wanted| as real == |wanted * found| as real
  {
  }

  /** The words of the profile's industries and capabilities are looked for in title, body and category. */
  lemma InterestsAreCounted(w: Words, p: Profile, o: Opportunity, category: string, interests: set<string>, observed: set<string>)
    requires category == if o.category.Some? then o.category.value else ""
    requires forall x :: x in interests <==> Holds(w, p.industries, x) || Holds(w, p.capabilities, x)
    requires forall x :: x in observed <==> HoldsAny(w, o.title, o.body, category, x)
    ensures interests == {} ==> LexicalScore(w, p, o) == 0.0
    ensures interests != {} ==> LexicalScore(w, p, o) * |interests| as real == |interests * observed| as real
  {
    InterestsAre(w, p, interests);
    ObservedAre(w, o.title, o.body, category, observed);
    LexicalIsShare(w, p, o, category);
    if interests != {} { ShareCounts(interests, observed); }
  }

  lemma LexicalIsShare(w: Words, p: Profile, o: Opportunity, category: string)
    requires category == if o.category.Some? then o.category.value else ""
    ensures LexicalScore(w, p, o) == Share(Tokens(w, p.industries + p.capabilities), Tokens(w, [o.title, o.body, category]))
  {
  }

  predicate HoldsAny(w: Words, title: string, body: string, category: string, word: string) {
    || word in w.tokens(w.norm(title))
    || word in w.tokens(w.norm(body))
    || word in w.tokens(w.norm(category))
  }

  lemma InterestsAre(w: Words, p: Profile, interests: set<string>)
    requires forall x :: x in interests <==> Holds(w, p.industries, x) || Holds(w, p.capabilities, x)
    ensures Tokens(w, p.industries + p.capabilities) == interests
  {
    forall x ensures x in Tokens(w, p.industries + p.capabilities) <==> x in interests {
      TokensJoin(w, p.industries, p.capabilities, x);
    }
  }

  lemma ObservedAre(w: Words, title: string, body: string, category: string, observed: set<string>)
    requires forall x :: x in observed <==> HoldsAny(w, title, body, category, x)
    ensures Tokens(w, [title, body, category]) == observed
  {
    var texts := [title, body, category];
    assert texts[0] == title && texts[1] == body && texts[2] == category;
    forall x ensures x in Tokens(w, texts) <==> HoldsAny(w, title, body, category, x) {
    }
  }

  lemma TokensJoin(w: Words, a: seq<string>, b: seq<string>, x: string)
    ensures x in Tokens(w, a + b) <==> Holds(w, a, x) || Holds(w, b, x)
    ensures Holds(w, a + b, x) <==> Holds(w, a, x) || Holds(w, b, x)
  {
  }

  /** Publication counts for a half, falling over thirty days; the deadline for the other, over forty-five. */
  lemma RecencyScoreShape(age: real, remaining: real)
    requires age >= 0.0 && remaining >= 0.0
    ensures RecencyScore(Some(age), None) == Some(if age >= 30.0 then 0.0 else (30.0 - age) / 60.0)
    ensures RecencyScore(None, Some(remaining)) == Some(if remaining >= 45.0 then 0.0 else (45.0 - remaining) / 90.0)
    ensures RecencyScore(Some(age), Some(remaining))
         == Some(RecencyScore(Some(age), None).value + RecencyScore(None, Some(remaining)).value)
    ensures RecencyScore(None, None) == Some(0.0)
    ensures forall past: real :: past < 0.0 ==>
              RecencyScore(Some(age), Some(past)) == Some(0.0) && RecencyScore(Some(past), Some(remaining)) == None
  {
  }

  /** The category counts fully when an industry of the profile is that category, case and spacing aside. */
  lemma CategoryIsAllOrNothing(w: Words, p: Profile, o: Opportunity)
    ensures CategoryScore(w, p, o) == 1.0 || CategoryScore(w, p, o) == 0.0
    ensures CategoryScore(w, p, o) == 1.0
            <==> o.category.Some? && o.category.value != ""
                 && exists k :: 0 <= k < |p.industries| && w.norm(p.industries[k]) == w.norm(o.category.value)
  {
    if o.category.Some? && o.category.value != "" {
      if i :| i in p.industries && w.norm(i) == w.norm(o.category.value) {
        var k :| 0 <= k < |p.industries| && p.industries[k] == i;
      }
      if k :| 0 <= k < |p.industries| && w.norm(p.industries[k]) == w.norm(o.category.value) {
        assert p.industries[k] in p.industries;
      }
    }
  }
}
