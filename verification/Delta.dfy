/** Comparing two immutable version snapshots, and the impact rules over the result. */
module Delta {
  import opened Wrappers
  import Sorting
  import Spans
  import T = TrustedView

  // ----- attachments

  /** `url` identifies an attachment within a manifest; only the order of urls matters. */
  datatype Attachment = Attachment(url: nat, filename: string, sha: Option<string>)

  type Manifest = map<nat, Attachment>

  datatype DocumentKind = Added | Removed | Replaced

  datatype DocumentChange = DocumentChange(kind: DocumentKind, url: nat, before: Option<Attachment>, after: Option<Attachment>)

  /** {item.source_url: item for item in attachments}: the last one of a url stands. */
  function ManifestOf(items: seq<Attachment>): (m: Manifest)
    ensures forall u :: u in m ==> m[u].url == u
  {
    if items == [] then map[]
    else ManifestOf(items[..|items| - 1])[items[|items| - 1].url := items[|items| - 1]]
  }

  function Less(): (nat, nat) -> bool {
    (a: nat, b: nat) => a < b
  }

  /** The different urls of the attachments, ascending. */
  function SortedUrls(items: seq<Attachment>): seq<nat> {
    if items == [] then []
    else
      var rest := SortedUrls(items[..|items| - 1]);
      if items[|items| - 1].url in rest then rest else Sorting.Insert(Less(), items[|items| - 1].url, rest)
  }

  lemma {:induction false} SortedUrlsFacts(items: seq<Attachment>)
    ensures Sorting.StrictlySorted(Less(), SortedUrls(items))
    ensures forall u :: u in SortedUrls(items) <==> u in ManifestOf(items)
  {
    if items != [] {
      var rest := SortedUrls(items[..|items| - 1]);
      SortedUrlsFacts(items[..|items| - 1]);
      if items[|items| - 1].url !in rest {
        Sorting.InsertSorts(Less(), items[|items| - 1].url, rest);
      }
    }
  }

  lemma {:induction false} ManifestKeys(a: seq<Attachment>, b: seq<Attachment>)
    ensures ManifestOf(a + b).Keys == ManifestOf(a).Keys + ManifestOf(b).Keys
  {
    if b == [] {
      assert a + b == a;
    } else {
      ManifestKeys(a, b[..|b| - 1]);
      assert (a + b)[..|a + b| - 1] == a + b[..|b| - 1];
    }
  }

  /** The urls the comparison goes through are those of either manifest, ascending. */
  lemma UrlsOfBoth(a: seq<Attachment>, b: seq<Attachment>)
    ensures IsUrlListing(ManifestOf(a), ManifestOf(b), SortedUrls(a + b))
  {
    SortedUrlsFacts(a + b);
    ManifestKeys(a, b);
    var urls := SortedUrls(a + b);
    forall u ensures u in urls <==> u in ManifestOf(a) || u in ManifestOf(b) {
      assert u in urls <==> u in ManifestOf(a + b).Keys;
    }
    forall i, j | 0 <= i < j < |urls| ensures urls[i] < urls[j] { assert Less()(urls[i], urls[j]); }
  }

  function At(m: Manifest, url: nat): Option<Attachment> {
    if url in m then Some(m[url]) else None
  }

  predicate ShaKnown(a: Option<Attachment>) {
    a.Some? && a.value.sha.Some?
  }

  function ChangeAt(prior: Manifest, later: Manifest, priorComplete: bool, laterComplete: bool, url: nat): Option<DocumentChange> {
    var before, after := At(prior, url), At(later, url);
    if before == None && !priorComplete then None
    else if after == None && !laterComplete then None
    else if before.Some? && after.Some? && (!ShaKnown(before) || !ShaKnown(after)) then None
    else if before == after then None
    else Some(DocumentChange(if before == None then Added else if after == None then Removed else Replaced, url, before, after))
  }

  function Changes(prior: Manifest, later: Manifest, priorComplete: bool, laterComplete: bool, urls: seq<nat>): seq<DocumentChange> {
    if urls == [] then []
    else
      var last := ChangeAt(prior, later, priorComplete, laterComplete, urls[|urls| - 1]);
      Changes(prior, later, priorComplete, laterComplete, urls[..|urls| - 1]) + if last.Some? then [last.value] else []
  }

  /** The urls of both manifests, ascending. */
  ghost predicate IsUrlListing(prior: Manifest, later: Manifest, urls: seq<nat>) {
    && (forall u :: u in urls <==> u in prior || u in later)
    && forall i, j :: 0 <= i < j < |urls| ==> urls[i] < urls[j]
  }

  function ApplyOne(m: Manifest, c: DocumentChange): Manifest {
    if c.after.Some? then m[c.url := c.after.value] else m - {c.url}
  }

  function Apply(m: Manifest, cs: seq<DocumentChange>): Manifest {
    if cs == [] then m else ApplyOne(Apply(m, cs[..|cs| - 1]), cs[|cs| - 1])
  }

  /** Where the comparison can see the change of a url. */
  predicate Visible(prior: Manifest, later: Manifest, priorComplete: bool, laterComplete: bool, url: nat) {
    var before, after := At(prior, url), At(later, url);
    before == after
    || (before == None && priorComplete)
    || (after == None && laterComplete)
    || (ShaKnown(before) && ShaKnown(after))
  }

  lemma {:induction false} ApplyAt(prior: Manifest, later: Manifest, priorComplete: bool, laterComplete: bool, urls: seq<nat>, u: nat)
    requires forall i, j :: 0 <= i < j < |urls| ==> urls[i] < urls[j]
    ensures var result := Apply(prior, Changes(prior, later, priorComplete, laterComplete, urls));
            At(result, u) == if u in urls && ChangeAt(prior, later, priorComplete, laterComplete, u).Some? then At(later, u) else At(prior, u)
  {
    if urls != [] {
      var front, last := urls[..|urls| - 1], urls[|urls| - 1];
      ApplyAt(prior, later, priorComplete, laterComplete, front, u);
      var cs, c := Changes(prior, later, priorComplete, laterComplete, front), ChangeAt(prior, later, priorComplete, laterComplete, last);
      assert u in urls <==> u in front || u == last;
      if c.Some? {
        assert Changes(prior, later, priorComplete, laterComplete, urls) == cs + [c.value];
        ApplyLastChange(prior, cs, c.value, u);
      } else {
        assert Changes(prior, later, priorComplete, laterComplete, urls) == cs;
      }
    }
  }

  lemma ApplyLastChange(m: Manifest, cs: seq<DocumentChange>, c: DocumentChange, u: nat)
    ensures At(Apply(m, cs + [c]), u) == if u == c.url then c.after else At(Apply(m, cs), u)
  {
    assert (cs + [c])[..|cs|] == cs;
  }

  /** Applying the recorded changes to the old manifest gives the new one exactly when every difference was
      visible: nothing appeared under an incomplete prior manifest, nothing disappeared under an incomplete new
      one, and no attachment changed while one of its checksums was unknown. */
  lemma ApplyGivesNewIff(prior: Manifest, later: Manifest, priorComplete: bool, laterComplete: bool, urls: seq<nat>)
    requires IsUrlListing(prior, later, urls)
    ensures Apply(prior, Changes(prior, later, priorComplete, laterComplete, urls)) == later
            <==> forall u :: u in urls ==> Visible(prior, later, priorComplete, laterComplete, u)
  {
    var result := Apply(prior, Changes(prior, later, priorComplete, laterComplete, urls));
    forall u ensures At(result, u) == At(later, u) <==> (u in urls ==> Visible(prior, later, priorComplete, laterComplete, u)) {
      ApplyAt(prior, later, priorComplete, laterComplete, urls, u);
    }
    if forall u :: u in urls ==> Visible(prior, later, priorComplete, laterComplete, u) {
      forall u ensures u in result <==> u in later { assert At(result, u) == At(later, u); }
      forall u | u in later ensures result[u] == later[u] { assert At(result, u) == At(later, u); }
      assert result == later;
    }
  }

  /** Complete manifests with known checksums are reproduced exactly. */
  lemma CompleteManifestsAreReproduced(prior: Manifest, later: Manifest, urls: seq<nat>)
    requires IsUrlListing(prior, later, urls)
    requires forall u :: u in prior && u in later ==> prior[u].sha.Some? && later[u].sha.Some?
    ensures Apply(prior, Changes(prior, later, true, true, urls)) == later
  {
    ApplyGivesNewIff(prior, later, true, true, urls);
  }

  lemma {:induction false} ChangesExact(prior: Manifest, later: Manifest, priorComplete: bool, laterComplete: bool, urls: seq<nat>, c: DocumentChange)
    ensures c in Changes(prior, later, priorComplete, laterComplete, urls)
            <==> c.url in urls && ChangeAt(prior, later, priorComplete, laterComplete, c.url) == Some(c)
  {
    if urls != [] {
      ChangesExact(prior, later, priorComplete, laterComplete, urls[..|urls| - 1], c);
      assert urls == urls[..|urls| - 1] + [urls[|urls| - 1]];
    }
  }

  /** No false addition or removal: each is recorded exactly when the manifest that lacks the attachment is
      complete. */
  lemma AdditionsAndRemovalsAreReal(prior: Manifest, later: Manifest, priorComplete: bool, laterComplete: bool, urls: seq<nat>, u: nat)
    requires IsUrlListing(prior, later, urls)
    ensures var cs := Changes(prior, later, priorComplete, laterComplete, urls);
            && ((exists c :: c in cs && c.url == u && c.kind == Added) <==> priorComplete && u !in prior && u in later)
            && ((exists c :: c in cs && c.url == u && c.kind == Removed) <==> laterComplete && u in prior && u !in later)
            && ((exists c :: c in cs && c.url == u && c.kind == Replaced) <==>
                  u in prior && u in later && prior[u] != later[u] && prior[u].sha.Some? && later[u].sha.Some?)
  {
    var cs := Changes(prior, later, priorComplete, laterComplete, urls);
    forall c ensures c in cs <==> c.url in urls && ChangeAt(prior, later, priorComplete, laterComplete, c.url) == Some(c) {
      ChangesExact(prior, later, priorComplete, laterComplete, urls, c);
    }
    var at := ChangeAt(prior, later, priorComplete, laterComplete, u);
    if at.Some? && u in urls {
      assert at.value in cs;
    }
  }

  /** The merge of two lists of attachments: indexed by url, then compared url by url in order. */
  method CompareDocuments(before: seq<Attachment>, after: seq<Attachment>, priorComplete: bool, laterComplete: bool)
    returns (documents: seq<DocumentChange>)
    ensures documents == Changes(ManifestOf(before), ManifestOf(after), priorComplete, laterComplete, SortedUrls(before + after))
    ensures IsUrlListing(ManifestOf(before), ManifestOf(after), SortedUrls(before + after))
  {
    UrlsOfBoth(before, after);
    var prior := IndexByUrl(before);
    var later := IndexByUrl(after);
    documents := CompareManifests(prior, later, priorComplete, laterComplete, SortedUrls(before + after));
  }

  method IndexByUrl(items: seq<Attachment>) returns (m: Manifest)
    ensures m == ManifestOf(items)
  {
    m := map[];
    for i := 0 to |items|
      invariant m == ManifestOf(items[..i])
    {
      assert items[..i + 1][..i] == items[..i];
      m := m[items[i].url := items[i]];
    }
    assert items[..|items|] == items;
  }

  method CompareManifests(prior: Manifest, later: Manifest, priorComplete: bool, laterComplete: bool, urls: seq<nat>)
    returns (documents: seq<DocumentChange>)
    requires IsUrlListing(prior, later, urls)
    ensures documents == Changes(prior, later, priorComplete, laterComplete, urls)
  {
    documents := [];
    for i := 0 to |urls|
      invariant documents == Changes(prior, later, priorComplete, laterComplete, urls[..i])
    {
      assert urls[..i + 1][..i] == urls[..i];
      var url := urls[i];
      var before, after := At(prior, url), At(later, url);
      if before == None && !priorComplete {
        continue;
      }
      if after == None && !laterComplete {
        continue;
      }
      if before.Some? && after.Some? && (before.value.sha == None || after.value.sha == None) {
        continue;
      }
      if before != after {
        var kind := if before == None then Added else if after == None then Removed else Replaced;
        documents := documents + [DocumentChange(kind, url, before, after)];
      }
    }
    assert urls[..|urls|] == urls;
  }

  // ----- field claims

  datatype Field = Budget | ClosesAt | Regions | Certifications | Capabilities | Participation | ContractPeriod

  datatype Value = Money(amount: int, currency: string) | Instant(at: int) | Items(items: set<string>) | Text(text: string)

  predicate Fits(f: Field, v: Value) {
    match f
    case Budget => v.Money?
    case ClosesAt => v.Instant?
    case ContractPeriod => v.Text?
    case _ => v.Items?
  }

  datatype FieldChange = FieldChange(field: Field, before: Option<Value>, after: Option<Value>)

  /** A change the comparison can emit: typed values that differ. */
  predicate Genuine(c: FieldChange) {
    && c.before != c.after
    && (c.before.Some? ==> Fits(c.field, c.before.value))
    && (c.after.Some? ==> Fits(c.field, c.after.value))
  }

  /** What a snapshot knows about money: whether the raw payload has an amount and a currency under their
      normalized names, the normalized values, and trusted attachment claims. */
  datatype MoneySources = MoneySources(
    payloadAmount: bool, payloadCurrency: bool, amount: Option<int>, currency: Option<string>,
    extraction: Option<(Option<int>, Option<string>)>)

  function ClaimedAmount(m: MoneySources): Option<int> {
    if m.payloadAmount then m.amount
    else if m.extraction.Some? then m.extraction.value.0
    else None
  }

  function ClaimedCurrency(m: MoneySources): Option<string> {
    if m.payloadCurrency then m.currency
    else if m.extraction.Some? && m.extraction.value.1.Some? then m.extraction.value.1
    else if m.payloadAmount then (if m.currency.Some? then m.currency else Some("KRW"))
    else None
  }

  function BudgetOf(m: MoneySources): Option<Value> {
    var (amount, currency) :=
      if !m.payloadAmount && m.extraction.Some? then (m.extraction.value.0, m.extraction.value.1)
      else (ClaimedAmount(m), ClaimedCurrency(m));
    if amount == None || currency == None then None else Some(Money(amount.value, currency.value))
  }

  /** Money read from an attachment never takes an upstream or default currency: without a payload amount the
      budget is a function of the attachment claims alone. */
  lemma AttachmentMoneyStandsAlone(m: MoneySources, n: MoneySources)
    requires !m.payloadAmount && !n.payloadAmount && m.extraction == n.extraction
    ensures BudgetOf(m) == BudgetOf(n)
  {
    assert m.extraction == None ==> ClaimedAmount(m) == None && ClaimedAmount(n) == None;
  }

  /** With an amount in the payload, the budget has that amount, and of the currencies the payload's own, then the
      attachment's, then the normalizer's, then the won. */
  lemma PayloadBudgetIff(m: MoneySources, amount: int, currency: string)
    requires m.payloadAmount
    ensures BudgetOf(m) == Some(Money(amount, currency))
            <==> && m.amount == Some(amount)
                 && var claimed := if m.extraction.Some? then m.extraction.value.1 else None;
                 && (m.payloadCurrency ==> m.currency == Some(currency))
                 && (!m.payloadCurrency && claimed.Some? ==> claimed == Some(currency))
                 && (!m.payloadCurrency && claimed == None ==>
                       m.currency == Some(currency) || (m.currency == None && currency == "KRW"))
  {
  }

  /** Without one, the budget is what the attachment claims, if it claims both parts. */
  lemma AttachmentBudgetIff(m: MoneySources, amount: int, currency: string)
    requires !m.payloadAmount
    ensures BudgetOf(m) == Some(Money(amount, currency)) <==> m.extraction == Some((Some(amount), Some(currency)))
  {
  }

  // ----- money that went through conflict detection

  /** What a version knows about its own money: the normalized amount, whether the raw payload has it under
      the normalized name, whether the payload has a currency so named, and the normalized currency, which is
      the normalizer's default when the payload has none.  A payload that is mapped before it is normalized has
      the amount under another name. */
  datatype Upstream = Upstream(amount: Option<int>, payloadAmount: bool, payloadCurrency: bool, currency: string)

  /** The normalized values an extraction is compared with. */
  function NormalizedMoney(u: Upstream, show: int -> Spans.Value): Spans.Claims {
    var currency := map[T.CURRENCY := Spans.Scalar(u.currency)];
    if u.amount.Some? then currency[T.AMOUNT := show(u.amount.value)] else currency
  }

  /** What a snapshot knows about money: the version's own, and the trusted view of its extraction if it has
      one. */
  function MoneyOf(u: Upstream, view: Option<Spans.Claims>, read: Spans.Value -> int): MoneySources {
    MoneySources(u.payloadAmount, u.payloadCurrency, u.amount, Some(u.currency),
      if view == None then None
      else
        Some((if T.AMOUNT in view.value then Some(read(view.value[T.AMOUNT])) else None,
              if T.CURRENCY in view.value && view.value[T.CURRENCY].Scalar? then Some(view.value[T.CURRENCY].text) else None)))
  }

  /** The view of the claims of an attachment, after the conflicts with the version are recorded. */
  function TrustedOf(u: Upstream, c: T.Comparison, show: int -> Spans.Value, claims: Spans.Claims): Spans.Claims {
    T.View(claims, set f | f in claims && T.Differs(c, NormalizedMoney(u, show), claims, f))
  }

  /** The attachment's money passes conflict detection: its currency is the normalized one, be it the default,
      and its amount does not differ from a normalized amount. */
  predicate Passes(u: Upstream, c: T.Comparison, show: int -> Spans.Value, claims: Spans.Claims) {
    && T.CURRENCY in claims && claims[T.CURRENCY] == Spans.Scalar(u.currency)
    && !T.Differs(c, NormalizedMoney(u, show), claims, T.AMOUNT)
  }

  /** Every budget that is compared carries the normalized currency.  With the amount in the raw payload under
      its normalized name, the normalized amount stands whatever the attachment claims.  Otherwise the version's
      own amount is not looked at: the attachment's money is the budget exactly when it passes conflict
      detection, and there is none when it does not, or when no extraction is trusted. */
  lemma BudgetIsTrusted(u: Upstream, c: T.Comparison, attachment: Option<Spans.Claims>, show: int -> Spans.Value,
                        read: Spans.Value -> int)
    requires attachment.Some? ==>
               T.Coherent(attachment.value) && (T.CURRENCY in attachment.value ==> attachment.value[T.CURRENCY].Scalar?)
    requires forall i :: show(i).Scalar?
    ensures var view := if attachment == None then None else Some(TrustedOf(u, c, show, attachment.value));
            BudgetOf(MoneyOf(u, view, read))
            == if u.payloadAmount then (if u.amount.Some? then Some(Money(u.amount.value, u.currency)) else None)
               else if attachment.Some? && Passes(u, c, show, attachment.value)
               then Some(Money(read(attachment.value[T.AMOUNT]), u.currency))
               else None
  {
    if attachment.Some? {
      var claims, upstream := attachment.value, NormalizedMoney(u, show);
      T.ViewKeepsMoneyTogether(claims, set f | f in claims && T.Differs(c, upstream, claims, f));
      if T.CURRENCY in claims {
        T.WithheldIff(c, upstream, claims, T.CURRENCY);
        T.WithheldIff(c, upstream, claims, T.AMOUNT);
      }
    }
  }

  /** A version whose payload was mapped: its own amount never makes a budget.  None without a trusted
      extraction, none with an attachment silent on money, and none with one that claims another amount. */
  lemma MappedAmountIsNoBudget(u: Upstream, c: T.Comparison, claims: Spans.Claims, show: int -> Spans.Value,
                               read: Spans.Value -> int)
    requires u.amount.Some? && !u.payloadAmount && forall i :: show(i).Scalar?
    requires T.Coherent(claims) && (T.CURRENCY in claims ==> claims[T.CURRENCY].Scalar?)
    ensures BudgetOf(MoneyOf(u, None, read)) == None
    ensures T.AMOUNT !in claims ==> BudgetOf(MoneyOf(u, Some(TrustedOf(u, c, show, claims)), read)) == None
    ensures T.AMOUNT in claims && !c.parsed(T.AMOUNT, show(u.amount.value), claims[T.AMOUNT]) ==>
              BudgetOf(MoneyOf(u, Some(TrustedOf(u, c, show, claims)), read)) == None
  {
    BudgetIsTrusted(u, c, None, show, read);
    BudgetIsTrusted(u, c, Some(claims), show, read);
  }

  /** A notice priced at 10 million won in a mapped payload, and an attachment that is silent on money. */
  lemma PricedNoticeWithoutBudget(c: T.Comparison, show: int -> Spans.Value, read: Spans.Value -> int)
    requires forall i :: show(i).Scalar?
    ensures var u := Upstream(Some(10_000_000), false, false, "KRW");
            BudgetOf(MoneyOf(u, Some(TrustedOf(u, c, show, map[])), read)) == None
  {
    MappedAmountIsNoBudget(Upstream(Some(10_000_000), false, false, "KRW"), c, map[], show, read);
  }

  type Claims = map<Field, Value>

  predicate WellTyped(claims: Claims) {
    forall f :: f in claims ==> Fits(f, claims[f])
  }

  function Claim(claims: Claims, f: Field): Option<Value> {
    if f in claims then Some(claims[f]) else None
  }

  const FIELDS := [Budget, ClosesAt, Regions, Certifications, Capabilities, Participation, ContractPeriod]

  function FieldChanges(prior: Claims, later: Claims, fields: seq<Field>): seq<FieldChange> {
    if fields == [] then []
    else
      var f := fields[|fields| - 1];
      FieldChanges(prior, later, fields[..|fields| - 1])
      + if Claim(prior, f) != Claim(later, f) then [FieldChange(f, Claim(prior, f), Claim(later, f))] else []
  }

  function ApplyFields(claims: Claims, cs: seq<FieldChange>): Claims {
    if cs == [] then claims
    else
      var front, last := ApplyFields(claims, cs[..|cs| - 1]), cs[|cs| - 1];
      if last.after.Some? then front[last.field := last.after.value] else front - {last.field}
  }

  lemma {:induction false} ApplyFieldsAt(prior: Claims, later: Claims, fields: seq<Field>, f: Field)
    ensures Claim(ApplyFields(prior, FieldChanges(prior, later, fields)), f)
            == if f in fields then Claim(later, f) else Claim(prior, f)
  {
    if fields != [] {
      var front, last := fields[..|fields| - 1], fields[|fields| - 1];
      ApplyFieldsAt(prior, later, front, f);
      assert f in fields <==> f in front || f == last;
      var cs, c := FieldChanges(prior, later, front), FieldChange(last, Claim(prior, last), Claim(later, last));
      if c.before != c.after {
        assert FieldChanges(prior, later, fields) == cs + [c];
        ApplyLast(prior, cs, c, f);
      } else {
        assert FieldChanges(prior, later, fields) == cs;
      }
    }
  }

  lemma ApplyLast(claims: Claims, cs: seq<FieldChange>, c: FieldChange, f: Field)
    ensures Claim(ApplyFields(claims, cs + [c]), f) == if f == c.field then c.after else Claim(ApplyFields(claims, cs), f)
  {
    assert (cs + [c])[..|cs|] == cs;
  }

  /** Applying the field changes to the earlier claims gives the later ones. */
  lemma FieldChangesAreComplete(prior: Claims, later: Claims)
    ensures ApplyFields(prior, FieldChanges(prior, later, FIELDS)) == later
  {
    var result := ApplyFields(prior, FieldChanges(prior, later, FIELDS));
    forall f ensures Claim(result, f) == Claim(later, f) {
      AllFieldsListed(f);
      ApplyFieldsAt(prior, later, FIELDS, f);
    }
    forall f ensures f in result <==> f in later { assert Claim(result, f) == Claim(later, f); }
    forall f | f in later ensures result[f] == later[f] { assert Claim(result, f) == Claim(later, f); }
  }

  lemma AllFieldsListed(f: Field)
    ensures f in FIELDS
  {
    match f
    case Budget => assert FIELDS[0] == f;
    case ClosesAt => assert FIELDS[1] == f;
    case Regions => assert FIELDS[2] == f;
    case Certifications => assert FIELDS[3] == f;
    case Capabilities => assert FIELDS[4] == f;
    case Participation => assert FIELDS[5] == f;
    case ContractPeriod => assert FIELDS[6] == f;
  }

  lemma {:induction false} FieldChangesAreGenuine(prior: Claims, later: Claims, fields: seq<Field>)
    requires WellTyped(prior) && WellTyped(later)
    ensures forall c :: c in FieldChanges(prior, later, fields) ==> Genuine(c)
  {
    if fields != [] {
      FieldChangesAreGenuine(prior, later, fields[..|fields| - 1]);
    }
  }

  /** A snapshot of one version: its identity, its raw record, the fields the raw payload affirms with their
      normalized values, the attachment claims that are trusted, and its attachments. */
  datatype Snapshot = Snapshot(
    opportunity: nat, number: nat, rawOfVersion: nat, raw: nat,
    affirmed: set<Field>, normalized: Claims, attached: Option<Claims>, money: MoneySources,
    quotes: Quotes, attachments: seq<Attachment>, complete: bool)

  /** The references that the trusted view keeps for its claims: for the money, and for the other fields. */
  datatype Quotes = Quotes(amount: seq<nat>, currency: seq<nat>, fields: map<Field, seq<nat>>)

  datatype MoneyField = Amount | Currency

  /** Where a value comes from: the raw payload, a reference into an attachment, or a normalizer default. */
  datatype Evidence =
    | FromPayload(raw: nat, field: Field) | MoneyFromPayload(raw: nat, part: MoneyField)
    | FromAttachment(reference: nat) | FromNormalizer(raw: nat)

  predicate WellFormed(s: Snapshot) {
    WellTyped(s.normalized) && (s.attached.Some? ==> WellTyped(s.attached.value))
  }

  /** What upstream affirms stands; otherwise what a trusted attachment claims; otherwise nothing. */
  function ClaimOf(s: Snapshot, f: Field): Option<Value> {
    if f == Budget then BudgetOf(s.money)
    else if f in s.affirmed then Claim(s.normalized, f)
    else if s.attached.Some? then Claim(s.attached.value, f)
    else None
  }

  function ClaimsOf(s: Snapshot): Claims {
    map f: Field | f in FIELDS && ClaimOf(s, f).Some? :: ClaimOf(s, f).value
  }

  lemma ClaimsOfSnapshot(s: Snapshot)
    ensures forall f :: Claim(ClaimsOf(s), f) == ClaimOf(s, f)
    ensures WellFormed(s) ==> WellTyped(ClaimsOf(s))
  {
    forall f ensures Claim(ClaimsOf(s), f) == ClaimOf(s, f) { AllFieldsListed(f); }
  }

  // ----- where the values come from

  function Quoted(references: seq<nat>): seq<Evidence> {
    seq(|references|, i requires 0 <= i < |references| => FromAttachment(references[i]))
  }

  function AmountEvidence(s: Snapshot): seq<Evidence> {
    if s.money.payloadAmount then [MoneyFromPayload(s.raw, Amount)]
    else if s.money.extraction.Some? && s.money.extraction.value.0.Some? then Quoted(s.quotes.amount)
    else []
  }

  function CurrencyEvidence(s: Snapshot): seq<Evidence> {
    if s.money.payloadCurrency then [MoneyFromPayload(s.raw, Currency)]
    else if s.money.extraction.Some? && s.money.extraction.value.1.Some? then Quoted(s.quotes.currency)
    else if s.money.payloadAmount then [FromNormalizer(s.raw)]
    else []
  }

  function BudgetEvidence(s: Snapshot): seq<Evidence> {
    if BudgetOf(s.money) == None then []
    else if !s.money.payloadAmount && s.money.extraction.Some? then Quoted(s.quotes.amount) + Quoted(s.quotes.currency)
    else AmountEvidence(s) + CurrencyEvidence(s)
  }

  function EvidenceOf(s: Snapshot, f: Field): seq<Evidence> {
    if f == Budget then BudgetEvidence(s)
    else if f in s.affirmed then [FromPayload(s.raw, f)]
    else if s.attached.Some? && f in s.attached.value then Quoted(if f in s.quotes.fields then s.quotes.fields[f] else [])
    else []
  }

  /** Every trusted claim has a reference, as acceptance of the extraction requires. */
  predicate Grounded(s: Snapshot) {
    && (s.money.extraction.Some? ==>
          (s.money.extraction.value.0.Some? ==> s.quotes.amount != [])
          && (s.money.extraction.value.1.Some? ==> s.quotes.currency != []))
    && (s.attached.Some? ==> forall f :: f in s.attached.value ==> f in s.quotes.fields && s.quotes.fields[f] != [])
  }

  /** The evidence speaks for the value: it comes from the raw record of the version or from references of its
      trusted view, and never from an attachment for what the payload affirms. */
  predicate SpeaksFor(s: Snapshot, f: Field, e: Evidence) {
    match e
    case FromPayload(raw, field) => raw == s.raw && field == f && f in s.affirmed && f != Budget
    case MoneyFromPayload(raw, part) => raw == s.raw && f == Budget && s.money.payloadAmount && (part == Currency ==> s.money.payloadCurrency)
    case FromNormalizer(raw) => raw == s.raw && f == Budget && s.money.payloadAmount && !s.money.payloadCurrency
    case FromAttachment(r) =>
      if f == Budget then
        (!s.money.payloadAmount && (r in s.quotes.amount || r in s.quotes.currency)) || (!s.money.payloadCurrency && r in s.quotes.currency)
      else f !in s.affirmed && f in s.quotes.fields && r in s.quotes.fields[f]
  }

  /** Every value of a grounded snapshot can be traced, and nothing but its own sources speaks for it. */
  lemma ValuesAreTraced(s: Snapshot, f: Field)
    requires Grounded(s)
    ensures ClaimOf(s, f).Some? ==> EvidenceOf(s, f) != []
    ensures forall e :: e in EvidenceOf(s, f) ==> SpeaksFor(s, f, e)
  {
    forall e | e in EvidenceOf(s, f) ensures SpeaksFor(s, f, e) {
      QuotedExactly(s.quotes.amount, e);
      QuotedExactly(s.quotes.currency, e);
      if f in s.quotes.fields { QuotedExactly(s.quotes.fields[f], e); }
    }
  }

  lemma QuotedExactly(references: seq<nat>, e: Evidence)
    ensures e in Quoted(references) <==> e.FromAttachment? && e.reference in references
  {
    if e.FromAttachment? && e.reference in references {
      var i :| 0 <= i < |references| && references[i] == e.reference;
      assert Quoted(references)[i] == e;
    }
  }

  /** Whatever a field has been read from is among its evidence. */
  lemma FieldEvidenceIsComplete(s: Snapshot, f: Field, e: Evidence)
    requires f != Budget
    ensures e in EvidenceOf(s, f)
            <==> if f in s.affirmed then e == FromPayload(s.raw, f)
                 else && s.attached.Some? && f in s.attached.value && f in s.quotes.fields
                      && e.FromAttachment? && e.reference in s.quotes.fields[f]
  {
    if f in s.quotes.fields { QuotedExactly(s.quotes.fields[f], e); }
  }

  /** So is whatever the parts of a budget have been read from. */
  lemma BudgetEvidenceIsComplete(s: Snapshot, e: Evidence)
    requires ClaimOf(s, Budget).Some?
    ensures e in EvidenceOf(s, Budget)
            <==> if !s.money.payloadAmount
                 then e.FromAttachment? && (e.reference in s.quotes.amount || e.reference in s.quotes.currency)
                 else e == MoneyFromPayload(s.raw, Amount) || IsCurrencyEvidence(s, e)
  {
    QuotedExactly(s.quotes.amount, e);
    QuotedExactly(s.quotes.currency, e);
  }

  predicate IsCurrencyEvidence(s: Snapshot, e: Evidence) {
    if s.money.payloadCurrency then e == MoneyFromPayload(s.raw, Currency)
    else if s.money.extraction.Some? && s.money.extraction.value.1.Some?
    then e.FromAttachment? && e.reference in s.quotes.currency
    else e == FromNormalizer(s.raw)
  }

  /** The evidence of both values of a change. */
  function EvidencePair(prior: Snapshot, later: Snapshot, c: FieldChange): (seq<Evidence>, seq<Evidence>) {
    (EvidenceOf(prior, c.field), EvidenceOf(later, c.field))
  }

  predicate Documents(prior: Snapshot, later: Snapshot, changes: seq<FieldChange>, evidence: seq<(seq<Evidence>, seq<Evidence>)>) {
    |evidence| == |changes| && forall i :: 0 <= i < |changes| ==> evidence[i] == EvidencePair(prior, later, changes[i])
  }

  method CompareFields(prior: Snapshot, later: Snapshot)
    returns (changes: seq<FieldChange>, evidence: seq<(seq<Evidence>, seq<Evidence>)>)
    ensures changes == FieldChanges(ClaimsOf(prior), ClaimsOf(later), FIELDS)
    ensures Documents(prior, later, changes, evidence)
  {
    changes, evidence := CompareListed(prior, later, FIELDS);
  }

  method CompareListed(prior: Snapshot, later: Snapshot, fields: seq<Field>)
    returns (changes: seq<FieldChange>, evidence: seq<(seq<Evidence>, seq<Evidence>)>)
    ensures changes == FieldChanges(ClaimsOf(prior), ClaimsOf(later), fields)
    ensures Documents(prior, later, changes, evidence)
  {
    ClaimsOfSnapshot(prior);
    ClaimsOfSnapshot(later);
    changes, evidence := [], [];
    for i := 0 to |fields|
      invariant Documents(prior, later, changes, evidence)
      invariant changes == FieldChanges(ClaimsOf(prior), ClaimsOf(later), fields[..i])
    {
      assert fields[..i + 1][..i] == fields[..i];
      var field := fields[i];
      var before, after := ClaimOf(prior, field), ClaimOf(later, field);
      if before != after {
        changes := changes + [FieldChange(field, before, after)];
        evidence := evidence + [(EvidenceOf(prior, field), EvidenceOf(later, field))];
      }
    }
    assert fields[..|fields|] == fields;
  }

  // ----- impact

  datatype RegionKind = RegionAdded | RegionRemoved | RegionChanged

  datatype Reason =
    | AttachmentReason(kind: DocumentKind)
    | BecameUnknown(field: Field) | BecameKnown(field: Field)
    | CurrencyChanged | BudgetIncreased | BudgetDecreased
    | DeadlineEarlier | DeadlineLater
    | RegionRestriction(region: RegionKind)
    | RequirementAdded(field: Field) | RequirementRemoved(field: Field)
    | MaterialClauseChanged | PeriodChanged

  /** 0 low, 1 medium, 2 high */
  function Severity(r: Reason): (s: nat)
    ensures s <= 2
  {
    match r
    case AttachmentReason(kind) => if kind == Added then 0 else 1
    case DeadlineEarlier => 2
    case RegionRestriction(region) => if region == RegionRemoved then 1 else 2
    case RequirementAdded(_) => 2
    case MaterialClauseChanged => 2
    case _ => 1
  }

  function FieldReasons(c: FieldChange): set<Reason> {
    if c.before == None || c.after == None then
      {if c.after == None then BecameUnknown(c.field) else BecameKnown(c.field)}
    else
      var before, after := c.before.value, c.after.value;
      match c.field
      case Budget =>
        if !(before.Money? && after.Money?) then {}
        else if before.currency != after.currency then {CurrencyChanged}
        else if after.amount > before.amount then {BudgetIncreased} else {BudgetDecreased}
      case ClosesAt =>
        if !(before.Instant? && after.Instant?) then {}
        else if after.at < before.at then {DeadlineEarlier} else {DeadlineLater}
      case Regions =>
        if !(before.Items? && after.Items?) then {}
        else if before.items == {} then {RegionRestriction(RegionAdded)}
        else if after.items == {} then {RegionRestriction(RegionRemoved)} else {RegionRestriction(RegionChanged)}
      case Participation => {MaterialClauseChanged}
      case ContractPeriod => {PeriodChanged}
      case _ =>
        if !(before.Items? && after.Items?) then {}
        else
          (if after.items - before.items != {} then {RequirementAdded(c.field)} else {})
          + (if before.items - after.items != {} then {RequirementRemoved(c.field)} else {})
  }

  function AllReasons(fields: seq<FieldChange>, documents: seq<DocumentChange>): set<Reason> {
    (set c, r | c in fields && r in FieldReasons(c) :: r) + (set d | d in documents :: AttachmentReason(d.kind))
  }

  /** `level` is the greatest severity among the reasons, and low without any. */
  ghost predicate IsLevel(reasons: set<Reason>, level: nat) {
    && (forall r :: r in reasons ==> Severity(r) <= level)
    && (level > 0 ==> exists r :: r in reasons && Severity(r) == level)
  }

  method ClassifyImpact(fields: seq<FieldChange>, documents: seq<DocumentChange>) returns (level: nat, reasons: set<Reason>)
    ensures reasons == AllReasons(fields, documents)
    ensures IsLevel(reasons, level) && level <= 2
  {
    level, reasons := 0, {};
    for i := 0 to |fields|
      invariant reasons == AllReasons(fields[..i], [])
      invariant IsLevel(reasons, level) && level <= 2
    {
      var found := FieldReasons(fields[i]);
      ReasonsGrow(fields, i);
      level := Raise(reasons, level, found);
      reasons := reasons + found;
    }
    assert fields[..|fields|] == fields;
    for i := 0 to |documents|
      invariant reasons == AllReasons(fields, documents[..i])
      invariant IsLevel(reasons, level) && level <= 2
    {
      var found := {AttachmentReason(documents[i].kind)};
      assert documents[..i + 1] == documents[..i] + [documents[i]];
      level := Raise(reasons, level, found);
      reasons := reasons + found;
    }
    assert documents[..|documents|] == documents;
  }

  lemma ReasonsGrow(fields: seq<FieldChange>, i: nat)
    requires i < |fields|
    ensures AllReasons(fields[..i + 1], []) == AllReasons(fields[..i], []) + FieldReasons(fields[i])
  {
    assert fields[..i + 1] == fields[..i] + [fields[i]];
  }

  function Highest(level: nat, high: bool, medium: bool): nat {
    if high || level == 2 then 2 else if medium || level == 1 then 1 else level
  }

  method Raise(ghost reasons: set<Reason>, level: nat, found: set<Reason>) returns (raised: nat)
    requires IsLevel(reasons, level) && level <= 2
    ensures IsLevel(reasons + found, raised) && raised <= 2
  {
    raised := Highest(level, exists r :: r in found && Severity(r) == 2, exists r :: r in found && Severity(r) == 1);
  }

  /** There is something to report exactly when there is a reason for it. */
  lemma ReasonsEmptyIffNoChange(fields: seq<FieldChange>, documents: seq<DocumentChange>)
    requires forall c :: c in fields ==> Genuine(c)
    ensures AllReasons(fields, documents) == {} <==> fields == [] && documents == []
  {
    if fields != [] {
      var c := fields[0];
      GenuineHasReason(c);
      var r :| r in FieldReasons(c);
      assert c in fields && r in AllReasons(fields, documents);
    }
    if documents != [] {
      assert documents[0] in documents && AttachmentReason(documents[0].kind) in AllReasons(fields, documents);
    }
  }

  lemma NoDifferenceIsEqual(a: set<string>, b: set<string>)
    ensures a - b == {} && b - a == {} ==> a == b
  {
    if a - b == {} && b - a == {} {
      forall x ensures x in a <==> x in b {
        assert x !in a - b && x !in b - a;
      }
    }
  }

  lemma GenuineHasReason(c: FieldChange)
    requires Genuine(c)
    ensures exists r :: r in FieldReasons(c)
  {
    if c.before == None || c.after == None {
      assert (if c.after == None then BecameUnknown(c.field) else BecameKnown(c.field)) in FieldReasons(c);
    } else {
      var before, after := c.before.value, c.after.value;
      match c.field
      case Budget =>
        assert CurrencyChanged in FieldReasons(c) || BudgetIncreased in FieldReasons(c) || BudgetDecreased in FieldReasons(c);
      case ClosesAt =>
        assert DeadlineEarlier in FieldReasons(c) || DeadlineLater in FieldReasons(c);
      case Regions =>
        assert exists k :: RegionRestriction(k) in FieldReasons(c) by {
          assert RegionRestriction(RegionAdded) in FieldReasons(c) || RegionRestriction(RegionRemoved) in FieldReasons(c)
                 || RegionRestriction(RegionChanged) in FieldReasons(c);
        }
      case Participation => assert MaterialClauseChanged in FieldReasons(c);
      case ContractPeriod => assert PeriodChanged in FieldReasons(c);
      case _ =>
        NoDifferenceIsEqual(before.items, after.items);
        assert RequirementAdded(c.field) in FieldReasons(c) || RequirementRemoved(c.field) in FieldReasons(c);
    }
  }

  /** What each reason says of the change it is given for. */
  lemma ReasonsSayWhatHappened(c: FieldChange)
    requires Genuine(c)
    ensures BecameKnown(c.field) in FieldReasons(c) <==> c.before == None && c.after.Some?
    ensures BecameUnknown(c.field) in FieldReasons(c) <==> c.before.Some? && c.after == None
    ensures BudgetIncreased in FieldReasons(c) <==>
              IsRaise(c.before, c.after) && c.field == Budget
    ensures BudgetDecreased in FieldReasons(c) <==>
              IsRaise(c.after, c.before) && c.field == Budget
    ensures CurrencyChanged in FieldReasons(c) <==>
              c.field == Budget && c.before.Some? && c.after.Some? && c.before.value.currency != c.after.value.currency
    ensures DeadlineEarlier in FieldReasons(c) <==>
              c.field == ClosesAt && c.before.Some? && c.after.Some? && c.after.value.at < c.before.value.at
    ensures DeadlineLater in FieldReasons(c) <==>
              c.field == ClosesAt && c.before.Some? && c.after.Some? && c.after.value.at > c.before.value.at
    ensures RequirementAdded(c.field) in FieldReasons(c) <==>
              (c.field == Certifications || c.field == Capabilities) && c.before.Some? && c.after.Some?
              && exists x :: x in c.after.value.items && x !in c.before.value.items
    ensures RequirementRemoved(c.field) in FieldReasons(c) <==>
              (c.field == Certifications || c.field == Capabilities) && c.before.Some? && c.after.Some?
              && exists x :: x in c.before.value.items && x !in c.after.value.items
  {
    if c.before.Some? && c.after.Some? && c.before.value.Items? {
      var before, after := c.before.value.items, c.after.value.items;
      if x :| x in after && x !in before { assert x in after - before; }
      if x :| x in before && x !in after { assert x in before - after; }
      if after - before != {} { var x :| x in after - before; }
      if before - after != {} { var x :| x in before - after; }
    }
  }

  /** More money in the same currency. */
  predicate IsRaise(before: Option<Value>, after: Option<Value>) {
    && before.Some? && after.Some? && before.value.Money? && after.value.Money?
    && before.value.currency == after.value.currency && after.value.amount > before.value.amount
  }

  /** Regions are added where there were none, removed where none are left, and changed otherwise; changed
      terms and periods are said to be so; and no reason names another field. */
  lemma RegionReasons(c: FieldChange)
    requires Genuine(c) && c.before.Some? && c.after.Some?
    ensures c.field == Regions ==>
              FieldReasons(c) == {RegionRestriction(if c.before.value.items == {} then RegionAdded
                                                    else if c.after.value.items == {} then RegionRemoved else RegionChanged)}
    ensures c.field == Participation ==> FieldReasons(c) == {MaterialClauseChanged}
    ensures c.field == ContractPeriod ==> FieldReasons(c) == {PeriodChanged}
    ensures forall f :: RequirementAdded(f) in FieldReasons(c) || RequirementRemoved(f) in FieldReasons(c) ==> f == c.field
  {
  }

  function Mirror(r: Reason): Reason {
    match r
    case BecameUnknown(f) => BecameKnown(f)
    case BecameKnown(f) => BecameUnknown(f)
    case BudgetIncreased => BudgetDecreased
    case BudgetDecreased => BudgetIncreased
    case DeadlineEarlier => DeadlineLater
    case DeadlineLater => DeadlineEarlier
    case RegionRestriction(RegionAdded) => RegionRestriction(RegionRemoved)
    case RegionRestriction(RegionRemoved) => RegionRestriction(RegionAdded)
    case RequirementAdded(f) => RequirementRemoved(f)
    case RequirementRemoved(f) => RequirementAdded(f)
    case _ => r
  }

  /** Undoing a change is reported as its mirror image: what became known becomes unknown, an earlier
      deadline a later one, an added requirement a removed one. */
  lemma ReversalMirrorsReasons(c: FieldChange, r: Reason)
    requires Genuine(c)
    ensures Mirror(r) in FieldReasons(FieldChange(c.field, c.after, c.before)) <==> r in FieldReasons(c)
  {
    assert Mirror(Mirror(r)) == r;
    if c.before.Some? && c.after.Some? && c.before.value.Items? {
      NoDifferenceIsEqual(c.before.value.items, c.after.value.items);
    }
  }

  /** A change between two known values that can only make the opportunity harder to win. */
  predicate Tightens(c: FieldChange) {
    && c.before.Some? && c.after.Some?
    && match c.field
       case ClosesAt => c.before.value.Instant? && c.after.value.Instant? && c.after.value.at < c.before.value.at
       case Regions => c.before.value.Items? && c.after.value.Items? && (c.after.value.items != {} || c.before.value.items == {})
       case Certifications => c.before.value.Items? && c.after.value.Items? && !(c.after.value.items <= c.before.value.items)
       case Capabilities => c.before.value.Items? && c.after.value.Items? && !(c.after.value.items <= c.before.value.items)
       case Participation => true
       case _ => false
  }

  lemma TightensIff(c: FieldChange)
    ensures Tightens(c) <==> exists r :: r in FieldReasons(c) && Severity(r) == 2
  {
    if c.before.Some? && c.after.Some? && c.before.value.Items? && c.after.value.Items? {
      var more := c.after.value.items - c.before.value.items;
      if more == {} {
        forall x | x in c.after.value.items ensures x in c.before.value.items { assert x !in more; }
      }
      assert RequirementAdded(c.field) in FieldReasons(c) || RegionRestriction(RegionAdded) in FieldReasons(c)
             || RegionRestriction(RegionChanged) in FieldReasons(c) || MaterialClauseChanged in FieldReasons(c)
             || !Tightens(c);
    }
    assert Tightens(c) && c.field == ClosesAt ==> DeadlineEarlier in FieldReasons(c);
    assert Tightens(c) && c.field == Participation ==> MaterialClauseChanged in FieldReasons(c);
  }

  /** The impact is high exactly when some field tightens, and low exactly when nothing but documents was
      added. */
  lemma LevelMeaning(fields: seq<FieldChange>, documents: seq<DocumentChange>, level: nat)
    requires forall c :: c in fields ==> Genuine(c)
    requires IsLevel(AllReasons(fields, documents), level)
    ensures level == 2 <==> exists c :: c in fields && Tightens(c)
    ensures level == 0 <==> fields == [] && forall d :: d in documents ==> d.kind == Added
  {
    var all := AllReasons(fields, documents);
    forall c | c in fields ensures Tightens(c) ==> level == 2 {
      TightensIff(c);
      if Tightens(c) {
        var r :| r in FieldReasons(c) && Severity(r) == 2;
        assert r in all;
      }
    }
    if level == 2 {
      var r :| r in all && Severity(r) == 2;
      var c :| c in fields && r in FieldReasons(c);
      TightensIff(c);
    }
    LowLevel(fields, documents, level);
  }

  lemma LowLevel(fields: seq<FieldChange>, documents: seq<DocumentChange>, level: nat)
    requires forall c :: c in fields ==> Genuine(c)
    requires IsLevel(AllReasons(fields, documents), level)
    ensures level == 0 <==> fields == [] && forall d :: d in documents ==> d.kind == Added
  {
    if fields != [] {
      GenuineHasReason(fields[0]);
      var r :| r in FieldReasons(fields[0]);
      assert fields[0] in fields && r in AllReasons(fields, documents);
      FieldReasonsMatter(fields[0], r);
    }
    forall d | d in documents ensures d.kind != Added ==> level > 0 {
      assert AttachmentReason(d.kind) in AllReasons(fields, documents);
    }
  }

  lemma FieldReasonsMatter(c: FieldChange, r: Reason)
    requires r in FieldReasons(c)
    ensures Severity(r) >= 1
  {
  }

  /** Adding changes never lowers the level and never loses a reason; order and repetition do not matter. */
  lemma MoreChangesNeverLower(fields: seq<FieldChange>, documents: seq<DocumentChange>,
                              fields': seq<FieldChange>, documents': seq<DocumentChange>, level: nat, level': nat)
    requires forall c :: c in fields ==> c in fields'
    requires forall d :: d in documents ==> d in documents'
    requires IsLevel(AllReasons(fields, documents), level) && IsLevel(AllReasons(fields', documents'), level')
    ensures AllReasons(fields, documents) <= AllReasons(fields', documents')
    ensures level <= level'
  {
    assert AllReasons(fields, documents) <= AllReasons(fields', documents');
  }

  // ----- the comparison

  datatype Error = DifferentOpportunities | NotAscending | RawMismatch

  datatype Comparison = Comparison(
    fields: seq<FieldChange>, evidence: seq<(seq<Evidence>, seq<Evidence>)>, documents: seq<DocumentChange>, level: nat, reasons: set<Reason>)

  /** Compares two snapshots.  From the result and the earlier snapshot the later claims can be rebuilt, and
      the result is silent about impact exactly when it records no change. */
  method ComputeDelta(prior: Snapshot, later: Snapshot) returns (result: Result<Comparison, Error>)
    requires WellFormed(prior) && WellFormed(later)
    ensures result.Success? <==> prior.opportunity == later.opportunity && prior.number < later.number
                                 && prior.raw == prior.rawOfVersion && later.raw == later.rawOfVersion
    ensures result.Success? ==>
              var d := result.value;
              && ApplyFields(ClaimsOf(prior), d.fields) == ClaimsOf(later)
              && d.documents == Changes(ManifestOf(prior.attachments), ManifestOf(later.attachments), prior.complete,
                                        later.complete, SortedUrls(prior.attachments + later.attachments))
              && d.reasons == AllReasons(d.fields, d.documents)
              && IsLevel(d.reasons, d.level)
              && (d.reasons == {} <==> ClaimsOf(prior) == ClaimsOf(later) && d.documents == [])
              && Documents(prior, later, d.fields, d.evidence)
  {
    if prior.opportunity != later.opportunity {
      return Failure(DifferentOpportunities);
    }
    if prior.number >= later.number {
      return Failure(NotAscending);
    }
    if prior.raw != prior.rawOfVersion || later.raw != later.rawOfVersion {
      return Failure(RawMismatch);
    }
    var fields, evidence := CompareFields(prior, later);
    var documents := CompareDocuments(prior.attachments, later.attachments, prior.complete, later.complete);
    var level, reasons := ClassifyImpact(fields, documents);
    ClaimsOfSnapshot(prior);
    ClaimsOfSnapshot(later);
    FieldChangesAreComplete(ClaimsOf(prior), ClaimsOf(later));
    FieldChangesAreGenuine(ClaimsOf(prior), ClaimsOf(later), FIELDS);
    ReasonsEmptyIffNoChange(fields, documents);
    SameClaimsNoChanges(ClaimsOf(prior), FIELDS);
    return Success(Comparison(fields, evidence, documents, level, reasons));
  }

  lemma {:induction false} SameClaimsNoChanges(claims: Claims, fields: seq<Field>)
    ensures FieldChanges(claims, claims, fields) == []
  {
    if fields != [] {
      SameClaimsNoChanges(claims, fields[..|fields| - 1]);
    }
  }
}
