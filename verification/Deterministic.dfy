/** The deterministic extractor, and its completeness against the validator. */
module Deterministic {
  import opened Wrappers
  import opened Text
  import opened Spans
  import opened Validation
  import V = ValidationExact

  /** A page's spans with the reference each of them would be quoted by. */
  function Cited(page: Page, spans: seq<string>): seq<Reference> {
    seq(|spans|, i requires 0 <= i < |spans| => Reference(page.sha, page.number, Strip(spans[i])))
  }

  function AllCited(g: Grammar, pages: seq<Page>): seq<Reference> {
    if pages == [] then []
    else
      var last := pages[|pages| - 1];
      AllCited(g, pages[..|pages| - 1]) + Cited(last, EvidenceSpans(g, last.text))
  }

  /** References to every span that states the field, in document order. */
  function Supporting(g: Grammar, cited: seq<Reference>, field: string): seq<Reference> {
    if cited == [] then []
    else
      var last := cited[|cited| - 1];
      Supporting(g, cited[..|cited| - 1], field) + if field in LabeledClaims(g, last.quote) then [last] else []
  }

  /** The proposal: first stated value of every field, with every span that states it. */
  ghost predicate IsExtract(g: Grammar, pages: seq<Page>, p: Proposal) {
    var spans, cited := AllSpans(PageSpans(g, pages)), AllCited(g, pages);
    && p.claims.Keys == StatedFields(g, spans)
    && p.evidence.Keys == StatedFields(g, spans)
    && (forall f :: f in p.claims ==> Stated(g, spans, f) != [] && p.claims[f] == Stated(g, spans, f)[0])
    && (forall f :: f in p.evidence ==> p.evidence[f] == Supporting(g, cited, f))
  }

  // ----- the extractor

  function AddFirst(claims: Claims, more: Claims): Claims {
    more + claims
  }

  function AddReferences(evidence: map<string, seq<Reference>>, fields: set<string>, r: Reference): map<string, seq<Reference>> {
    map f | f in evidence.Keys + fields :: (if f in evidence then evidence[f] else []) + if f in fields then [r] else []
  }

  ghost predicate Gathered(g: Grammar, spans: seq<string>, cited: seq<Reference>, p: Proposal) {
    && ClaimsGathered(g, spans, p.claims)
    && EvidenceGathered(g, spans, cited, p.evidence)
    && |spans| == |cited|
    && (forall i :: 0 <= i < |spans| ==> cited[i].quote == spans[i])
  }

  ghost predicate ClaimsGathered(g: Grammar, spans: seq<string>, claims: Claims) {
    && claims.Keys == StatedFields(g, spans)
    && (forall f :: f in claims ==> Stated(g, spans, f) != [] && claims[f] == Stated(g, spans, f)[0])
  }

  ghost predicate EvidenceGathered(g: Grammar, spans: seq<string>, cited: seq<Reference>, evidence: map<string, seq<Reference>>) {
    && evidence.Keys == StatedFields(g, spans)
    && (forall f :: f in evidence ==> evidence[f] == Supporting(g, cited, f))
  }

  lemma GatherOne(g: Grammar, spans: seq<string>, cited: seq<Reference>, p: Proposal, span: string, r: Reference)
    requires Gathered(g, spans, cited, p) && r.quote == span
    ensures var claims := LabeledClaims(g, span);
            Gathered(g, spans + [span], cited + [r],
                     Proposal(AddFirst(p.claims, claims), AddReferences(p.evidence, claims.Keys, r)))
  {
    GatherClaims(g, spans, p.claims, span);
    GatherEvidence(g, spans, cited, p.evidence, span, r);
  }

  lemma GatherClaims(g: Grammar, spans: seq<string>, claims: Claims, span: string)
    requires ClaimsGathered(g, spans, claims)
    ensures ClaimsGathered(g, spans + [span], AddFirst(claims, LabeledClaims(g, span)))
  {
    StatedFieldsExact(g, spans);
    forall f {:trigger Stated(g, spans, f)} ensures Stated(g, spans + [span], f) == Stated(g, spans, f) + StatedIn(g, span, f) {
      NextStated(g, spans, span, f);
    }
    assert (spans + [span])[..|spans|] == spans;
  }

  lemma GatherEvidence(g: Grammar, spans: seq<string>, cited: seq<Reference>, evidence: map<string, seq<Reference>>,
                       span: string, r: Reference)
    requires EvidenceGathered(g, spans, cited, evidence) && r.quote == span
    requires |spans| == |cited| && forall i :: 0 <= i < |spans| ==> cited[i].quote == spans[i]
    ensures EvidenceGathered(g, spans + [span], cited + [r], AddReferences(evidence, LabeledClaims(g, span).Keys, r))
  {
    NoSupport(g, spans, cited);
    assert (spans + [span])[..|spans|] == spans;
    assert (cited + [r])[..|cited|] == cited;
  }

  /** A field nobody stated has no supporting reference. */
  lemma {:induction false} NoSupport(g: Grammar, spans: seq<string>, cited: seq<Reference>)
    requires |spans| == |cited| && forall i :: 0 <= i < |spans| ==> cited[i].quote == spans[i]
    ensures forall f :: f !in StatedFields(g, spans) ==> Supporting(g, cited, f) == []
  {
    if spans != [] {
      NoSupport(g, spans[..|spans| - 1], cited[..|cited| - 1]);
    }
  }

  lemma SpansAreStripped(g: Grammar, text: string)
    ensures forall i :: 0 <= i < |EvidenceSpans(g, text)| ==> Strip(EvidenceSpans(g, text)[i]) == EvidenceSpans(g, text)[i]
  {
    var lines := SplitLines(text);
    forall i | 0 <= i < |EvidenceSpans(g, text)|
      ensures Strip(EvidenceSpans(g, text)[i]) == EvidenceSpans(g, text)[i]
    {
      SpanIsStripped(g, lines, i);
    }
  }

  /** Adds the claims of one span, each cited by the same reference. */
  method ExtractSpan(g: Grammar, before: Proposal, span: string, r: Reference,
                     ghost spans: seq<string>, ghost cited: seq<Reference>) returns (p: Proposal)
    requires Gathered(g, spans, cited, before) && r.quote == span
    ensures Gathered(g, spans + [span], cited + [r], p)
  {
    var claims := LabeledClaims(g, span);
    GatherOne(g, spans, cited, before, span, r);
    p := Proposal(AddFirst(before.claims, claims), AddReferences(before.evidence, claims.Keys, r));
  }

  /** Adds the spans of one page to a proposal gathered from the pages before it. */
  method ExtractPage(g: Grammar, page: Page, own: seq<string>, before: Proposal,
                     ghost spans: seq<string>, ghost cited: seq<Reference>) returns (p: Proposal)
    requires Gathered(g, spans, cited, before)
    requires forall i :: 0 <= i < |own| ==> Strip(own[i]) == own[i]
    ensures Gathered(g, spans + own, cited + Cited(page, own), p)
  {
    p := before;
    ghost var seen, quoted := spans, cited;
    for k := 0 to |own|
      invariant seen == spans + own[..k] && quoted == cited + Cited(page, own)[..k]
      invariant Gathered(g, seen, quoted, p)
    {
      var r := Reference(page.sha, page.number, Strip(own[k]));
      p := ExtractSpan(g, p, own[k], r, seen, quoted);
      NextCited(page, own, k);
      seen, quoted := seen + [own[k]], quoted + [r];
    }
    assert own[..|own|] == own && Cited(page, own)[..|own|] == Cited(page, own);
  }

  lemma NextCited(page: Page, own: seq<string>, k: nat)
    requires k < |own|
    ensures own[..k + 1] == own[..k] + [own[k]]
    ensures Cited(page, own)[..k + 1] == Cited(page, own)[..k] + [Reference(page.sha, page.number, Strip(own[k]))]
  {
  }

  method Extract(g: Grammar, pages: seq<Page>) returns (p: Proposal)
    ensures IsExtract(g, pages, p)
  {
    p := Proposal(map[], map[]);
    for n := 0 to |pages|
      invariant Gathered(g, AllSpans(PageSpans(g, pages[..n])), AllCited(g, pages[..n]), p)
    {
      PageAppends(g, pages, n);
      var own := ComputeSpans(g, pages[n].text);
      SpansAreStripped(g, pages[n].text);
      p := ExtractPage(g, pages[n], own, p, AllSpans(PageSpans(g, pages[..n])), AllCited(g, pages[..n]));
    }
    assert pages[..|pages|] == pages;
  }

  lemma PageAppends(g: Grammar, pages: seq<Page>, n: nat)
    requires n < |pages|
    ensures AllSpans(PageSpans(g, pages[..n + 1])) == AllSpans(PageSpans(g, pages[..n])) + EvidenceSpans(g, pages[n].text)
    ensures AllCited(g, pages[..n + 1]) == AllCited(g, pages[..n]) + Cited(pages[n], EvidenceSpans(g, pages[n].text))
  {
    assert pages[..n + 1][..n] == pages[..n];
    assert PageSpans(g, pages[..n + 1])[..n] == PageSpans(g, pages[..n]);
  }

  // ----- completeness

  lemma {:induction false} CitedOnPage(g: Grammar, pages: seq<Page>, r: Reference)
    requires r in AllCited(g, pages)
    ensures OnPage(g, pages, r)
  {
    var n := |pages| - 1;
    var last := pages[n];
    var spans := EvidenceSpans(g, last.text);
    if r in Cited(last, spans) {
      SpansAreStripped(g, last.text);
      assert PageSpans(g, pages)[n] == spans;
    } else {
      CitedOnPage(g, pages[..n], r);
      var i :| 0 <= i < n && pages[..n][i].sha == r.sha && pages[..n][i].number == r.number
               && r.quote in PageSpans(g, pages[..n])[i];
      assert PageSpans(g, pages)[i] == PageSpans(g, pages[..n])[i];
    }
  }

  lemma {:induction false} SupportingExact(g: Grammar, cited: seq<Reference>, field: string, r: Reference)
    ensures r in Supporting(g, cited, field) <==> r in cited && field in LabeledClaims(g, r.quote)
  {
    if cited != [] {
      var front, last := cited[..|cited| - 1], cited[|cited| - 1];
      SupportingExact(g, front, field, r);
      assert r in cited <==> r in front || r == last;
      var more := if field in LabeledClaims(g, last.quote) then [last] else [];
      assert Supporting(g, cited, field) == Supporting(g, front, field) + more;
    }
  }

  /** Citing keeps the spans: the quotes are the spans of the document, in order. */
  lemma {:induction false} CitedQuotes(g: Grammar, pages: seq<Page>)
    ensures var spans, cited := AllSpans(PageSpans(g, pages)), AllCited(g, pages);
            |spans| == |cited| && forall i :: 0 <= i < |spans| ==> cited[i].quote == spans[i]
  {
    if pages != [] {
      var n := |pages| - 1;
      CitedQuotes(g, pages[..n]);
      PageAppends(g, pages, n);
      SpansAreStripped(g, pages[n].text);
      assert pages[..n + 1] == pages;
    }
  }

  /** A stated field has a supporting reference. */
  lemma StatedIsSupported(g: Grammar, pages: seq<Page>, f: string)
    requires Stated(g, AllSpans(PageSpans(g, pages)), f) != []
    ensures Supporting(g, AllCited(g, pages), f) != []
  {
    var spans, cited := AllSpans(PageSpans(g, pages)), AllCited(g, pages);
    CitedQuotes(g, pages);
    var v := Stated(g, spans, f)[0];
    StatedHasSpan(g, spans, f, v);
    var s :| s in spans && f in LabeledClaims(g, s) && LabeledClaims(g, s)[f] == v;
    var i :| 0 <= i < |spans| && spans[i] == s;
    SupportingExact(g, cited, f, cited[i]);
  }

  /** Extracted proposals never lack evidence, never misplace it, and quote an unsupporting span only for a
      field the document itself states in two ways. */
  lemma ExtractIsNeverUngrounded(g: Grammar, pages: seq<Page>, p: Proposal, f: Option<string>)
    requires IsExtract(g, pages, p)
    ensures !Reported(g, pages, p, (f, MissingEvidence))
    ensures !Reported(g, pages, p, (f, EvidenceNotOnPage))
    ensures !Reported(g, pages, p, (f, EvidenceForAbsentField))
    ensures Reported(g, pages, p, (f, UnsupportedValue)) ==> Reported(g, pages, p, (f, ContradictoryClaims))
  {
    if f.Some? && f.value in p.claims {
      StatedIsSupported(g, pages, f.value);
      forall r | References(p, f.value, r)
        ensures OnPage(g, pages, r)
        ensures !Decodes(g, r, f.value, p.claims[f.value]) ==> Reported(g, pages, p, (f, ContradictoryClaims))
      {
        SupportingExact(g, AllCited(g, pages), f.value, r);
        CitedOnPage(g, pages, r);
        GroundedIsStated(g, pages, r, f.value, LabeledClaims(g, r.quote)[f.value]);
      }
    }
  }

  /** The extractor is complete: its proposal is accepted exactly when the stated values are schema-valid,
      no field is stated in two ways, and no stated list field is also qualified. */
  lemma ExtractAcceptedIff(g: Grammar, pages: seq<Page>, p: Proposal)
    requires IsExtract(g, pages, p)
    requires g.heading("") == None && forall i :: 0 <= i < |pages| ==> WellFormedPage(pages[i])
    ensures var spans := AllSpans(PageSpans(g, pages));
            Accepts(g, pages, p) <==>
              && g.schema(p.claims) == []
              && (forall f :: f in StatedFields(g, spans) ==> Agree(Stated(g, spans, f)))
              && StatedFields(g, spans) !! Qualified(g, spans)
  {
    var spans := AllSpans(PageSpans(g, pages));
    StatedFieldsExact(g, spans);
    EvidenceWellFormed(g, pages, p);
    if Accepts(g, pages, p) {
      assert forall f :: f in StatedFields(g, spans) ==> f in DocumentClaims(g, spans);
      assert DocumentClaims(g, spans) == p.claims;
    }
    if (forall f :: f in StatedFields(g, spans) ==> Agree(Stated(g, spans, f))) && StatedFields(g, spans) !! Qualified(g, spans) {
      assert DocumentClaims(g, spans) == p.claims;
      ConsistentIsGrounded(g, pages, p);
    }
  }

  lemma ConsistentIsGrounded(g: Grammar, pages: seq<Page>, p: Proposal)
    requires IsExtract(g, pages, p)
    requires forall f :: f in p.claims ==> Agree(Stated(g, AllSpans(PageSpans(g, pages)), f))
    ensures Grounded(g, pages, p)
  {
    forall f | f in p.claims
      ensures p.evidence[f] != []
      ensures forall r :: References(p, f, r) ==> OnPage(g, pages, r) && Decodes(g, r, f, p.claims[f])
    {
      StatedIsSupported(g, pages, f);
      forall r | References(p, f, r) ensures OnPage(g, pages, r) && Decodes(g, r, f, p.claims[f]) {
        SupportingExact(g, AllCited(g, pages), f, r);
        CitedOnPage(g, pages, r);
        GroundedIsStated(g, pages, r, f, LabeledClaims(g, r.quote)[f]);
      }
    }
  }

  /** The same in terms of the document: the stated values are schema-valid, no two spans state a field
      differently, and no stated field is negated by any span. */
  lemma ExtractAcceptedExactly(g: Grammar, pages: seq<Page>, p: Proposal)
    requires IsExtract(g, pages, p)
    requires g.heading("") == None && forall i :: 0 <= i < |pages| ==> WellFormedPage(pages[i])
    ensures Accepts(g, pages, p)
            <==> && g.schema(p.claims) == []
                 && (forall f :: f in p.claims ==> !V.NegatedOn(g, pages, f))
                 && forall f, span :: f in p.claims && V.OnDocument(g, pages, span) && f in LabeledClaims(g, span) ==>
                      LabeledClaims(g, span)[f] == p.claims[f]
  {
    var spans := AllSpans(PageSpans(g, pages));
    ExtractAcceptedIff(g, pages, p);
    forall f ensures f in Qualified(g, spans) <==> V.NegatedOn(g, pages, f) { V.QualifiedIff(g, pages, f); }
    forall f | f in p.claims
      ensures Agree(Stated(g, spans, f))
              <==> forall span :: V.OnDocument(g, pages, span) && f in LabeledClaims(g, span) ==> LabeledClaims(g, span)[f] == p.claims[f]
    {
      V.AgreeIff(g, pages, f, p.claims[f]);
    }
  }

  /** What is extracted: every field some span states, with a stated value, cited by exactly the spans that
      state it, each as a reference to its page. */
  lemma ExtractIsExact(g: Grammar, pages: seq<Page>, p: Proposal, f: string, r: Reference)
    requires IsExtract(g, pages, p)
    ensures f in p.claims <==> V.StatedOn(g, pages, f)
    ensures p.evidence.Keys == p.claims.Keys
    ensures f in p.claims ==> exists span :: V.OnDocument(g, pages, span) && f in LabeledClaims(g, span) && LabeledClaims(g, span)[f] == p.claims[f]
    ensures f in p.claims ==>
              (r in p.evidence[f] <==>
                 && f in LabeledClaims(g, r.quote)
                 && exists i :: 0 <= i < |pages| && V.QuotesPage(g, pages[i], r))
  {
    V.StatedFieldIff(g, pages, f);
    if f in p.claims {
      V.StatedIff(g, pages, f, p.claims[f]);
      SupportingExact(g, AllCited(g, pages), f, r);
      CitedIff(g, pages, r);
    }
  }

  lemma {:induction false} CitedOnSome(g: Grammar, pages: seq<Page>, r: Reference, holds: Page -> bool)
    requires forall page :: holds(page) <==> r in Cited(page, EvidenceSpans(g, page.text))
    ensures r in AllCited(g, pages) <==> exists page :: page in pages && holds(page)
  {
    if pages != [] {
      var front, last := pages[..|pages| - 1], pages[|pages| - 1];
      CitedOnSome(g, front, r, holds);
      assert forall page :: page in pages <==> page in front || page == last;
    }
  }

  lemma CitedIff(g: Grammar, pages: seq<Page>, r: Reference)
    ensures r in AllCited(g, pages) <==> exists i :: 0 <= i < |pages| && V.QuotesPage(g, pages[i], r)
  {
    var holds := (page: Page) => V.QuotesPage(g, page, r);
    forall page ensures holds(page) <==> r in Cited(page, EvidenceSpans(g, page.text)) { CitedOnLast(g, page, r); }
    CitedOnSome(g, pages, r, holds);
    HoldsIsQuotes(g, pages, r, holds);
  }

  lemma HoldsIsQuotes(g: Grammar, pages: seq<Page>, r: Reference, holds: Page -> bool)
    requires forall page :: holds(page) <==> V.QuotesPage(g, page, r)
    ensures (exists page :: page in pages && holds(page)) <==> exists i :: 0 <= i < |pages| && V.QuotesPage(g, pages[i], r)
  {
    if page :| page in pages && holds(page) {
      var i :| 0 <= i < |pages| && pages[i] == page;
      assert V.QuotesPage(g, pages[i], r);
    }
    if i :| 0 <= i < |pages| && V.QuotesPage(g, pages[i], r) {
      assert pages[i] in pages && holds(pages[i]);
    }
  }

  lemma CitedOnLast(g: Grammar, page: Page, r: Reference)
    ensures r in Cited(page, EvidenceSpans(g, page.text)) <==> V.QuotesPage(g, page, r)
  {
    var spans := EvidenceSpans(g, page.text);
    SpansAreStripped(g, page.text);
    if V.QuotesPage(g, page, r) {
      var i :| 0 <= i < |spans| && spans[i] == r.quote;
      assert Cited(page, spans)[i] == r;
    }
  }

  lemma EvidenceWellFormed(g: Grammar, pages: seq<Page>, p: Proposal)
    requires IsExtract(g, pages, p)
    requires g.heading("") == None && forall i :: 0 <= i < |pages| ==> WellFormedPage(pages[i])
    ensures forall f :: f in p.evidence ==> forall r :: r in p.evidence[f] ==> WellFormedReference(r)
  {
    forall f, r | f in p.evidence && r in p.evidence[f] ensures WellFormedReference(r) {
      SupportingExact(g, AllCited(g, pages), f, r);
      CitedOnPage(g, pages, r);
    }
  }

  /** Whoever proposes: accepted proposals on one document agree on every field both claim, and when the
      document contradicts itself nothing is accepted, whatever the proposal leaves out. */
  lemma AcceptedProposalsAgree(g: Grammar, pages: seq<Page>, p: Proposal, q: Proposal)
    requires SchemaValid(g, p) && SchemaValid(g, q) && Quiet(g, pages, p)
    ensures Coherent(g, AllSpans(PageSpans(g, pages)))
    ensures Quiet(g, pages, q) ==> forall f :: f in p.claims && f in q.claims ==> p.claims[f] == q.claims[f]
  {
    AcceptedIffNoIssue(g, pages, p);
    AcceptedIffNoIssue(g, pages, q);
  }
}
