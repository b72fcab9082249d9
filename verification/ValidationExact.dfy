/** What acceptance of a proposal means, in terms of the spans of its document alone. */
module ValidationExact {
  import opened Wrappers
  import opened Text
  import opened Spans
  import opened Validation
  import opened SpansExact

  /** The text is a span of one of the pages. */
  ghost predicate OnDocument(g: Grammar, pages: seq<Page>, span: string) {
    exists i :: 0 <= i < |pages| && SpanOn(g, pages[i], span)
  }

  /** The reference quotes a span of the page. */
  predicate QuotesPage(g: Grammar, page: Page, r: Reference) {
    page.sha == r.sha && page.number == r.number && SpanOn(g, page, r.quote)
  }

  predicate SpanOn(g: Grammar, page: Page, span: string) {
    span in EvidenceSpans(g, page.text)
  }

  /** The span labels a list field with a value that is negated or qualified. */
  ghost predicate Negates(g: Grammar, span: string, field: string) {
    exists caption, value :: Says(g, span, caption, value) && ListLabel(caption, field) && g.negated(value)
  }

  predicate ListLabel(caption: string, field: string) {
    || (caption == "Region" && field == "regions")
    || (caption == "Certifications" && field == "required_certifications")
    || (caption == "Capabilities" && field == "required_capabilities")
    || (caption == "Participation constraints" && field == "participation_constraints")
  }

  ghost predicate NegatedOn(g: Grammar, pages: seq<Page>, field: string) {
    exists span :: OnDocument(g, pages, span) && Negates(g, span, field)
  }

  ghost predicate StatedOn(g: Grammar, pages: seq<Page>, field: string) {
    exists span :: OnDocument(g, pages, span) && field in LabeledClaims(g, span)
  }

  lemma NegatesIff(g: Grammar, span: string, field: string)
    ensures Negates(g, span, field) <==> QualifiedField(g, span) == Some(field)
  {
    var l := SplitLabel(g, span);
    ListLabels(l.caption, field);
    if Negates(g, span, field) {
      var caption, value :| Says(g, span, caption, value) && ListLabel(caption, field) && g.negated(value);
      LabelIsRead(g, span, caption, value);
    }
    if QualifiedField(g, span) == Some(field) {
      LabelWasSaid(g, span);
      assert Says(g, span, l.caption, l.value) && ListLabel(l.caption, field);
    }
  }

  lemma {:induction false} AllSpansExact(pages: seq<seq<string>>, span: string)
    ensures span in AllSpans(pages) <==> exists i :: 0 <= i < |pages| && span in pages[i]
  {
    if pages != [] {
      var front, n := pages[..|pages| - 1], |pages| - 1;
      AllSpansExact(front, span);
      if i :| 0 <= i < |front| && span in front[i] { assert span in pages[i]; }
      if i :| 0 <= i < |pages| && span in pages[i] { if i < n { assert span in front[i]; } }
    }
  }

  lemma DocumentSpans(g: Grammar, pages: seq<Page>, span: string)
    ensures span in AllSpans(PageSpans(g, pages)) <==> OnDocument(g, pages, span)
  {
    var all := PageSpans(g, pages);
    AllSpansExact(all, span);
    if i :| 0 <= i < |all| && span in all[i] { assert SpanOn(g, pages[i], span); }
    if i :| 0 <= i < |pages| && SpanOn(g, pages[i], span) { assert span in all[i]; }
  }

  lemma QualifiedIff(g: Grammar, pages: seq<Page>, field: string)
    ensures field in Qualified(g, AllSpans(PageSpans(g, pages))) <==> NegatedOn(g, pages, field)
  {
    var spans := AllSpans(PageSpans(g, pages));
    forall span ensures span in spans && QualifiedField(g, span) == Some(field) <==> OnDocument(g, pages, span) && Negates(g, span, field) {
      DocumentSpans(g, pages, span);
      NegatesIff(g, span, field);
    }
  }

  // ----- the document's own map

  /** The claims of the document: every field some span states and none negates, with the one value that all
      spans stating it agree on. */
  ghost predicate IsDocumentMap(g: Grammar, pages: seq<Page>, source: Claims) {
    && (forall f :: f in source <==> StatedOn(g, pages, f) && !NegatedOn(g, pages, f))
    && forall f, span :: f in source && OnDocument(g, pages, span) && f in LabeledClaims(g, span) ==>
         LabeledClaims(g, span)[f] == source[f]
  }

  lemma StatedIff(g: Grammar, pages: seq<Page>, f: string, v: Value)
    ensures v in Stated(g, AllSpans(PageSpans(g, pages)), f)
            <==> exists span :: OnDocument(g, pages, span) && f in LabeledClaims(g, span) && LabeledClaims(g, span)[f] == v
  {
    var spans := AllSpans(PageSpans(g, pages));
    StatedHasSpan(g, spans, f, v);
    forall span ensures span in spans <==> OnDocument(g, pages, span) { DocumentSpans(g, pages, span); }
  }

  lemma StatedFieldIff(g: Grammar, pages: seq<Page>, f: string)
    ensures f in StatedFields(g, AllSpans(PageSpans(g, pages))) <==> StatedOn(g, pages, f)
  {
    var spans := AllSpans(PageSpans(g, pages));
    StatedFieldsExact(g, spans);
    if Stated(g, spans, f) != [] {
      StatedIff(g, pages, f, Stated(g, spans, f)[0]);
    }
    if span :| OnDocument(g, pages, span) && f in LabeledClaims(g, span) {
      StatedIff(g, pages, f, LabeledClaims(g, span)[f]);
    }
  }

  lemma DocumentMapKeys(g: Grammar, pages: seq<Page>, f: string)
    ensures f in DocumentClaims(g, AllSpans(PageSpans(g, pages))) <==> StatedOn(g, pages, f) && !NegatedOn(g, pages, f)
  {
    StatedFieldIff(g, pages, f);
    QualifiedIff(g, pages, f);
  }

  lemma AgreeIff(g: Grammar, pages: seq<Page>, f: string, v: Value)
    requires var stated := Stated(g, AllSpans(PageSpans(g, pages)), f); stated != [] && stated[0] == v
    ensures Agree(Stated(g, AllSpans(PageSpans(g, pages)), f))
            <==> forall span :: OnDocument(g, pages, span) && f in LabeledClaims(g, span) ==> LabeledClaims(g, span)[f] == v
  {
    var stated := Stated(g, AllSpans(PageSpans(g, pages)), f);
    forall span | OnDocument(g, pages, span) && f in LabeledClaims(g, span) ensures LabeledClaims(g, span)[f] in stated {
      StatedIff(g, pages, f, LabeledClaims(g, span)[f]);
    }
    forall i | 0 <= i < |stated|
      ensures exists span :: OnDocument(g, pages, span) && f in LabeledClaims(g, span) && LabeledClaims(g, span)[f] == stated[i]
    {
      StatedIff(g, pages, f, stated[i]);
    }
  }

  /** The document is coherent exactly when its own map is a valid one. */
  lemma CoherentMap(g: Grammar, pages: seq<Page>)
    ensures var spans := AllSpans(PageSpans(g, pages));
            Coherent(g, spans)
            <==> IsDocumentMap(g, pages, DocumentClaims(g, spans)) && g.schema(DocumentClaims(g, spans)) == []
  {
    AgreedMap(g, pages);
  }

  lemma AgreedMap(g: Grammar, pages: seq<Page>)
    ensures var spans := AllSpans(PageSpans(g, pages));
            (forall f :: f in DocumentClaims(g, spans) ==> Agree(Stated(g, spans, f))) <==> IsDocumentMap(g, pages, DocumentClaims(g, spans))
  {
    var spans := AllSpans(PageSpans(g, pages));
    var source := DocumentClaims(g, spans);
    StatedFieldsExact(g, spans);
    forall f ensures f in source <==> StatedOn(g, pages, f) && !NegatedOn(g, pages, f) { DocumentMapKeys(g, pages, f); }
    forall f | f in source
      ensures Agree(Stated(g, spans, f))
              <==> forall span :: OnDocument(g, pages, span) && f in LabeledClaims(g, span) ==> LabeledClaims(g, span)[f] == source[f]
    {
      AgreeIff(g, pages, f, source[f]);
    }
  }

  lemma OneDocumentMap(g: Grammar, pages: seq<Page>, a: Claims, b: Claims)
    requires IsDocumentMap(g, pages, a) && (forall f :: f in b <==> StatedOn(g, pages, f) && !NegatedOn(g, pages, f))
    requires forall f :: f in b ==> exists span :: OnDocument(g, pages, span) && f in LabeledClaims(g, span) && LabeledClaims(g, span)[f] == b[f]
    ensures a == b
  {
    assert a.Keys == b.Keys;
  }

  lemma MapIsDocumentClaims(g: Grammar, pages: seq<Page>, source: Claims)
    requires IsDocumentMap(g, pages, source)
    ensures source == DocumentClaims(g, AllSpans(PageSpans(g, pages)))
  {
    var spans := AllSpans(PageSpans(g, pages));
    var own := DocumentClaims(g, spans);
    StatedFieldsExact(g, spans);
    forall f ensures f in own <==> StatedOn(g, pages, f) && !NegatedOn(g, pages, f) { DocumentMapKeys(g, pages, f); }
    forall f | f in own
      ensures exists span :: OnDocument(g, pages, span) && f in LabeledClaims(g, span) && LabeledClaims(g, span)[f] == own[f]
    {
      StatedIff(g, pages, f, own[f]);
    }
    OneDocumentMap(g, pages, source, own);
  }

  // ----- acceptance

  /** Every claim is cited, by references to spans of their pages that state just that value. */
  ghost predicate Cites(g: Grammar, pages: seq<Page>, p: Proposal) {
    forall f :: f in p.claims ==>
      && f in p.evidence && p.evidence[f] != []
      && forall i :: 0 <= i < |p.evidence[f]| ==> CitesValue(g, pages, p.evidence[f][i], f, p.claims[f])
  }

  ghost predicate CitesValue(g: Grammar, pages: seq<Page>, r: Reference, f: string, v: Value) {
    && f in LabeledClaims(g, r.quote) && LabeledClaims(g, r.quote)[f] == v
    && exists i :: 0 <= i < |pages| && QuotesPage(g, pages[i], r)
  }

  lemma CitedIsGrounded(g: Grammar, pages: seq<Page>, p: Proposal)
    ensures Cites(g, pages, p) <==> Grounded(g, pages, p)
  {
    forall f, r | f in p.claims ensures CitesValue(g, pages, r, f, p.claims[f]) <==> OnPage(g, pages, r) && Decodes(g, r, f, p.claims[f]) {
      ReferenceIff(g, pages, r, f, p.claims[f]);
    }
    if Cites(g, pages, p) {
      forall f, r | f in p.claims && References(p, f, r) ensures OnPage(g, pages, r) && Decodes(g, r, f, p.claims[f]) {
        var i :| 0 <= i < |p.evidence[f]| && p.evidence[f][i] == r;
        assert CitesValue(g, pages, p.evidence[f][i], f, p.claims[f]);
      }
    }
    if Grounded(g, pages, p) {
      forall f, i | f in p.claims && 0 <= i < |p.evidence[f]| ensures CitesValue(g, pages, p.evidence[f][i], f, p.claims[f]) {
        assert References(p, f, p.evidence[f][i]);
      }
    }
  }

  lemma ReferenceIff(g: Grammar, pages: seq<Page>, r: Reference, f: string, v: Value)
    ensures CitesValue(g, pages, r, f, v) <==> OnPage(g, pages, r) && Decodes(g, r, f, v)
  {
    var all := PageSpans(g, pages);
    if i :| 0 <= i < |pages| && QuotesPage(g, pages[i], r) {
      assert r.quote in all[i];
    }
    if i :| 0 <= i < |pages| && pages[i].sha == r.sha && pages[i].number == r.number && r.quote in all[i] {
      assert QuotesPage(g, pages[i], r);
    }
  }

  /** A digest in hexadecimal, a page from one, and a quote. */
  ghost predicate IsFormed(r: Reference) {
    |r.sha| == 64 && (forall i :: 0 <= i < 64 ==> r.sha[i] in "0123456789abcdef") && r.number >= 1 && r.quote != ""
  }

  ghost predicate InFormat(p: Proposal) {
    forall f, r :: f in p.evidence && r in p.evidence[f] ==> IsFormed(r)
  }

  lemma FormIff(r: Reference)
    ensures IsFormed(r) <==> WellFormedReference(r)
  {
    forall c: char ensures c in "0123456789abcdef" <==> '0' <= c <= '9' || 'a' <= c <= 'f' { HexDigit(c); }
  }

  lemma FormatIff(p: Proposal)
    ensures InFormat(p) <==> forall f :: f in p.evidence ==> forall r :: r in p.evidence[f] ==> WellFormedReference(r)
  {
    forall r ensures IsFormed(r) <==> WellFormedReference(r) { FormIff(r); }
  }

  lemma HexDigit(c: char)
    ensures c in "0123456789abcdef" <==> '0' <= c <= '9' || 'a' <= c <= 'f'
  {
    var digits := "0123456789abcdef";
    if '0' <= c <= '9' { assert digits[(c - '0') as nat] == c; }
    if 'a' <= c <= 'f' { assert digits[10 + (c - 'a') as nat] == c; }
  }

  /** The document has a valid map of its own that contains every claim. */
  ghost predicate Contains(g: Grammar, pages: seq<Page>, p: Proposal) {
    exists source :: IsDocumentMap(g, pages, source) && g.schema(source) == [] && IsWithin(p.claims, source)
  }

  predicate IsWithin(claims: Claims, source: Claims) {
    forall f :: f in claims ==> f in source && source[f] == claims[f]
  }

  lemma ContainedIff(g: Grammar, pages: seq<Page>, p: Proposal)
    ensures var spans := AllSpans(PageSpans(g, pages));
            Contains(g, pages, p) <==> Coherent(g, spans) && ClaimsAgree(g, spans, p)
  {
    var own := DocumentClaims(g, AllSpans(PageSpans(g, pages)));
    CoherentMap(g, pages);
    assert ClaimsAgree(g, AllSpans(PageSpans(g, pages)), p) <==> IsWithin(p.claims, own);
    if Contains(g, pages, p) {
      var source :| IsDocumentMap(g, pages, source) && g.schema(source) == [] && IsWithin(p.claims, source);
      MapIsDocumentClaims(g, pages, source);
      assert source == own;
    }
    if IsDocumentMap(g, pages, own) && g.schema(own) == [] && IsWithin(p.claims, own) {
      OwnMapContains(g, pages, p, own);
    }
  }

  lemma OwnMapContains(g: Grammar, pages: seq<Page>, p: Proposal, source: Claims)
    requires IsDocumentMap(g, pages, source) && g.schema(source) == [] && IsWithin(p.claims, source)
    ensures Contains(g, pages, p)
  {
  }

  /** A proposal is accepted exactly when it is in its format and cited, and the document has a valid map of
      its own that contains every claim. */
  lemma AcceptedIffContained(g: Grammar, pages: seq<Page>, p: Proposal)
    ensures Accepts(g, pages, p)
            <==> && g.schema(p.claims) == [] && InFormat(p)
                 && Cites(g, pages, p) && p.evidence.Keys <= p.claims.Keys
                 && Contains(g, pages, p)
  {
    FormatIff(p);
    CitedIsGrounded(g, pages, p);
    ContainedIff(g, pages, p);
  }

  /** So no claim of an accepted proposal is negated or contradicted anywhere in the document, even by a span
      it does not cite. */
  lemma AcceptedClaimsStand(g: Grammar, pages: seq<Page>, p: Proposal, span: string, f: string)
    requires Accepts(g, pages, p) && OnDocument(g, pages, span) && f in p.claims
    ensures !Negates(g, span, f)
    ensures f in LabeledClaims(g, span) ==> LabeledClaims(g, span)[f] == p.claims[f]
  {
    AcceptedIffContained(g, pages, p);
    var source :| IsDocumentMap(g, pages, source) && g.schema(source) == [] && IsWithin(p.claims, source);
    assert f in source;
  }

  /** A negation does not stand in the way of a proposal that leaves the field out: a page that states nothing
      and negates only fields the proposal omits and the document does not state leaves it accepted. */
  lemma OmittedFieldMayBeNegated(g: Grammar, pages: seq<Page>, page: Page, p: Proposal)
    requires Accepts(g, pages, p)
    requires forall span :: SpanOn(g, page, span) ==> LabeledClaims(g, span) == map[]
    requires forall span, f :: SpanOn(g, page, span) && Negates(g, span, f) ==> f !in p.claims && !StatedOn(g, pages, f)
    ensures Accepts(g, pages + [page], p)
  {
    var more := pages + [page];
    AcceptedIffContained(g, pages, p);
    AcceptedIffContained(g, more, p);
    var source :| IsDocumentMap(g, pages, source) && g.schema(source) == [] && IsWithin(p.claims, source);
    forall span ensures OnDocument(g, more, span) <==> OnDocument(g, pages, span) || SpanOn(g, page, span) { OnMore(g, pages, page, span); }
    forall f ensures f in source <==> StatedOn(g, more, f) && !NegatedOn(g, more, f) { SameWithPage(g, pages, page, f); }
    assert IsDocumentMap(g, more, source);
    CitedOnMore(g, pages, page, p);
  }

  lemma OnMore(g: Grammar, pages: seq<Page>, page: Page, span: string)
    ensures OnDocument(g, pages + [page], span) <==> OnDocument(g, pages, span) || SpanOn(g, page, span)
  {
    var more := pages + [page];
    if i :| 0 <= i < |pages| && SpanOn(g, pages[i], span) { assert SpanOn(g, more[i], span); }
    if SpanOn(g, page, span) { assert SpanOn(g, more[|pages|], span); }
  }

  lemma SameWithPage(g: Grammar, pages: seq<Page>, page: Page, f: string)
    requires forall span :: OnDocument(g, pages + [page], span) <==> OnDocument(g, pages, span) || SpanOn(g, page, span)
    requires forall span :: SpanOn(g, page, span) ==> LabeledClaims(g, span) == map[]
    requires forall span :: SpanOn(g, page, span) && Negates(g, span, f) ==> !StatedOn(g, pages, f)
    ensures StatedOn(g, pages + [page], f) && !NegatedOn(g, pages + [page], f) <==> StatedOn(g, pages, f) && !NegatedOn(g, pages, f)
  {
  }

  lemma CitedOnMore(g: Grammar, pages: seq<Page>, page: Page, p: Proposal)
    requires Cites(g, pages, p)
    ensures Cites(g, pages + [page], p)
  {
    forall f, i | f in p.claims && 0 <= i < |p.evidence[f]|
      ensures CitesValue(g, pages + [page], p.evidence[f][i], f, p.claims[f])
    {
      var r := p.evidence[f][i];
      assert CitesValue(g, pages, r, f, p.claims[f]);
      var k :| 0 <= k < |pages| && QuotesPage(g, pages[k], r);
      assert (pages + [page])[k] == pages[k];
    }
  }

  // ----- what is reported

  ghost predicate StatesOtherwise(g: Grammar, pages: seq<Page>, f: string, v: Value) {
    exists span :: OnDocument(g, pages, span) && f in LabeledClaims(g, span) && LabeledClaims(g, span)[f] != v
  }

  ghost predicate StatesTwice(g: Grammar, pages: seq<Page>, f: string) {
    exists span :: OnDocument(g, pages, span) && f in LabeledClaims(g, span) && StatesOtherwise(g, pages, f, LabeledClaims(g, span)[f])
  }

  /** A claim is reported as qualified exactly when some span negates its field. */
  lemma QualifiedReportedIff(g: Grammar, pages: seq<Page>, p: Proposal, f: string)
    ensures Reported(g, pages, p, (Some(f), QualifiedRequirement)) <==> f in p.claims && NegatedOn(g, pages, f)
  {
    QualifiedIff(g, pages, f);
  }

  /** A claim is reported as contradicted exactly when some span states another value; a field without a claim,
      when two spans state different values and none negates it. */
  lemma ContradictionReportedIff(g: Grammar, pages: seq<Page>, p: Proposal, f: string)
    ensures Reported(g, pages, p, (Some(f), ContradictoryClaims))
            <==> if f in p.claims then StatesOtherwise(g, pages, f, p.claims[f])
                 else StatesTwice(g, pages, f) && !NegatedOn(g, pages, f)
  {
    var stated := Stated(g, AllSpans(PageSpans(g, pages)), f);
    QualifiedIff(g, pages, f);
    StatedFieldsExact(g, AllSpans(PageSpans(g, pages)));
    DisagreeIff(g, pages, f);
    if f in p.claims {
      OtherwiseIff(g, pages, f, p.claims[f]);
      assert !Agree(stated) ==> exists v :: v in stated && v != p.claims[f];
    }
  }

  lemma OtherwiseIff(g: Grammar, pages: seq<Page>, f: string, v: Value)
    ensures StatesOtherwise(g, pages, f, v) <==> exists x :: x in Stated(g, AllSpans(PageSpans(g, pages)), f) && x != v
  {
    var stated := Stated(g, AllSpans(PageSpans(g, pages)), f);
    if span :| OnDocument(g, pages, span) && f in LabeledClaims(g, span) && LabeledClaims(g, span)[f] != v {
      StatedIff(g, pages, f, LabeledClaims(g, span)[f]);
    }
    if x :| x in stated && x != v { StatedIff(g, pages, f, x); }
  }

  lemma DisagreeIff(g: Grammar, pages: seq<Page>, f: string)
    ensures !Agree(Stated(g, AllSpans(PageSpans(g, pages)), f)) <==> StatesTwice(g, pages, f)
  {
    var stated := Stated(g, AllSpans(PageSpans(g, pages)), f);
    if !Agree(stated) {
      DisagreeingStates(g, pages, f, stated);
    }
    if span :| OnDocument(g, pages, span) && f in LabeledClaims(g, span) && StatesOtherwise(g, pages, f, LabeledClaims(g, span)[f]) {
      StatingDisagrees(g, pages, f, LabeledClaims(g, span)[f]);
    }
  }

  lemma DisagreeingStates(g: Grammar, pages: seq<Page>, f: string, stated: seq<Value>)
    requires stated == Stated(g, AllSpans(PageSpans(g, pages)), f) && !Agree(stated)
    ensures StatesTwice(g, pages, f)
  {
    var k :| 0 <= k < |stated| && stated[k] != stated[0];
    StatedOtherwise(g, pages, f, stated[0], stated[k]);
    var span := SpanStating(g, pages, f, stated[0]);
    StatesBoth(g, pages, f, stated[0], span);
  }

  lemma StatedOtherwise(g: Grammar, pages: seq<Page>, f: string, v: Value, x: Value)
    requires x in Stated(g, AllSpans(PageSpans(g, pages)), f) && x != v
    ensures StatesOtherwise(g, pages, f, v)
  {
    var span := SpanStating(g, pages, f, x);
    assert LabeledClaims(g, span)[f] != v;
  }

  lemma SpanStating(g: Grammar, pages: seq<Page>, f: string, v: Value) returns (span: string)
    requires v in Stated(g, AllSpans(PageSpans(g, pages)), f)
    ensures OnDocument(g, pages, span) && f in LabeledClaims(g, span) && LabeledClaims(g, span)[f] == v
  {
    StatedIff(g, pages, f, v);
    span :| OnDocument(g, pages, span) && f in LabeledClaims(g, span) && LabeledClaims(g, span)[f] == v;
  }

  lemma StatesBoth(g: Grammar, pages: seq<Page>, f: string, v: Value, span: string)
    requires OnDocument(g, pages, span) && f in LabeledClaims(g, span) && LabeledClaims(g, span)[f] == v
    requires StatesOtherwise(g, pages, f, v)
    ensures StatesTwice(g, pages, f)
  {
  }

  lemma StatingDisagrees(g: Grammar, pages: seq<Page>, f: string, v: Value)
    requires StatesOtherwise(g, pages, f, v)
    requires exists span :: OnDocument(g, pages, span) && f in LabeledClaims(g, span) && LabeledClaims(g, span)[f] == v
    ensures !Agree(Stated(g, AllSpans(PageSpans(g, pages)), f))
  {
    StatedIff(g, pages, f, v);
    OtherwiseIff(g, pages, f, v);
  }

  /** The references of a claim: it is reported as missing without any, as misplaced when one quotes no page,
      and as unsupported when one does not state the value. */
  lemma EvidenceReportedIff(g: Grammar, pages: seq<Page>, p: Proposal, f: string)
    requires f in p.claims
    ensures Reported(g, pages, p, (Some(f), MissingEvidence)) <==> !exists r :: References(p, f, r)
    ensures Reported(g, pages, p, (Some(f), EvidenceNotOnPage))
            <==> exists r :: References(p, f, r) && forall i :: 0 <= i < |pages| ==> !QuotesPage(g, pages[i], r)
    ensures Reported(g, pages, p, (Some(f), UnsupportedValue))
            <==> exists r :: References(p, f, r)
                             && (f in LabeledClaims(g, r.quote) ==> LabeledClaims(g, r.quote)[f] != p.claims[f])
  {
    forall r ensures OnPage(g, pages, r) <==> exists i :: 0 <= i < |pages| && QuotesPage(g, pages[i], r) { OnPageIff(g, pages, r); }
    if f in p.evidence && p.evidence[f] != [] { assert References(p, f, p.evidence[f][0]); }
  }

  lemma OnPageIff(g: Grammar, pages: seq<Page>, r: Reference)
    ensures OnPage(g, pages, r) <==> exists i :: 0 <= i < |pages| && QuotesPage(g, pages[i], r)
  {
    var all := PageSpans(g, pages);
    if i :| 0 <= i < |pages| && QuotesPage(g, pages[i], r) { assert r.quote in all[i]; }
    if i :| 0 <= i < |pages| && pages[i].sha == r.sha && pages[i].number == r.number && r.quote in all[i] {
      assert QuotesPage(g, pages[i], r);
    }
  }

  /** What the document adds to the claims before the format is checked again: every field some span states,
      unless it is negated and not claimed. */
  lemma SourceKeys(g: Grammar, pages: seq<Page>, p: Proposal, f: string)
    ensures f in SourceValues(g, AllSpans(PageSpans(g, pages)), p)
            <==> StatedOn(g, pages, f) && (NegatedOn(g, pages, f) ==> f in p.claims)
  {
    StatedFieldIff(g, pages, f);
    QualifiedIff(g, pages, f);
  }

  /** An error of the format is reported at the field it is located at if the document states that field, and
      without a field otherwise. */
  lemma FormatReportedIff(g: Grammar, pages: seq<Page>, p: Proposal, source: Claims, errors: seq<Option<string>>, f: string)
    requires source == SourceValues(g, AllSpans(PageSpans(g, pages)), p) && errors == g.schema(p.claims + source)
    ensures Reported(g, pages, p, (Some(f), InvalidSourceClaim)) <==> f in source && Some(f) in errors
    ensures Reported(g, pages, p, (None, InvalidSourceClaim)) <==> exists l :: l in errors && (l.Some? ==> l.value !in source)
  {
    LocatedIff(source, errors, f);
    UnlocatedIff(source, errors);
  }

  lemma LocatedIff(source: Claims, errors: seq<Option<string>>, f: string)
    ensures (exists l :: l in errors && (Some(f), InvalidSourceClaim) == SchemaIssue(source, l)) <==> f in source && Some(f) in errors
  {
    if f in source && Some(f) in errors {
      assert SchemaIssue(source, Some(f)) == (Some(f), InvalidSourceClaim);
    }
  }

  lemma UnlocatedIff(source: Claims, errors: seq<Option<string>>)
    ensures (exists l :: l in errors && (None, InvalidSourceClaim) == SchemaIssue(source, l))
            <==> exists l :: l in errors && (l.Some? ==> l.value !in source)
  {
    if l :| l in errors && (l.Some? ==> l.value !in source) {
      assert SchemaIssue(source, l) == (None, InvalidSourceClaim);
    }
  }

  /** Evidence without a claim is reported once, without a field; no other report lacks a field, except for the
      format. */
  lemma AbsentReportedIff(g: Grammar, pages: seq<Page>, p: Proposal, code: Code)
    ensures Reported(g, pages, p, (None, EvidenceForAbsentField)) <==> exists f :: f in p.evidence && f !in p.claims
    ensures Reported(g, pages, p, (None, code)) ==> code == InvalidSourceClaim || code == EvidenceForAbsentField
  {
  }

  lemma PageIff(page: Page)
    ensures WellFormedPage(page) <==> |page.sha| == 64 && (forall i :: 0 <= i < 64 ==> page.sha[i] in "0123456789abcdef") && page.number >= 1
  {
    forall c: char ensures c in "0123456789abcdef" <==> '0' <= c <= '9' || 'a' <= c <= 'f' { HexDigit(c); }
  }
}
