/** Accepting an extraction proposal only when a document's labelled text supports all of it. */
module Validation {
  import opened Wrappers
  import opened Spans

  datatype Page = Page(sha: string, number: nat, text: string)

  datatype Reference = Reference(sha: string, number: nat, quote: string)

  datatype Proposal = Proposal(claims: Claims, evidence: map<string, seq<Reference>>)

  datatype Code =
    | MissingEvidence | EvidenceNotOnPage | UnsupportedValue | ContradictoryClaims
    | QualifiedRequirement | EvidenceForAbsentField | InvalidSourceClaim

  type Issue = (Option<string>, Code)

  datatype Report = Report(valid: bool, fields: Option<Proposal>, issues: set<Issue>)

  // ----- what a document says

  function PageSpans(g: Grammar, pages: seq<Page>): seq<seq<string>> {
    seq(|pages|, i requires 0 <= i < |pages| => EvidenceSpans(g, pages[i].text))
  }

  function AllSpans(pages: seq<seq<string>>): seq<string> {
    if pages == [] then [] else AllSpans(pages[..|pages| - 1]) + pages[|pages| - 1]
  }

  /** The values the spans state for a field, in document order. */
  function Stated(g: Grammar, spans: seq<string>, field: string): seq<Value> {
    if spans == [] then []
    else
      var claims := LabeledClaims(g, spans[|spans| - 1]);
      Stated(g, spans[..|spans| - 1], field) + if field in claims then [claims[field]] else []
  }

  function StatedIn(g: Grammar, span: string, f: string): seq<Value> {
    if f in LabeledClaims(g, span) then [LabeledClaims(g, span)[f]] else []
  }

  lemma NextStated(g: Grammar, spans: seq<string>, span: string, f: string)
    ensures Stated(g, spans + [span], f) == Stated(g, spans, f) + StatedIn(g, span, f)
  {
    assert (spans + [span])[..|spans|] == spans;
  }

  /** Fields some span states. */
  function StatedFields(g: Grammar, spans: seq<string>): (fields: set<string>)
  {
    if spans == [] then {} else StatedFields(g, spans[..|spans| - 1]) + LabeledClaims(g, spans[|spans| - 1]).Keys
  }

  /** List fields some span states with a negation or qualification. */
  function Qualified(g: Grammar, spans: seq<string>): set<string> {
    set s | s in spans && QualifiedField(g, s).Some? :: QualifiedField(g, s).value
  }

  predicate Agree(values: seq<Value>) {
    forall i :: 0 <= i < |values| ==> values[i] == values[0]
  }

  lemma {:induction false} StatedFieldsExact(g: Grammar, spans: seq<string>)
    ensures forall f :: f in StatedFields(g, spans) <==> Stated(g, spans, f) != []
  {
    if spans != [] {
      StatedFieldsExact(g, spans[..|spans| - 1]);
    }
  }

  /** Every stated value comes from a span. */
  lemma {:induction false} StatedHasSpan(g: Grammar, spans: seq<string>, field: string, v: Value)
    ensures v in Stated(g, spans, field) <==>
            exists s :: s in spans && field in LabeledClaims(g, s) && LabeledClaims(g, s)[field] == v
  {
    if spans != [] {
      var front, last := spans[..|spans| - 1], spans[|spans| - 1];
      StatedHasSpan(g, front, field, v);
      assert forall s :: s in spans <==> s in front || s == last;
    }
  }

  /** The document's own claims: first stated value of every unqualified field. */
  function DocumentClaims(g: Grammar, spans: seq<string>): Claims {
    StatedFieldsExact(g, spans);
    map f | f in StatedFields(g, spans) && f !in Qualified(g, spans) :: Stated(g, spans, f)[0]
  }

  /** The document states no unqualified field twice with different values, and what it states is valid. */
  ghost predicate Coherent(g: Grammar, spans: seq<string>) {
    && (forall f :: f in DocumentClaims(g, spans) ==> Agree(Stated(g, spans, f)))
    && g.schema(DocumentClaims(g, spans)) == []
  }

  // ----- the declarative meaning of acceptance

  predicate IsSha(s: string) {
    |s| == 64 && forall i :: 0 <= i < 64 ==> '0' <= s[i] <= '9' || 'a' <= s[i] <= 'f'
  }

  /** The format of a reference, which the schema checks whatever the document is. */
  predicate WellFormedReference(r: Reference) {
    IsSha(r.sha) && r.number >= 1 && r.quote != ""
  }

  predicate WellFormedPage(page: Page) {
    IsSha(page.sha) && page.number >= 1
  }

  predicate SchemaValid(g: Grammar, p: Proposal) {
    && g.schema(p.claims) == []
    && forall f :: f in p.evidence ==> forall r :: r in p.evidence[f] ==> WellFormedReference(r)
  }

  predicate OnPage(g: Grammar, pages: seq<Page>, r: Reference) {
    exists i :: 0 <= i < |pages| && pages[i].sha == r.sha && pages[i].number == r.number
                && r.quote in PageSpans(g, pages)[i]
  }

  predicate Decodes(g: Grammar, r: Reference, field: string, v: Value) {
    var claims := LabeledClaims(g, r.quote);
    field in claims && claims[field] == v
  }

  predicate References(p: Proposal, field: string, r: Reference) {
    field in p.evidence && r in p.evidence[field]
  }

  ghost predicate Grounded(g: Grammar, pages: seq<Page>, p: Proposal) {
    forall f :: f in p.claims ==>
      && f in p.evidence && p.evidence[f] != []
      && forall r :: References(p, f, r) ==> OnPage(g, pages, r) && Decodes(g, r, f, p.claims[f])
  }

  /** Every claim is what the document itself claims. */
  ghost predicate ClaimsAgree(g: Grammar, spans: seq<string>, p: Proposal) {
    forall f :: f in p.claims ==> f in DocumentClaims(g, spans) && DocumentClaims(g, spans)[f] == p.claims[f]
  }

  ghost predicate Accepts(g: Grammar, pages: seq<Page>, p: Proposal) {
    var spans := AllSpans(PageSpans(g, pages));
    && SchemaValid(g, p)
    && Coherent(g, spans)
    && ClaimsAgree(g, spans, p)
    && p.evidence.Keys <= p.claims.Keys
    && Grounded(g, pages, p)
  }

  // ----- the conditions the validator reports

  /** Stated fields the validator checks: a qualified field may be omitted, not claimed. */
  predicate Checked(g: Grammar, spans: seq<string>, p: Proposal, f: string) {
    f in StatedFields(g, spans) && !(f in Qualified(g, spans) && f !in p.claims)
  }

  function SourceValues(g: Grammar, spans: seq<string>, p: Proposal): Claims {
    StatedFieldsExact(g, spans);
    map f | f in StatedFields(g, spans) && Checked(g, spans, p, f) :: Stated(g, spans, f)[0]
  }

  function Merged(g: Grammar, spans: seq<string>, p: Proposal): Claims {
    p.claims + SourceValues(g, spans, p)
  }

  function SchemaIssue(source: Claims, location: Option<string>): Issue {
    (if location.Some? && location.value in source then location else None, InvalidSourceClaim)
  }

  /** Exactly when each issue is reported for a schema-valid proposal. */
  ghost predicate Reported(g: Grammar, pages: seq<Page>, p: Proposal, issue: Issue) {
    var spans := AllSpans(PageSpans(g, pages));
    match issue.1
    case QualifiedRequirement =>
      issue.0.Some? && issue.0.value in Qualified(g, spans) && issue.0.value in p.claims
    case ContradictoryClaims =>
      issue.0.Some? && var f := issue.0.value;
      || (Checked(g, spans, p, f) && !Agree(Stated(g, spans, f)))
      || (f in p.claims && exists v :: v in Stated(g, spans, f) && v != p.claims[f])
    case InvalidSourceClaim =>
      exists location :: location in g.schema(Merged(g, spans, p))
                         && issue == SchemaIssue(SourceValues(g, spans, p), location)
    case MissingEvidence =>
      issue.0.Some? && issue.0.value in p.claims && (issue.0.value !in p.evidence || p.evidence[issue.0.value] == [])
    case EvidenceNotOnPage =>
      issue.0.Some? && issue.0.value in p.claims
      && exists r :: References(p, issue.0.value, r) && !OnPage(g, pages, r)
    case UnsupportedValue =>
      issue.0.Some? && issue.0.value in p.claims
      && exists r :: References(p, issue.0.value, r) && !Decodes(g, r, issue.0.value, p.claims[issue.0.value])
    case EvidenceForAbsentField =>
      issue.0 == None && !(p.evidence.Keys <= p.claims.Keys)
  }

  ghost predicate Quiet(g: Grammar, pages: seq<Page>, p: Proposal) {
    forall issue :: !Reported(g, pages, p, issue)
  }

  // ----- acceptance is exactly the absence of issues

  lemma {:induction false} SpanOfPage(g: Grammar, pages: seq<seq<string>>, i: nat, s: string)
    requires i < |pages| && s in pages[i]
    ensures s in AllSpans(pages)
  {
    if i < |pages| - 1 {
      SpanOfPage(g, pages[..|pages| - 1], i, s);
    }
  }

  /** A reference that is on its page and decodes to a value makes the document state that value. */
  lemma GroundedIsStated(g: Grammar, pages: seq<Page>, r: Reference, f: string, v: Value)
    requires OnPage(g, pages, r) && Decodes(g, r, f, v)
    ensures v in Stated(g, AllSpans(PageSpans(g, pages)), f)
    ensures f in StatedFields(g, AllSpans(PageSpans(g, pages)))
  {
    var i :| 0 <= i < |pages| && pages[i].sha == r.sha && pages[i].number == r.number && r.quote in PageSpans(g, pages)[i];
    var spans := AllSpans(PageSpans(g, pages));
    SpanOfPage(g, PageSpans(g, pages), i, r.quote);
    StatedHasSpan(g, spans, f, v);
    StatedFieldsExact(g, spans);
  }

  lemma QuietImpliesGrounded(g: Grammar, pages: seq<Page>, p: Proposal)
    requires Quiet(g, pages, p)
    ensures Grounded(g, pages, p) && p.evidence.Keys <= p.claims.Keys
  {
    assert !Reported(g, pages, p, (None, EvidenceForAbsentField));
    forall f | f in p.claims
      ensures f in p.evidence && p.evidence[f] != []
      ensures forall r :: References(p, f, r) ==> OnPage(g, pages, r) && Decodes(g, r, f, p.claims[f])
    {
      assert !Reported(g, pages, p, (Some(f), MissingEvidence));
      assert !Reported(g, pages, p, (Some(f), EvidenceNotOnPage));
      assert !Reported(g, pages, p, (Some(f), UnsupportedValue));
    }
  }

  lemma SchemaErrorIsReported(g: Grammar, pages: seq<Page>, p: Proposal)
    ensures g.schema(Merged(g, AllSpans(PageSpans(g, pages)), p)) != [] ==> !Quiet(g, pages, p)
  {
    var spans := AllSpans(PageSpans(g, pages));
    var errors := g.schema(Merged(g, spans, p));
    if errors != [] {
      assert errors[0] in errors;
      assert Reported(g, pages, p, SchemaIssue(SourceValues(g, spans, p), errors[0]));
    }
  }

  lemma QuietClaimsAgree(g: Grammar, pages: seq<Page>, p: Proposal)
    requires Quiet(g, pages, p)
    ensures ClaimsAgree(g, AllSpans(PageSpans(g, pages)), p)
  {
    var spans := AllSpans(PageSpans(g, pages));
    StatedFieldsExact(g, spans);
    QuietImpliesGrounded(g, pages, p);
    forall f | f in p.claims ensures f in DocumentClaims(g, spans) && DocumentClaims(g, spans)[f] == p.claims[f] {
      assert !Reported(g, pages, p, (Some(f), QualifiedRequirement));
      assert !Reported(g, pages, p, (Some(f), ContradictoryClaims));
      var r := p.evidence[f][0];
      assert References(p, f, r);
      GroundedIsStated(g, pages, r, f, p.claims[f]);
      assert Stated(g, spans, f)[0] in Stated(g, spans, f);
    }
  }

  /** When the claims agree with the document, what the validator checks is the document's own map. */
  lemma MergedIsDocument(g: Grammar, spans: seq<string>, p: Proposal)
    requires ClaimsAgree(g, spans, p)
    ensures SourceValues(g, spans, p) == DocumentClaims(g, spans) == Merged(g, spans, p)
  {
    StatedFieldsExact(g, spans);
    forall f | f in p.claims ensures f in DocumentClaims(g, spans) {}
    assert SourceValues(g, spans, p) == DocumentClaims(g, spans);
  }

  lemma QuietImpliesAccepts(g: Grammar, pages: seq<Page>, p: Proposal)
    requires SchemaValid(g, p) && Quiet(g, pages, p)
    ensures Accepts(g, pages, p)
  {
    var spans := AllSpans(PageSpans(g, pages));
    QuietImpliesGrounded(g, pages, p);
    QuietClaimsAgree(g, pages, p);
    QuietIsCoherent(g, pages, p);
    assert ClaimsAgree(g, spans, p);
  }

  lemma QuietIsCoherent(g: Grammar, pages: seq<Page>, p: Proposal)
    requires Quiet(g, pages, p)
    ensures Coherent(g, AllSpans(PageSpans(g, pages)))
  {
    var spans := AllSpans(PageSpans(g, pages));
    QuietClaimsAgree(g, pages, p);
    MergedIsDocument(g, spans, p);
    SchemaErrorIsReported(g, pages, p);
    forall f | f in DocumentClaims(g, spans) ensures Agree(Stated(g, spans, f)) {
      assert !Reported(g, pages, p, (Some(f), ContradictoryClaims));
    }
  }

  lemma AcceptsImpliesQuiet(g: Grammar, pages: seq<Page>, p: Proposal)
    requires Accepts(g, pages, p)
    ensures Quiet(g, pages, p)
  {
    var spans := AllSpans(PageSpans(g, pages));
    StatedFieldsExact(g, spans);
    MergedIsDocument(g, spans, p);
    forall issue ensures !Reported(g, pages, p, issue) {
      if issue.0.Some? && issue.0.value in p.claims {
        assert Agree(Stated(g, spans, issue.0.value));
      }
    }
  }

  /** The operational validator and the declarative rule coincide. */
  lemma AcceptedIffNoIssue(g: Grammar, pages: seq<Page>, p: Proposal)
    requires SchemaValid(g, p)
    ensures Accepts(g, pages, p) <==> Quiet(g, pages, p)
  {
    if Quiet(g, pages, p) {
      QuietImpliesAccepts(g, pages, p);
    }
    if Accepts(g, pages, p) {
      AcceptsImpliesQuiet(g, pages, p);
    }
  }

  // ----- the validator itself

  /** First pass: collect what the document states and which list fields it qualifies. */
  method Observe(g: Grammar, pageSpans: seq<seq<string>>, claims: Claims)
    returns (observed: map<string, seq<Value>>, qualified: set<string>, issues: set<Issue>)
    ensures Collected(g, AllSpans(pageSpans), observed, qualified)
    ensures QualifiedReported(issues, qualified, claims)
  {
    observed, qualified, issues := map[], {}, {};
    for page := 0 to |pageSpans|
      invariant Collected(g, AllSpans(pageSpans[..page]), observed, qualified)
      invariant QualifiedReported(issues, qualified, claims)
    {
      assert pageSpans[..page + 1][..page] == pageSpans[..page];
      observed, qualified, issues :=
        ObservePage(g, pageSpans[page], claims, observed, qualified, issues, AllSpans(pageSpans[..page]));
    }
    assert pageSpans[..|pageSpans|] == pageSpans;
  }

  ghost predicate QualifiedReported(issues: set<Issue>, qualified: set<string>, claims: Claims) {
    forall i :: i in issues <==>
      i.1 == QualifiedRequirement && i.0.Some? && i.0.value in qualified && i.0.value in claims
  }

  method ObservePage(g: Grammar, spans: seq<string>, claims: Claims,
                     before: map<string, seq<Value>>, qualified0: set<string>, issues0: set<Issue>, ghost earlier: seq<string>)
    returns (observed: map<string, seq<Value>>, qualified: set<string>, issues: set<Issue>)
    requires Collected(g, earlier, before, qualified0) && QualifiedReported(issues0, qualified0, claims)
    ensures Collected(g, earlier + spans, observed, qualified) && QualifiedReported(issues, qualified, claims)
  {
    observed, qualified, issues := before, qualified0, issues0;
    assert earlier + spans[..0] == earlier;
    for k := 0 to |spans|
      invariant Collected(g, earlier + spans[..k], observed, qualified)
      invariant QualifiedReported(issues, qualified, claims)
    {
      assert earlier + spans[..k + 1] == earlier + spans[..k] + [spans[k]];
      observed, qualified, issues := ObserveSpan(g, spans[k], claims, observed, qualified, issues, earlier + spans[..k]);
    }
    assert spans[..|spans|] == spans;
  }

  method ObserveSpan(g: Grammar, quote: string, claims: Claims,
                     before: map<string, seq<Value>>, qualified0: set<string>, issues0: set<Issue>, ghost earlier: seq<string>)
    returns (observed: map<string, seq<Value>>, qualified: set<string>, issues: set<Issue>)
    requires Collected(g, earlier, before, qualified0) && QualifiedReported(issues0, qualified0, claims)
    ensures Collected(g, earlier + [quote], observed, qualified) && QualifiedReported(issues, qualified, claims)
  {
    qualified, issues := qualified0, issues0;
    var field := QualifiedField(g, quote);
    if field.Some? {
      qualified := qualified + {field.value};
      if field.value in claims {
        issues := issues + {(field, QualifiedRequirement)};
      }
    }
    observed := AddClaims(before, LabeledClaims(g, quote));
    CollectOne(g, earlier, quote, before, observed, qualified);
  }

  ghost predicate Collected(g: Grammar, seen: seq<string>, observed: map<string, seq<Value>>, qualified: set<string>) {
    && observed.Keys == StatedFields(g, seen)
    && (forall f :: f in observed ==> observed[f] == Stated(g, seen, f))
    && qualified == Qualified(g, seen)
  }

  /** observed.setdefault(field, []).append(value) for every claim of a span. */
  function AddClaims(observed: map<string, seq<Value>>, claims: Claims): map<string, seq<Value>> {
    map f | f in observed.Keys + claims.Keys ::
      (if f in observed then observed[f] else []) + if f in claims then [claims[f]] else []
  }

  lemma CollectOne(g: Grammar, seen: seq<string>, quote: string, before: map<string, seq<Value>>,
                   after: map<string, seq<Value>>, qualified: set<string>)
    requires before.Keys == StatedFields(g, seen)
    requires forall f :: f in before ==> before[f] == Stated(g, seen, f)
    requires after == AddClaims(before, LabeledClaims(g, quote))
    requires qualified == Qualified(g, seen) + if QualifiedField(g, quote).Some? then {QualifiedField(g, quote).value} else {}
    ensures Collected(g, seen + [quote], after, qualified)
  {
    CollectValues(g, seen, quote, before, after);
    QualifiedExtends(g, seen, quote);
  }

  lemma QualifiedExtends(g: Grammar, seen: seq<string>, quote: string)
    ensures Qualified(g, seen + [quote])
         == Qualified(g, seen) + if QualifiedField(g, quote).Some? then {QualifiedField(g, quote).value} else {}
  {
    assert forall s :: s in seen + [quote] <==> s in seen || s == quote;
  }

  lemma CollectValues(g: Grammar, seen: seq<string>, quote: string, before: map<string, seq<Value>>, after: map<string, seq<Value>>)
    requires before.Keys == StatedFields(g, seen)
    requires forall f :: f in before ==> before[f] == Stated(g, seen, f)
    requires after == AddClaims(before, LabeledClaims(g, quote))
    ensures after.Keys == StatedFields(g, seen + [quote])
    ensures forall f :: f in after ==> after[f] == Stated(g, seen + [quote], f)
  {
    StatedFieldsExact(g, seen);
    forall f {:trigger Stated(g, seen, f)} ensures Stated(g, seen + [quote], f) == Stated(g, seen, f) + StatedIn(g, quote, f) {
      NextStated(g, seen, quote, f);
    }
    assert (seen + [quote])[..|seen|] == seen;
  }

  ghost predicate Contradicts(source: Claims, observed: map<string, seq<Value>>, i: Issue) {
    i.1 == ContradictoryClaims && i.0.Some? && i.0.value in source && i.0.value in observed && !Agree(observed[i.0.value])
  }

  ghost predicate SchemaReported(source: Claims, locations: seq<Option<string>>, i: Issue) {
    exists location :: location in locations && i == SchemaIssue(source, location)
  }

  /** Second pass: contradictions and schema errors of the document itself. */
  method CheckSource(g: Grammar, observed: map<string, seq<Value>>, qualified: set<string>, claims: Claims)
    returns (issues: set<Issue>)
    requires forall f :: f in observed ==> observed[f] != []
    ensures var source := SourceOf(observed, qualified, claims);
            forall i :: i in issues <==> Contradicts(source, observed, i) || SchemaReported(source, g.schema(claims + source), i)
  {
    issues := {};
    var source: Claims := map[];
    var left := observed.Keys;
    while left != {}
      invariant left <= observed.Keys
      invariant source == map f | f in observed && f !in left && !(f in qualified && f !in claims) :: observed[f][0]
      invariant forall i :: i in issues <==> Contradicts(source, observed, i)
      decreases left
    {
      var f :| f in left;
      left := left - {f};
      if f in qualified && f !in claims {
        continue;
      }
      source := source[f := observed[f][0]];
      if exists k :: 0 <= k < |observed[f]| && observed[f][k] != observed[f][0] {
        issues := issues + {(Some(f), ContradictoryClaims)};
      }
    }
    assert source == SourceOf(observed, qualified, claims);
    var errors := SchemaIssues(source, g.schema(claims + source));
    issues := issues + errors;
  }

  method SchemaIssues(source: Claims, locations: seq<Option<string>>) returns (issues: set<Issue>)
    ensures forall i :: i in issues <==> SchemaReported(source, locations, i)
  {
    issues := {};
    for k := 0 to |locations|
      invariant forall i :: i in issues <==> SchemaReported(source, locations[..k], i)
    {
      issues := issues + {SchemaIssue(source, locations[k])};
      assert forall l :: l in locations[..k + 1] <==> l in locations[..k] || l == locations[k];
    }
    assert locations[..|locations|] == locations;
  }

  /** Third pass, one claimed field: its references and its agreement with the document. */
  method CheckClaim(g: Grammar, pages: seq<Page>, p: Proposal, stated: seq<Value>, f: string) returns (codes: set<Code>)
    requires f in p.claims
    ensures MissingEvidence in codes <==> f !in p.evidence || p.evidence[f] == []
    ensures EvidenceNotOnPage in codes <==> exists r :: References(p, f, r) && !OnPage(g, pages, r)
    ensures UnsupportedValue in codes <==> exists r :: References(p, f, r) && !Decodes(g, r, f, p.claims[f])
    ensures ContradictoryClaims in codes <==> exists v :: v in stated && v != p.claims[f]
    ensures codes <= {MissingEvidence, EvidenceNotOnPage, UnsupportedValue, ContradictoryClaims}
  {
    var references := if f in p.evidence then p.evidence[f] else [];
    codes := if references == [] then {MissingEvidence} else {};
    for k := 0 to |references|
      invariant MissingEvidence in codes <==> references == []
      invariant EvidenceNotOnPage in codes <==> exists r :: r in references[..k] && !OnPage(g, pages, r)
      invariant UnsupportedValue in codes <==> exists r :: r in references[..k] && !Decodes(g, r, f, p.claims[f])
      invariant codes <= {MissingEvidence, EvidenceNotOnPage, UnsupportedValue}
    {
      var r := references[k];
      assert forall x :: x in references[..k + 1] <==> x in references[..k] || x == r;
      if !OnPage(g, pages, r) {
        codes := codes + {EvidenceNotOnPage};
      }
      if !Decodes(g, r, f, p.claims[f]) {
        codes := codes + {UnsupportedValue};
      }
    }
    assert references[..|references|] == references;
    assert forall r :: r in references <==> References(p, f, r);
    if exists v :: v in stated && v != p.claims[f] {
      codes := codes + {ContradictoryClaims};
    }
  }

  /** The conditions of the third pass, given what the document states. */
  ghost predicate ClaimReported(g: Grammar, pages: seq<Page>, p: Proposal, observed: map<string, seq<Value>>, i: Issue) {
    && i.0.Some? && i.0.value in p.claims
    && var f := i.0.value;
    match i.1
    case MissingEvidence => f !in p.evidence || p.evidence[f] == []
    case EvidenceNotOnPage => exists r :: References(p, f, r) && !OnPage(g, pages, r)
    case UnsupportedValue => exists r :: References(p, f, r) && !Decodes(g, r, f, p.claims[f])
    case ContradictoryClaims => f in observed && exists v :: v in observed[f] && v != p.claims[f]
    case _ => false
  }

  method CheckClaims(g: Grammar, pages: seq<Page>, p: Proposal, observed: map<string, seq<Value>>) returns (issues: set<Issue>)
    ensures forall i :: i in issues <==> ClaimReported(g, pages, p, observed, i)
  {
    issues := {};
    var left := p.claims.Keys;
    while left != {}
      invariant left <= p.claims.Keys
      invariant forall i :: i in issues <==> ClaimReported(g, pages, p, observed, i) && i.0.value !in left
      decreases left
    {
      var f :| f in left;
      left := left - {f};
      var codes := CheckClaim(g, pages, p, if f in observed then observed[f] else [], f);
      issues := AddCodes(issues, f, codes);
    }
  }

  function AddCodes(issues: set<Issue>, f: string, codes: set<Code>): (all: set<Issue>)
    ensures forall i :: i in all <==> i in issues || (i.0 == Some(f) && i.1 in codes)
  {
    issues + set c | c in codes :: (Some(f), c)
  }

  /** Validates a proposal against the pages of its document. */
  method ValidateExtraction(g: Grammar, p: Proposal, pages: seq<Page>) returns (report: Report)
    ensures report.valid <==> Accepts(g, pages, p)
    ensures report.fields == if report.valid then Some(p) else None
    ensures SchemaValid(g, p) ==> forall issue :: issue in report.issues <==> Reported(g, pages, p, issue)
  {
    if !SchemaValid(g, p) {
      return Report(false, None, {});
    }
    var observed, qualified, issues := Observe(g, PageSpans(g, pages), p.claims);
    StatedFieldsExact(g, AllSpans(PageSpans(g, pages)));
    var sourceIssues := CheckSource(g, observed, qualified, p.claims);
    var claimIssues := CheckClaims(g, pages, p, observed);
    issues := issues + sourceIssues + claimIssues;
    if !(p.evidence.Keys <= p.claims.Keys) {
      issues := issues + {(None, EvidenceForAbsentField)};
    }
    forall i ensures i in issues <==> Reported(g, pages, p, i) {
      PassesCoverReported(g, pages, p, observed, qualified, i);
    }
    AcceptedIffNoIssue(g, pages, p);
    report := Report(issues == {}, if issues == {} then Some(p) else None, issues);
  }

  function SourceOf(observed: map<string, seq<Value>>, qualified: set<string>, claims: Claims): Claims
    requires forall f :: f in observed ==> observed[f] != []
  {
    map f | f in observed && !(f in qualified && f !in claims) :: observed[f][0]
  }

  ghost predicate ObservedOk(g: Grammar, pages: seq<Page>, observed: map<string, seq<Value>>, qualified: set<string>) {
    var spans := AllSpans(PageSpans(g, pages));
    && observed.Keys == StatedFields(g, spans)
    && (forall f :: f in observed ==> observed[f] == Stated(g, spans, f) && observed[f] != [])
    && qualified == Qualified(g, spans)
  }

  /** Every reported condition belongs to one of the passes. */
  lemma PassesCoverReported(g: Grammar, pages: seq<Page>, p: Proposal, observed: map<string, seq<Value>>,
                            qualified: set<string>, i: Issue)
    requires ObservedOk(g, pages, observed, qualified)
    ensures var source := SourceOf(observed, qualified, p.claims);
            Reported(g, pages, p, i) <==>
              || (i.1 == QualifiedRequirement && i.0.Some? && i.0.value in qualified && i.0.value in p.claims)
              || Contradicts(source, observed, i) || SchemaReported(source, g.schema(p.claims + source), i)
              || ClaimReported(g, pages, p, observed, i)
              || (i == (None, EvidenceForAbsentField) && !(p.evidence.Keys <= p.claims.Keys))
  {
    var spans := AllSpans(PageSpans(g, pages));
    SourceIsChecked(g, pages, p, observed, qualified);
    match i.1
    case ContradictoryClaims =>
      if i.0.Some? {
        assert i.0.value in SourceOf(observed, qualified, p.claims) <==> Checked(g, spans, p, i.0.value);
      }
    case _ =>
  }

  lemma SourceIsChecked(g: Grammar, pages: seq<Page>, p: Proposal, observed: map<string, seq<Value>>, qualified: set<string>)
    requires ObservedOk(g, pages, observed, qualified)
    ensures SourceValues(g, AllSpans(PageSpans(g, pages)), p) == SourceOf(observed, qualified, p.claims)
    ensures forall f :: f in SourceOf(observed, qualified, p.claims) <==> Checked(g, AllSpans(PageSpans(g, pages)), p, f)
    ensures forall f :: Stated(g, AllSpans(PageSpans(g, pages)), f) != [] ==> f in observed
  {
    StatedFieldsExact(g, AllSpans(PageSpans(g, pages)));
  }
}
