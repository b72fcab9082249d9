/** From page text to evidence spans and labelled claims. */
module Spans {
  import opened Wrappers
  import opened Text

  datatype Value = Scalar(text: string) | Items(items: seq<string>)

  type Claims = map<string, Value>

  /** The parts of the rules that are regular expressions, date parsing or the Pydantic schema.  They are
      arbitrary total functions of their text. */
  datatype Grammar = Grammar(
    canonical: string -> (string, bool),           // label typography -> (label, was Korean)
    isKoreanLabel: string -> bool,                 // of compacted text
    heading: string -> Option<string>,             // of compacted text: procurement type of a notice heading
    isBoundary: string -> bool,                    // form prefix or section-like start
    collapse: string -> string,                    // inner text of an enclosed title
    budget: (bool, string) -> Option<(Value, Value)>,   // currency and amount
    scalar: (string, bool, string) -> Option<Value>,    // dates, period, type and buyer
    negated: string -> bool,                       // negated or qualified requirement
    schema: Claims -> seq<Option<string>>)         // locations of schema errors, empty when valid

  const MAX_VALUE := 300
  const MAX_HEADING := 120

  function LabelField(caption: string): Option<string> {
    if caption == "Title" then Some("title")
    else if caption == "Buyer" then Some("buyer_name")
    else if caption == "Category" then Some("procurement_type")
    else if caption == "Published" then Some("published_at")
    else if caption == "Deadline" then Some("closes_at")
    else if caption == "Region" then Some("regions")
    else if caption == "Certifications" then Some("required_certifications")
    else if caption == "Capabilities" then Some("required_capabilities")
    else if caption == "Participation constraints" then Some("participation_constraints")
    else if caption == "Contract period" then Some("contract_period")
    else None
  }

  predicate KnownLabel(caption: string) {
    LabelField(caption).Some? || caption == "Budget"
  }

  predicate IsListField(field: string) {
    field in ["regions", "required_certifications", "required_capabilities", "participation_constraints"]
  }

  // ----- labels

  datatype Labelled = Labelled(caption: string, value: string, korean: bool)

  function SplitLabel(g: Grammar, text: string): Labelled {
    var c := FirstColon(text);
    if c == |text| then Labelled("", "", false)
    else
      var (caption, korean) := g.canonical(text[..c]);
      Labelled(caption, Strip(text[c + 1..]), korean)
  }

  predicate ValueLine(g: Grammar, text: string) {
    && text != "" && |text| <= MAX_VALUE
    && FirstColon(text) == |text|
    && !g.isBoundary(text)
    && !g.isKoreanLabel(Compact(text))
    && !KnownLabel(text)
    && g.heading(Compact(text)) == None
  }

  // ----- enclosed titles

  function Closing(opening: char): Option<char> {
    if opening == '\U{300C}' then Some('\U{300D}')
    else if opening == '\U{300E}' then Some('\U{300F}')
    else if opening == '\U{201C}' then Some('\U{201D}')
    else if opening == '"' then Some('"')
    else if opening == '[' then Some(']')
    else if opening == '\U{FF3B}' then Some('\U{FF3D}')
    else None
  }

  predicate Opens(v: string) {
    v != "" && Closing(v[0]).Some?
  }

  /** Nesting depth after the first `n` characters of a text that starts with an opening mark. */
  function Depth(v: string, n: nat): int
    requires Opens(v) && 1 <= n <= |v|
  {
    if n == 1 then 1
    else Depth(v, n - 1) + (if v[n - 1] == Closing(v[0]).value then -1 else if v[n - 1] == v[0] then 1 else 0)
  }

  /** `k` is the first character after which the nesting depth is zero. */
  ghost predicate ClosesAt(v: string, k: nat) {
    && Opens(v) && 1 <= k < |v|
    && Depth(v, k + 1) == 0
    && forall n :: 1 <= n <= k ==> Depth(v, n) > 0
  }

  ghost predicate Unclosed(v: string) {
    Opens(v) && forall n :: 1 <= n <= |v| ==> Depth(v, n) > 0
  }

  /** Index of the mark that closes the outer enclosure. */
  function QuoteEnd(v: string): (end: Option<nat>)
    ensures end.Some? ==> ClosesAt(v, end.value)
    ensures end == None <==> !Opens(v) || Unclosed(v)
  {
    if Opens(v) then QuoteEndFrom(v, 1) else None
  }

  function QuoteEndFrom(v: string, i: nat): (end: Option<nat>)
    requires Opens(v) && 1 <= i <= |v|
    requires forall n :: 1 <= n <= i ==> Depth(v, n) > 0
    ensures end.Some? ==> ClosesAt(v, end.value)
    ensures end == None <==> Unclosed(v)
    decreases |v| - i
  {
    if i == |v| then None
    else if Depth(v, i + 1) == 0 then Some(i)
    else QuoteEndFrom(v, i + 1)
  }

  method FindQuoteEnd(v: string) returns (end: Option<nat>)
    ensures end == QuoteEnd(v)
  {
    if v == "" || Closing(v[0]) == None {
      return None;
    }
    var opening, closing := v[0], Closing(v[0]).value;
    var depth, index := 1, 1;
    while index < |v|
      invariant 1 <= index <= |v|
      invariant depth == Depth(v, index)
      invariant forall n :: 1 <= n <= index ==> Depth(v, n) > 0
      invariant QuoteEnd(v) == QuoteEndFrom(v, index)
    {
      if v[index] == closing {
        depth := depth - 1;
        if depth == 0 {
          return Some(index);
        }
      } else if v[index] == opening {
        depth := depth + 1;
      }
      index := index + 1;
    }
    return None;
  }

  lemma {:induction false} DepthStable(v: string, t: string, n: nat)
    requires Opens(v) && 1 <= n <= |v|
    ensures Depth(v + t, n) == Depth(v, n)
  {
    if n > 1 {
      DepthStable(v, t, n - 1);
    }
  }

  /** Appending text never moves the closing mark that was found. */
  lemma QuoteEndStable(v: string, t: string)
    requires QuoteEnd(v).Some?
    ensures QuoteEnd(v + t) == QuoteEnd(v)
  {
    var k := QuoteEnd(v).value;
    forall n | 1 <= n <= |v| ensures Depth(v + t, n) == Depth(v, n) { DepthStable(v, t, n); }
    assert Depth(v + t, k + 1) == 0;
    assert ClosesAt(v + t, k);
  }

  predicate WholeTitle(v: string) {
    v != "" && QuoteEnd(v) == Some(|v| - 1)
  }

  function TitleValue(g: Grammar, v: string): string {
    if WholeTitle(v) then g.collapse(v[1..|v| - 1])
    else if Opens(v) && QuoteEnd(v) == None then ""
    else v
  }

  // ----- spans

  function JoinedHeading(g: Grammar, first: string, second: string): Option<string> {
    var joined := Strip(first + second);
    if Strip(first) != "" && Strip(second) != "" && |joined| <= MAX_HEADING && g.heading(Compact(joined)).Some?
    then Some(joined) else None
  }

  predicate JoinsAsHeading(g: Grammar, lines: seq<string>, i: nat) {
    i + 1 < |lines| && JoinedHeading(g, lines[i], lines[i + 1]).Some?
  }

  predicate JoinsAsTitle(g: Grammar, lines: seq<string>, i: nat) {
    && i + 1 < |lines|
    && var first := SplitLabel(g, Strip(lines[i]));
    var joined := SplitLabel(g, Strip(lines[i] + lines[i + 1])).value;
    && first.caption == "Title" && first.value != "" && TitleValue(g, first.value) == ""
    && ValueLine(g, Strip(lines[i + 1])) && |joined| <= MAX_VALUE && WholeTitle(joined)
  }

  predicate JoinsAsValue(g: Grammar, lines: seq<string>, i: nat) {
    && i + 1 < |lines|
    && var first := SplitLabel(g, Strip(lines[i]));
    && KnownLabel(first.caption) && first.value == ""
    && !JoinsAsHeading(g, lines, i + 1) && ValueLine(g, Strip(lines[i + 1]))
  }

  predicate Joins(g: Grammar, lines: seq<string>, i: nat) {
    JoinsAsHeading(g, lines, i) || JoinsAsTitle(g, lines, i) || JoinsAsValue(g, lines, i)
  }

  /** The one span a line starts: the trimmed line, or its trimmed join with the next line. */
  function SpanAt(g: Grammar, lines: seq<string>, i: nat): string
    requires i < |lines|
  {
    if Joins(g, lines, i) then Strip(lines[i] + lines[i + 1]) else Strip(lines[i])
  }

  function SpansOf(g: Grammar, lines: seq<string>): seq<string> {
    seq(|lines|, i requires 0 <= i < |lines| => SpanAt(g, lines, i))
  }

  function EvidenceSpans(g: Grammar, text: string): seq<string> {
    SpansOf(g, SplitLines(text))
  }

  method ComputeSpan(g: Grammar, lines: seq<string>, index: nat) returns (span: string)
    requires index < |lines|
    ensures span == SpanAt(g, lines, index)
  {
    var quote := Strip(lines[index]);
    if index + 1 < |lines| {
      var first := SplitLabel(g, quote);
      var following := Strip(lines[index + 1]);
      var joined := Strip(lines[index] + lines[index + 1]);
      var heading := JoinedHeading(g, lines[index], lines[index + 1]);
      if heading.Some? {
        return heading.value;
      }
      var followingHeading := index + 2 < |lines| && JoinedHeading(g, lines[index + 1], lines[index + 2]).Some?;
      var joinedValue := SplitLabel(g, joined).value;
      if first.caption == "Title" && first.value != "" && TitleValue(g, first.value) == ""
         && ValueLine(g, following) && |joinedValue| <= MAX_VALUE && WholeTitle(joinedValue) {
        return joined;
      }
      if KnownLabel(first.caption) && first.value == "" && !followingHeading && ValueLine(g, following) {
        return joined;
      }
    }
    return quote;
  }

  method ComputeSpans(g: Grammar, text: string) returns (spans: seq<string>)
    ensures spans == EvidenceSpans(g, text)
  {
    var lines := SplitLines(text);
    spans := [];
    for index := 0 to |lines|
      invariant spans == SpansOf(g, lines)[..index]
    {
      NextSpan(g, lines, index);
      var span := ComputeSpan(g, lines, index);
      spans := spans + [span];
    }
    assert SpansOf(g, lines)[..|lines|] == SpansOf(g, lines);
  }

  lemma NextSpan(g: Grammar, lines: seq<string>, i: nat)
    requires i < |lines|
    ensures SpansOf(g, lines)[..i + 1] == SpansOf(g, lines)[..i] + [SpanAt(g, lines, i)]
  {
    assert SpansOf(g, lines)[i] == SpanAt(g, lines, i);
  }

  /** One span per line, none of them reaching past the following line, and every join but that of a split
      heading only takes a line that is itself no label, no section start and no heading. */
  lemma SpansAreBounded(g: Grammar, text: string)
    ensures |EvidenceSpans(g, text)| == |SplitLines(text)|
    ensures Concat(SplitLines(text)) == text
    ensures forall i :: 0 <= i < |SplitLines(text)| ==>
              var lines, span := SplitLines(text), EvidenceSpans(g, text)[i];
              && (span == Strip(lines[i]) || (i + 1 < |lines| && span == Strip(lines[i] + lines[i + 1])))
              && (span != Strip(lines[i]) && !JoinsAsHeading(g, lines, i) ==> ValueLine(g, Strip(lines[i + 1])))
              && Strip(span) == span
  {
    SplitLinesKeepsText(text);
    var lines := SplitLines(text);
    forall i | 0 <= i < |lines| ensures Strip(EvidenceSpans(g, text)[i]) == EvidenceSpans(g, text)[i] {
      SpanIsStripped(g, lines, i);
    }
  }

  lemma SpanIsStripped(g: Grammar, lines: seq<string>, i: nat)
    requires i < |lines|
    ensures Strip(SpanAt(g, lines, i)) == SpanAt(g, lines, i)
  {
    StripTwice(lines[i]);
    if i + 1 < |lines| { StripTwice(lines[i] + lines[i + 1]); }
  }

  /** A title is joined over two lines only when its enclosure is still open at the end of the first line,
      and then it closes exactly at the end of the joined value. */
  lemma TwoLineTitleWasOpen(g: Grammar, lines: seq<string>, i: nat)
    requires JoinsAsTitle(g, lines, i)
    ensures var value := SplitLabel(g, Strip(lines[i])).value;
            var joined := SplitLabel(g, Strip(lines[i] + lines[i + 1])).value;
            && Unclosed(value)
            && value < joined
            && QuoteEnd(joined) == Some(|joined| - 1)
  {
    var quote := Strip(lines[i]);
    var value := SplitLabel(g, quote).value;
    StripEnds(lines[i + 1]);
    StripTwice(lines[i + 1]);
    var tail := JoinExtendsFirst(lines[i], lines[i + 1]);
    var more := ValueExtends(quote, tail);
    if QuoteEnd(value).Some? {
      QuoteEndStable(value, more);
    }
  }

  // ----- claims

  function StripAll(parts: seq<string>): seq<string> {
    seq(|parts|, i requires 0 <= i < |parts| => Strip(parts[i]))
  }

  /** Decodes one complete explicit label. */
  function LabeledClaims(g: Grammar, line: string): Claims {
    var heading := g.heading(Compact(line));
    if heading.Some? then map["procurement_type" := Scalar(heading.value)]
    else
      var l := SplitLabel(g, line);
      if l.caption == "" || l.value == "" then map[]
      else if l.caption == "Budget" then
        match g.budget(l.korean, l.value) {
          case None => map[]
          case Some((currency, amount)) => map["currency" := currency, "estimated_amount" := amount]
        }
      else match LabelField(l.caption) {
        case None => map[]
        case Some(field) =>
          if IsListField(field) then
            var items := StripAll(SplitOn(l.value, ';'));
            if exists item :: item in items && g.negated(item) then map[] else map[field := Items(items)]
          else if field == "title" then map[field := Scalar(TitleValue(g, l.value))]
          else match g.scalar(field, l.korean, l.value) {
            case None => map[]
            case Some(v) => map[field := v]
          }
      }
  }

  /** The list field, if any, that a span states with a negation or qualification. */
  function QualifiedField(g: Grammar, span: string): Option<string> {
    var l := SplitLabel(g, span);
    var field := LabelField(l.caption);
    if field.Some? && IsListField(field.value) && g.negated(l.value) then field else None
  }
}
