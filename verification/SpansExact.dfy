/** What labels, lists, titles and joined lines mean, read off the text. */
module SpansExact {
  import opened Wrappers
  import opened Text
  import opened Spans

  // ----- labels

  /** The text has its label before the first colon and its value after it. */
  ghost predicate Says(g: Grammar, text: string, caption: string, value: string) {
    exists c :: 0 <= c < |text| && IsFirstColon(text, c) && g.canonical(text[..c]).0 == caption && value == Strip(text[c + 1..])
  }

  ghost predicate IsFirstColon(text: string, c: nat)
    requires c < |text|
  {
    (text[c] == ':' || text[c] == '\U{FF1A}') && forall i :: 0 <= i < c ==> text[i] != ':' && text[i] != '\U{FF1A}'
  }

  lemma LabelIsRead(g: Grammar, text: string, caption: string, value: string)
    requires Says(g, text, caption, value)
    ensures SplitLabel(g, text).caption == caption && SplitLabel(g, text).value == value
  {
    var c :| 0 <= c < |text| && IsFirstColon(text, c) && g.canonical(text[..c]).0 == caption && value == Strip(text[c + 1..]);
    assert FirstColon(text) == c;
  }

  lemma LabelWasSaid(g: Grammar, text: string)
    requires SplitLabel(g, text).caption != "" || SplitLabel(g, text).value != ""
    ensures Says(g, text, SplitLabel(g, text).caption, SplitLabel(g, text).value)
  {
    assert IsFirstColon(text, FirstColon(text));
  }

  /** The labels whose values are lists, and the field each of them names. */
  lemma ListLabels(caption: string, field: string)
    ensures LabelField(caption) == Some(field) && IsListField(field)
            <==> || (caption == "Region" && field == "regions")
                 || (caption == "Certifications" && field == "required_certifications")
                 || (caption == "Capabilities" && field == "required_capabilities")
                 || (caption == "Participation constraints" && field == "participation_constraints")
  {
  }

  /** Every other label names one field, and no two labels the same. */
  lemma ScalarLabels(caption: string, field: string)
    ensures LabelField(caption) == Some(field) && !IsListField(field)
            <==> || (caption == "Title" && field == "title") || (caption == "Buyer" && field == "buyer_name")
                 || (caption == "Category" && field == "procurement_type")
                 || (caption == "Published" && field == "published_at") || (caption == "Deadline" && field == "closes_at")
                 || (caption == "Contract period" && field == "contract_period")
  {
  }

  // ----- lists

  function JoinOn(parts: seq<string>, separator: char): string
    requires parts != []
  {
    if |parts| == 1 then parts[0] else parts[0] + [separator] + JoinOn(parts[1..], separator)
  }

  /** Splitting and joining give the text back, and no part holds the separator. */
  lemma {:induction false} SplitJoins(s: string, separator: char)
    ensures SplitOn(s, separator) != [] && JoinOn(SplitOn(s, separator), separator) == s
    ensures forall part :: part in SplitOn(s, separator) ==> separator !in part
  {
    if s != "" {
      var rest, parts := SplitOn(s[1..], separator), SplitOn(s, separator);
      SplitJoins(s[1..], separator);
      assert s == [s[0]] + s[1..];
      if s[0] == separator {
        assert parts == [""] + rest && parts[1..] == rest;
      } else {
        assert parts == [[s[0]] + rest[0]] + rest[1..];
        assert parts[1..] == rest[1..];
        assert forall part :: part in parts <==> part == parts[0] || part in rest[1..];
      }
    }
  }

  /** A list is stated whole and positive: its items are the trimmed pieces between semicolons, and none of
      them is negated. */
  lemma StatedList(g: Grammar, line: string, caption: string, value: string, field: string)
    requires g.heading(Compact(line)) == None && Says(g, line, caption, value)
    requires LabelField(caption) == Some(field) && IsListField(field)
    ensures field in LabeledClaims(g, line)
            <==> value != "" && forall part :: part in SplitOn(value, ';') ==> !g.negated(Strip(part))
    ensures field in LabeledClaims(g, line) ==>
              && LabeledClaims(g, line)[field] == Items(StripAll(SplitOn(value, ';')))
              && JoinOn(SplitOn(value, ';'), ';') == value
    ensures LabeledClaims(g, line).Keys <= {field}
  {
    LabelIsRead(g, line, caption, value);
    LabelledList(g, line, field);
    SplitJoins(value, ';');
    PositiveParts(g, SplitOn(value, ';'));
  }

  lemma LabelledList(g: Grammar, line: string, field: string)
    requires g.heading(Compact(line)) == None
    requires LabelField(SplitLabel(g, line).caption) == Some(field) && IsListField(field)
    ensures var value := SplitLabel(g, line).value;
            var items := StripAll(SplitOn(value, ';'));
            LabeledClaims(g, line)
            == if value == "" || exists item :: item in items && g.negated(item) then map[] else map[field := Items(items)]
  {
    var caption := SplitLabel(g, line).caption;
    ListLabels(caption, field);
    assert caption != "" && caption != "Budget";
  }

  lemma PositiveParts(g: Grammar, parts: seq<string>)
    ensures (exists item :: item in StripAll(parts) && g.negated(item)) <==> exists part :: part in parts && g.negated(Strip(part))
  {
    var items := StripAll(parts);
    if item :| item in items && g.negated(item) {
      var i :| 0 <= i < |items| && items[i] == item;
      assert parts[i] in parts;
    }
    if part :| part in parts && g.negated(Strip(part)) {
      var i :| 0 <= i < |parts| && parts[i] == part;
      assert items[i] in items;
    }
  }

  // ----- titles

  /** A title that opens an enclosure is taken without it when the enclosure closes at the very end, is empty
      when it never closes, and stands as it is otherwise. */
  lemma StatedTitle(g: Grammar, line: string, value: string)
    requires g.heading(Compact(line)) == None && Says(g, line, "Title", value) && value != ""
    ensures LabeledClaims(g, line).Keys == {"title"}
    ensures var title := LabeledClaims(g, line)["title"];
            && (ClosesAt(value, |value| - 1) ==> title == Scalar(g.collapse(value[1..|value| - 1])))
            && (Unclosed(value) ==> title == Scalar(""))
            && (!ClosesAt(value, |value| - 1) && !Unclosed(value) ==> title == Scalar(value))
  {
    LabelIsRead(g, line, "Title", value);
    if ClosesAt(value, |value| - 1) {
      OneClosing(value, |value| - 1);
    }
  }

  function Occurrences(s: string, c: char): nat {
    if s == "" then 0 else Occurrences(s[..|s| - 1], c) + if s[|s| - 1] == c then 1 else 0
  }

  /** The marks opened and not yet closed in the first `n` characters of a text that starts with an opening
      mark; a mark that closes itself opens nothing more. */
  function OpenMarks(v: string, n: nat, closing: char): int
    requires 1 <= n <= |v|
  {
    1 + (if v[0] == closing then 0 else Occurrences(v[1..n], v[0])) - Occurrences(v[1..n], closing)
  }

  lemma {:induction false} DepthCounts(v: string, n: nat, closing: char)
    requires 1 <= n <= |v| && Closing(v[0]) == Some(closing)
    ensures Depth(v, n) == OpenMarks(v, n, closing)
  {
    if n > 1 {
      DepthCounts(v, n - 1, closing);
      assert v[1..n][..n - 2] == v[1..n - 1] && v[1..n][n - 2] == v[n - 1];
    }
  }

  /** An enclosure closes with the first character after which no mark is open. */
  lemma ClosesIff(v: string, k: nat, closing: char)
    requires v != "" && Closing(v[0]) == Some(closing)
    ensures ClosesAt(v, k)
            <==> 1 <= k < |v| && OpenMarks(v, k + 1, closing) == 0 && forall n :: 1 <= n <= k ==> OpenMarks(v, n, closing) > 0
    ensures Unclosed(v) <==> forall n :: 1 <= n <= |v| ==> OpenMarks(v, n, closing) > 0
  {
    forall n | 1 <= n <= |v| ensures Depth(v, n) == OpenMarks(v, n, closing) { DepthCounts(v, n, closing); }
  }

  lemma OneClosing(v: string, k: nat)
    requires ClosesAt(v, k)
    ensures QuoteEnd(v) == Some(k)
  {
    if QuoteEnd(v).Some? { SameClosing(v, k, QuoteEnd(v).value); }
  }

  lemma SameClosing(v: string, k: nat, m: nat)
    requires ClosesAt(v, k) && ClosesAt(v, m)
    ensures k == m
  {
  }

  /** The marks that enclose titles. */
  lemma EnclosingMarks(opening: char, closing: char)
    ensures Closing(opening) == Some(closing)
            <==> [opening, closing] in ["\U{300C}\U{300D}", "\U{300E}\U{300F}", "\U{201C}\U{201D}", "\"\"", "[]", "\U{FF3B}\U{FF3D}"]
  {
    var marks := ["\U{300C}\U{300D}", "\U{300E}\U{300F}", "\U{201C}\U{201D}", "\"\"", "[]", "\U{FF3B}\U{FF3D}"];
    if [opening, closing] in marks {
      var i :| 0 <= i < |marks| && marks[i] == [opening, closing];
      assert marks[i][0] == opening && marks[i][1] == closing;
    }
    if Closing(opening) == Some(closing) {
      assert marks[0] == "\U{300C}\U{300D}" && marks[1] == "\U{300E}\U{300F}" && marks[2] == "\U{201C}\U{201D}"
             && marks[3] == "\"\"" && marks[4] == "[]" && marks[5] == "\U{FF3B}\U{FF3D}";
    }
  }

  // ----- the other labels

  /** A notice heading states its procurement type and nothing else. */
  lemma StatedHeading(g: Grammar, line: string, kind: string)
    requires g.heading(Compact(line)) == Some(kind)
    ensures LabeledClaims(g, line) == map["procurement_type" := Scalar(kind)]
  {
  }

  /** A budget states currency and amount together or nothing. */
  lemma StatedBudget(g: Grammar, line: string, value: string)
    requires g.heading(Compact(line)) == None && Says(g, line, "Budget", value)
    ensures var korean := SplitLabel(g, line).korean;
            LabeledClaims(g, line)
            == if value == "" || g.budget(korean, value) == None then map[]
               else map["currency" := g.budget(korean, value).value.0, "estimated_amount" := g.budget(korean, value).value.1]
  {
    LabelIsRead(g, line, "Budget", value);
  }

  /** A line without a known label and a value states nothing. */
  lemma NothingStated(g: Grammar, line: string)
    requires g.heading(Compact(line)) == None
    requires forall caption, value :: Says(g, line, caption, value) ==>
               value == "" || caption == "" || (caption != "Budget" && LabelField(caption) == None)
    ensures LabeledClaims(g, line) == map[]
  {
    var l := SplitLabel(g, line);
    if l.caption != "" || l.value != "" {
      LabelWasSaid(g, line);
    }
  }

  /** Any other label states its own field, decoded, or nothing. */
  lemma StatedScalar(g: Grammar, line: string, caption: string, value: string, field: string)
    requires g.heading(Compact(line)) == None && Says(g, line, caption, value) && value != ""
    requires LabelField(caption) == Some(field) && !IsListField(field) && field != "title"
    ensures var v := g.scalar(field, SplitLabel(g, line).korean, value);
            LabeledClaims(g, line) == if v == None then map[] else map[field := v.value]
  {
    LabelIsRead(g, line, caption, value);
  }

  // ----- joined lines

  /** The line can only be the wrapped value of the line before: not blank, not long, and by itself no label,
      no form or section start and no heading. */
  ghost predicate IsPlain(g: Grammar, text: string) {
    && text != "" && |text| <= 300
    && (forall c :: c in text ==> c != ':' && c != '\U{FF1A}')
    && !g.isBoundary(text) && !g.isKoreanLabel(Compact(text))
    && text != "Budget" && LabelField(text) == None && g.heading(Compact(text)) == None
  }

  lemma PlainIsValueLine(g: Grammar, text: string)
    ensures IsPlain(g, text) <==> ValueLine(g, text)
  {
    if ValueLine(g, text) {
      forall c | c in text ensures c != ':' && c != '\U{FF1A}' {
        var i :| 0 <= i < |text| && text[i] == c;
        assert !IsColon(text[i]);
      }
    }
    assert FirstColon(text) < |text| ==> text[FirstColon(text)] in text;
  }

  /** Two lines are together a notice heading of at most 120 characters, and neither is blank. */
  ghost predicate IsHeading(g: Grammar, lines: seq<string>, i: nat) {
    && i + 1 < |lines|
    && Strip(lines[i]) != "" && Strip(lines[i + 1]) != "" && |Strip(lines[i] + lines[i + 1])| <= 120
    && g.heading(Compact(Strip(lines[i] + lines[i + 1]))).Some?
  }

  lemma HeadingIsJoined(g: Grammar, lines: seq<string>, i: nat)
    ensures IsHeading(g, lines, i) <==> JoinsAsHeading(g, lines, i)
  {
  }

  /** A line takes the next one exactly for a heading split over both; for a title whose enclosure the next
      line closes at its end; or for a known label without a value, when the next line is plain and starts no
      heading of its own. */
  lemma JoinedIff(g: Grammar, lines: seq<string>, i: nat)
    requires i + 1 < |lines|
    ensures var first, joined := SplitLabel(g, Strip(lines[i])), SplitLabel(g, Strip(lines[i] + lines[i + 1])).value;
            Joins(g, lines, i)
            <==> || IsHeading(g, lines, i)
                 || (IsPlain(g, Strip(lines[i + 1])) && first.caption == "Title" && first.value != ""
                     && Unclosed(first.value) && joined != "" && |joined| <= 300 && ClosesAt(joined, |joined| - 1))
                 || (IsPlain(g, Strip(lines[i + 1])) && (first.caption == "Budget" || LabelField(first.caption).Some?)
                     && first.value == "" && !IsHeading(g, lines, i + 1))
  {
    var joined := SplitLabel(g, Strip(lines[i] + lines[i + 1])).value;
    HeadingIsJoined(g, lines, i);
    HeadingIsJoined(g, lines, i + 1);
    PlainIsValueLine(g, Strip(lines[i + 1]));
    if JoinsAsTitle(g, lines, i) { TwoLineTitleWasOpen(g, lines, i); }
    if joined != "" && ClosesAt(joined, |joined| - 1) { OneClosing(joined, |joined| - 1); }
  }
}
