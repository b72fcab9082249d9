/** The string operations the grounding rules are built from, as Python defines them. */
module Text {

  /** Characters removed by str.strip and used as separators by str.split. */
  predicate IsSpace(c: char) {
    '\U{9}' <= c <= '\U{D}' || '\U{1C}' <= c <= '\U{20}' || c == '\U{85}' || c == '\U{A0}' || c == '\U{1680}'
    || '\U{2000}' <= c <= '\U{200A}' || c == '\U{2028}' || c == '\U{2029}' || c == '\U{202F}' || c == '\U{205F}'
    || c == '\U{3000}'
  }

  /** Line boundaries of str.splitlines; a carriage return and a line feed together are one boundary. */
  predicate IsBreak(c: char) {
    '\U{A}' <= c <= '\U{D}' || '\U{1C}' <= c <= '\U{1E}' || c == '\U{85}' || c == '\U{2028}' || c == '\U{2029}'
  }

  function LeftStrip(s: string): string {
    if s != "" && IsSpace(s[0]) then LeftStrip(s[1..]) else s
  }

  function RightStrip(s: string): string {
    if s != "" && IsSpace(s[|s| - 1]) then RightStrip(s[..|s| - 1]) else s
  }

  function Strip(s: string): string {
    RightStrip(LeftStrip(s))
  }

  /** The text without any white space: "".join(text.split()). */
  function Compact(s: string): string {
    if s == "" then "" else (if IsSpace(s[0]) then "" else [s[0]]) + Compact(s[1..])
  }

  /** Length of the first line of a nonempty text, its boundary included. */
  function FirstLine(s: string): (n: nat)
    requires s != ""
    ensures 1 <= n <= |s|
  {
    if s[0] == '\r' && 1 < |s| && s[1] == '\n' then 2
    else if IsBreak(s[0]) || |s| == 1 then 1
    else 1 + FirstLine(s[1..])
  }

  /** text.splitlines(keepends=True) */
  function SplitLines(s: string): seq<string> {
    if s == "" then [] else [s[..FirstLine(s)]] + SplitLines(s[FirstLine(s)..])
  }

  function Concat(parts: seq<string>): string {
    if parts == [] then "" else parts[0] + Concat(parts[1..])
  }

  predicate IsColon(c: char) {
    c == ':' || c == '\U{FF1A}'
  }

  /** Index of the first colon, or the length of the text. */
  function FirstColon(s: string): (n: nat)
    ensures n <= |s|
    ensures n < |s| ==> IsColon(s[n])
    ensures forall i :: 0 <= i < n ==> !IsColon(s[i])
  {
    if s == "" || IsColon(s[0]) then 0
    else
      var n := 1 + FirstColon(s[1..]);
      assert forall i :: 0 < i < n ==> s[i] == s[1..][i - 1];
      n
  }

  function SplitOn(s: string, separator: char): seq<string> {
    if s == "" then [""]
    else
      var rest := SplitOn(s[1..], separator);
      if s[0] == separator then [""] + rest
      else if rest == [] then [[s[0]]]
      else [[s[0]] + rest[0]] + rest[1..]
  }

  // ----- facts

  /** Splitting into lines loses nothing. */
  lemma {:induction false} SplitLinesKeepsText(s: string)
    ensures Concat(SplitLines(s)) == s
  {
    if s != "" {
      SplitLinesKeepsText(s[FirstLine(s)..]);
    }
  }

  lemma SpacesAre(c: char)
    ensures IsSpace(c)
            <==> var n := c as int;
                 n in {9, 10, 11, 12, 13, 28, 29, 30, 31, 32, 0x85, 0xA0, 0x1680, 0x2028, 0x2029, 0x202F, 0x205F, 0x3000}
                 || 0x2000 <= n <= 0x200A
  {
  }

  lemma BreaksAre(c: char)
    ensures IsBreak(c) <==> c as int in {10, 11, 12, 13, 28, 29, 30, 0x85, 0x2028, 0x2029}
  {
  }

  /** A line ends with its only boundary, a carriage return and a line feed counting as one; only the last may
      have none. */
  lemma {:induction false} LineEndsAtBreak(s: string)
    requires s != ""
    ensures var n := FirstLine(s);
            && (n < |s| ==> IsBreak(s[n - 1]) && !(s[n - 1] == '\r' && s[n] == '\n'))
            && forall i :: 0 <= i < n - 1 && IsBreak(s[i]) ==> i == n - 2 && s[i] == '\r' && s[i + 1] == '\n'
  {
    if !(s[0] == '\r' && 1 < |s| && s[1] == '\n') && !IsBreak(s[0]) && |s| > 1 {
      LineEndsAtBreak(s[1..]);
      var n := FirstLine(s);
      forall i | 0 <= i < n - 1 && IsBreak(s[i]) ensures i == n - 2 && s[i] == '\r' && s[i + 1] == '\n' {
        assert s[i] == s[1..][i - 1];
      }
    }
  }

  ghost predicate AllSpace(s: string) {
    forall i :: 0 <= i < |s| ==> IsSpace(s[i])
  }

  /** Stripping takes away white space at both ends, and leaves none there. */
  lemma StripTakesSpace(s: string)
    ensures exists left, right :: AllSpace(left) && AllSpace(right) && s == left + Strip(s) + right
    ensures Strip(s) != "" ==> !IsSpace(Strip(s)[0]) && !IsSpace(Strip(s)[|Strip(s)| - 1])
  {
    var left := LeftTaken(s);
    var inner := LeftStrip(s);
    var right := RightTaken(inner);
    assert s == left + Strip(s) + right;
  }

  lemma {:induction false} LeftTaken(s: string) returns (left: string)
    ensures AllSpace(left) && s == left + LeftStrip(s)
    ensures LeftStrip(s) != "" ==> !IsSpace(LeftStrip(s)[0])
  {
    left := "";
    if s != "" && IsSpace(s[0]) {
      var rest := LeftTaken(s[1..]);
      left := [s[0]] + rest;
      assert s == [s[0]] + s[1..];
    }
  }

  lemma {:induction false} RightTaken(s: string) returns (right: string)
    ensures AllSpace(right) && s == RightStrip(s) + right
    ensures RightStrip(s) != "" ==> !IsSpace(RightStrip(s)[|RightStrip(s)| - 1])
  {
    right := "";
    if s != "" && IsSpace(s[|s| - 1]) {
      var rest := RightTaken(s[..|s| - 1]);
      right := rest + [s[|s| - 1]];
      assert s == s[..|s| - 1] + [s[|s| - 1]];
    }
  }

  /** Compacting keeps, in order, what is no white space. */
  lemma {:induction false} CompactJoins(a: string, b: string)
    ensures Compact(a + b) == Compact(a) + Compact(b)
  {
    if a == "" {
      assert a + b == b;
    } else {
      assert (a + b)[1..] == a[1..] + b;
      CompactJoins(a[1..], b);
    }
  }

  lemma CompactOne(c: char)
    ensures Compact([c]) == if IsSpace(c) then "" else [c]
  {
    assert [c][1..] == "";
  }

  lemma {:induction false} LeftStripAppend(a: string, b: string)
    requires LeftStrip(a) != ""
    ensures LeftStrip(a + b) == LeftStrip(a) + b
  {
    if IsSpace(a[0]) {
      assert (a + b)[1..] == a[1..] + b;
      LeftStripAppend(a[1..], b);
    }
  }

  lemma {:induction false} RightStripAppend(a: string, b: string)
    requires RightStrip(b) != ""
    ensures RightStrip(a + b) == a + RightStrip(b)
  {
    if IsSpace(b[|b| - 1]) {
      assert (a + b)[..|a + b| - 1] == a + b[..|b| - 1];
      RightStripAppend(a, b[..|b| - 1]);
    }
  }

  lemma {:induction false} RightStripPrefix(s: string)
    ensures |RightStrip(s)| <= |s| && s[..|RightStrip(s)|] == RightStrip(s)
    ensures RightStrip(s) != "" ==> !IsSpace(RightStrip(s)[|RightStrip(s)| - 1])
    ensures s != "" && !IsSpace(s[0]) ==> RightStrip(s) != ""
  {
    if s != "" && IsSpace(s[|s| - 1]) {
      RightStripPrefix(s[..|s| - 1]);
    }
  }

  lemma {:induction false} LeftStripSuffix(s: string)
    ensures LeftStrip(s) != "" ==> !IsSpace(LeftStrip(s)[0])
    ensures s != "" && !IsSpace(s[|s| - 1]) ==> LeftStrip(s) != "" && LeftStrip(s)[|LeftStrip(s)| - 1] == s[|s| - 1]
  {
    if s != "" && IsSpace(s[0]) {
      LeftStripSuffix(s[1..]);
    }
  }

  lemma StripEnds(s: string)
    ensures Strip(s) != "" ==> !IsSpace(Strip(s)[0]) && !IsSpace(Strip(s)[|Strip(s)| - 1])
    ensures Strip(s) == "" <==> LeftStrip(s) == ""
  {
    LeftStripSuffix(s);
    RightStripPrefix(LeftStrip(s));
  }

  /** Stripping is idempotent. */
  lemma StripTwice(s: string)
    ensures Strip(Strip(s)) == Strip(s)
  {
    StripEnds(s);
  }

  /** Joining two nonblank lines keeps the first one, stripped, as a proper prefix. */
  lemma JoinExtendsFirst(first: string, second: string) returns (tail: string)
    requires Strip(first) != "" && Strip(second) != ""
    ensures tail != "" && !IsSpace(tail[|tail| - 1])
    ensures Strip(first + second) == Strip(first) + tail
  {
    StripEnds(first);
    StripEnds(second);
    LeftStripAppend(first, second);
    var left := LeftStrip(first);
    RightStripPrefix(left);
    RightStripNonblank(second);
    RightStripAppend(left, second);
    RightStripPrefix(second);
    tail := left[|RightStrip(left)|..] + RightStrip(second);
    assert left == left[..|RightStrip(left)|] + left[|RightStrip(left)|..];
  }

  lemma {:induction false} RightStripNonblank(s: string)
    requires LeftStrip(s) != ""
    ensures RightStrip(s) != ""
  {
    if IsSpace(s[|s| - 1]) {
      assert s == s[..|s| - 1] + [s[|s| - 1]];
      LeftStripShorter(s);
      RightStripNonblank(s[..|s| - 1]);
    }
  }

  lemma {:induction false} LeftStripShorter(s: string)
    requires LeftStrip(s) != "" && IsSpace(s[|s| - 1])
    ensures LeftStrip(s[..|s| - 1]) != ""
  {
    if IsSpace(s[0]) {
      assert s[1..] != "" by { assert LeftStrip(s) == LeftStrip(s[1..]); }
      LeftStripShorter(s[1..]);
      assert s[..|s| - 1][1..] == s[1..][..|s| - 2];
    }
  }

  /** Text after the first colon, stripped, grows in the same way. */
  lemma ValueExtends(q: string, tail: string) returns (more: string)
    requires FirstColon(q) < |q|
    requires Strip(q[FirstColon(q) + 1..]) != ""
    requires tail != "" && !IsSpace(tail[|tail| - 1])
    ensures FirstColon(q + tail) == FirstColon(q)
    ensures more != ""
    ensures Strip((q + tail)[FirstColon(q) + 1..]) == Strip(q[FirstColon(q) + 1..]) + more
  {
    var c := FirstColon(q);
    assert FirstColon(q + tail) == c by {
      assert forall i :: 0 <= i < |q| ==> (q + tail)[i] == q[i];
    }
    var after := q[c + 1..];
    assert (q + tail)[c + 1..] == after + tail;
    StripEnds(tail);
    LeftStripSuffix(tail);
    more := JoinExtendsFirst(after, tail);
  }
}
