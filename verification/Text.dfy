/** Strings as the parsers and printers of the repository see them. Letters are folded for ASCII
    only; line breaks and blanks are those of ``str.splitlines`` and ``str.strip``. */
module Text {
  predicate IsDigit(c: char) { '0' <= c <= '9' }

  predicate IsBreak(c: char) {
    c == '\n' || c == '\r' || c == '\U{000B}' || c == '\U{000C}' || '\U{001C}' <= c <= '\U{001E}'
    || c == '\U{0085}' || c == '\U{2028}' || c == '\U{2029}'
  }

  predicate IsSpace(c: char) {
    IsBreak(c) || c == ' ' || c == '\t' || c == '\U{001F}' || c == '\U{00A0}' || c == '\U{1680}'
    || '\U{2000}' <= c <= '\U{200A}' || c == '\U{202F}' || c == '\U{205F}' || c == '\U{3000}'
  }

  function Lower(c: char): char {
    if 'A' <= c <= 'Z' then (c as int + 32) as char else c
  }

  function LowerAll(s: string): (r: string)
    ensures |r| == |s| && forall i :: 0 <= i < |s| ==> r[i] == Lower(s[i])
  {
    if s == "" then "" else [Lower(s[0])] + LowerAll(s[1..])
  }

  function StripLeft(s: string): (r: string)
    ensures r != "" ==> !IsSpace(r[0])
    ensures |r| <= |s| && r == s[|s| - |r|..]
  {
    if s != "" && IsSpace(s[0]) then StripLeft(s[1..]) else s
  }

  function StripRight(s: string): (r: string)
    ensures r != "" ==> !IsSpace(r[|r| - 1])
    ensures |r| <= |s| && r == s[..|r|]
  {
    if s != "" && IsSpace(s[|s| - 1]) then StripRight(s[..|s| - 1]) else s
  }

  function Strip(s: string): string { StripRight(StripLeft(s)) }

  predicate Trimmed(s: string) {
    s != "" ==> !IsSpace(s[0]) && !IsSpace(s[|s| - 1])
  }

  lemma StripTrims(s: string)
    ensures Trimmed(Strip(s)) && (Trimmed(s) ==> Strip(s) == s)
  {
    var l, r := StripLeft(s), Strip(s);
    if r != "" {
      assert r[0] == l[0];
    }
  }

  /** Stripping takes off leading blanks and nothing else from a text that ends in no blank. */
  lemma {:induction false} StripIndent(n: nat, s: string)
    requires s != "" && Trimmed(s)
    ensures Strip(Blanks(n) + s) == s
  {
    if n == 0 {
      assert Blanks(0) + s == s;
      StripTrims(s);
    } else {
      assert Blanks(n) + s == [' '] + (Blanks(n - 1) + s);
      assert (Blanks(n) + s)[1..] == Blanks(n - 1) + s;
      StripIndent(n - 1, s);
    }
  }

  function Blanks(n: nat): (r: string)
    ensures |r| == n && forall i :: 0 <= i < n ==> r[i] == ' '
  {
    if n == 0 then "" else [' '] + Blanks(n - 1)
  }

  // ---------------------------------------------------------------- lines

  predicate NoBreak(s: string) {
    forall i :: 0 <= i < |s| ==> !IsBreak(s[i])
  }

  function LineEnd(s: string): (n: nat)
    ensures n <= |s| && NoBreak(s[..n]) && (n < |s| ==> IsBreak(s[n]))
  {
    if s == "" || IsBreak(s[0]) then 0
    else
      var n := 1 + LineEnd(s[1..]);
      assert forall i :: 1 <= i < n ==> s[..n][i] == s[1..][..n - 1][i - 1];
      n
  }

  /** ``str.splitlines``: a carriage return and a line feed together are one break. */
  function SplitLines(s: string): seq<string>
    decreases |s|
  {
    if s == "" then []
    else
      var n := LineEnd(s);
      if n == |s| then [s]
      else
        var skip := if s[n] == '\r' && n + 1 < |s| && s[n + 1] == '\n' then 2 else 1;
        [s[..n]] + SplitLines(s[n + skip..])
  }

  function JoinLines(lines: seq<string>): string {
    if lines == [] then ""
    else if |lines| == 1 then lines[0]
    else lines[0] + "\n" + JoinLines(lines[1..])
  }

  lemma {:induction false} LineEndAt(line: string, rest: string)
    requires NoBreak(line) && (rest == "" || IsBreak(rest[0]))
    ensures LineEnd(line + rest) == |line|
  {
    if line == "" {
      assert line + rest == rest;
    } else {
      assert (line + rest)[1..] == line[1..] + rest;
      LineEndAt(line[1..], rest);
    }
  }

  /** Splitting joined lines gives them back. */
  lemma {:induction false} SplitJoined(lines: seq<string>)
    requires forall i :: 0 <= i < |lines| ==> lines[i] != "" && NoBreak(lines[i])
    ensures SplitLines(JoinLines(lines)) == lines
  {
    if |lines| == 1 {
      LineEndAt(lines[0], "");
      assert lines[0] + "" == lines[0];
    } else if lines != [] {
      var rest := "\n" + JoinLines(lines[1..]);
      var all := lines[0] + rest;
      assert JoinLines(lines) == all;
      LineEndAt(lines[0], rest);
      assert all[|lines[0]|] == '\n' && all[..|lines[0]|] == lines[0];
      assert all[|lines[0]| + 1..] == JoinLines(lines[1..]);
      SplitJoined(lines[1..]);
      assert lines == [lines[0]] + lines[1..];
    }
  }

  lemma {:induction false} JoinConcat(a: seq<string>, b: seq<string>)
    requires a != [] && b != []
    ensures JoinLines(a + b) == JoinLines(a) + "\n" + JoinLines(b)
  {
    if |a| == 1 {
      assert (a + b)[1..] == b;
    } else {
      assert (a + b)[1..] == a[1..] + b;
      JoinConcat(a[1..], b);
      assert a[0] + "\n" + (JoinLines(a[1..]) + "\n" + JoinLines(b))
             == (a[0] + "\n" + JoinLines(a[1..])) + "\n" + JoinLines(b);
    }
  }

  // ---------------------------------------------------------------- decimal numbers

  predicate AllDigits(s: string) {
    forall i :: 0 <= i < |s| ==> IsDigit(s[i])
  }

  /** ``str(n)``. */
  function Decimal(n: nat): (s: string)
    ensures s != "" && AllDigits(s)
  {
    (if n < 10 then "" else Decimal(n / 10)) + [('0' as int + n % 10) as char]
  }

  /** ``int(s)`` of a run of digits. */
  function Value(s: string): nat
    requires AllDigits(s)
  {
    if s == "" then 0 else Value(s[..|s| - 1]) * 10 + (s[|s| - 1] as int - '0' as int)
  }

  lemma {:induction false} ValueOfDecimal(n: nat)
    ensures Value(Decimal(n)) == n
  {
    var s := Decimal(n);
    var front := if n < 10 then "" else Decimal(n / 10);
    assert s[..|s| - 1] == front;
    if n >= 10 {
      ValueOfDecimal(n / 10);
    }
  }

  /** Where a character first occurs, or the length. */
  function Find(s: string, c: char): (n: nat)
    ensures n <= |s| && c !in s[..n] && (n < |s| ==> s[n] == c) && (n < |s| <==> c in s)
  {
    if s == "" || s[0] == c then 0 else 1 + Find(s[1..], c)
  }

  /** ``s.split(c)``. */
  function Split(s: string, c: char): seq<string>
    decreases |s|
  {
    var n := Find(s, c);
    if n == |s| then [s] else [s[..n]] + Split(s[n + 1..], c)
  }

  lemma {:induction false} FindAt(s: string, c: char, rest: string)
    requires c !in s && (rest == "" || rest[0] == c)
    ensures Find(s + rest, c) == |s|
  {
    if s == "" {
      assert s + rest == rest;
    } else {
      assert (s + rest)[1..] == s[1..] + rest;
      assert s[0] in s && forall x :: x in s[1..] ==> x in s;
      FindAt(s[1..], c, rest);
    }
  }

  lemma SplitFirst(s: string, c: char, rest: string)
    requires c !in s
    ensures Split(s, c) == [s] && Split(s + [c] + rest, c) == [s] + Split(rest, c)
  {
    FindAt(s, c, "");
    assert s + "" == s;
    FindAt(s, c, [c] + rest);
    assert s + [c] + rest == s + ([c] + rest);
    assert (s + [c] + rest)[|s| + 1..] == rest && (s + [c] + rest)[..|s|] == s;
  }
}
