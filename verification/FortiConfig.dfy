/** The FortiOS stanza printer (ai/config_analyzer.py) and the block parser (fw_analyzers/fortios.py). */
module FortiConfig {
  import opened Text

  // ---------------------------------------------------------------- tokens

  /** Where the next double quote is, or the length. */
  function Quote(s: string): (n: nat)
    ensures n <= |s| && '"' !in s[..n] && (n < |s| ==> s[n] == '"')
  {
    if s == "" || s[0] == '"' then 0 else 1 + Quote(s[1..])
  }

  function WordEnd(s: string): (n: nat)
    ensures n <= |s| && (s != "" && !IsSpace(s[0]) ==> n > 0)
  {
    if s == "" || IsSpace(s[0]) then 0 else 1 + WordEnd(s[1..])
  }

  function Unquote(t: string): string {
    if |t| >= 2 && t[0] == '"' && t[|t| - 1] == '"' then t[1..|t| - 1] else t
  }

  /** ``_forti_tokens``: a closed quoted string, or a run of non-blanks, whichever starts here. */
  function Tokens(s: string): seq<string>
    decreases |s|
  {
    if s == "" then []
    else if s[0] == '"' && Quote(s[1..]) < |s| - 1 then
      var n := Quote(s[1..]) + 2;
      [Unquote(s[..n])] + Tokens(s[n..])
    else if !IsSpace(s[0]) then
      var n := WordEnd(s);
      [Unquote(s[..n])] + Tokens(s[n..])
    else Tokens(s[1..])
  }

  // ---------------------------------------------------------------- the parser

  type Path = seq<string>

  type Sets = map<string, seq<string>>

  /** The tree as its nodes by path from the root, and the stack of the nodes being filled. */
  datatype State = State(nodes: map<Path, Sets>, stack: seq<Path>)

  const START := State(map[[] := map[]], [[]])

  /** The stack holds the root and then, level by level, the path to the node being filled. */
  ghost predicate Valid(st: State) {
    && st.stack != []
    && (forall i :: 0 <= i < |st.stack| ==> |st.stack[i]| == i && st.stack[i] in st.nodes)
    && (forall i :: 0 <= i < |st.stack| - 1 ==> st.stack[i] == st.stack[i + 1][..i])
  }

  function Top(st: State): Path
    requires st.stack != []
  {
    st.stack[|st.stack| - 1]
  }

  /** ``children.setdefault`` and push. */
  function Open(st: State, name: string): State
    requires st.stack != []
  {
    var path := Top(st) + [name];
    State(st.nodes[path := if path in st.nodes then st.nodes[path] else map[]], st.stack + [path])
  }

  lemma OpenKeeps(st: State, name: string)
    requires Valid(st)
    ensures Valid(Open(st, name))
  {
    var after := Open(st, name);
    assert Top(after)[..|Top(st)|] == Top(st);
  }

  function StripQuotesLeft(s: string): (r: string)
    ensures |r| <= |s|
  {
    if s != "" && s[0] == '"' then StripQuotesLeft(s[1..]) else s
  }

  function StripQuotesRight(s: string): (r: string)
    ensures |r| <= |s|
  {
    if s != "" && s[|s| - 1] == '"' then StripQuotesRight(s[..|s| - 1]) else s
  }

  function StripQuotes(s: string): string { StripQuotesRight(StripQuotesLeft(s)) }

  function SetValue(st: State, s: string): State
    requires st.stack != [] && Top(st) in st.nodes
  {
    var toks := Tokens(s);
    if |toks| < 2 then st
    else st.(nodes := st.nodes[Top(st) := st.nodes[Top(st)][LowerAll(toks[1]) := toks[2..]]])
  }

  /** The lower-cased text starts with ``w``. */
  predicate Reads(s: string, w: string) {
    |w| <= |s| && forall i :: 0 <= i < |w| ==> Lower(s[i]) == w[i]
  }

  datatype Kind = Ignored | ConfigLine | EditLine | ClosingLine | SettingLine

  /** What kind of line a stripped line is. */
  function KindOf(s: string): (k: Kind)
    ensures (k == ConfigLine ==> |s| >= 7) && (k == EditLine ==> |s| >= 5)
  {
    if s == "" || s[0] == '#' then Ignored
    else if Reads(s, "config ") then ConfigLine
    else if Reads(s, "edit ") then EditLine
    else if |s| == 4 && Reads(s, "next") then ClosingLine
    else if |s| == 3 && Reads(s, "end") then ClosingLine
    else if Reads(s, "set ") then SettingLine
    else Ignored
  }

  function ParseStripped(st: State, s: string, kind: Kind): (st': State)
    requires Valid(st) && (kind == ConfigLine ==> |s| >= 7) && (kind == EditLine ==> |s| >= 5)
    ensures Valid(st')
  {
    match kind
    case Ignored => st
    case ConfigLine => OpenKeeps(st, StripQuotes(Strip(s[7..]))); Open(st, StripQuotes(Strip(s[7..])))
    case EditLine => OpenKeeps(st, StripQuotes(Strip(s[5..]))); Open(st, StripQuotes(Strip(s[5..])))
    case ClosingLine => if |st.stack| > 1 then st.(stack := st.stack[..|st.stack| - 1]) else st
    case SettingLine => SetValue(st, s)
  }

  function ParseLine(st: State, raw: string): (st': State)
    requires Valid(st)
    ensures Valid(st')
  {
    ParseStripped(st, Strip(raw), KindOf(Strip(raw)))
  }

  function ParseLines(st: State, lines: seq<string>): (st': State)
    requires Valid(st)
    ensures Valid(st')
  {
    if lines == [] then st else ParseLine(ParseLines(st, lines[..|lines| - 1]), lines[|lines| - 1])
  }

  /** The state in which reading a text from the beginning ends. */
  function ParseText(content: string): (st: State)
    ensures Valid(st)
  {
    StartIsValid();
    ParseLines(START, SplitLines(content))
  }

  /** ``children.setdefault(name, ...)`` on the node being filled, and push. */
  method Enter(nodes: map<Path, Sets>, stack: seq<Path>, name: string)
    returns (nodes': map<Path, Sets>, stack': seq<Path>)
    requires stack != []
    ensures State(nodes', stack') == Open(State(nodes, stack), name)
  {
    var path := stack[|stack| - 1] + [name];
    nodes' := nodes;
    if path !in nodes {
      nodes' := nodes[path := map[]];
    }
    stack' := stack + [path];
  }

  /** The loop body of ``_forti_tree``. */
  method HandleLine(nodes: map<Path, Sets>, stack: seq<Path>, raw: string)
    returns (nodes': map<Path, Sets>, stack': seq<Path>)
    requires Valid(State(nodes, stack))
    ensures State(nodes', stack') == ParseLine(State(nodes, stack), raw)
  {
    hide KindOf, Strip, Tokens, StripQuotes, LowerAll;
    nodes', stack' := nodes, stack;
    var s, top := Strip(raw), stack[|stack| - 1];
    match KindOf(s) {
      case Ignored =>
      case ConfigLine =>
        nodes', stack' := Enter(nodes, stack, StripQuotes(Strip(s[7..])));
      case EditLine =>
        nodes', stack' := Enter(nodes, stack, StripQuotes(Strip(s[5..])));
      case ClosingLine =>
        if |stack| > 1 {
          stack' := stack[..|stack| - 1];
        }
      case SettingLine =>
        var toks := Tokens(s);
        if |toks| >= 2 {
          nodes' := nodes[top := nodes[top][LowerAll(toks[1]) := toks[2..]]];
        }
    }
  }

  /** ``_forti_tree``. On any text the stack never empties: the root is never popped. */
  method FortiTree(content: string) returns (nodes: map<Path, Sets>, stack: seq<Path>)
    ensures State(nodes, stack) == ParseText(content)
    ensures Valid(State(nodes, stack)) && stack[0] == []
  {
    hide ParseLine, SplitLines;
    StartIsValid();
    var lines := SplitLines(content);
    nodes, stack := map[[] := map[]], [[]];
    var i := 0;
    while i < |lines|
      invariant 0 <= i <= |lines|
      invariant Valid(State(nodes, stack))
      invariant State(nodes, stack) == ParseLines(START, lines[..i])
    {
      assert lines[..i + 1][..i] == lines[..i];
      nodes, stack := HandleLine(nodes, stack, lines[i]);
      i := i + 1;
    }
    assert lines[..i] == lines;
  }

  // ---------------------------------------------------------------- the printer

  datatype Setting = Setting(key: string, values: seq<string>)

  datatype Stanza = Stanza(section: string, key: string, sets: seq<Setting>)

  function RenderValue(v: string): string {
    if ' ' in v || v == "" then "\"" + v + "\"" else v
  }

  /** The values, each after a blank. */
  function RenderValues(values: seq<string>): string {
    if values == [] then "" else " " + RenderValue(values[0]) + RenderValues(values[1..])
  }

  function SetLine(s: Setting): string {
    Blanks(8) + StripRight("set " + s.key + (if s.values == [] then " " else RenderValues(s.values)))
  }

  function SetLines(sets: seq<Setting>): seq<string> {
    if sets == [] then [] else SetLines(sets[..|sets| - 1]) + [SetLine(sets[|sets| - 1])]
  }

  function Lines(s: Stanza): seq<string> {
    ["config " + s.section, Blanks(4) + "edit \"" + s.key + "\""] + SetLines(s.sets) + [Blanks(4) + "next", "end"]
  }

  /** ``' '.join(...)`` over the values of one key. */
  method JoinValues(values: seq<string>) returns (rendered: string)
    ensures " " + rendered == if values == [] then " " else RenderValues(values)
  {
    hide RenderValue;
    rendered := "";
    var j := |values|;
    if j == 0 {
      return;
    }
    rendered := RenderValue(values[j - 1]);
    j := j - 1;
    LastValue(values);
    while j > 0
      invariant 0 <= j < |values|
      invariant " " + rendered == RenderValues(values[j..])
    {
      j := j - 1;
      assert values[j..][1..] == values[j + 1..];
      assert " " + (RenderValue(values[j]) + " " + rendered) == " " + RenderValue(values[j]) + (" " + rendered);
      rendered := RenderValue(values[j]) + " " + rendered;
    }
    assert values[0..] == values;
  }

  lemma LastValue(values: seq<string>)
    requires values != []
    ensures RenderValues(values[|values| - 1..]) == " " + RenderValue(values[|values| - 1])
  {
    hide RenderValue;
    var last := values[|values| - 1..];
    assert last[1..] == [] && RenderValues(last[1..]) == "";
  }

  /** ``_forti_render_stanza``. */
  method RenderStanza(section: string, key: string, sets: seq<Setting>) returns (text: string)
    ensures text == JoinLines(Lines(Stanza(section, key, sets)))
  {
    hide RenderValues, Blanks, StripRight, JoinLines;
    var lines := ["config " + section, Blanks(4) + "edit \"" + key + "\""];
    ghost var head := lines;
    var i := 0;
    while i < |sets|
      invariant 0 <= i <= |sets| && lines == head + SetLines(sets[..i])
    {
      var rendered := JoinValues(sets[i].values);
      var line := Blanks(8) + StripRight("set " + sets[i].key + (" " + rendered));
      assert line == SetLine(sets[i]);
      assert sets[..i + 1][..i] == sets[..i];
      lines := lines + [line];
      i := i + 1;
    }
    assert sets[..i] == sets;
    text := JoinLines(lines + [Blanks(4) + "next", "end"]);
  }

  /** The texts of the stanzas, one after the other. */
  function Document(stanzas: seq<Stanza>): string
    requires stanzas != []
  {
    var n := |stanzas| - 1;
    if n == 0 then JoinLines(Lines(stanzas[0]))
    else Document(stanzas[..n]) + "\n" + JoinLines(Lines(stanzas[n]))
  }

  // ---------------------------------------------------------------- what can be printed and read back

  predicate PlainName(s: string) {
    NoBreak(s) && (s != "" ==> s[0] != '"' && s[|s| - 1] != '"')
  }

  predicate PrintableValue(v: string) {
    && (forall i :: 0 <= i < |v| ==> IsSpace(v[i]) ==> v[i] == ' ')
    && '"' !in v
  }

  /** An ASCII key without blanks. */
  predicate PlainKey(k: string) {
    k != "" && k[0] != '"' && forall i :: 0 <= i < |k| ==> !IsSpace(k[i]) && k[i] < '\U{0080}'
  }

  /** A key that the parser leaves as it is. */
  predicate PrintableKey(k: string) {
    PlainKey(k) && LowerAll(k) == k
  }

  predicate PlainSetting(s: Setting) {
    PlainKey(s.key) && forall j :: 0 <= j < |s.values| ==> PrintableValue(s.values[j])
  }

  predicate PrintableSetting(s: Setting) {
    PlainSetting(s) && PrintableKey(s.key)
  }

  predicate AllPrintable(sets: seq<Setting>) {
    forall i :: 0 <= i < |sets| ==> PrintableSetting(sets[i])
  }

  predicate Printable(s: Stanza) {
    && s.section != "" && Trimmed(s.section) && PlainName(s.section) && PlainName(s.key)
    && AllPrintable(s.sets)
  }

  /** The settings of a stanza as the tree holds them, over what was there. */
  function Settings(before: Sets, sets: seq<Setting>): Sets {
    if sets == [] then before
    else
      var s := sets[|sets| - 1];
      Settings(before, sets[..|sets| - 1])[s.key := s.values]
  }

  function NodeAt(nodes: map<Path, Sets>, p: Path): Sets {
    if p in nodes then nodes[p] else map[]
  }

  /** What one stanza adds to the tree. */
  function Graft(nodes: map<Path, Sets>, s: Stanza): map<Path, Sets> {
    nodes[[s.section] := NodeAt(nodes, [s.section])]
         [[s.section, s.key] := Settings(NodeAt(nodes, [s.section, s.key]), s.sets)]
  }

  function Grafts(stanzas: seq<Stanza>): map<Path, Sets> {
    if stanzas == [] then map[[] := map[]]
    else Graft(Grafts(stanzas[..|stanzas| - 1]), stanzas[|stanzas| - 1])
  }

  // ---------------------------------------------------------------- reading back one line

  lemma {:induction false} WordEndAt(w: string, rest: string)
    requires forall i :: 0 <= i < |w| ==> !IsSpace(w[i])
    requires rest == "" || IsSpace(rest[0])
    ensures WordEnd(w + rest) == |w|
  {
    if w == "" {
      assert w + rest == rest;
    } else {
      assert (w + rest)[1..] == w[1..] + rest;
      WordEndAt(w[1..], rest);
    }
  }

  lemma {:induction false} QuoteAt(v: string, rest: string)
    requires '"' !in v && rest != "" && rest[0] == '"'
    ensures Quote(v + rest) == |v|
  {
    if v == "" {
      assert v + rest == rest;
    } else {
      assert (v + rest)[1..] == v[1..] + rest;
      assert v[0] in v && forall c :: c in v[1..] ==> c in v;
      QuoteAt(v[1..], rest);
    }
  }

  /** A bare word followed by a blank or the end is one token. */
  lemma WordToken(w: string, rest: string)
    requires w != "" && w[0] != '"' && forall i :: 0 <= i < |w| ==> !IsSpace(w[i])
    requires rest == "" || IsSpace(rest[0])
    ensures Tokens(w + rest) == [w] + Tokens(rest)
  {
    var s := w + rest;
    WordEndAt(w, rest);
    assert s[0] == w[0] && s[..|w|] == w && s[|w|..] == rest;
  }

  lemma QuotedToken(v: string, rest: string)
    requires '"' !in v
    ensures Tokens("\"" + v + "\"" + rest) == [v] + Tokens(rest)
  {
    var s := "\"" + v + "\"" + rest;
    assert s[1..] == v + ("\"" + rest);
    QuoteAt(v, "\"" + rest);
    var n := |v| + 2;
    assert s[..n] == "\"" + v + "\"" && s[n..] == rest;
    assert s[..n][1..n - 1] == v;
  }

  predicate AllValuesPrintable(values: seq<string>) {
    forall j :: 0 <= j < |values| ==> PrintableValue(values[j])
  }

  /** One value and what follows it. */
  lemma OneValue(v: string, rest: string)
    requires PrintableValue(v) && (rest == "" || rest[0] == ' ')
    ensures Tokens(" " + RenderValue(v) + rest) == [v] + Tokens(rest)
  {
    hide IsBreak;
    var r := RenderValue(v);
    assert (" " + r + rest)[1..] == r + rest;
    assert Tokens(" " + r + rest) == Tokens(r + rest);
    if ' ' in v || v == "" {
      QuotedToken(v, rest);
    } else {
      assert v[0] in v;
      forall i | 0 <= i < |v| ensures !IsSpace(v[i]) {
        assert v[i] in v;
      }
      WordToken(v, rest);
    }
  }

  lemma {:induction false} ValueTokens(values: seq<string>)
    requires AllValuesPrintable(values)
    ensures Tokens(RenderValues(values)) == values
    ensures RenderValues(values) == "" || RenderValues(values)[0] == ' '
  {
    hide Tokens, RenderValue, PrintableValue;
    if values == [] {
      assert Tokens("") == [] by { NoTokens(); }
    } else {
      ValueTokens(values[1..]);
      OneValue(values[0], RenderValues(values[1..]));
      assert values == [values[0]] + values[1..];
    }
  }

  lemma NoTokens()
    ensures Tokens("") == []
  {
  }

  lemma PrintsClean(v: string)
    requires PrintableValue(v)
    ensures NoBreak(RenderValue(v)) && RenderValue(v) != "" && !IsSpace(RenderValue(v)[|RenderValue(v)| - 1])
  {
    forall i | 0 <= i < |v| ensures !IsBreak(v[i]) {
      assert IsSpace(v[i]) ==> v[i] == ' ';
    }
    if !(' ' in v || v == "") {
      assert v[|v| - 1] in v;
    }
  }

  /** Printed values break no line and end in no blank. */
  lemma {:induction false} ValuesClean(values: seq<string>)
    requires AllValuesPrintable(values)
    ensures NoBreak(RenderValues(values))
    ensures values != [] ==> RenderValues(values) != "" && !IsSpace(RenderValues(values)[|RenderValues(values)| - 1])
  {
    hide RenderValue, PrintableValue;
    if values != [] {
      ValuesClean(values[1..]);
      PrintsClean(values[0]);
      var r, rest := RenderValue(values[0]), RenderValues(values[1..]);
      assert rest == "" ==> (" " + r + rest)[|" " + r + rest| - 1] == r[|r| - 1];
    }
  }

  /** What a set line reads as: its key in lower case, with its values. */
  lemma SetLineFolds(st: State, s: Setting)
    requires Valid(st) && PlainSetting(s)
    ensures var sets := st.nodes[Top(st)];
            ParseLine(st, SetLine(s)) == st.(nodes := st.nodes[Top(st) := sets[LowerAll(s.key) := s.values]])
    ensures SetLine(s) != "" && NoBreak(SetLine(s))
  {
    hide KindOf, Tokens, Strip, Blanks, RenderValues, SetLine, IsBreak, IsSpace, LowerAll, PrintableValue;
    var body := "set " + s.key + RenderValues(s.values);
    SetBody(s);
    StripIndent(8, body);
    SetTokens(s);
    assert KindOf(body) == SettingLine by { SetKind(body); }
    assert (["set", s.key] + s.values)[2..] == s.values;
    forall i | 0 <= i < |SetLine(s)| ensures !IsBreak(SetLine(s)[i]) {
      assert SetLine(s)[i] == if i < 8 then ' ' else body[i - 8];
      BlankIsNoBreak();
    }
  }

  /** A printed set line with a lower-case key reads back as its setting. */
  lemma SetLineReads(st: State, s: Setting)
    requires Valid(st) && PrintableSetting(s)
    ensures var sets := st.nodes[Top(st)];
            ParseLine(st, SetLine(s)) == st.(nodes := st.nodes[Top(st) := sets[s.key := s.values]])
    ensures SetLine(s) != "" && NoBreak(SetLine(s))
  {
    hide ParseLine, SetLine, Valid, NoBreak, PlainSetting;
    SetLineFolds(st, s);
  }

  lemma BlankIsNoBreak()
    ensures !IsBreak(' ')
  {
  }

  lemma LettersAreNoBlanks()
    ensures !IsSpace('c') && !IsSpace('s') && !IsSpace('e') && !IsSpace('t') && !IsSpace('"')
  {
  }

  lemma SkipBlank(s: string)
    ensures Tokens(" " + s) == Tokens(s)
  {
    assert (" " + s)[1..] == s;
  }

  lemma SetTokens(s: Setting)
    requires PlainSetting(s)
    ensures Tokens("set " + s.key + RenderValues(s.values)) == ["set", s.key] + s.values
  {
    hide Tokens, RenderValues, IsSpace, PrintableValue, LowerAll;
    ValueTokens(s.values);
    var k, values := s.key, RenderValues(s.values);
    BlankIsSpace();
    WordToken(k, values);
    SkipBlank(k + values);
    LettersAreNoBlanks();
    var w, rest := "set", " " + (k + values);
    WordToken(w, rest);
    assert "set " + k + values == w + rest;
    assert [w] + ([k] + s.values) == [w, k] + s.values;
  }

  lemma BlankIsSpace()
    ensures IsSpace(' ')
  {
  }

  lemma SetKind(body: string)
    requires |body| >= 4 && body[..4] == "set "
    ensures KindOf(body) == SettingLine
  {
    assert body[0] == 's' && body[1] == 'e' && body[2] == 't' && body[3] == ' ';
    assert Lower(body[0]) != "config "[0] && Lower(body[0]) != "edit "[0];
    assert Lower(body[0]) != "next"[0] && Lower(body[0]) != "end"[0];
  }

  lemma SetBody(s: Setting)
    requires PlainSetting(s)
    ensures var body := "set " + s.key + RenderValues(s.values);
            SetLine(s) == Blanks(8) + body && Trimmed(body) && NoBreak(body) && body[..4] == "set "
  {
    hide RenderValues, IsBreak, PrintableValue, Blanks, StripRight, LowerAll;
    ValuesClean(s.values);
    var head, values := "set " + s.key, RenderValues(s.values);
    var body := head + values;
    assert head[|head| - 1] == s.key[|s.key| - 1];
    LettersAreNoBlanks();
    if s.values == [] {
      NoValues();
      assert body == head;
      StripRightBlank(head);
    } else {
      assert body[|body| - 1] == values[|values| - 1];
      StripRightTrimmed(body);
    }
    SetHeadClean(s.key);
    ConcatClean(head, values);
    assert body[..4] == "set " && body[0] == 's';
  }

  lemma ConcatClean(a: string, b: string)
    requires NoBreak(a) && NoBreak(b)
    ensures NoBreak(a + b)
  {
  }

  lemma StripRightTrimmed(s: string)
    requires s != "" && !IsSpace(s[|s| - 1])
    ensures StripRight(s) == s
  {
  }

  lemma NoValues()
    ensures RenderValues([]) == ""
  {
  }

  lemma StripRightBlank(head: string)
    requires head != "" && !IsSpace(head[|head| - 1])
    ensures StripRight(head + " ") == head == StripRight(head)
  {
    hide IsBreak;
    assert (head + " ")[..|head + " "| - 1] == head;
  }

  lemma SetHeadClean(k: string)
    requires PlainKey(k)
    ensures NoBreak("set " + k)
  {
    hide LowerAll;
    var head := "set " + k;
    forall i | 0 <= i < |head| ensures !IsBreak(head[i]) {
      assert head[i] == if i < 4 then "set "[i] else k[i - 4];
    }
  }

  lemma StripQuotesPlain(s: string)
    requires PlainName(s)
    ensures StripQuotes(s) == s && StripQuotes("\"" + s + "\"") == s
  {
    var q := "\"" + s + "\"";
    if s == "" {
      assert q == "\"\"" && q[1..] == "\"" && q[1..][1..] == "";
    } else {
      assert q[1..] == s + "\"";
      assert StripQuotesLeft(q) == StripQuotesLeft(s + "\"") == s + "\"";
      assert (s + "\"")[..|s|] == s;
    }
  }

  lemma ConfigLineNames(section: string)
    requires section != "" && Trimmed(section) && PlainName(section)
    ensures var raw := "config " + section;
            && Strip(raw) == raw && KindOf(raw) == ConfigLine && StripQuotes(Strip(raw[7..])) == section
            && NoBreak(raw)
  {
    hide KindOf, Strip, StripQuotes, IsSpace, IsBreak, NoBreak;
    var s := "config " + section;
    assert s[|s| - 1] == section[|section| - 1] && s[0] == 'c' && s[..7] == "config ";
    LettersAreNoBlanks();
    StripTrims(s);
    assert s[7..] == section;
    StripTrims(section);
    StripQuotesPlain(section);
    ConfigKind(s);
    ConfigIsClean();
    ConcatClean("config ", section);
  }

  lemma ConfigKind(s: string)
    requires |s| >= 7 && s[..7] == "config "
    ensures KindOf(s) == ConfigLine
  {
    forall i | 0 <= i < 7 ensures Lower(s[i]) == "config "[i] {
      assert s[i] == s[..7][i] == "config "[i];
    }
  }

  lemma ConfigIsClean()
    ensures NoBreak("config ")
  {
  }

  lemma EditLineNames(key: string)
    requires PlainName(key)
    ensures var raw := Blanks(4) + "edit \"" + key + "\"";
            && KindOf(Strip(raw)) == EditLine && StripQuotes(Strip(Strip(raw)[5..])) == key
            && NoBreak(raw)
  {
    hide KindOf, Strip, Blanks, StripQuotes, IsBreak;
    var q := "\"" + key + "\"";
    var s := "edit " + q;
    var line := Blanks(4) + "edit \"" + key + "\"";
    assert line == Blanks(4) + s;
    assert s[|s| - 1] == '"' && s[0] == 'e' && s[..5] == "edit ";
    LettersAreNoBlanks();
    StripIndent(4, s);
    assert s[5..] == q;
    StripTrims(q);
    StripQuotesPlain(key);
    EditKind(s);
    QuotesAreClean();
    forall i | 0 <= i < |line|
      ensures !IsBreak(line[i])
    {
      assert line[i]
             == if i < 4 then ' ' else if i < 10 then "edit \""[i - 4] else if i < |line| - 1 then key[i - 10] else '"';
    }
  }

  lemma QuotesAreClean()
    ensures !IsBreak(' ') && !IsBreak('"') && forall i :: 0 <= i < 6 ==> !IsBreak("edit \""[i])
  {
  }

  lemma EditKind(s: string)
    requires |s| >= 5 && s[..5] == "edit "
    ensures KindOf(s) == EditLine
  {
    forall i | 0 <= i < 5 ensures Lower(s[i]) == "edit "[i] {
      assert s[i] == s[..5][i] == "edit "[i];
    }
    assert Lower(s[0]) != "config "[0];
  }

  lemma ClosingKinds()
    ensures KindOf("next") == ClosingLine && KindOf("end") == ClosingLine
  {
    assert Lower("next"[0]) == 'n' && Lower("end"[0]) == 'e' && Lower("end"[1]) == 'n';
  }

  lemma ClosingLinesClose()
    ensures KindOf(Strip(Blanks(4) + "next")) == ClosingLine && KindOf(Strip("end")) == ClosingLine
  {
    hide KindOf, Strip, Blanks;
    StripIndent(4, "next");
    StripTrims("end");
    ClosingKinds();
  }

  lemma ClosingLinesClean()
    ensures NoBreak(Blanks(4) + "next") && NoBreak("end")
  {
    var next := Blanks(4) + "next";
    forall i | 0 <= i < |next| ensures !IsBreak(next[i]) {
      assert next[i] == if i < 4 then ' ' else "next"[i - 4];
    }
  }

  // ---------------------------------------------------------------- reading back stanzas

  lemma {:induction false} ParseConcat(st: State, a: seq<string>, b: seq<string>)
    requires Valid(st)
    ensures ParseLines(st, a + b) == ParseLines(ParseLines(st, a), b)
  {
    if b == [] {
      assert a + b == a;
    } else {
      assert (a + b)[..|a + b| - 1] == a + b[..|b| - 1];
      ParseConcat(st, a, b[..|b| - 1]);
    }
  }

  lemma {:induction false} SetLinesRead(st: State, sets: seq<Setting>)
    requires Valid(st)
    requires AllPrintable(sets)
    ensures ParseLines(st, SetLines(sets)) == st.(nodes := st.nodes[Top(st) := Settings(st.nodes[Top(st)], sets)])
    ensures forall i :: 0 <= i < |SetLines(sets)| ==> SetLines(sets)[i] != "" && NoBreak(SetLines(sets)[i])
  {
    hide SetLine, ParseLine, NoBreak, PrintableSetting;
    if sets == [] {
      assert st.nodes[Top(st) := st.nodes[Top(st)]] == st.nodes;
    } else {
      var n := |sets| - 1;
      SetLinesRead(st, sets[..n]);
      var mid := ParseLines(st, SetLines(sets[..n]));
      assert SetLines(sets)[..|SetLines(sets)| - 1] == SetLines(sets[..n]);
      SetLineReads(mid, sets[n]);
      assert Top(mid) == Top(st);
    }
  }

  lemma ParseTwo(st: State, a: string, b: string)
    requires Valid(st)
    ensures ParseLines(st, [a, b]) == ParseLine(ParseLine(st, a), b)
  {
    hide ParseLine, Valid;
    assert [a, b][..1] == [a] && [a][..0] == [];
    assert ParseLines(st, [a]) == ParseLine(ParseLines(st, [a][..0]), a);
  }

  /** Lines that come back as they are when a text is split. */
  ghost predicate Clean(lines: seq<string>) {
    forall i :: 0 <= i < |lines| ==> lines[i] != "" && NoBreak(lines[i])
  }

  lemma CleanTogether(a: seq<string>, b: seq<string>)
    ensures Clean(a + b) <==> Clean(a) && Clean(b)
  {
    forall i | 0 <= i < |a|
      ensures (a + b)[i] == a[i]
    {
    }
    forall i | 0 <= i < |b|
      ensures (a + b)[|a| + i] == b[i]
    {
    }
  }

  /** At the root, reading a printed stanza grafts it and comes back to the root. */
  lemma StanzaReads(nodes: map<Path, Sets>, s: Stanza)
    requires Valid(State(nodes, [[]])) && Printable(s)
    ensures ParseLines(State(nodes, [[]]), Lines(s)) == State(Graft(nodes, s), [[]])
    ensures Clean(Lines(s))
  {
    hide ParseLine, ParseLines, NoBreak, SetLines, Settings, Blanks;
    var head := ["config " + s.section, Blanks(4) + "edit \"" + s.key + "\""];
    var tail := [Blanks(4) + "next", "end"];
    ParseConcat(State(nodes, [[]]), head + SetLines(s.sets), tail);
    ParseConcat(State(nodes, [[]]), head, SetLines(s.sets));
    HeadReads(nodes, s);
    var st2 := ParseLines(State(nodes, [[]]), head);
    SetLinesRead(st2, s.sets);
    TailReads(ParseLines(st2, SetLines(s.sets)));
    ClosingLinesClean();
  }

  /** The two closing lines of a stanza pop its two levels. */
  lemma TailReads(st: State)
    requires Valid(st) && |st.stack| == 3
    ensures ParseLines(st, [Blanks(4) + "next", "end"]) == State(st.nodes, st.stack[..1])
  {
    hide ParseLines, Valid, KindOf, Strip, Blanks;
    ParseTwo(st, Blanks(4) + "next", "end");
    ClosingLinesClose();
    assert st.stack[..2][..1] == st.stack[..1];
  }

  lemma HeadReads(nodes: map<Path, Sets>, s: Stanza)
    requires Valid(State(nodes, [[]])) && Printable(s)
    ensures ParseLines(State(nodes, [[]]), ["config " + s.section, Blanks(4) + "edit \"" + s.key + "\""])
            == State(nodes[[s.section] := NodeAt(nodes, [s.section])]
                          [[s.section, s.key] := NodeAt(nodes, [s.section, s.key])],
                     [[], [s.section], [s.section, s.key]])
    ensures NoBreak("config " + s.section) && NoBreak(Blanks(4) + "edit \"" + s.key + "\"")
  {
    hide ParseLines, IsBreak, KindOf, Strip, StripQuotes, Blanks;
    var st := State(nodes, [[]]);
    var first, second := "config " + s.section, Blanks(4) + "edit \"" + s.key + "\"";
    ParseTwo(st, first, second);
    ConfigLineNames(s.section);
    var st1 := Open(st, s.section);
    assert ParseLine(st, first) == st1;
    assert Top(st1) == [s.section];
    EditLineNames(s.key);
    assert ParseLine(st1, second) == Open(st1, s.key);
    assert [s.section] + [s.key] == [s.section, s.key];
    assert |[s.section, s.key]| != |[s.section]|;
  }

  /** All the lines of a document. */
  function AllLines(stanzas: seq<Stanza>): seq<string> {
    if stanzas == [] then [] else AllLines(stanzas[..|stanzas| - 1]) + Lines(stanzas[|stanzas| - 1])
  }

  lemma HasLines(s: Stanza)
    ensures Lines(s) != []
  {
    hide SetLines;
  }

  lemma {:induction false} DocumentIsJoined(stanzas: seq<Stanza>)
    requires stanzas != []
    ensures Document(stanzas) == JoinLines(AllLines(stanzas)) && AllLines(stanzas) != []
  {
    hide Lines, JoinLines;
    var n := |stanzas| - 1;
    HasLines(stanzas[n]);
    if n == 0 {
      assert stanzas[..0] == [];
      assert AllLines(stanzas) == [] + Lines(stanzas[0]) == Lines(stanzas[0]);
    } else {
      DocumentIsJoined(stanzas[..n]);
      JoinConcat(AllLines(stanzas[..n]), Lines(stanzas[n]));
    }
  }

  lemma NothingRead()
    ensures ParseLines(START, AllLines([])) == State(Grafts([]), [[]])
  {
  }

  lemma OneMoreStanza(stanzas: seq<Stanza>)
    requires stanzas != []
    ensures var n := |stanzas| - 1;
            && AllLines(stanzas) == AllLines(stanzas[..n]) + Lines(stanzas[n])
            && Grafts(stanzas) == Graft(Grafts(stanzas[..n]), stanzas[n])
  {
    hide Lines, Graft;
  }

  lemma {:induction false} LinesGraft(stanzas: seq<Stanza>)
    requires forall i :: 0 <= i < |stanzas| ==> Printable(stanzas[i])
    ensures ParseLines(START, AllLines(stanzas)) == State(Grafts(stanzas), [[]])
  {
    hide Valid, Lines, ParseLines, Printable, Graft, AllLines, Grafts;
    if stanzas == [] {
      NothingRead();
    } else {
      var n := |stanzas| - 1;
      LinesGraft(stanzas[..n]);
      OneMoreStanza(stanzas);
      StartIsValid();
      ParseConcat(START, AllLines(stanzas[..n]), Lines(stanzas[n]));
      StanzaReads(Grafts(stanzas[..n]), stanzas[n]);
    }
  }

  lemma StartIsValid()
    ensures Valid(START)
  {
  }

  lemma NothingIsClean()
    ensures Clean(AllLines([]))
  {
  }

  lemma {:induction false} LinesClean(stanzas: seq<Stanza>)
    requires forall i :: 0 <= i < |stanzas| ==> Printable(stanzas[i])
    ensures Clean(AllLines(stanzas))
  {
    hide Lines, ParseLines, Clean, Printable, AllLines, Valid, Graft;
    if stanzas == [] {
      NothingIsClean();
    } else {
      var n := |stanzas| - 1;
      LinesClean(stanzas[..n]);
      OneMoreStanza(stanzas);
      CleanTogether(AllLines(stanzas[..n]), Lines(stanzas[n]));
      StartIsValid();
      StanzaReads(START.nodes, stanzas[n]);
    }
  }

  /** Reading a printed document grafts its stanzas one after the other: a later stanza of the same
      section and key adds to, and overrides, the earlier one. */
  lemma DocumentReads(stanzas: seq<Stanza>)
    requires stanzas != [] && forall i :: 0 <= i < |stanzas| ==> Printable(stanzas[i])
    ensures ParseText(Document(stanzas)) == State(Grafts(stanzas), [[]])
  {
    DocumentIsJoined(stanzas);
    LinesGraft(stanzas);
    LinesClean(stanzas);
    SplitJoined(AllLines(stanzas));
  }

  ghost predicate Distinct(stanzas: seq<Stanza>) {
    forall i, j :: 0 <= i < j < |stanzas| ==>
      stanzas[i].section != stanzas[j].section || stanzas[i].key != stanzas[j].key
  }

  ghost predicate IsPathOf(p: Path, stanzas: seq<Stanza>) {
    p == []
    || exists i :: 0 <= i < |stanzas| &&
          (p == [stanzas[i].section] || p == [stanzas[i].section, stanzas[i].key])
  }

  lemma PathsSplit(stanzas: seq<Stanza>, p: Path)
    requires stanzas != []
    ensures IsPathOf(p, stanzas) <==> (IsPathOf(p, stanzas[..|stanzas| - 1])
              || p == [stanzas[|stanzas| - 1].section]
              || p == [stanzas[|stanzas| - 1].section, stanzas[|stanzas| - 1].key])
  {
    var n := |stanzas| - 1;
    if IsPathOf(p, stanzas[..n]) && p != [] {
      var i :| 0 <= i < n && (p == [stanzas[..n][i].section] || p == [stanzas[..n][i].section, stanzas[..n][i].key]);
      assert stanzas[i] == stanzas[..n][i];
    }
    if IsPathOf(p, stanzas) && p != [] {
      var i :| 0 <= i < |stanzas| && (p == [stanzas[i].section] || p == [stanzas[i].section, stanzas[i].key]);
      assert i < n ==> stanzas[..n][i] == stanzas[i];
    }
  }

  lemma {:induction false} GraftPaths(stanzas: seq<Stanza>)
    ensures forall p :: p in Grafts(stanzas) <==> IsPathOf(p, stanzas)
    ensures forall p :: p in Grafts(stanzas) && |p| <= 1 ==> Grafts(stanzas)[p] == map[]
  {
    hide Settings, IsPathOf;
    if stanzas == [] {
      assert forall p :: IsPathOf(p, []) <==> p == [] by { NoPaths(); }
    } else {
      var n := |stanzas| - 1;
      GraftPaths(stanzas[..n]);
      forall p: Path ensures p in Grafts(stanzas) <==> IsPathOf(p, stanzas) {
        PathsSplit(stanzas, p);
      }
    }
  }

  lemma NoPaths()
    ensures forall p :: IsPathOf(p, []) <==> p == []
  {
  }

  lemma PathsDiffer(a: Stanza, b: Stanza)
    ensures [a.section, a.key] == [b.section, b.key] <==> a.section == b.section && a.key == b.key
    ensures [a.section, a.key] != [b.section]
  {
    assert [a.section, a.key][0] == a.section && [a.section, a.key][1] == a.key;
    assert [b.section, b.key][0] == b.section && [b.section, b.key][1] == b.key;
    assert |[a.section, a.key]| != |[b.section]|;
  }

  /** A stanza of another (section, key) leaves the node of this one alone. */
  lemma GraftsApart(nodes: map<Path, Sets>, s: Stanza, other: Stanza)
    requires other.section != s.section || other.key != s.key
    ensures NodeAt(Graft(nodes, s), [other.section, other.key]) == NodeAt(nodes, [other.section, other.key])
  {
    hide Settings;
    PathsDiffer(other, s);
  }

  lemma GraftHolds(nodes: map<Path, Sets>, s: Stanza)
    requires [s.section, s.key] !in nodes
    ensures NodeAt(Graft(nodes, s), [s.section, s.key]) == Settings(map[], s.sets)
  {
    hide Settings;
    PathsDiffer(s, s);
  }

  lemma NewPath(stanzas: seq<Stanza>, s: Stanza)
    requires forall i :: 0 <= i < |stanzas| ==> stanzas[i].section != s.section || stanzas[i].key != s.key
    ensures [s.section, s.key] !in Grafts(stanzas)
  {
    hide Grafts, Graft;
    GraftPaths(stanzas);
    forall i | 0 <= i < |stanzas|
      ensures [stanzas[i].section, stanzas[i].key] != [s.section, s.key] && [stanzas[i].section] != [s.section, s.key]
    {
      PathsDiffer(stanzas[i], s);
      PathsDiffer(s, stanzas[i]);
    }
  }

  lemma {:induction false} GraftsHold(stanzas: seq<Stanza>)
    requires Distinct(stanzas)
    ensures forall i :: 0 <= i < |stanzas| ==>
        NodeAt(Grafts(stanzas), [stanzas[i].section, stanzas[i].key]) == Settings(map[], stanzas[i].sets)
  {
    hide Settings, Graft, NodeAt;
    if stanzas != [] {
      var n := |stanzas| - 1;
      var s, before := stanzas[n], Grafts(stanzas[..n]);
      GraftsHold(stanzas[..n]);
      NewPath(stanzas[..n], s);
      GraftHolds(before, s);
      forall i | 0 <= i < n
        ensures NodeAt(Grafts(stanzas), [stanzas[i].section, stanzas[i].key]) == Settings(map[], stanzas[i].sets)
      {
        assert stanzas[..n][i] == stanzas[i];
        GraftsApart(before, s, stanzas[i]);
      }
    }
  }

  ghost predicate KeysDiffer(sets: seq<Setting>) {
    forall i, j :: 0 <= i < j < |sets| ==> sets[i].key != sets[j].key
  }

  ghost predicate Mentions(sets: seq<Setting>, k: string) {
    exists i :: 0 <= i < |sets| && sets[i].key == k
  }

  /** The node holds exactly these keys with exactly these value lists. */
  ghost predicate Holds(node: Sets, sets: seq<Setting>) {
    && (forall k :: k in node <==> Mentions(sets, k))
    && (forall i :: 0 <= i < |sets| ==> sets[i].key in node && node[sets[i].key] == sets[i].values)
  }

  lemma OneMoreSetting(sets: seq<Setting>, k: string)
    requires sets != []
    ensures Mentions(sets, k) <==> Mentions(sets[..|sets| - 1], k) || sets[|sets| - 1].key == k
  {
    forall i | 0 <= i < |sets| - 1
      ensures sets[..|sets| - 1][i] == sets[i]
    {
    }
  }

  lemma HoldsOneMore(node: Sets, sets: seq<Setting>)
    requires sets != [] && KeysDiffer(sets) && Holds(node, sets[..|sets| - 1])
    ensures Holds(node[sets[|sets| - 1].key := sets[|sets| - 1].values], sets)
  {
    hide Mentions;
    var n := |sets| - 1;
    var last := sets[n];
    var after := node[last.key := last.values];
    forall k ensures k in after <==> Mentions(sets, k) {
      OneMoreSetting(sets, k);
    }
    forall i | 0 <= i < |sets|
      ensures sets[i].key in after && after[sets[i].key] == sets[i].values
    {
      assert i < n ==> sets[..n][i] == sets[i] && sets[i].key != last.key;
    }
  }

  lemma {:induction false} SettingsHold(sets: seq<Setting>)
    requires KeysDiffer(sets)
    ensures Holds(Settings(map[], sets), sets)
  {
    if sets == [] {
      NoSettings();
    } else {
      var n := |sets| - 1;
      assert KeysDiffer(sets[..n]);
      hide Holds, KeysDiffer;
      SettingsHold(sets[..n]);
      HoldsOneMore(Settings(map[], sets[..n]), sets);
    }
  }

  lemma NoSettings()
    ensures Holds(Settings(map[], []), [])
  {
  }

  /** Round trip. Printing stanzas with different (section, key) pairs and parsing the result gives
      a tree with exactly their sections and keys, each key holding exactly its settings with their
      value lists, and nothing set anywhere else. */
  lemma RoundTrip(stanzas: seq<Stanza>)
    requires stanzas != [] && Distinct(stanzas)
    requires forall i :: 0 <= i < |stanzas| ==> Printable(stanzas[i]) && KeysDiffer(stanzas[i].sets)
    ensures var nodes := ParseText(Document(stanzas)).nodes;
            && (forall p :: p in nodes <==> IsPathOf(p, stanzas))
            && (forall i :: 0 <= i < |stanzas| ==>
                  Holds(NodeAt(nodes, [stanzas[i].section, stanzas[i].key]), stanzas[i].sets))
            && (forall p :: p in nodes && |p| <= 1 ==> nodes[p] == map[])
  {
    hide Holds, KeysDiffer, Settings, Printable, Document, SplitLines, ParseLine, Grafts;
    DocumentReads(stanzas);
    GraftPaths(stanzas);
    GraftsHold(stanzas);
    forall i | 0 <= i < |stanzas| ensures Holds(Settings(map[], stanzas[i].sets), stanzas[i].sets) {
      SettingsHold(stanzas[i].sets);
    }
  }
}
