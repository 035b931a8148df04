/** collectors/mac_collector.py: interface names expanded from their abbreviations.

    A pattern matches case-insensitively and only in front of a digit. */
module IfaceNames {
  import opened Text

  /** The alternatives of one pattern, in order, and what replaces them. */
  datatype Abbreviation = Abbreviation(forms: seq<string>, full: string)

  const ABBREVIATIONS: seq<Abbreviation> := [
    Abbreviation(["GigabitEthernet", "Gi"], "GigabitEthernet"),
    Abbreviation(["TenGigabitEthernet", "TenGigE", "Te", "XGi", "10Ge"], "TenGigabitEthernet"),
    Abbreviation(["TwentyFiveGigE", "Twe", "25Ge"], "TwentyFiveGigE"),
    Abbreviation(["FortyGigabitEthernet", "FortyGigE", "Fo", "40Ge"], "FortyGigE"),
    Abbreviation(["HundredGigE", "Hu", "100Ge"], "HundredGigE"),
    Abbreviation(["FastEthernet", "Fa", "fe"], "FastEthernet"),
    Abbreviation(["Ethernet", "Eth", "Et", "e"], "Ethernet"),
    Abbreviation(["Port-channel", "Port-Channel", "Po"], "Port-channel")
  ]

  /** The form starts the name, whatever the case, and a digit follows. */
  predicate Matches(form: string, name: string) {
    |form| < |name| && LowerAll(name[..|form|]) == LowerAll(form) && IsDigit(name[|form|])
  }

  /** Length of what the first matching alternative takes; 0 when none matches. */
  function Taken(forms: seq<string>, name: string): nat {
    if forms == [] then 0
    else if Matches(forms[0], name) then |forms[0]|
    else Taken(forms[1..], name)
  }

  function ExpandWith(abbrs: seq<Abbreviation>, name: string): string {
    if abbrs == [] then name
    else
      var n := Taken(abbrs[0].forms, name);
      if 0 < n <= |name| then abbrs[0].full + name[n..] else ExpandWith(abbrs[1..], name)
  }

  /** ``expand_iface``. */
  function Expand(name: string): string {
    ExpandWith(ABBREVIATIONS, Strip(name))
  }

  /** No form reads, whatever the case, as the given full name. */
  ghost predicate Foreign(forms: seq<string>, full: string) {
    forall k :: 0 <= k < |forms| ==> LowerAll(forms[k]) != LowerAll(full)
  }

  /** A form in front of a digit can only match an expanded name as its very prefix: the first
      digit of ``full + rest`` is where ``full`` ends. */
  lemma MatchIsWhole(form: string, full: string, rest: string)
    requires form != "" && full != "" && rest != "" && IsDigit(rest[0])
    requires forall i :: 0 <= i < |full| ==> !IsDigit(full[i])
    requires |form| > |full| ==> !IsDigit(form[|full|])
    requires Matches(form, full + rest)
    ensures LowerAll(form) == LowerAll(full)
  {
    var name := full + rest;
    assert name[|full|] == rest[0];
    assert |form| >= |full|;
    assert name[..|full|] == full;
  }

  /** No form of ``forms`` has a digit at position ``n``. */
  ghost predicate NoDigitAt(forms: seq<string>, n: nat) {
    forall k :: 0 <= k < |forms| ==> forms[k] != "" && (n < |forms[k]| ==> !IsDigit(forms[k][n]))
  }

  lemma {:induction false} ForeignTakesNothing(forms: seq<string>, full: string, rest: string)
    requires full != "" && rest != "" && IsDigit(rest[0])
    requires forall i :: 0 <= i < |full| ==> !IsDigit(full[i])
    requires NoDigitAt(forms, |full|) && Foreign(forms, full)
    ensures Taken(forms, full + rest) == 0
  {
    if forms != [] {
      if Matches(forms[0], full + rest) {
        MatchIsWhole(forms[0], full, rest);
      }
      ForeignTakesNothing(forms[1..], full, rest);
    }
  }

  lemma {:induction false} OwnTakesFull(forms: seq<string>, full: string, rest: string)
    requires full != "" && rest != "" && IsDigit(rest[0])
    requires forall i :: 0 <= i < |full| ==> !IsDigit(full[i])
    requires NoDigitAt(forms, |full|) && full in forms
    ensures Taken(forms, full + rest) == |full|
  {
    var name := full + rest;
    if Matches(forms[0], name) {
      MatchIsWhole(forms[0], full, rest);
    } else {
      assert name[..|full|] == full;
      assert forms[0] != full;
      OwnTakesFull(forms[1..], full, rest);
    }
  }

  /** Entry ``k`` of a table is the first that reads its own full name. */
  ghost predicate FirstReader(abbrs: seq<Abbreviation>, k: nat) {
    k < |abbrs| &&
    var full := abbrs[k].full;
    && full != "" && !IsSpace(full[0]) && (forall i :: 0 <= i < |full| ==> !IsDigit(full[i]))
    && full in abbrs[k].forms
    && (forall j :: 0 <= j <= k ==> NoDigitAt(abbrs[j].forms, |full|))
    && (forall j :: 0 <= j < k ==> Foreign(abbrs[j].forms, full))
  }

  lemma {:induction false} ExpandedIsFixed(abbrs: seq<Abbreviation>, k: nat, rest: string)
    requires FirstReader(abbrs, k) && rest != "" && IsDigit(rest[0])
    ensures ExpandWith(abbrs, abbrs[k].full + rest) == abbrs[k].full + rest
  {
    var full := abbrs[k].full;
    assert NoDigitAt(abbrs[0].forms, |full|);
    if k == 0 {
      OwnTakesFull(abbrs[0].forms, full, rest);
      assert (full + rest)[|full|..] == rest;
    } else {
      assert Foreign(abbrs[0].forms, full);
      ForeignTakesNothing(abbrs[0].forms, full, rest);
      assert abbrs[1..][k - 1] == abbrs[k];
      forall j | 0 <= j < k ensures abbrs[1..][j] == abbrs[j + 1] {
      }
      ExpandedIsFixed(abbrs[1..], k - 1, rest);
    }
  }

  lemma {:induction false} TakenMatches(forms: seq<string>, name: string)
    ensures var n := Taken(forms, name); n > 0 ==> n < |name| && IsDigit(name[n])
  {
    if forms != [] {
      TakenMatches(forms[1..], name);
    }
  }

  /** Either nothing matched, or the result is the full name of an entry and a rest that starts
      with a digit. */
  lemma {:induction false} ExpandShape(abbrs: seq<Abbreviation>, name: string) returns (k: nat, rest: string)
    ensures ExpandWith(abbrs, name) == name
            || (k < |abbrs| && rest != "" && IsDigit(rest[0]) && ExpandWith(abbrs, name) == abbrs[k].full + rest
                && |rest| <= |name| && rest == name[|name| - |rest|..])
  {
    k, rest := 0, "";
    if abbrs != [] {
      var n := Taken(abbrs[0].forms, name);
      TakenMatches(abbrs[0].forms, name);
      if 0 < n <= |name| {
        rest := name[n..];
      } else {
        k, rest := ExpandShape(abbrs[1..], name);
        k := k + 1;
      }
    }
  }

  lemma TableIsConsistent(k: nat)
    requires k < |ABBREVIATIONS|
    ensures FirstReader(ABBREVIATIONS, k)
  {
    FullName(k);
    forall j | 0 <= j <= k ensures NoDigitAt(ABBREVIATIONS[j].forms, |ABBREVIATIONS[k].full|) {
      FormDigits(j, |ABBREVIATIONS[k].full|);
    }
    forall j | 0 <= j < k ensures Foreign(ABBREVIATIONS[j].forms, ABBREVIATIONS[k].full) {
      ForeignEntry(j, k);
    }
  }

  lemma FullName(k: nat)
    requires k < |ABBREVIATIONS|
    ensures var full := ABBREVIATIONS[k].full;
            && |full| in {8, 9, 11, 12, 14, 15, 18} && full in ABBREVIATIONS[k].forms
            && !IsSpace(full[0]) && (forall i :: 0 <= i < |full| ==> !IsDigit(full[i]))
  {
    hide IsDigit;
    var full := ABBREVIATIONS[k].full;
    assert ABBREVIATIONS[k].forms[if k == 3 then 1 else 0] == full;
    forall i | 0 <= i < |full| ensures !IsDigit(full[i]) {
      FullHasNoDigit(k, i);
    }
  }

  lemma FullHasNoDigit(k: nat, i: nat)
    requires k < |ABBREVIATIONS| && i < |ABBREVIATIONS[k].full|
    ensures !IsDigit(ABBREVIATIONS[k].full[i])
  {
  }

  lemma FormDigits(j: nat, n: nat)
    requires j < |ABBREVIATIONS| && n in {8, 9, 11, 12, 14, 15, 18}
    ensures NoDigitAt(ABBREVIATIONS[j].forms, n)
  {
    var forms := ABBREVIATIONS[j].forms;
    forall k | 0 <= k < |forms| ensures forms[k] != "" && (n < |forms[k]| ==> !IsDigit(forms[k][n])) {
      LongFormDigits(j, k, n);
    }
  }

  lemma LongFormDigits(j: nat, k: nat, n: nat)
    requires j < |ABBREVIATIONS| && k < |ABBREVIATIONS[j].forms| && n >= 8
    ensures ABBREVIATIONS[j].forms[k] != ""
    ensures n < |ABBREVIATIONS[j].forms[k]| ==> !IsDigit(ABBREVIATIONS[j].forms[k][n])
  {
  }

  lemma ForeignEntry(j: nat, k: nat)
    requires j < k < |ABBREVIATIONS|
    ensures Foreign(ABBREVIATIONS[j].forms, ABBREVIATIONS[k].full)
  {
    var full := ABBREVIATIONS[k].full;
    forall i | 0 <= i < |ABBREVIATIONS[j].forms| ensures LowerAll(ABBREVIATIONS[j].forms[i]) != LowerAll(full) {
      var form := ABBREVIATIONS[j].forms[i];
      assert |form| == |full| ==> Lower(form[0]) != Lower(full[0]);
      if |form| == |full| {
        assert LowerAll(form)[0] != LowerAll(full)[0];
      }
    }
  }

  /** Expanding an expanded name changes nothing. */
  lemma ExpandIsIdempotent(name: string)
    ensures Expand(Expand(name)) == Expand(name)
  {
    var s := Strip(name);
    StripTrims(name);
    var k, rest := ExpandShape(ABBREVIATIONS, s);
    if ExpandWith(ABBREVIATIONS, s) == s {
      StripTrims(s);
    } else {
      ExpandedStays(k, rest, s);
    }
  }

  lemma ExpandedStays(k: nat, rest: string, s: string)
    requires k < |ABBREVIATIONS| && rest != "" && IsDigit(rest[0]) && Trimmed(s)
    requires |rest| <= |s| && rest == s[|s| - |rest|..]
    ensures Expand(ABBREVIATIONS[k].full + rest) == ABBREVIATIONS[k].full + rest
  {
    hide IsSpace, IsDigit, Strip, ExpandWith, NoDigitAt, Foreign;
    var full := ABBREVIATIONS[k].full;
    TableIsConsistent(k);
    ExpandedIsFixed(ABBREVIATIONS, k, rest);
    StaysTrimmed(full, rest, s);
    StripTrims(full + rest);
  }

  lemma StaysTrimmed(full: string, rest: string, s: string)
    requires full != "" && !IsSpace(full[0]) && rest != "" && Trimmed(s)
    requires |rest| <= |s| && rest == s[|s| - |rest|..]
    ensures Trimmed(full + rest)
  {
    hide IsSpace;
    assert (full + rest)[0] == full[0] && (full + rest)[|full + rest| - 1] == rest[|rest| - 1] == s[|s| - 1];
  }

  // ---------------------------------------------------------------- which names stand for which

  /** Digits only start a form, and then at least four characters make it up. */
  ghost predicate Shaped(form: string) {
    && form != "" && (IsDigit(form[0]) ==> |form| >= 4)
    && (forall n :: 0 <= n < |form| && IsDigit(form[n]) ==> n < 3 && IsDigit(form[0]))
  }

  lemma FormStarts(j: nat, i: nat)
    requires j < |ABBREVIATIONS| && i < |ABBREVIATIONS[j].forms|
    ensures var form := ABBREVIATIONS[j].forms[i]; form != "" && (IsDigit(form[0]) ==> |form| >= 4)
  {
  }

  lemma FormTail(j: nat, i: nat, n: nat)
    requires j < |ABBREVIATIONS| && i < |ABBREVIATIONS[j].forms| && 3 <= n < |ABBREVIATIONS[j].forms[i]|
    ensures !IsDigit(ABBREVIATIONS[j].forms[i][n])
  {
  }

  lemma FormHead(j: nat, i: nat)
    requires j < |ABBREVIATIONS| && i < |ABBREVIATIONS[j].forms|
    ensures var form := ABBREVIATIONS[j].forms[i];
            |form| > 2 && (IsDigit(form[1]) || IsDigit(form[2])) ==> IsDigit(form[0])
    ensures var form := ABBREVIATIONS[j].forms[i]; |form| == 2 ==> !IsDigit(form[1])
  {
  }

  lemma FormNoBlank(j: nat, i: nat)
    requires j < |ABBREVIATIONS| && i < |ABBREVIATIONS[j].forms|
    ensures ABBREVIATIONS[j].forms[i] != "" && !IsSpace(ABBREVIATIONS[j].forms[i][0])
  {
  }

  /** The entry that the first letters of a name lead to. */
  function EntryOf(s: string): nat {
    var a := if |s| > 0 then Lower(s[0]) else ' ';
    var b := if |s| > 1 then Lower(s[1]) else ' ';
    if a == 'g' then 0
    else if a == 'x' || (a == 't' && b == 'e') then 1
    else if a == '2' || a == 't' then 2
    else if a == '4' || (a == 'f' && b == 'o') then 3
    else if a == 'h' then 4
    else if a == 'f' then 5
    else if a == 'e' then 6
    else if a == 'p' then 7
    else if |s| > 2 && s[2] == '0' then 4
    else 1
  }

  lemma FormLeadsHome(j: nat, i: nat)
    requires j < |ABBREVIATIONS| && i < |ABBREVIATIONS[j].forms|
    ensures EntryOf(ABBREVIATIONS[j].forms[i]) == j
  {
  }

  /** Every form has its shape and leads to the entry it is listed in. */
  ghost predicate WellMade(abbrs: seq<Abbreviation>) {
    forall j, i :: 0 <= j < |abbrs| && 0 <= i < |abbrs[j].forms| ==>
      Shaped(abbrs[j].forms[i]) && EntryOf(abbrs[j].forms[i]) == j
  }

  lemma TableIsWellMade()
    ensures WellMade(ABBREVIATIONS)
  {
    hide IsDigit, EntryOf;
    forall j, i | 0 <= j < |ABBREVIATIONS| && 0 <= i < |ABBREVIATIONS[j].forms|
      ensures Shaped(ABBREVIATIONS[j].forms[i]) && EntryOf(ABBREVIATIONS[j].forms[i]) == j
    {
      FormStarts(j, i);
      FormLeadsHome(j, i);
      FormHead(j, i);
      forall n | 0 <= n < |ABBREVIATIONS[j].forms[i]| && IsDigit(ABBREVIATIONS[j].forms[i][n])
        ensures n < 3 && IsDigit(ABBREVIATIONS[j].forms[i][0])
      {
        if n >= 3 {
          FormTail(j, i, n);
        }
      }
    }
  }

  lemma LeadsAlike(s: string, t: string)
    requires LowerAll(s) == LowerAll(t)
    ensures EntryOf(s) == EntryOf(t)
  {
    forall i | 0 <= i < |s| ensures Lower(s[i]) == Lower(t[i]) {
      assert LowerAll(s)[i] == LowerAll(t)[i];
    }
    if |s| > 2 {
      assert s[2] == '0' <==> Lower(s[2]) == '0';
      assert t[2] == '0' <==> Lower(t[2]) == '0';
    }
  }

  lemma LowerDigit(c: char)
    ensures IsDigit(Lower(c)) <==> IsDigit(c)
    ensures IsDigit(c) ==> Lower(c) == c
  {
  }

  /** In front of a digit, a form only matches a text that reads as a form when the two read the same. */
  lemma MatchReadsSame(f: string, g: string, s: string, rest: string)
    requires Shaped(f) && Shaped(g) && LowerAll(s) == LowerAll(g) && rest != "" && IsDigit(rest[0])
    requires Matches(f, s + rest)
    ensures |f| == |s| && LowerAll(f) == LowerAll(g)
  {
    hide IsDigit, Lower;
    var name := s + rest;
    SamePlaces(f, s, rest);
    assert Lower(s[0]) == LowerAll(s)[0] == LowerAll(g)[0] == Lower(g[0]);
    LowerDigit(f[0]);
    LowerDigit(g[0]);
    if |f| < |s| {
      assert Lower(s[|f|]) == LowerAll(s)[|f|] == LowerAll(g)[|f|] == Lower(g[|f|]);
      LowerDigit(s[|f|]);
      LowerDigit(g[|f|]);
    } else if |f| > |s| {
      LowerDigit(f[|s|]);
      LowerDigit(rest[0]);
    } else if |f| == |s| {
      assert name[..|f|] == s;
    }
  }

  lemma SamePlaces(f: string, s: string, rest: string)
    requires f != "" && s != "" && rest != "" && Matches(f, s + rest)
    ensures Lower(f[0]) == Lower(s[0])
    ensures |f| < |s| ==> IsDigit(s[|f|])
    ensures |f| > |s| ==> Lower(f[|s|]) == Lower(rest[0])
  {
    hide IsDigit, Lower;
    var name := s + rest;
    assert LowerAll(name[..|f|])[0] == Lower(name[0]) && LowerAll(f)[0] == Lower(f[0]);
    if |f| > |s| {
      assert LowerAll(f)[|s|] == LowerAll(name[..|f|])[|s|] == Lower(name[|s|]);
    }
  }

  lemma {:induction false} NoneTaken(forms: seq<string>, name: string)
    requires forall i :: 0 <= i < |forms| ==> !Matches(forms[i], name)
    ensures Taken(forms, name) == 0
  {
    if forms != [] {
      NoneTaken(forms[1..], name);
    }
  }

  lemma {:induction false} OwnTaken(forms: seq<string>, m: nat, s: string, rest: string)
    requires m < |forms| && LowerAll(s) == LowerAll(forms[m]) && rest != "" && IsDigit(rest[0])
    requires forall i :: 0 <= i < |forms| && Matches(forms[i], s + rest) ==> |forms[i]| == |s|
    ensures Taken(forms, s + rest) == |s|
  {
    if !Matches(forms[0], s + rest) {
      assert (s + rest)[..|s|] == s;
      OwnTaken(forms[1..], m - 1, s, rest);
    }
  }

  lemma {:induction false} ExpandsAsEntry(abbrs: seq<Abbreviation>, k: nat, s: string, rest: string)
    requires k < |abbrs| && s != "" && Taken(abbrs[k].forms, s + rest) == |s|
    requires forall j :: 0 <= j < k ==> Taken(abbrs[j].forms, s + rest) == 0
    ensures ExpandWith(abbrs, s + rest) == abbrs[k].full + rest
  {
    if k == 0 {
      assert (s + rest)[|s|..] == rest;
    } else {
      assert forall j :: 0 <= j < k ==> abbrs[1..][j] == abbrs[j + 1];
      ExpandsAsEntry(abbrs[1..], k - 1, s, rest);
    }
  }

  lemma FormExpands(abbrs: seq<Abbreviation>, k: nat, m: nat, s: string, rest: string)
    requires WellMade(abbrs) && k < |abbrs| && m < |abbrs[k].forms| && LowerAll(s) == LowerAll(abbrs[k].forms[m])
    requires rest != "" && IsDigit(rest[0])
    ensures ExpandWith(abbrs, s + rest) == abbrs[k].full + rest
  {
    hide Matches, EntryOf, Shaped, LowerAll, IsDigit;
    var g := abbrs[k].forms[m];
    ShapedIsThere(g);
    forall j, i | 0 <= j < |abbrs| && 0 <= i < |abbrs[j].forms| && Matches(abbrs[j].forms[i], s + rest)
      ensures |abbrs[j].forms[i]| == |s| && j == k
    {
      MatchReadsSame(abbrs[j].forms[i], g, s, rest);
      LeadsAlike(abbrs[j].forms[i], g);
    }
    forall j | 0 <= j < k ensures Taken(abbrs[j].forms, s + rest) == 0 {
      NoneTaken(abbrs[j].forms, s + rest);
    }
    OwnTaken(abbrs[k].forms, m, s, rest);
    ExpandsAsEntry(abbrs, k, s, rest);
  }

  lemma ShapedIsThere(form: string)
    requires Shaped(form)
    ensures form != ""
  {
  }

  /** No form of the table hides another: a text that reads as any form, whatever the case, in front of a
      digit, is expanded to the name of the entry that the form is listed in. */
  lemma EveryFormExpands(k: nat, m: nat, s: string, rest: string)
    requires k < |ABBREVIATIONS| && m < |ABBREVIATIONS[k].forms|
    requires LowerAll(s) == LowerAll(ABBREVIATIONS[k].forms[m])
    requires rest != "" && IsDigit(rest[0]) && Trimmed(s + rest)
    ensures Expand(s + rest) == ABBREVIATIONS[k].full + rest
  {
    hide WellMade, Strip, ExpandWith, LowerAll, IsDigit, IsSpace;
    TableIsWellMade();
    StripTrims(s + rest);
    FormExpands(ABBREVIATIONS, k, m, s, rest);
  }

  /** The abbreviations in use, in front of any rest that starts with a digit and ends without a blank. */
  lemma AbbreviationsExpand(rest: string)
    requires rest != "" && IsDigit(rest[0]) && !IsSpace(rest[|rest| - 1])
    ensures Expand("Gi" + rest) == "GigabitEthernet" + rest
    ensures Expand("Te" + rest) == Expand("XGi" + rest) == Expand("10Ge" + rest) == "TenGigabitEthernet" + rest
    ensures Expand("TenGigE" + rest) == "TenGigabitEthernet" + rest
    ensures Expand("Twe" + rest) == Expand("25Ge" + rest) == "TwentyFiveGigE" + rest
    ensures Expand("Fo" + rest) == Expand("40Ge" + rest) == Expand("FortyGigabitEthernet" + rest) == "FortyGigE" + rest
    ensures Expand("Hu" + rest) == Expand("100Ge" + rest) == "HundredGigE" + rest
    ensures Expand("Fa" + rest) == Expand("fe" + rest) == "FastEthernet" + rest
    ensures Expand("Eth" + rest) == Expand("Et" + rest) == Expand("e" + rest) == "Ethernet" + rest
    ensures Expand("Po" + rest) == "Port-channel" + rest
  {
    hide Expand, IsDigit, IsSpace;
    FormIs(0, 1, "Gi", "GigabitEthernet", rest);
    FormIs(1, 1, "TenGigE", "TenGigabitEthernet", rest);
    FormIs(1, 2, "Te", "TenGigabitEthernet", rest);
    FormIs(1, 3, "XGi", "TenGigabitEthernet", rest);
    FormIs(1, 4, "10Ge", "TenGigabitEthernet", rest);
    FormIs(2, 1, "Twe", "TwentyFiveGigE", rest);
    FormIs(2, 2, "25Ge", "TwentyFiveGigE", rest);
    FormIs(3, 0, "FortyGigabitEthernet", "FortyGigE", rest);
    FormIs(3, 2, "Fo", "FortyGigE", rest);
    FormIs(3, 3, "40Ge", "FortyGigE", rest);
    FormIs(4, 1, "Hu", "HundredGigE", rest);
    FormIs(4, 2, "100Ge", "HundredGigE", rest);
    FormIs(5, 1, "Fa", "FastEthernet", rest);
    FormIs(5, 2, "fe", "FastEthernet", rest);
    FormIs(6, 1, "Eth", "Ethernet", rest);
    FormIs(6, 2, "Et", "Ethernet", rest);
    FormIs(6, 3, "e", "Ethernet", rest);
    FormIs(7, 2, "Po", "Port-channel", rest);
  }

  lemma FormIs(k: nat, m: nat, form: string, full: string, rest: string)
    requires k < |ABBREVIATIONS| && m < |ABBREVIATIONS[k].forms|
    requires ABBREVIATIONS[k].forms[m] == form && ABBREVIATIONS[k].full == full
    requires rest != "" && IsDigit(rest[0]) && !IsSpace(rest[|rest| - 1])
    ensures Expand(form + rest) == full + rest
  {
    hide Expand, IsDigit, IsSpace;
    FormNoBlank(k, m);
    assert (form + rest)[0] == form[0] && (form + rest)[|form + rest| - 1] == rest[|rest| - 1];
    EveryFormExpands(k, m, form, rest);
  }
}
