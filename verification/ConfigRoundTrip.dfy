/** What is printed is read back, and exactly when. */
module ConfigRoundTrip {
  import opened Common
  import opened ConfigText

  predicate HasEndline(s: string) {
    exists i :: 0 <= i < |s| && Endline(s[i])
  }

  /** No '#' outside quotes. */
  predicate Clean(s: string) {
    CommentAt(s, Plain) == |s|
  }

  predicate WellFormedName(k: string) {
    && k != [] && !Whitespace(k[0]) && !SpaceTab(k[|k| - 1])
    && !HasEndline(k) && '=' !in k && Clean(k)
  }

  /** A single line that starts neither with a blank nor with '[', or a bracketed list that ends with
      its matching ']'; without comments either way. */
  predicate WellFormedValue(v: string) {
    && v != [] && Clean(v)
    && if v[0] == '[' then Closes(v[1..], 1, Plain) else !SpaceTab(v[0]) && !HasEndline(v)
  }

  // ---------------------------------------------------------------- the scanners on concatenations

  lemma {:induction false} CommentSplit(a: string, b: string, m: Mode)
    ensures CommentAt(a + b, m) == if CommentAt(a, m) < |a| then CommentAt(a, m) else |a| + CommentAt(b, ModeAfter(m, a))
  {
    if a == [] {
      assert a + b == b;
    } else {
      assert (a + b)[1..] == a[1..] + b;
      CommentSplit(a[1..], b, Next(m, a[0]));
    }
  }

  lemma {:induction false} StripClean(s: string, m: Mode)
    requires CommentAt(s, m) == |s| && !m.InComment?
    ensures Strip(s, m) == s
  {
    if s == [] {
    } else {
      StripClean(s[1..], Next(m, s[0]));
    }
  }

  lemma {:induction false} StripInComment(s: string)
    requires !HasEndline(s)
    ensures Strip(s, InComment) == []
  {
    if s == [] {
    } else {
      assert forall i :: 0 <= i < |s[1..]| ==> s[1..][i] == s[i + 1];
      StripInComment(s[1..]);
    }
  }

  /** On one line, stripping cuts at the comment. */
  lemma {:induction false} StripLine(s: string, m: Mode)
    requires !HasEndline(s) && !m.InComment?
    ensures Strip(s, m) == s[..CommentAt(s, m)]
  {
    if s == [] {
    } else {
      assert forall i :: 0 <= i < |s[1..]| ==> s[1..][i] == s[i + 1];
      if m.Plain? && s[0] == '#' {
        StripInComment(s[1..]);
      } else {
        StripLine(s[1..], Next(m, s[0]));
      }
    }
  }

  lemma {:induction false} CutIsClean(s: string, m: Mode)
    ensures CommentAt(s[..CommentAt(s, m)], m) == CommentAt(s, m)
  {
    var n := CommentAt(s, m);
    if n == 0 {
    } else {
      CutIsClean(s[1..], Next(m, s[0]));
      assert s[..n][1..] == s[1..][..n - 1];
    }
  }

  lemma {:induction false} SkipToClose(s: string, rest: string, depth: nat, m: Mode)
    requires Closes(s, depth, m)
    ensures SkipList(s + rest, depth, m) == |s|
  {
    if depth == 0 {
    } else {
      assert (s + rest)[1..] == s[1..] + rest;
      SkipToClose(s[1..], rest, Deepen(depth, m, s[0]), Next(m, s[0]));
    }
  }

  lemma {:induction false} SkipClosesOrNot(s: string, depth: nat, m: Mode)
    ensures var n := SkipList(s, depth, m);
      Closes(s[..n], depth, m) || (n == |s| && NeverCloses(s, depth, m))
  {
    var n := SkipList(s, depth, m);
    if s == [] || depth == 0 {
    } else {
      SkipClosesOrNot(s[1..], Deepen(depth, m, s[0]), Next(m, s[0]));
      assert s[..n][1..] == s[1..][..n - 1];
    }
  }

  /** A comment counts as plain text once it has been removed. */
  function Uncommented(m: Mode): Mode {
    if m.InComment? then Plain else m
  }

  lemma {:induction false} StripKeepsBrackets(s: string, depth: nat, m: Mode)
    ensures Closes(s, depth, m) ==> Closes(Strip(s, m), depth, Uncommented(m))
    ensures NeverCloses(s, depth, m) ==> NeverCloses(Strip(s, m), depth, Uncommented(m))
    ensures CommentAt(Strip(s, m), Uncommented(m)) == |Strip(s, m)|
  {
    if s == [] {
    } else {
      var stripped := Strip(s, m);
      if depth > 0 {
        StripKeepsBrackets(s[1..], Deepen(depth, m, s[0]), Next(m, s[0]));
      } else {
        StripKeepsBrackets(s[1..], 0, Next(m, s[0]));
      }
      var dropped := (m.Plain? && s[0] == '#') || (m.InComment? && !Endline(s[0]));
      if dropped {
        assert stripped == Strip(s[1..], Next(m, s[0]));
      } else {
        assert stripped[1..] == Strip(s[1..], Next(m, s[0]));
        assert Next(Uncommented(m), s[0]) == Uncommented(Next(m, s[0]));
      }
    }
  }

  lemma FirstIndexIs(s: string, p: char -> bool, i: nat)
    requires i <= |s| && (i < |s| ==> p(s[i])) && forall j :: 0 <= j < i ==> !p(s[j])
    ensures FirstIndex(s, p) == i
  {
    NoneBefore(s, p);
  }

  lemma TrimEndIs(s: string, p: char -> bool, n: nat)
    requires n <= |s| && (n > 0 ==> !p(s[n - 1])) && forall j :: n <= j < |s| ==> p(s[j])
    ensures TrimEnd(s, p) == n
  {
    AllAfter(s, p);
  }

  lemma TrimKeeps(s: string, p: char -> bool, i: nat)
    requires i < |s| && !p(s[i])
    ensures TrimEnd(s, p) > i
  {
    AllAfter(s, p);
  }

  lemma FoundBy(s: string, p: char -> bool, i: nat)
    requires i < |s| && p(s[i])
    ensures FirstIndex(s, p) <= i
  {
    NoneBefore(s, p);
  }

  lemma LineHasNoEndline(t: string)
    ensures !HasEndline(t[..FirstIndex(t, Endline)])
  {
    NoneBefore(t, Endline);
  }

  // ---------------------------------------------------------------- the first line of a printed entry

  /** The first line of a printed entry. */
  function FirstLine(k: string, v: string): string {
    k + " = " + v[..FirstIndex(v, Endline)]
  }

  lemma LineEndsWhereValueDoes(k: string, v: string, rest: string)
    requires WellFormedName(k)
    ensures var t := k + " = " + v + "\n" + rest;
      && FirstIndex(t, NotWhitespace) == 0
      && FirstIndex(t, Endline) == |FirstLine(k, v)|
      && t[..|FirstLine(k, v)|] == FirstLine(k, v)
  {
    var t := k + " = " + v + "\n" + rest;
    var first := FirstIndex(v, Endline);
    assert t[0] == k[0];
    FirstIndexIs(t, NotWhitespace, 0);
    assert forall i :: 0 <= i < |k| ==> t[i] == k[i];
    assert forall i :: 0 <= i < |v| ==> t[|k| + 3 + i] == v[i];
    NoneBefore(v, Endline);
    FirstIndexIs(t, Endline, |k| + 3 + first);
  }

  lemma BlanksThenText(v: string, m: Mode)
    requires !m.InComment?
    ensures CommentAt(" = " + v, m) == 3 + CommentAt(v, ModeAfter(m, " = "))
    ensures !ModeAfter(m, " = ").InComment?
  {
    CommentSplit(" = ", v, m);
    assert " = "[1..] == "= " && "= "[1..] == " " && " "[1..] == "";
    var m1 := Next(m, ' ');
    var m2 := Next(m1, '=');
    assert CommentAt(" ", m2) == 1;
    assert CommentAt("= ", m1) == 2;
    assert ModeAfter(m2, " ") == Next(m2, ' ');
    assert ModeAfter(m1, "= ") == Next(m2, ' ');
  }

  lemma {:induction false} CleanEndsOutsideComment(k: string, m: Mode)
    requires CommentAt(k, m) == |k| && !m.InComment?
    ensures !ModeAfter(m, k).InComment?
  {
    if k == [] {
    } else {
      CleanEndsOutsideComment(k[1..], Next(m, k[0]));
    }
  }

  /** No comment starts before the value. */
  lemma CodeReachesValue(k: string, v: string)
    requires WellFormedName(k)
    ensures var line := FirstLine(k, v);
      && CommentAt(line, Plain) >= |k| + 3
      && |Code(line)| >= |k| + 2
      && (v != [] && !Whitespace(v[0]) && v[0] != '#' ==> |Code(line)| >= |k| + 4)
  {
    var line, shown := FirstLine(k, v), v[..FirstIndex(v, Endline)];
    CommentSplit(k, " = " + shown, Plain);
    CleanEndsOutsideComment(k, Plain);
    BlanksThenText(shown, ModeAfter(Plain, k));
    assert line == k + (" = " + shown);
    var c := CommentAt(line, Plain);
    TrimKeeps(line[..c], Whitespace, |k| + 1);
    if v != [] && !Whitespace(v[0]) && v[0] != '#' {
      assert shown != [] && shown[0] == v[0];
      TrimKeeps(line[..c], Whitespace, |k| + 3);
    }
  }

  /** The name and the start of the value are found where they were printed. */
  lemma NameAndValueFound(k: string, v: string)
    requires WellFormedName(k)
    ensures var line := FirstLine(k, v);
      var code := Code(line);
      && |code| >= |k| + 2 && FirstIndex(code, IsEquals) == |k| + 1
      && TrimEnd(line[..|k| + 1], SpaceTab) == |k| && line[..|k|] == k
      && (|code| > |k| + 3 && !SpaceTab(line[|k| + 3]) ==> ValueStart(code, |k| + 1) == |k| + 3)
  {
    var line := FirstLine(k, v);
    var code := Code(line);
    CodeReachesValue(k, v);
    assert forall i :: 0 <= i < |k| ==> code[i] == k[i];
    FirstIndexIs(code, IsEquals, |k| + 1);
    assert line[..|k| + 1] == k + " ";
    TrimEndIs(line[..|k| + 1], SpaceTab, |k|);
    if |code| > |k| + 3 && !SpaceTab(line[|k| + 3]) {
      assert code[|k| + 2..][0] == ' ' && code[|k| + 2..][1] == line[|k| + 3];
      FirstIndexIs(code[|k| + 2..], NotSpaceTab, 1);
    }
  }

  /** How far a printed value extends as the parser sees it. */
  function SeenEnd(v: string, rest: string): nat
    requires v != []
  {
    if v[0] == '[' then 1 + SkipList(v[1..] + ("\n" + rest), 1, Plain) else FirstIndex(v, Endline)
  }

  lemma ValueSeen(k: string, v: string, rest: string)
    requires WellFormedName(k) && v != [] && !Whitespace(v[0])
    ensures var t, value := k + " = " + v + "\n" + rest, |k| + 3;
      && FirstIndex(t, Endline) >= value
      && SeenEnd(v, rest) <= |v + ("\n" + rest)|
      && ValueEnd(t, value) == value + SeenEnd(v, rest)
      && t[value..ValueEnd(t, value)] == (v + ("\n" + rest))[..SeenEnd(v, rest)]
  {
    var t := k + " = " + v + "\n" + rest;
    LineEndsWhereValueDoes(k, v, rest);
    assert t == (k + " = ") + (v + ("\n" + rest));
    assert t[|k| + 4..] == v[1..] + ("\n" + rest);
  }

  /** A printed entry with a sound name is parsed under that name, with the value as far as it is seen. */
  lemma ParsePrintedName(k: string, v: string, rest: string)
    requires WellFormedName(k) && v != [] && !Whitespace(v[0]) && v[0] != '#'
    ensures SeenEnd(v, rest) <= |v + ("\n" + rest)|
    ensures ParseOption(k + " = " + v + "\n" + rest) ==
            (|k| + 3 + SeenEnd(v, rest), Some((k, Strip((v + ("\n" + rest))[..SeenEnd(v, rest)], Plain))))
  {
    var t := k + " = " + v + "\n" + rest;
    var line := FirstLine(k, v);
    LineEndsWhereValueDoes(k, v, rest);
    CodeReachesValue(k, v);
    assert line[|k| + 3] == v[0];
    NameAndValueFound(k, v);
    StripClean(k, Plain);
    ValueSeen(k, v, rest);
    assert t[0..] == t;
  }

  lemma WholeValueSeen(v: string, rest: string)
    requires WellFormedValue(v)
    ensures SeenEnd(v, rest) == |v|
    ensures Strip((v + ("\n" + rest))[..SeenEnd(v, rest)], Plain) == v
    ensures v[0] != '#' && !Whitespace(v[0])
  {
    if v[0] == '[' {
      SkipToClose(v[1..], "\n" + rest, 1, Plain);
    } else {
      FirstIndexIs(v, Endline, |v|);
    }
    assert (v + ("\n" + rest))[..|v|] == v;
    StripClean(v, Plain);
  }

  /** A printed well-formed entry is parsed as itself, whatever follows it. */
  lemma ParsePrinted(k: string, v: string, rest: string)
    requires WellFormedName(k) && WellFormedValue(v)
    ensures ParseOption(k + " = " + v + "\n" + rest) == (|k| + 3 + |v|, Some((k, v)))
  {
    WholeValueSeen(v, rest);
    ParsePrintedName(k, v, rest);
  }

  // ---------------------------------------------------------------- whole files

  ghost function Printed(entries: seq<Entry>): map<string, string> {
    if entries == [] then map[]
    else
      var rest := Printed(entries[1..]);
      if Blankish(entries[0].1) then rest else rest[entries[0].0 := entries[0].1]
  }

  ghost predicate WellFormed(entries: seq<Entry>) {
    forall i :: 0 <= i < |entries| ==>
      Blankish(entries[i].1) || (WellFormedName(entries[i].0) && WellFormedValue(entries[i].1))
  }

  lemma PrintedEntryThenRest(k: string, v: string, rest: string)
    requires WellFormedName(k) && WellFormedValue(v)
    ensures Parse(PrintEntry(k, v) + rest) == Parse(rest)[k := v]
  {
    var t := k + " = " + v + "\n" + rest;
    var endl := |k| + 3 + |v|;
    ParsePrinted(k, v, rest);
    assert t == PrintEntry(k, v) + rest;
    assert t[endl] == '\n' && t[endl + 1..] == rest;
    assert NextLine(t, endl) == rest;
  }

  /** Every file of well-formed entries, in any order, is read back as printed. */
  lemma {:induction false} PrintedFileIsReadBack(entries: seq<Entry>)
    requires WellFormed(entries)
    ensures Parse(Print(entries)) == Printed(entries)
  {
    if entries == [] {
    } else {
      var k, v, rest := entries[0].0, entries[0].1, Print(entries[1..]);
      PrintedFileIsReadBack(entries[1..]);
      if Blankish(v) {
        assert Print(entries) == rest;
      } else {
        PrintedEntryThenRest(k, v, rest);
      }
    }
  }

  // ---------------------------------------------------------------- what parsing can yield

  /** Nothing but spaces and tabs. */
  predicate Blank(v: string) {
    forall i :: 0 <= i < |v| ==> SpaceTab(v[i])
  }

  predicate Unclosed(v: string) {
    v != [] && v[0] == '[' && NeverCloses(v[1..], 1, Plain)
  }

  lemma StripFirst(s: string)
    requires s != [] && s[0] != '#'
    ensures Strip(s, Plain) == [s[0]] + Strip(s[1..], Next(Plain, s[0]))
  {
  }

  lemma {:induction false} StripBlank(s: string, n: nat)
    requires n <= |s| && (forall i :: 0 <= i < n ==> SpaceTab(s[i])) && (n < |s| ==> s[n] == '#')
    ensures CommentAt(s, Plain) == n
  {
    if n == 0 {
    } else {
      StripBlank(s[1..], n - 1);
    }
  }

  lemma NameKeepsLine(line: string, eq: nat)
    requires line != [] && !Whitespace(line[0]) && !HasEndline(line)
    requires eq == FirstIndex(Code(line), IsEquals) && 0 < eq < |Code(line)|
    ensures var n := TrimEnd(line[..eq], SpaceTab);
      0 < n <= eq && !SpaceTab(line[n - 1]) && !HasEndline(line[..n]) && '=' !in line[..n]
  {
    var code, n := Code(line), TrimEnd(line[..eq], SpaceTab);
    assert line[..eq][0] == line[0];
    TrimKeeps(line[..eq], SpaceTab, 0);
    assert line[..eq][n - 1] == line[n - 1];
    NoneBefore(code, IsEquals);
    assert forall i :: 0 <= i < n ==> line[..n][i] == code[i] && line[..n][i] == line[i];
  }

  lemma NameIsWellFormed(line: string, eq: nat)
    requires line != [] && !Whitespace(line[0]) && !HasEndline(line)
    requires eq == FirstIndex(Code(line), IsEquals) && 0 < eq < |Code(line)|
    ensures var name := line[..TrimEnd(line[..eq], SpaceTab)];
      WellFormedName(name) && Strip(name, Plain) == name
  {
    var n := TrimEnd(line[..eq], SpaceTab);
    NameKeepsLine(line, eq);
    PrefixIsClean(line, n, Plain);
    StripClean(line[..n], Plain);
  }

  /** Every name the parser yields is well formed. */
  lemma ParsedName(t: string)
    requires ParseOption(t).1.Some?
    ensures WellFormedName(ParseOption(t).1.value.0)
  {
    var here := t[FirstIndex(t, NotWhitespace)..];
    var line := here[..FirstIndex(here, Endline)];
    LineHasNoEndline(here);
    NameIsWellFormed(line, FirstIndex(Code(line), IsEquals));
  }

  lemma {:induction false} PrefixIsClean(s: string, n: nat, m: Mode)
    requires n <= CommentAt(s, m)
    ensures CommentAt(s[..n], m) == n
  {
    if n == 0 {
    } else {
      PrefixIsClean(s[1..], n - 1, Next(m, s[0]));
      assert s[..n][1..] == s[1..][..n - 1];
    }
  }

  lemma ListValue(after: string)
    ensures var v := Strip(['['] + after[..SkipList(after, 1, Plain)], Plain);
      v != [] && v[0] == '[' && Clean(v) && (Closes(v[1..], 1, Plain) || NeverCloses(v[1..], 1, Plain))
  {
    var raw := after[..SkipList(after, 1, Plain)];
    StripFirst(['['] + raw);
    assert (['['] + raw)[1..] == raw;
    var v := Strip(['['] + raw, Plain);
    assert v[1..] == Strip(raw, Plain);
    SkipClosesOrNot(after, 1, Plain);
    assert after[..|after|] == after;
    StripKeepsBrackets(raw, 1, Plain);
  }

  /** Between the code and the comment there are only blanks. */
  lemma TrimmedTailIsBlank(line: string)
    requires !HasEndline(line)
    ensures var raw, n := line[|Code(line)|..], CommentAt(line, Plain) - |Code(line)|;
      && 0 <= n <= |raw| && (forall i :: 0 <= i < n ==> SpaceTab(raw[i])) && (n < |raw| ==> raw[n] == '#')
  {
    var comment := CommentAt(line, Plain);
    CommentIsHash(line, Plain);
    AllAfter(line[..comment], Whitespace);
    assert forall i :: |Code(line)| <= i < comment ==> Whitespace(line[..comment][i]) && !Endline(line[i]);
  }

  lemma LineValue(line: string, value: nat)
    requires !HasEndline(line) && value <= |Code(line)| && value < |line| && line[value] != '['
    requires value < |Code(line)| ==> !SpaceTab(line[value])
    ensures var v := Strip(line[value..], Plain); WellFormedValue(v) || Blank(v)
  {
    var raw := line[value..];
    assert forall i :: 0 <= i < |raw| ==> raw[i] == line[value + i];
    StripLine(raw, Plain);
    CutIsClean(raw, Plain);
    if value == |Code(line)| {
      TrimmedTailIsBlank(line);
      StripBlank(raw, CommentAt(line, Plain) - value);
    }
  }

  lemma {:induction false} CommentIsHash(s: string, m: Mode)
    ensures CommentAt(s, m) < |s| ==> s[CommentAt(s, m)] == '#'
  {
    if s == [] || CommentAt(s, m) == 0 {
    } else {
      CommentIsHash(s[1..], Next(m, s[0]));
    }
  }

  /** Clean, and well formed unless it is blank or a list that never closes. */
  predicate Parsable(v: string) {
    Clean(v) && (WellFormedValue(v) || Blank(v) || Unclosed(v))
  }

  lemma ParsedList(t: string, value: nat)
    requires value < |t| && value <= FirstIndex(t, Endline) && t[value] == '['
    ensures Parsable(Strip(t[value..ValueEnd(t, value)], Plain))
  {
    var after := t[value + 1..];
    ListValue(after);
    assert t[value..ValueEnd(t, value)] == ['['] + after[..SkipList(after, 1, Plain)];
  }

  lemma ParsedLine(t: string, value: nat)
    requires value < FirstIndex(t, Endline) && t[value] != '['
    requires var line := t[..FirstIndex(t, Endline)];
      value <= |Code(line)| && (value < |Code(line)| ==> !SpaceTab(line[value]))
    ensures Parsable(Strip(t[value..ValueEnd(t, value)], Plain))
  {
    var line := t[..FirstIndex(t, Endline)];
    assert t[value..ValueEnd(t, value)] == line[value..];
    LineHasNoEndline(t);
    LineValue(line, value);
    StripKeepsBrackets(line[value..], 0, Plain);
  }

  lemma ParsedValueHere(t: string)
    requires ParseHere(t).1.Some?
    ensures Parsable(ParseHere(t).1.value.1)
  {
    var code := Code(t[..FirstIndex(t, Endline)]);
    var value := ValueStart(code, FirstIndex(code, IsEquals));
    if t[value] == '[' {
      ParsedList(t, value);
    } else {
      ParsedLine(t, value);
    }
  }

  /** Every value the parser yields is well formed, unless it is blank or a list that never closes. */
  lemma ParsedValue(t: string)
    requires ParseOption(t).1.Some?
    ensures Parsable(ParseOption(t).1.value.1)
  {
    ParsedValueHere(t[FirstIndex(t, NotWhitespace)..]);
  }

  lemma {:induction false} ParsedFile(t: string)
    ensures forall k :: k in Parse(t) ==> WellFormedName(k)
    ensures forall k :: k in Parse(t) ==> Parsable(Parse(t)[k])
    decreases |t|
  {
    if t == [] {
    } else {
      var (endl, option) := ParseOption(t);
      ParsedFile(NextLine(t, endl));
      if option.Some? {
        ParsedName(t);
        ParsedValue(t);
      }
    }
  }

  // ---------------------------------------------------------------- exactly the well-formed entries survive

  lemma CodeOfBlankValue(k: string, v: string)
    requires WellFormedName(k) && Blank(v)
    ensures FirstLine(k, v) == k + " = " + v
    ensures |Code(FirstLine(k, v))| == |k| + 2
  {
    var line := FirstLine(k, v);
    FirstIndexIs(v, Endline, |v|);
    assert v[..|v|] == v;
    CodeReachesValue(k, v);
    var comment := CommentAt(line, Plain);
    var n := TrimEnd(line[..comment], Whitespace);
    assert forall i :: |k| + 2 <= i < |line| ==> Whitespace(line[i]);
    assert !Whitespace(line[n - 1]);
  }

  lemma StripBlankValue(v: string)
    requires Blank(v)
    ensures Strip(" " + v, Plain) == " " + v
  {
    StripBlank(" " + v, |v| + 1);
    StripClean(" " + v, Plain);
  }

  /** A blank value gains a space each time it is printed and read back. */
  lemma BlankValueGrows(k: string, v: string, rest: string)
    requires WellFormedName(k) && Blank(v)
    ensures ParseOption(k + " = " + v + "\n" + rest) == (|k| + 3 + |v|, Some((k, " " + v)))
  {
    var t := k + " = " + v + "\n" + rest;
    var line := FirstLine(k, v);
    CodeOfBlankValue(k, v);
    LineEndsWhereValueDoes(k, v, rest);
    NameAndValueFound(k, v);
    assert Code(line)[|k| + 2..] == [];
    assert ValueStart(Code(line), |k| + 1) == |k| + 2;
    assert t[0..] == t;
    assert t[|k| + 2] == ' ' && t[|k| + 2..|line|] == " " + v;
    StripClean(k, Plain);
    StripBlankValue(v);
  }

  lemma {:induction false} SkipNeverClosing(s: string, depth: nat, m: Mode)
    requires NeverCloses(s, depth, m)
    ensures SkipList(s + "\n", depth, m) == |s| + 1
  {
    if s == [] {
      assert s + "\n" == "\n";
    } else {
      assert (s + "\n")[1..] == s[1..] + "\n";
      SkipNeverClosing(s[1..], Deepen(depth, m, s[0]), Next(m, s[0]));
    }
  }

  lemma LineEndStaysClean(v: string)
    requires Clean(v)
    ensures Strip(v + "\n", Plain) == v + "\n"
  {
    CommentSplit(v, "\n", Plain);
    CleanEndsOutsideComment(v, Plain);
    assert CommentAt("\n", ModeAfter(Plain, v)) == 1;
    StripClean(v + "\n", Plain);
  }

  lemma UnclosedListSeen(v: string)
    requires Unclosed(v)
    ensures SeenEnd(v, "") == |v| + 1 && (v + ("\n" + ""))[..|v| + 1] == v + "\n"
  {
    assert "\n" + "" == "\n";
    SkipNeverClosing(v[1..], 1, Plain);
  }

  /** An unclosed list at the end of a file gains a line end. */
  lemma UnclosedListGrows(k: string, v: string)
    requires WellFormedName(k) && Unclosed(v) && Clean(v)
    ensures ParseOption(PrintEntry(k, v)).1 == Some((k, v + "\n"))
  {
    assert k + " = " + v + "\n" + "" == PrintEntry(k, v);
    UnclosedListSeen(v);
    LineEndStaysClean(v);
    ParsePrintedName(k, v, "");
  }

  lemma ValueStartsOnLine(k: string, v: string)
    requires WellFormedName(k)
    ensures FirstIndex(Code(FirstLine(k, v)), IsEquals) == |k| + 1 < |Code(FirstLine(k, v))|
    ensures ValueStart(Code(FirstLine(k, v)), |k| + 1) < |FirstLine(k, v)|
  {
    var line := FirstLine(k, v);
    var code := Code(line);
    CodeReachesValue(k, v);
    NameAndValueFound(k, v);
    assert !Whitespace(line[..CommentAt(line, Plain)][|code| - 1]);
    var blanks := code[|k| + 2..];
    if |code| > |k| + 2 {
      FoundBy(blanks, NotSpaceTab, |blanks| - 1);
    }
  }

  lemma PrintedIsSomeOption(k: string, v: string)
    requires WellFormedName(k)
    ensures ParseOption(PrintEntry(k, v)).1.Some?
  {
    var t := k + " = " + v + "\n" + "";
    assert t == PrintEntry(k, v);
    LineEndsWhereValueDoes(k, v, "");
    ValueStartsOnLine(k, v);
    assert t[0..] == t;
    assert t[|t| - 1] == '\n';
  }

  /** A printed entry is read back as itself if and only if its name and value are well formed. */
  lemma EntryRoundTrips(k: string, v: string)
    requires v != ""
    ensures Parse(PrintEntry(k, v)) == map[k := v] <==> WellFormedName(k) && WellFormedValue(v)
  {
    var t := PrintEntry(k, v);
    assert t == k + " = " + v + "\n" + "";
    if WellFormedName(k) && WellFormedValue(v) {
      ParsePrinted(k, v, "");
      assert NextLine(t, |k| + 3 + |v|) == [];
    }
    if Parse(t) == map[k := v] {
      assert k in Parse(t);
      ParsedFile(t);
      PrintedIsSomeOption(k, v);
      var option := ParseOption(t).1;
      assert option.value.0 in Parse(t) && option.value == (k, v);
      ParsedValue(t);
      if Blank(v) {
        BlankValueGrows(k, v, "");
      } else if Unclosed(v) {
        UnclosedListGrows(k, v);
      }
    }
  }
}
