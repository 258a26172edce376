/** The configuration text: the scanners of the parser, as functions of the text they scan. */
module ConfigText {
  import opened Common

  predicate Endline(c: char) {
    c == '\r' || c == '\n'
  }

  predicate SpaceTab(c: char) {
    c == ' ' || c == '\t'
  }

  predicate Whitespace(c: char) {
    SpaceTab(c) || Endline(c)
  }

  predicate NotWhitespace(c: char) {
    !Whitespace(c)
  }

  predicate NotSpaceTab(c: char) {
    !SpaceTab(c)
  }

  predicate IsEquals(c: char) {
    c == '='
  }

  // ---------------------------------------------------------------- std::find_if and friends

  function FirstIndex(s: string, p: char -> bool): (i: nat)
    ensures i <= |s| && (i < |s| ==> p(s[i]))
  {
    if s == [] || p(s[0]) then 0 else 1 + FirstIndex(s[1..], p)
  }

  /** Where the trailing characters satisfying `p` begin. */
  function TrimEnd(s: string, p: char -> bool): (n: nat)
    ensures n <= |s| && (n > 0 ==> !p(s[n - 1]))
  {
    if s == [] || !p(s[|s| - 1]) then |s| else TrimEnd(s[..|s| - 1], p)
  }

  lemma {:induction false} NoneBefore(s: string, p: char -> bool)
    ensures forall j :: 0 <= j < FirstIndex(s, p) ==> !p(s[j])
  {
    if s == [] || p(s[0]) {
    } else {
      NoneBefore(s[1..], p);
      assert forall j :: 0 < j < |s| ==> s[j] == s[1..][j - 1];
    }
  }

  lemma {:induction false} AllAfter(s: string, p: char -> bool)
    ensures forall j :: TrimEnd(s, p) <= j < |s| ==> p(s[j])
  {
    if s == [] || !p(s[|s| - 1]) {
    } else {
      AllAfter(s[..|s| - 1], p);
      assert forall j :: 0 <= j < |s| - 1 ==> s[j] == s[..|s| - 1][j];
    }
  }

  // ---------------------------------------------------------------- quotes, comments, brackets

  datatype Mode = Plain | Quoted | Escaped | InComment

  function Next(m: Mode, c: char): Mode {
    match m
    case Plain => if c == '"' then Quoted else if c == '#' then InComment else Plain
    case Quoted => if c == '\\' then Escaped else if c == '"' then Plain else Quoted
    case Escaped => Quoted
    case InComment => if Endline(c) then Plain else InComment
  }

  function Deepen(depth: nat, m: Mode, c: char): nat
    requires depth > 0
  {
    if m.Plain? && c == '[' then depth + 1 else if m.Plain? && c == ']' then depth - 1 else depth
  }

  function ModeAfter(m: Mode, s: string): Mode
    decreases s
  {
    if s == [] then m else ModeAfter(Next(m, s[0]), s[1..])
  }

  /** Where the first '#' outside quotes stands. */
  function CommentAt(s: string, m: Mode): (i: nat)
    ensures i <= |s|
  {
    if s == [] || (m.Plain? && s[0] == '#') then 0 else 1 + CommentAt(s[1..], Next(m, s[0]))
  }

  /** The text without its comments; the line ends stay. */
  function Strip(s: string, m: Mode): string {
    if s == [] then []
    else
      var dropped := (m.Plain? && s[0] == '#') || (m.InComment? && !Endline(s[0]));
      (if dropped then [] else [s[0]]) + Strip(s[1..], Next(m, s[0]))
  }

  /** How far a list goes: just past the ']' that brings the depth to 0, or to the end. */
  function SkipList(s: string, depth: nat, m: Mode): (n: nat)
    ensures n <= |s|
  {
    if s == [] || depth == 0 then 0 else 1 + SkipList(s[1..], Deepen(depth, m, s[0]), Next(m, s[0]))
  }

  /** The depth becomes 0 exactly at the end. */
  predicate Closes(s: string, depth: nat, m: Mode) {
    if depth == 0 then s == []
    else s != [] && Closes(s[1..], Deepen(depth, m, s[0]), Next(m, s[0]))
  }

  /** The depth never becomes 0. */
  predicate NeverCloses(s: string, depth: nat, m: Mode) {
    depth > 0 && (s != [] ==> NeverCloses(s[1..], Deepen(depth, m, s[0]), Next(m, s[0])))
  }

  // ---------------------------------------------------------------- parsing

  type Entry = (string, string)

  /** The line up to a comment, less trailing blanks. */
  function Code(line: string): string {
    line[..TrimEnd(line[..CommentAt(line, Plain)], Whitespace)]
  }

  function ValueStart(code: string, eq: nat): (n: nat)
    requires eq < |code|
    ensures eq < n <= |code|
  {
    eq + 1 + FirstIndex(code[eq + 1..], NotSpaceTab)
  }

  /** Where a value starting at `value` on the first line of `t` ends: a list may run over several lines. */
  function ValueEnd(t: string, value: nat): (n: nat)
    requires value < |t| && value <= FirstIndex(t, Endline)
    ensures value <= n <= |t|
  {
    if t[value] == '[' then value + 1 + SkipList(t[value + 1..], 1, Plain) else FirstIndex(t, Endline)
  }

  /** parse_option on a text that starts with the option. */
  function ParseHere(t: string): (r: (nat, Option<Entry>))
    ensures r.0 <= |t|
  {
    var endl := FirstIndex(t, Endline);
    var line := t[..endl];
    var code := Code(line);
    var eq := FirstIndex(code, IsEquals);
    if eq == |code| || eq == 0 then (endl, None)
    else
      var name := line[..TrimEnd(line[..eq], SpaceTab)];
      var value := ValueStart(code, eq);
      if value == |line| then (endl, None)
      else if t[value] == '[' && value + 1 == |t| then (|t|, None)
      else
        var end := ValueEnd(t, value);
        (end, Some((Strip(name, Plain), Strip(t[value..end], Plain))))
  }

  /** One option, or none, and how far it extends. */
  function ParseOption(t: string): (r: (nat, Option<Entry>))
    ensures r.0 <= |t|
  {
    var begin := FirstIndex(t, NotWhitespace);
    var (end, option) := ParseHere(t[begin..]);
    (begin + end, option)
  }

  /** What follows the line end at which an option stops. */
  function NextLine(t: string, endl: nat): string
    requires endl <= |t|
  {
    var next := if endl == |t| then endl else if t[endl] == '\r' then endl + 2 else endl + 1;
    if next < |t| then t[next..] else []
  }

  /** The first occurrence of a name wins. */
  function Parse(t: string): map<string, string>
    decreases |t|
  {
    if t == [] then map[]
    else
      var (endl, option) := ParseOption(t);
      var rest := Parse(NextLine(t, endl));
      if option.Some? then rest[option.value.0 := option.value.1] else rest
  }

  // ---------------------------------------------------------------- printing and editing

  function PrintEntry(name: string, value: string): string {
    name + " = " + value + "\n"
  }

  predicate Blankish(value: string) {
    value == "" || value == "null"
  }

  function Print(entries: seq<Entry>): string {
    if entries == [] then []
    else
      (if Blankish(entries[0].1) then [] else PrintEntry(entries[0].0, entries[0].1)) + Print(entries[1..])
  }

  function Edited(config: map<string, string>, updates: map<string, string>): map<string, string> {
    (config - updates.Keys) + map k | k in updates && !Blankish(updates[k]) :: updates[k]
  }
}
