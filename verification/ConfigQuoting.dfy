/** What quotes, brackets and comments mean: any text can be a value once it is quoted, any nested list of
    such texts too, and comments are no part of what is read. */
module ConfigQuoting {
  import opened Common
  import opened ConfigText
  import opened ConfigOrder
  import opened ConfigRoundTrip
  import opened ConfigRewrite

  // ---------------------------------------------------------------- quoted texts

  function Escape(text: string): string {
    if text == [] then []
    else (if text[0] == '"' || text[0] == '\\' then ['\\', text[0]] else [text[0]]) + Escape(text[1..])
  }

  function Quote(text: string): string {
    ['"'] + Escape(text) + ['"']
  }

  /** Scanning the text leads from one mode to the other and finds no comment; brackets outside of quotes
      in it are balanced. */
  ghost predicate Passed(text: string, from: Mode, to: Mode) {
    forall rest: string, depth: nat :: depth > 0 ==> PassedBefore(text, from, to, rest, depth)
  }

  ghost predicate PassedBefore(text: string, from: Mode, to: Mode, rest: string, depth: nat) {
    && (Closes(text + rest, depth, from) <==> Closes(rest, depth, to))
    && CommentAt(text + rest, from) == |text| + CommentAt(rest, to)
  }

  lemma PassedChar(c: char, m: Mode)
    requires m.Plain? ==> c != '#' && c != '[' && c != ']'
    ensures Passed([c], m, Next(m, c))
  {
    forall rest: string, depth: nat | depth > 0 ensures PassedBefore([c], m, Next(m, c), rest, depth) {
      assert ([c] + rest)[1..] == rest;
    }
  }

  lemma PassedEmpty(m: Mode)
    ensures Passed("", m, m)
  {
    forall rest: string, depth: nat | depth > 0 ensures PassedBefore("", m, m, rest, depth) {
      assert "" + rest == rest;
    }
  }

  lemma PassedConcat(a: string, b: string, m1: Mode, m2: Mode, m3: Mode)
    requires Passed(a, m1, m2) && Passed(b, m2, m3)
    ensures Passed(a + b, m1, m3)
  {
    forall rest: string, depth: nat | depth > 0 ensures PassedBefore(a + b, m1, m3, rest, depth) {
      assert PassedBefore(a, m1, m2, b + rest, depth) && PassedBefore(b, m2, m3, rest, depth);
      assert a + b + rest == a + (b + rest);
    }
  }

  lemma {:induction false} PassedEscaped(text: string)
    ensures Passed(Escape(text), Quoted, Quoted)
  {
    if text == [] {
      PassedEmpty(Quoted);
    } else {
      var c := text[0];
      PassedEscaped(text[1..]);
      if c == '"' || c == '\\' {
        PassedChar('\\', Quoted);
        PassedChar(c, Escaped);
        PassedConcat(['\\'], [c], Quoted, Escaped, Quoted);
        assert ['\\', c] == ['\\'] + [c];
        PassedConcat(['\\', c], Escape(text[1..]), Quoted, Quoted, Quoted);
      } else {
        PassedChar(c, Quoted);
        PassedConcat([c], Escape(text[1..]), Quoted, Quoted, Quoted);
      }
    }
  }

  lemma PassedQuoted(text: string)
    ensures Passed(Quote(text), Plain, Plain)
  {
    PassedChar('"', Plain);
    PassedEscaped(text);
    PassedChar('"', Quoted);
    PassedConcat(['"'], Escape(text), Plain, Quoted, Quoted);
    PassedConcat(['"'] + Escape(text), ['"'], Plain, Quoted, Plain);
  }

  lemma PassedIsClean(text: string)
    requires Passed(text, Plain, Plain)
    ensures Clean(text)
  {
    assert PassedBefore(text, Plain, Plain, "", 1);
    assert text + "" == text;
  }

  lemma {:induction false} EscapeAddsNoEndline(text: string)
    requires !HasEndline(text)
    ensures !HasEndline(Escape(text))
  {
    if text == [] {
    } else {
      assert !Endline(text[0]);
      forall i | 0 <= i < |text[1..]| ensures !Endline(text[1..][i]) {
        assert text[1..][i] == text[i + 1];
      }
      EscapeAddsNoEndline(text[1..]);
    }
  }

  /** Any line of text, with whatever '#', quotes, brackets and backslashes in it, is a well-formed value
      once it is quoted; so it is read back as it was written. */
  lemma QuotedIsWellFormed(text: string)
    requires !HasEndline(text)
    ensures WellFormedValue(Quote(text))
  {
    PassedQuoted(text);
    PassedIsClean(Quote(text));
    EscapeAddsNoEndline(text);
  }

  // ---------------------------------------------------------------- lists

  /** A list value: quoted texts and further lists. Each gap is what is written at that one place: commas,
      spaces, line ends, bare words. */
  datatype Tree = Leaf(text: string) | Node(items: seq<Item>, gap: string)

  datatype Item = Item(gap: string, tree: Tree)

  /** Nothing that quotes, comments or brackets. */
  predicate Bare(gap: string) {
    forall i :: 0 <= i < |gap| ==> gap[i] !in "\"#[]"
  }

  predicate BareGaps(t: Tree) {
    t.Node? ==> Bare(t.gap) && forall x :: x in t.items ==> Bare(x.gap) && BareGaps(x.tree)
  }

  function PrintTree(t: Tree): string
    decreases t, 0
  {
    match t
    case Leaf(text) => Quote(text)
    case Node(items, gap) => "[" + (PrintItems(items) + gap) + "]"
  }

  function PrintItems(items: seq<Item>): string
    decreases items, 0
  {
    if items == [] then [] else items[0].gap + PrintTree(items[0].tree) + PrintItems(items[1..])
  }

  lemma {:induction false} PassedBare(gap: string)
    requires Bare(gap)
    ensures Passed(gap, Plain, Plain)
  {
    if gap == [] {
      PassedEmpty(Plain);
    } else {
      PassedChar(gap[0], Plain);
      PassedBare(gap[1..]);
      PassedConcat([gap[0]], gap[1..], Plain, Plain, Plain);
      assert gap == [gap[0]] + gap[1..];
    }
  }

  lemma BracketsPass(body: string, rest: string, depth: nat)
    requires Passed(body, Plain, Plain)
    ensures Closes(body + ("]" + rest), depth + 1, Plain) <==> Closes(rest, depth, Plain)
    ensures CommentAt(body + ("]" + rest), Plain) == |body| + 1 + CommentAt(rest, Plain)
  {
    assert PassedBefore(body, Plain, Plain, "]" + rest, depth + 1);
    assert ("]" + rest)[1..] == rest;
  }

  lemma PassedBrackets(body: string)
    requires Passed(body, Plain, Plain)
    ensures Passed("[" + body + "]", Plain, Plain)
  {
    var all := "[" + body + "]";
    forall rest: string, depth: nat | depth > 0 ensures PassedBefore(all, Plain, Plain, rest, depth) {
      BracketsPass(body, rest, depth);
      assert all + rest == "[" + (body + ("]" + rest));
      assert ("[" + (body + ("]" + rest)))[1..] == body + ("]" + rest);
    }
  }

  lemma {:induction false} PassedItems(items: seq<Item>)
    requires forall x :: x in items ==> Bare(x.gap) && BareGaps(x.tree)
    ensures Passed(PrintItems(items), Plain, Plain)
    decreases items, 0
  {
    if items == [] {
      PassedEmpty(Plain);
    } else {
      assert items[0] in items;
      var gap, first := items[0].gap, PrintTree(items[0].tree);
      PassedBare(gap);
      PassedTree(items[0].tree);
      PassedItems(items[1..]);
      PassedConcat(gap, first, Plain, Plain, Plain);
      PassedConcat(gap + first, PrintItems(items[1..]), Plain, Plain, Plain);
    }
  }

  lemma {:induction false} PassedTree(t: Tree)
    requires BareGaps(t)
    ensures Passed(PrintTree(t), Plain, Plain)
    decreases t, 0
  {
    match t
    case Leaf(text) => PassedQuoted(text);
    case Node(items, gap) =>
      PassedItems(items);
      PassedBare(gap);
      PassedConcat(PrintItems(items), gap, Plain, Plain, Plain);
      PassedBrackets(PrintItems(items) + gap);
  }

  /** Any nested list of quoted texts, on one line or many, is a well-formed value, whatever brackets and
      quotes the texts hold. */
  lemma ListIsWellFormed(t: Tree)
    requires t.Node? && BareGaps(t)
    ensures WellFormedValue(PrintTree(t))
  {
    var body, v := PrintItems(t.items) + t.gap, PrintTree(t);
    PassedTree(t);
    PassedIsClean(v);
    PassedItems(t.items);
    PassedBare(t.gap);
    PassedConcat(PrintItems(t.items), t.gap, Plain, Plain, Plain);
    BracketsPass(body, "", 0);
    assert v[1..] == body + ("]" + "");
  }

  // ---------------------------------------------------------------- comments

  lemma CommentBegins(v: string, comment: string)
    requires Clean(v) && ModeAfter(Plain, v) == Plain
    ensures CommentAt(v + ("#" + comment), Plain) == |v|
  {
    CommentSplit(v, "#" + comment, Plain);
  }

  /** A comment after a value is no part of it. */
  lemma CommentIsDropped(k: string, v: string, comment: string, rest: string)
    requires WellFormedName(k) && WellFormedValue(v) && v[0] != '[' && ModeAfter(Plain, v) == Plain && !HasEndline(comment)
    ensures ParseOption(k + " = " + (v + ("#" + comment)) + "\n" + rest).1 == Some((k, v))
  {
    var whole := v + ("#" + comment);
    var after := whole + ("\n" + rest);
    FirstIndexIs(whole, Endline, |whole|);
    ParsePrintedName(k, whole, rest);
    assert SeenEnd(whole, rest) == |whole| && after[..|whole|] == whole;
    CommentBegins(v, comment);
    StripLine(whole, Plain);
    assert whole[..|v|] == v;
  }

  lemma CommentLineHasNoCode(comment: string)
    ensures Code("#" + comment) == []
  {
    var line := "#" + comment;
    assert CommentAt(line, Plain) == 0 && line[..0] == [];
  }

  lemma CommentLineEnds(line: string, rest: string)
    requires line != [] && !HasEndline(line) && !Whitespace(line[0])
    ensures var t := line + ("\n" + rest);
      && FirstIndex(t, NotWhitespace) == 0 && FirstIndex(t, Endline) == |line| && t[..|line|] == line
      && NextLine(t, |line|) == rest
  {
    var t := line + ("\n" + rest);
    assert t[0] == line[0];
    FirstIndexIs(t, NotWhitespace, 0);
    forall i | 0 <= i < |line| ensures !Endline(t[i]) {
      assert t[i] == line[i];
    }
    FirstIndexIs(t, Endline, |line|);
    assert t[|line| + 1..] == rest;
  }

  lemma CommentLineParsed(line: string, rest: string)
    requires line != [] && !HasEndline(line) && !Whitespace(line[0]) && Code(line) == []
    ensures ParseOption(line + ("\n" + rest)) == (|line|, None)
  {
    var t := line + ("\n" + rest);
    CommentLineEnds(line, rest);
    assert t[0..] == t;
  }

  /** And a line that is a comment is no option. */
  lemma CommentLineIsSkipped(comment: string, rest: string)
    requires !HasEndline(comment)
    ensures Parse(("#" + comment) + ("\n" + rest)) == Parse(rest)
  {
    var line := "#" + comment;
    forall i | 0 <= i < |line| ensures !Endline(line[i]) {
      assert i > 0 ==> line[i] == comment[i - 1];
    }
    CommentLineHasNoCode(comment);
    CommentLineEnds(line, rest);
    CommentLineParsed(line, rest);
  }

  // ---------------------------------------------------------------- what an update does

  /** When the update is read back, it is in force key by key: keys set to nothing or null are gone, other
      updates have their values, untouched keys theirs, and there are no others. */
  lemma UpdateInForce(content: string, updates: map<string, string>, entries: seq<Entry>)
    requires Lists(entries, Edited(Parse(content), updates)) && GoodUpdates(updates)
    requires forall k :: Untouched(k, Parse(content), updates) ==> Rewritable(Parse(content)[k])
    ensures var config, reread := Parse(content), Parse(Print(entries));
      && (forall k :: k in updates ==> if updates[k] == "" || updates[k] == "null" then k !in reread
                                       else k in reread && reread[k] == updates[k])
      && (forall k :: k in config && k !in updates ==> k in reread && reread[k] == config[k])
      && (forall k :: k in reread ==> k in updates || k in config)
  {
    UpdateIsReadBackIff(content, updates, entries);
  }
}
