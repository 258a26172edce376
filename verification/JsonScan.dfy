/** The scanner that cuts the first JSON object out of a model's chatter. */
module JsonScan {
  import opened Common

  // ---------------------------------------------------------------- the scanner

  datatype StringMode = Outside | Inside | Escaped

  function NextMode(m: StringMode, c: char): StringMode {
    match m
    case Outside => if c == '"' then Inside else Outside
    case Inside => if c == '\\' then Escaped else if c == '"' then Outside else Inside
    case Escaped => Inside
  }

  function NextDepth(depth: nat, m: StringMode, c: char): nat
    requires depth > 0
  {
    if m.Outside? && c == '{' then depth + 1 else if m.Outside? && c == '}' then depth - 1 else depth
  }

  /** How many characters it takes until the depth is 0, if it ever is. */
  function ObjectEnd(s: string, depth: nat, m: StringMode): (n: Option<nat>)
    ensures n.Some? ==> n.value <= |s|
  {
    if depth == 0 then Some(0)
    else if s == [] then None
    else Shifted(ObjectEnd(s[1..], NextDepth(depth, m, s[0]), NextMode(m, s[0])), 1)
  }

  function Shifted(n: Option<nat>, shift: nat): Option<nat> {
    match n
    case None => None
    case Some(k) => Some(k + shift)
  }

  function FirstBrace(s: string): (i: nat)
    ensures i <= |s|
  {
    if s == [] || s[0] == '{' then 0 else 1 + FirstBrace(s[1..])
  }

  /** The text from the first '{' to the '}' that closes it, or nothing. */
  function Extract(text: string): string {
    var start := FirstBrace(text);
    if start == |text| then ""
    else
      match ObjectEnd(text[start + 1..], 1, Outside)
      case None => ""
      case Some(n) => text[start..start + 1 + n]
  }

  function ModeOf(inString: bool, escaped: bool): StringMode {
    if escaped then Escaped else if inString then Inside else Outside
  }

  /** The object starts at the first brace, and what is left of it is what remains to be scanned. */
  ghost predicate InObject(text: string, start: nat, i: nat, depth: nat, m: StringMode) {
    && start == FirstBrace(text) < i <= |text|
    && ObjectEnd(text[start + 1..], 1, Outside) == Shifted(ObjectEnd(text[i..], depth, m), i - start - 1)
  }

  lemma ScanOneChar(text: string, start: nat, i: nat, depth: nat, m: StringMode)
    requires i < |text| && depth > 0 && InObject(text, start, i, depth, m)
    ensures InObject(text, start, i + 1, NextDepth(depth, m, text[i]), NextMode(m, text[i]))
  {
    assert text[i..][1..] == text[i + 1..];
  }

  lemma ObjectCloses(text: string, start: nat, i: nat, m: StringMode)
    requires InObject(text, start, i, 0, m)
    ensures Extract(text) == text[start..i]
  {
  }

  lemma ObjectNeverCloses(text: string, start: nat, depth: nat, m: StringMode)
    requires depth > 0 && InObject(text, start, |text|, depth, m)
    ensures Extract(text) == ""
  {
    assert text[|text|..] == [];
  }

  lemma SeekOneChar(text: string, i: nat)
    requires i < |text|
    ensures FirstBrace(text[i..]) == if text[i] == '{' then 0 else 1 + FirstBrace(text[i + 1..])
  {
    assert text[i..][1..] == text[i + 1..];
  }

  method ExtractFirstJsonObject(text: string) returns (found: string)
    ensures found == Extract(text)
  {
    var start: Option<nat> := None;
    var depth := 0;
    var inString, escaped := false, false;
    var i := 0;
    assert text[0..] == text;
    while i < |text|
      invariant 0 <= i <= |text| && (escaped ==> inString)
      invariant start.None? ==> i + FirstBrace(text[i..]) == FirstBrace(text)
      invariant start.Some? ==> depth > 0 && InObject(text, start.value, i, depth, ModeOf(inString, escaped))
    {
      var ch := text[i];
      if start.None? {
        SeekOneChar(text, i);
        if ch == '{' {
          start := Some(i);
          depth := 1;
          inString, escaped := false, false;
        }
        i := i + 1;
        continue;
      }
      ScanOneChar(text, start.value, i, depth, ModeOf(inString, escaped));
      i := i + 1;
      if inString {
        if escaped {
          escaped := false;
        } else if ch == '\\' {
          escaped := true;
        } else if ch == '"' {
          inString := false;
        }
        continue;
      }
      if ch == '"' {
        inString := true;
      } else if ch == '{' {
        depth := depth + 1;
      } else if ch == '}' {
        depth := depth - 1;
        if depth == 0 {
          ObjectCloses(text, start.value, i, Outside);
          return text[start.value..i];
        }
      }
    }
    if start.Some? {
      ObjectNeverCloses(text, start.value, depth, ModeOf(inString, escaped));
    }
    return "";
  }

  // ---------------------------------------------------------------- JSON texts

  /** One piece of a string as it may be written: section 7 of RFC 8259. */
  datatype Piece = Raw(c: char) | Short(c: char) | Unicode(hex: string)

  predicate WellFormedPiece(p: Piece) {
    match p
    case Raw(c) => c != '"' && c != '\\' && c >= ' '
    case Short(c) => c in "\"\\/bfnrt"
    case Unicode(hex) => |hex| == 4 && forall i :: 0 <= i < 4 ==> hex[i] in "0123456789abcdefABCDEF"
  }

  /** A JSON text. Each gap, each `before` and each `after` is the white space written at that one place. */
  datatype Json =
    | Literal(text: string)  // null, true, false or a number
    | Str(pieces: seq<Piece>)
    | Arr(gap: string, items: seq<Spaced>)
    | Obj(gap: string, members: seq<Member>)

  datatype Spaced = Spaced(before: string, value: Json, after: string)

  datatype Member = Member(before: string, name: seq<Piece>, after: string, value: Spaced)

  predicate WellFormedString(pieces: seq<Piece>) {
    forall i :: 0 <= i < |pieces| ==> WellFormedPiece(pieces[i])
  }

  /** No bracket, brace, quote or backslash. */
  predicate PlainText(s: string) {
    forall i :: 0 <= i < |s| ==> s[i] !in "\"\\{}[]"
  }

  /** White space is plain text; that is all the scanner needs of it. */
  predicate WellFormed(j: Json)
    decreases j, 0
  {
    match j
    case Literal(text) => PlainText(text)
    case Str(pieces) => WellFormedString(pieces)
    case Arr(gap, items) => PlainText(gap) && forall k :: k in items ==> WellFormedSpaced(k)
    case Obj(gap, members) => PlainText(gap) && forall m :: m in members ==> WellFormedMember(m)
  }

  predicate WellFormedSpaced(s: Spaced)
    decreases s, 0
  {
    PlainText(s.before) && WellFormed(s.value) && PlainText(s.after)
  }

  predicate WellFormedMember(m: Member)
    decreases m, 0
  {
    PlainText(m.before) && WellFormedString(m.name) && PlainText(m.after) && WellFormedSpaced(m.value)
  }

  function PrintPiece(p: Piece): string {
    match p
    case Raw(c) => [c]
    case Short(c) => ['\\', c]
    case Unicode(hex) => "\\u" + hex
  }

  function PrintPieces(pieces: seq<Piece>): string {
    if pieces == [] then "" else PrintPiece(pieces[0]) + PrintPieces(pieces[1..])
  }

  function PrintString(pieces: seq<Piece>): string {
    "\"" + PrintPieces(pieces) + "\""
  }

  function Print(j: Json): string
    decreases j, 0
  {
    match j
    case Literal(text) => text
    case Str(pieces) => PrintString(pieces)
    case Arr(gap, items) => "[" + gap + PrintItems(items) + "]"
    case Obj(gap, members) => "{" + gap + PrintMembers(members) + "}"
  }

  function PrintSpaced(s: Spaced): string
    decreases s, 0
  {
    s.before + Print(s.value) + s.after
  }

  function PrintItems(items: seq<Spaced>): string
    decreases items, 0
  {
    if items == [] then ""
    else PrintSpaced(items[0]) + (if |items| > 1 then "," else "") + PrintItems(items[1..])
  }

  function PrintMember(m: Member): string
    decreases m, 0
  {
    m.before + PrintString(m.name) + m.after + ":" + PrintSpaced(m.value)
  }

  function PrintMembers(members: seq<Member>): string
    decreases members, 0
  {
    if members == [] then ""
    else PrintMember(members[0]) + (if |members| > 1 then "," else "") + PrintMembers(members[1..])
  }

  // ---------------------------------------------------------------- what the scanner passes over

  /** Before this rest and at this depth, scanning the text only leads from one mode to the other. */
  ghost predicate Passes(text: string, from: StringMode, to: StringMode, rest: string, depth: nat) {
    ObjectEnd(text + rest, depth, from) == Shifted(ObjectEnd(rest, depth, to), |text|)
  }

  /** Scanning the text from this mode ends in that one, at the depth it started from. */
  ghost predicate Neutral(text: string, from: StringMode, to: StringMode) {
    forall rest: string, depth: nat :: depth > 0 ==> Passes(text, from, to, rest, depth)
  }

  lemma NeutralConcat(a: string, b: string, m1: StringMode, m2: StringMode, m3: StringMode)
    requires Neutral(a, m1, m2) && Neutral(b, m2, m3)
    ensures Neutral(a + b, m1, m3)
  {
    forall rest: string, depth: nat | depth > 0 ensures Passes(a + b, m1, m3, rest, depth) {
      assert Passes(a, m1, m2, b + rest, depth) && Passes(b, m2, m3, rest, depth);
      assert a + b + rest == a + (b + rest);
    }
  }

  lemma NeutralChar(c: char, m: StringMode)
    requires m.Outside? ==> c != '{' && c != '}'
    ensures Neutral([c], m, NextMode(m, c))
  {
    forall rest: string, depth: nat | depth > 0 ensures Passes([c], m, NextMode(m, c), rest, depth) {
      assert ([c] + rest)[1..] == rest;
    }
  }

  lemma NeutralEmpty(m: StringMode)
    ensures Neutral("", m, m)
  {
    forall rest: string, depth: nat | depth > 0 ensures Passes("", m, m, rest, depth) {
      assert "" + rest == rest;
    }
  }

  lemma {:induction false} NeutralPlain(s: string)
    requires PlainText(s)
    ensures Neutral(s, Outside, Outside)
  {
    if s == [] {
      NeutralEmpty(Outside);
    } else {
      NeutralPlain(s[1..]);
      NeutralChar(s[0], Outside);
      NeutralConcat([s[0]], s[1..], Outside, Outside, Outside);
      assert s == [s[0]] + s[1..];
    }
  }

  lemma NeutralPiece(p: Piece)
    requires WellFormedPiece(p)
    ensures Neutral(PrintPiece(p), Inside, Inside)
  {
    match p
    case Raw(c) => NeutralChar(c, Inside);
    case Short(c) =>
      NeutralChar('\\', Inside);
      NeutralChar(c, Escaped);
      NeutralConcat(['\\'], [c], Inside, Escaped, Inside);
      assert ['\\', c] == ['\\'] + [c];
    case Unicode(hex) =>
      NeutralChar('\\', Inside);
      NeutralChar('u', Escaped);
      NeutralConcat(['\\'], ['u'], Inside, Escaped, Inside);
      assert "\\u" == ['\\'] + ['u'];
      NeutralHex(hex);
      NeutralConcat("\\u", hex, Inside, Inside, Inside);
  }

  lemma {:induction false} NeutralHex(hex: string)
    requires forall i :: 0 <= i < |hex| ==> hex[i] in "0123456789abcdefABCDEF"
    ensures Neutral(hex, Inside, Inside)
  {
    if hex == [] {
      NeutralEmpty(Inside);
    } else {
      NeutralHex(hex[1..]);
      NeutralChar(hex[0], Inside);
      NeutralConcat([hex[0]], hex[1..], Inside, Inside, Inside);
      assert hex == [hex[0]] + hex[1..];
    }
  }

  lemma {:induction false} NeutralPieces(pieces: seq<Piece>)
    requires WellFormedString(pieces)
    ensures Neutral(PrintPieces(pieces), Inside, Inside)
  {
    if pieces == [] {
      NeutralEmpty(Inside);
    } else {
      NeutralPiece(pieces[0]);
      NeutralPieces(pieces[1..]);
      NeutralConcat(PrintPiece(pieces[0]), PrintPieces(pieces[1..]), Inside, Inside, Inside);
    }
  }

  /** A string is passed over whatever braces, quotes and backslashes it holds. */
  lemma NeutralString(pieces: seq<Piece>)
    requires WellFormedString(pieces)
    ensures Neutral(PrintString(pieces), Outside, Outside)
  {
    NeutralChar('"', Outside);
    NeutralPieces(pieces);
    NeutralChar('"', Inside);
    NeutralConcat("\"", PrintPieces(pieces), Outside, Inside, Inside);
    NeutralConcat("\"" + PrintPieces(pieces), "\"", Outside, Inside, Outside);
  }

  /** Braces around a neutral text cancel out. */
  lemma NeutralBraces(body: string)
    requires Neutral(body, Outside, Outside)
    ensures Neutral("{" + body + "}", Outside, Outside)
  {
    forall rest: string, depth: nat | depth > 0 ensures Passes("{" + body + "}", Outside, Outside, rest, depth) {
      BracesPassed(body, rest, depth);
      assert "{" + body + "}" + rest == "{" + (body + ("}" + rest));
    }
  }

  lemma BracesPassed(body: string, rest: string, depth: nat)
    requires Neutral(body, Outside, Outside)
    ensures ObjectEnd(body + ("}" + rest), depth + 1, Outside) == Shifted(ObjectEnd(rest, depth, Outside), |body| + 1)
    ensures ObjectEnd("{" + (body + ("}" + rest)), depth, Outside) ==
            if depth == 0 then Some(0) else Shifted(ObjectEnd(rest, depth, Outside), |body| + 2)
  {
    assert Passes(body, Outside, Outside, "}" + rest, depth + 1);
    assert ("}" + rest)[1..] == rest;
    assert ("{" + (body + ("}" + rest)))[1..] == body + ("}" + rest);
  }

  /** Scanning starts and ends outside strings, at the same depth. */
  ghost predicate Balanced(text: string) {
    Neutral(text, Outside, Outside)
  }

  lemma BalancedConcat(a: string, b: string)
    requires Balanced(a) && Balanced(b)
    ensures Balanced(a + b)
  {
    NeutralConcat(a, b, Outside, Outside, Outside);
  }

  lemma {:induction false} BalancedSpaced(s: Spaced)
    requires WellFormedSpaced(s)
    ensures Balanced(PrintSpaced(s))
    decreases s, 0
  {
    NeutralPlain(s.before);
    BalancedValue(s.value);
    NeutralPlain(s.after);
    BalancedConcat(s.before, Print(s.value));
    BalancedConcat(s.before + Print(s.value), s.after);
  }

  lemma {:induction false} BalancedItems(items: seq<Spaced>)
    requires forall k :: k in items ==> WellFormedSpaced(k)
    ensures Balanced(PrintItems(items))
    decreases items, 0
  {
    if items == [] {
      NeutralEmpty(Outside);
    } else {
      var first, comma := PrintSpaced(items[0]), if |items| > 1 then "," else "";
      assert items[0] in items;
      BalancedSpaced(items[0]);
      NeutralPlain(comma);
      BalancedItems(items[1..]);
      BalancedConcat(first, comma);
      BalancedConcat(first + comma, PrintItems(items[1..]));
    }
  }

  lemma {:induction false} BalancedMember(m: Member)
    requires WellFormedMember(m)
    ensures Balanced(PrintMember(m))
    decreases m, 0
  {
    var name := PrintString(m.name);
    NeutralPlain(m.before);
    NeutralString(m.name);
    NeutralPlain(m.after);
    NeutralPlain(":");
    BalancedSpaced(m.value);
    BalancedConcat(m.before, name);
    BalancedConcat(m.before + name, m.after);
    BalancedConcat(m.before + name + m.after, ":");
    BalancedConcat(m.before + name + m.after + ":", PrintSpaced(m.value));
  }

  lemma {:induction false} BalancedMembers(members: seq<Member>)
    requires forall m :: m in members ==> WellFormedMember(m)
    ensures Balanced(PrintMembers(members))
    decreases members, 0
  {
    if members == [] {
      NeutralEmpty(Outside);
    } else {
      var first, comma := PrintMember(members[0]), if |members| > 1 then "," else "";
      assert members[0] in members;
      BalancedMember(members[0]);
      NeutralPlain(comma);
      BalancedMembers(members[1..]);
      BalancedConcat(first, comma);
      BalancedConcat(first + comma, PrintMembers(members[1..]));
    }
  }

  /** Whatever the value, its strings and its layout, scanning it ends as it began. */
  lemma {:induction false} BalancedValue(j: Json)
    requires WellFormed(j)
    ensures Balanced(Print(j))
    decreases j, 0
  {
    match j
    case Literal(text) => NeutralPlain(text);
    case Str(pieces) => NeutralString(pieces);
    case Arr(gap, items) =>
      NeutralChar('[', Outside);
      NeutralPlain(gap);
      BalancedItems(items);
      NeutralChar(']', Outside);
      BalancedConcat("[", gap);
      BalancedConcat("[" + gap, PrintItems(items));
      BalancedConcat("[" + gap + PrintItems(items), "]");
    case Obj(gap, members) =>
      BalancedBody(gap, members);
      NeutralBraces(gap + PrintMembers(members));
      assert "{" + gap + PrintMembers(members) + "}" == "{" + (gap + PrintMembers(members)) + "}";
  }

  lemma {:induction false} BalancedBody(gap: string, members: seq<Member>)
    requires PlainText(gap) && forall m :: m in members ==> WellFormedMember(m)
    ensures Balanced(gap + PrintMembers(members))
    decreases members, 1
  {
    NeutralPlain(gap);
    BalancedMembers(members);
    BalancedConcat(gap, PrintMembers(members));
  }

  // ---------------------------------------------------------------- the object comes out whole

  lemma {:induction false} FirstBraceAfter(prefix: string, rest: string)
    requires '{' !in prefix && rest != [] && rest[0] == '{'
    ensures FirstBrace(prefix + rest) == |prefix|
  {
    if prefix == [] {
      assert prefix + rest == rest;
    } else {
      assert (prefix + rest)[1..] == prefix[1..] + rest;
      FirstBraceAfter(prefix[1..], rest);
    }
  }

  /** Any JSON object, in any escaping and with any white space at every place, after any text without
      '{' and before any text at all, comes out exactly. */
  lemma ObjectIsExtracted(prefix: string, j: Json, suffix: string)
    requires j.Obj? && WellFormed(j) && '{' !in prefix
    ensures Extract(prefix + Print(j) + suffix) == Print(j)
  {
    var body := j.gap + PrintMembers(j.members);
    var printed := Print(j);
    var text := prefix + printed + suffix;
    assert printed == "{" + body + "}";
    BalancedBody(j.gap, j.members);
    assert text == prefix + ("{" + (body + ("}" + suffix)));
    FirstBraceAfter(prefix, "{" + (body + ("}" + suffix)));
    assert text[|prefix| + 1..] == body + ("}" + suffix);
    BracesPassed(body, suffix, 0);
    assert text[|prefix|..|prefix| + 1 + |body| + 1] == printed;
  }

  // ---------------------------------------------------------------- nothing else comes out

  lemma {:induction false} EndNotReached(s: string, k: nat, depth: nat, m: StringMode)
    requires k <= |s| && (ObjectEnd(s, depth, m).Some? ==> k < ObjectEnd(s, depth, m).value)
    ensures ObjectEnd(s[..k], depth, m).None?
  {
    if k == 0 {
      assert s[..0] == [];
    } else {
      assert s[..k][1..] == s[1..][..k - 1];
      EndNotReached(s[1..], k - 1, NextDepth(depth, m, s[0]), NextMode(m, s[0]));
    }
  }

  lemma {:induction false} NoBraceFound(text: string)
    requires '{' !in text
    ensures FirstBrace(text) == |text|
  {
    if text == [] {
    } else {
      NoBraceFound(text[1..]);
    }
  }

  /** A text without '{' yields nothing. */
  lemma NoBraceNothing(text: string)
    requires '{' !in text
    ensures Extract(text) == ""
  {
    NoBraceFound(text);
  }

  lemma BodyEnds(body: string, rest: string)
    requires Balanced(body) && rest == "}"
    ensures ObjectEnd(body + rest, 1, Outside) == Some(|body| + 1)
  {
    BracesPassed(body, "", 0);
    assert "}" + "" == rest;
  }

  lemma ObjectEndsAtEnd(j: Json)
    requires j.Obj? && WellFormed(j)
    ensures ObjectEnd(Print(j)[1..], 1, Outside) == Some(|Print(j)| - 1)
  {
    var body, rest := j.gap + PrintMembers(j.members), "}";
    BalancedBody(j.gap, j.members);
    BodyEnds(body, rest);
    ObjectWithoutBrace(j, body, rest);
  }

  lemma ObjectWithoutBrace(j: Json, body: string, rest: string)
    requires j.Obj? && body == j.gap + PrintMembers(j.members) && rest == "}"
    ensures Print(j)[1..] == body + rest && |Print(j)| == |body| + 2
  {
    assert Print(j) == "{" + (body + rest);
  }

  /** And an answer that breaks off before the object is complete yields nothing. */
  lemma BrokenOffNothing(prefix: string, j: Json, n: nat)
    requires j.Obj? && WellFormed(j) && '{' !in prefix && 0 < n < |Print(j)|
    ensures Extract(prefix + Print(j)[..n]) == ""
  {
    var printed, part := Print(j), Print(j)[..n];
    var body := j.gap + PrintMembers(j.members);
    assert printed == "{" + (body + "}");
    FirstBraceAfter(prefix, part);
    ObjectEndsAtEnd(j);
    EndNotReached(printed[1..], n - 1, 1, Outside);
    assert (prefix + part)[|prefix| + 1..] == printed[1..][..n - 1];
  }
}
