/** The parser and the file update as loops over the text, proved against ConfigText. */
module ConfigFile {
  import opened Common
  import opened ConfigText
  import opened ConfigOrder

  function ModeOf(quoted: bool, escaped: bool, comment: bool): Mode {
    if comment then InComment else if escaped then Escaped else if quoted then Quoted else Plain
  }

  method FindComment(s: string) returns (pos: nat)
    ensures pos == CommentAt(s, Plain)
  {
    var quoted, escaped := false, false;
    pos := 0;
    assert s[0..] == s;
    while pos < |s|
      invariant pos <= |s| && (escaped ==> quoted)
      invariant pos + CommentAt(s[pos..], ModeOf(quoted, escaped, false)) == CommentAt(s, Plain)
    {
      assert s[pos..][1..] == s[pos + 1..];
      if quoted {
        if escaped {
          escaped := false;
        } else if s[pos] == '\\' {
          escaped := true;
        } else if s[pos] == '"' {
          quoted := false;
        }
      } else if s[pos] == '"' {
        quoted := true;
      } else if s[pos] == '#' {
        return;
      }
      pos := pos + 1;
    }
  }

  lemma {:induction false} StripToLineEnd(s: string)
    ensures Strip(s, InComment) == Strip(s[FirstIndex(s, Endline)..], Plain)
  {
    if s == [] || Endline(s[0]) {
      assert s[0..] == s;
    } else {
      StripToLineEnd(s[1..]);
      assert s[FirstIndex(s, Endline)..] == s[1..][FirstIndex(s[1..], Endline)..];
    }
  }

  lemma DropTwice(s: string, a: nat, b: nat)
    requires a + b <= |s|
    ensures s[a..][b..] == s[a + b..]
  {
  }

  /** Where the line on which the first comment starts ends. */
  function PieceEnd(s: string, m: Mode): nat {
    CommentAt(s, m) + FirstIndex(s[CommentAt(s, m)..], Endline)
  }

  lemma PieceEndStep(s: string, m: Mode)
    requires s != [] && !(m.Plain? && s[0] == '#')
    ensures PieceEnd(s, m) == 1 + PieceEnd(s[1..], Next(m, s[0]))
  {
    assert s[CommentAt(s, m)..] == s[1..][CommentAt(s[1..], Next(m, s[0]))..];
  }

  lemma StripFromComment(s: string)
    requires s != [] && s[0] == '#'
    ensures 0 < PieceEnd(s, Plain) <= |s|
    ensures Strip(s, Plain) == Strip(s[PieceEnd(s, Plain)..], Plain)
  {
    assert s[0..] == s;
    StripToLineEnd(s[1..]);
    DropTwice(s, 1, FirstIndex(s[1..], Endline));
  }

  lemma StripOneChar(s: string, m: Mode, tail: string, rest: string)
    requires s != [] && !(m.Plain? && s[0] == '#') && !m.InComment?
    requires Strip(s[1..], Next(m, s[0])) == tail + rest
    ensures Strip(s, m) == [s[0]] + tail + rest
  {
    assert [s[0]] + (tail + rest) == [s[0]] + tail + rest;
  }

  /** Stripping keeps the text up to the comment and goes on from the line end. */
  ghost predicate StripsInPieces(s: string, m: Mode) {
    CommentAt(s, m) <= PieceEnd(s, m) <= |s| &&
    Strip(s, m) == s[..CommentAt(s, m)] + Strip(s[PieceEnd(s, m)..], Plain)
  }

  lemma PieceGrows(s: string, m: Mode)
    requires s != [] && !(m.Plain? && s[0] == '#') && !m.InComment?
    requires StripsInPieces(s[1..], Next(m, s[0]))
    ensures StripsInPieces(s, m)
  {
    var next := Next(m, s[0]);
    var end, tail := PieceEnd(s[1..], next), s[1..][..CommentAt(s[1..], next)];
    PieceEndStep(s, m);
    DropTwice(s, 1, end);
    StripOneChar(s, m, tail, Strip(s[1 + end..], Plain));
    assert s[..CommentAt(s, m)] == [s[0]] + tail;
  }

  lemma {:induction false} StripPiece(s: string, m: Mode)
    requires !m.InComment?
    ensures StripsInPieces(s, m)
  {
    if s == [] {
    } else if m.Plain? && s[0] == '#' {
      StripFromComment(s);
    } else {
      StripPiece(s[1..], Next(m, s[0]));
      PieceGrows(s, m);
    }
  }

  lemma PieceTaken(s: string, pos: nat, result: string)
    requires pos <= |s| && result + Strip(s[pos..], Plain) == Strip(s, Plain)
    ensures var tail := s[pos..];
      && CommentAt(tail, Plain) <= PieceEnd(tail, Plain) <= |tail|
      && (result + tail[..CommentAt(tail, Plain)]) + Strip(s[pos + PieceEnd(tail, Plain)..], Plain) == Strip(s, Plain)
  {
    var tail := s[pos..];
    StripPiece(tail, Plain);
    DropTwice(s, pos, PieceEnd(tail, Plain));
    var rest := Strip(s[pos + PieceEnd(tail, Plain)..], Plain);
    assert (result + tail[..CommentAt(tail, Plain)]) + rest == result + (tail[..CommentAt(tail, Plain)] + rest);
  }

  /** to_string: the pieces between comments, line ends included. */
  method ToText(s: string) returns (result: string)
    ensures result == Strip(s, Plain)
  {
    result := [];
    var pos := 0;
    assert s[0..] == s;
    while pos != |s|
      invariant pos <= |s|
      invariant result + Strip(s[pos..], Plain) == Strip(s, Plain)
      decreases |s| - pos
    {
      var tail := s[pos..];
      var comment := FindComment(tail);
      var endl := comment + FirstIndex(tail[comment..], Endline);
      PieceTaken(s, pos, result);
      if comment == 0 {
        StripFromComment(tail);
      }
      result := result + tail[..comment];
      pos := pos + endl;
    }
  }

  method FindListEnd(s: string) returns (skipper: nat)
    ensures skipper == SkipList(s, 1, Plain)
  {
    var stack := 1;
    var quoted, escaped, comment := false, false, false;
    skipper := 0;
    assert s[0..] == s;
    while skipper != |s| && stack != 0
      invariant skipper <= |s| && stack >= 0
      invariant (escaped ==> quoted) && !(quoted && comment)
      invariant skipper + SkipList(s[skipper..], stack, ModeOf(quoted, escaped, comment)) == SkipList(s, 1, Plain)
      decreases |s| - skipper
    {
      assert s[skipper..][1..] == s[skipper + 1..];
      var c := s[skipper];
      if comment {
        comment := !Endline(c);
      } else if quoted {
        if escaped {
          escaped := false;
        } else if c == '\\' {
          escaped := true;
        } else if c == '"' {
          quoted := false;
        }
      } else if c == '"' {
        quoted := true;
      } else if c == '#' {
        comment := true;
      } else if c == '[' {
        stack := stack + 1;
      } else if c == ']' {
        stack := stack - 1;
      }
      skipper := skipper + 1;
    }
  }

  /** A value that starts with '[' runs on to where its list ends. */
  method FindValueEnd(t: string, value: nat, lineEnd: nat) returns (endl: nat)
    requires value < |t| && value <= lineEnd == FirstIndex(t, Endline)
    ensures endl == ValueEnd(t, value)
  {
    endl := lineEnd;
    if t[value] == '[' {
      var length := FindListEnd(t[value + 1..]);
      endl := value + 1 + length;
    }
  }

  method ReadHere(t: string) returns (endl: nat, option: Option<Entry>)
    ensures (endl, option) == ParseHere(t)
  {
    endl := FirstIndex(t, Endline);
    var line := t[..endl];
    var endc := FindComment(line);
    endc := TrimEnd(line[..endc], Whitespace);
    var code := line[..endc];
    assert code == Code(line);
    var eq := FirstIndex(code, IsEquals);
    if eq == endc || eq == 0 {
      return endl, None;
    }
    var endName := TrimEnd(line[..eq], SpaceTab);
    var value := ValueStart(code, eq);
    if value == endl {
      return endl, None;
    }
    endl := FindValueEnd(t, value, endl);
    if t[value] == '[' && endl == |t| && |t| == value + 1 {
      return endl, None;
    }
    var name := ToText(line[..endName]);
    var text := ToText(t[value..endl]);
    return endl, Some((name, text));
  }

  /** parse_option: leading white space, line ends included, is skipped first. */
  method ReadOption(t: string) returns (endl: nat, option: Option<Entry>)
    ensures (endl, option) == ParseOption(t)
  {
    var begin := FirstIndex(t, NotWhitespace);
    endl, option := ReadHere(t[begin..]);
    endl := begin + endl;
  }

  function Remaining(t: string, pos: nat): string {
    if pos < |t| then t[pos..] else []
  }

  lemma RestOfText(content: string, pos: nat, length: nat, next: nat)
    requires pos < |content| && length <= |content[pos..]|
    requires var tail := content[pos..];
      next == pos + if length == |tail| then length else if tail[length] == '\r' then length + 2 else length + 1
    ensures NextLine(content[pos..], length) == Remaining(content, next)
  {
    if next < |content| {
      DropTwice(content, pos, next - pos);
    }
  }

  lemma ParseStep(t: string, endl: nat, option: Option<Entry>, vars: map<string, string>)
    requires t != [] && ParseOption(t) == (endl, option)
    ensures Parse(t) + vars == Parse(NextLine(t, endl)) +
              if option.None? || option.value.0 in vars then vars else vars[option.value.0 := option.value.1]
  {
  }

  method ReadConfig(content: string) returns (vars: map<string, string>)
    ensures vars == Parse(content)
  {
    vars := map[];
    var pos := 0;
    ghost var rest := content;
    while pos < |content|
      invariant rest == Remaining(content, pos)
      invariant Parse(content) == Parse(rest) + vars
      decreases |content| - pos
    {
      var tail := content[pos..];
      var length, option := ReadOption(tail);
      var next := pos + length;
      if length < |tail| {
        next := next + if tail[length] == '\r' then 2 else 1;
      }
      RestOfText(content, pos, length, next);
      rest := NextLine(tail, length);
      ParseStep(tail, length, option, vars);
      if option.Some? && option.value.0 !in vars {
        vars := vars[option.value.0 := option.value.1];
      }
      pos := next;
    }
  }

  lemma {:induction false} PrintOneMore(entries: seq<Entry>, e: Entry)
    ensures Print(entries + [e]) == Print(entries) + if Blankish(e.1) then [] else PrintEntry(e.0, e.1)
  {
    if entries == [] {
      assert [e][1..] == [];
    } else {
      assert (entries + [e])[1..] == entries[1..] + [e];
      PrintOneMore(entries[1..], e);
    }
  }

  method FirstKey(keys: set<string>) returns (first: string)
    requires keys != {}
    ensures first in keys && forall k :: k in keys ==> k == first || Less(first, k)
  {
    ghost var some := SomeMember(keys);
    first :| first in keys;
    var rest := keys - {first};
    while rest != {}
      invariant rest <= keys && first in keys && first !in rest
      invariant forall k :: k in keys && k !in rest ==> k == first || Less(first, k)
    {
      some := SomeMember(rest);
      var k :| k in rest;
      LessIsTotal(first, k);
      if Less(k, first) {
        forall j | j in keys && j !in rest && j != first ensures Less(k, j) {
          LessIsTransitive(k, first, j);
        }
        first := k;
      }
      rest := rest - {k};
    }
  }

  /** The entries listed so far come before all keys still to be listed. */
  ghost predicate ListsFirst(entries: seq<Entry>, config: map<string, string>, todo: set<string>) {
    && (forall i :: 0 <= i < |entries| ==> entries[i].0 in config && config[entries[i].0] == entries[i].1)
    && (forall k :: k in config && k !in todo ==> (k, config[k]) in entries)
    && Ascending(entries)
    && forall i, k :: 0 <= i < |entries| && k in todo ==> Less(entries[i].0, k)
  }

  lemma ListsOneMore(entries: seq<Entry>, config: map<string, string>, todo: set<string>, k: string)
    requires ListsFirst(entries, config, todo) && k in todo && k in config
    requires forall j :: j in todo ==> j == k || Less(k, j)
    ensures ListsFirst(entries + [(k, config[k])], config, todo - {k})
  {
    var grown := entries + [(k, config[k])];
    forall j | j in config && j !in todo - {k} ensures (j, config[j]) in grown {
      if j == k {
        assert grown[|entries|] == (k, config[k]);
      }
    }
  }

  method WriteConfig(config: map<string, string>) returns (text: string)
    ensures exists entries :: Lists(entries, config) && text == Print(entries)
  {
    text := "";
    ghost var entries: seq<Entry> := [];
    var todo := config.Keys;
    while todo != {}
      invariant todo <= config.Keys && text == Print(entries)
      invariant ListsFirst(entries, config, todo)
    {
      var k := FirstKey(todo);
      PrintOneMore(entries, (k, config[k]));
      ListsOneMore(entries, config, todo, k);
      if config[k] != "" && config[k] != "null" {
        text := text + k + " = " + config[k] + "\n";
      }
      entries := entries + [(k, config[k])];
      todo := todo - {k};
    }
    assert Lists(entries, config);
  }

  method EditConfig(config: map<string, string>, updates: map<string, string>)
    returns (edited: map<string, string>, changed: bool)
    ensures edited == Edited(config, updates)
    ensures changed <==> edited != config
  {
    edited, changed := config, false;
    var todo := updates.Keys;
    while todo != {}
      invariant todo <= updates.Keys
      invariant forall k :: k !in updates || k in todo ==> ((k in edited <==> k in config) && (k in config ==> edited[k] == config[k]))
      invariant forall k :: k in updates && k !in todo ==>
                  if Blankish(updates[k]) then k !in edited else k in edited && edited[k] == updates[k]
      invariant changed <==> edited != config
    {
      var k :| k in todo;
      var value := updates[k];
      ghost var before := edited;
      if value == "" || value == "null" {
        if k in edited {
          edited := edited - {k};
          changed := true;
          assert k in config;
        }
      } else if k !in edited || edited[k] != value {
        edited := edited[k := value];
        changed := true;
        assert k in config ==> edited[k] != config[k];
      }
      todo := todo - {k};
    }
    assert edited.Keys == Edited(config, updates).Keys;
  }

  /** The configuration file on disk. */
  class ConfigFile {
    var text: string

    constructor (text: string)
      ensures this.text == text
    {
      this.text := text;
    }

    /** `readable` and `writable` say whether the disk lets the file be read and rewritten. */
    method Update(updates: map<string, string>, readable: bool, writable: bool) returns (changed: bool)
      modifies this
      ensures var config := if readable then Parse(old(text)) else map[];
        var edited := Edited(config, updates);
        && (changed <==> edited != config && writable)
        && (if changed then exists entries :: Lists(entries, edited) && text == Print(entries) else text == old(text))
    {
      var config: map<string, string> := map[];
      if readable {
        config := ReadConfig(text);
      }
      var edited, hasChanged := EditConfig(config, updates);
      if !hasChanged {
        return false;
      }
      var printed := WriteConfig(edited);
      if !writable {
        return false;
      }
      text := printed;
      return true;
    }
  }
}
