/** What a rewritten configuration file holds when it is read again: exactly which entries survive. */
module ConfigRewrite {
  import opened Common
  import opened ConfigText
  import opened ConfigOrder
  import opened ConfigRoundTrip

  // ---------------------------------------------------------------- ill-formed values in the middle of a file

  lemma {:induction false} StripConcat(a: string, b: string, m: Mode)
    ensures Strip(a + b, m) == Strip(a, m) + Strip(b, ModeAfter(m, a))
  {
    if a == [] {
      assert a + b == b;
    } else {
      assert (a + b)[1..] == a[1..] + b;
      StripConcat(a[1..], b, Next(m, a[0]));
    }
  }

  lemma {:induction false} SkipPastUnclosed(s: string, rest: string, depth: nat, m: Mode)
    requires NeverCloses(s, depth, m)
    ensures SkipList(s + ("\n" + rest), depth, m) > |s|
  {
    if s == [] {
      assert s + ("\n" + rest) == "\n" + rest;
    } else {
      assert (s + ("\n" + rest))[1..] == s[1..] + ("\n" + rest);
      SkipPastUnclosed(s[1..], rest, Deepen(depth, m, s[0]), Next(m, s[0]));
    }
  }

  /** Wherever it stands in a file, an unclosed list takes in at least the line end after it. */
  lemma UnclosedListTakesMore(k: string, v: string, rest: string)
    requires WellFormedName(k) && Unclosed(v) && Clean(v)
    ensures var option := ParseOption(PrintEntry(k, v) + rest).1;
      option.Some? && option.value.0 == k && |option.value.1| > |v|
  {
    var after := v + ("\n" + rest);
    assert PrintEntry(k, v) + rest == k + " = " + v + "\n" + rest;
    ParsePrintedName(k, v, rest);
    SkipPastUnclosed(v[1..], rest, 1, Plain);
    var seen := after[..SeenEnd(v, rest)];
    var more := seen[|v| + 1..];
    assert seen == (v + "\n") + more;
    StripConcat(v + "\n", more, Plain);
    LineEndStaysClean(v);
  }

  lemma {:induction false} SkipAll(s: string, depth: nat, m: Mode)
    requires NeverCloses(s, depth, m)
    ensures SkipList(s, depth, m) == |s|
  {
    if s == [] {
    } else {
      SkipAll(s[1..], Deepen(depth, m, s[0]), Next(m, s[0]));
    }
  }

  /** A list that nothing in the rest of the file closes swallows all other entries. */
  lemma UnclosedListSwallows(k: string, v: string, rest: string)
    requires WellFormedName(k) && v != [] && v[0] == '[' && NeverCloses(v[1..] + ("\n" + rest), 1, Plain)
    ensures Parse(PrintEntry(k, v) + rest) == map[k := Strip(v + ("\n" + rest), Plain)]
  {
    var t := PrintEntry(k, v) + rest;
    assert t == k + " = " + v + "\n" + rest;
    ParsePrintedName(k, v, rest);
    SkipAll(v[1..] + ("\n" + rest), 1, Plain);
    assert (v + ("\n" + rest))[..SeenEnd(v, rest)] == v + ("\n" + rest);
    assert NextLine(t, |t|) == [];
    assert Parse([]) == map[];
  }

  lemma BlankEntryThenRest(k: string, v: string, rest: string)
    requires WellFormedName(k) && Blank(v)
    ensures Parse(PrintEntry(k, v) + rest) == Parse(rest)[k := " " + v]
  {
    var t := k + " = " + v + "\n" + rest;
    var endl := |k| + 3 + |v|;
    BlankValueGrows(k, v, rest);
    assert t == PrintEntry(k, v) + rest;
    assert t[endl] == '\n' && t[endl + 1..] == rest;
    assert NextLine(t, endl) == rest;
  }

  lemma {:induction false} ClosesOrNever(s: string, depth: nat, m: Mode)
    requires Closes(s, depth, m)
    ensures !NeverCloses(s, depth, m)
  {
    if depth == 0 {
    } else {
      ClosesOrNever(s[1..], Deepen(depth, m, s[0]), Next(m, s[0]));
    }
  }

  lemma WellFormedExcludes(v: string)
    requires WellFormedValue(v)
    ensures !Blank(v) && !Unclosed(v)
  {
    if v[0] == '[' {
      ClosesOrNever(v[1..], 1, Plain);
    }
  }

  // ---------------------------------------------------------------- which entries survive

  /** A value as it is read back when no list is left open. */
  function Regrown(v: string): string {
    if Blank(v) then " " + v else v
  }

  ghost function Reread(entries: seq<Entry>): map<string, string> {
    if entries == [] then map[]
    else
      var rest := Reread(entries[1..]);
      if Blankish(entries[0].1) then rest else rest[entries[0].0 := Regrown(entries[0].1)]
  }

  ghost predicate Closed(e: Entry) {
    Blankish(e.1) || (WellFormedName(e.0) && (WellFormedValue(e.1) || Blank(e.1)))
  }

  /** As long as no list is left open, every entry comes back by itself: a blank value one space longer,
      every other one as it was. */
  lemma {:induction false} ClosedFileIsReread(entries: seq<Entry>)
    requires forall i :: 0 <= i < |entries| ==> Closed(entries[i])
    ensures Parse(Print(entries)) == Reread(entries)
  {
    if entries == [] {
    } else {
      var k, v, rest := entries[0].0, entries[0].1, Print(entries[1..]);
      ClosedFileIsReread(entries[1..]);
      assert Closed(entries[0]);
      if Blankish(v) {
        assert Print(entries) == rest;
      } else if Blank(v) {
        BlankEntryThenRest(k, v, rest);
      } else {
        PrintedEntryThenRest(k, v, rest);
      }
    }
  }

  /** All that is printed is read back under its name. */
  ghost predicate Survives(e: Entry, config: map<string, string>) {
    Blankish(e.1) || (e.0 in config && config[e.0] == e.1)
  }

  ghost predicate AllSurvive(entries: seq<Entry>, config: map<string, string>) {
    forall i :: 0 <= i < |entries| ==> Survives(entries[i], config)
  }

  /** The first entry of a file comes back as it was only if it is well formed. */
  lemma FirstSurvivesOnlyIf(k: string, v: string, rest: string)
    requires v != "" && Survives((k, v), Parse(PrintEntry(k, v) + rest)) && !Blankish(v)
    ensures WellFormedName(k) && WellFormedValue(v)
  {
    var t := PrintEntry(k, v) + rest;
    ParsedFile(t);
    assert WellFormedName(k);
    if Blank(v) {
      BlankEntryThenRest(k, v, rest);
    } else if Unclosed(v) {
      UnclosedListTakesMore(k, v, rest);
    }
  }

  lemma {:induction false} AllSurviveOnlyIf(entries: seq<Entry>)
    requires Distinct(entries) && AllSurvive(entries, Parse(Print(entries)))
    ensures WellFormed(entries)
  {
    if entries == [] {
    } else {
      var k, v, rest := entries[0].0, entries[0].1, entries[1..];
      var printed := Print(rest);
      assert Survives(entries[0], Parse(Print(entries)));
      if Blankish(v) {
        assert Print(entries) == printed;
      } else {
        FirstSurvivesOnlyIf(k, v, printed);
        PrintedEntryThenRest(k, v, printed);
      }
      forall i | 0 <= i < |rest| ensures Survives(rest[i], Parse(printed)) {
        assert Survives(entries[i + 1], Parse(Print(entries)));
        assert entries[0].0 != entries[i + 1].0;
      }
      AllSurviveOnlyIf(rest);
    }
  }

  lemma {:induction false} PrintedHolds(entries: seq<Entry>)
    requires Distinct(entries)
    ensures AllSurvive(entries, Printed(entries))
    ensures forall k :: k in Printed(entries) ==> (k, Printed(entries)[k]) in entries && !Blankish(Printed(entries)[k])
  {
    if entries == [] {
    } else {
      PrintedHolds(entries[1..]);
      forall i | 0 <= i < |entries| ensures Survives(entries[i], Printed(entries)) {
        if i > 0 {
          assert Survives(entries[1..][i - 1], Printed(entries[1..]));
          assert entries[0].0 != entries[i].0;
        }
      }
    }
  }

  /** A file with one entry for every name is read back as printed if and only if all its entries are well
      formed; otherwise an entry is lost or changed. */
  lemma FileRoundTripsIff(entries: seq<Entry>)
    requires Distinct(entries)
    ensures Parse(Print(entries)) == Printed(entries) <==> WellFormed(entries)
    ensures AllSurvive(entries, Parse(Print(entries))) <==> WellFormed(entries)
  {
    PrintedHolds(entries);
    if WellFormed(entries) {
      PrintedFileIsReadBack(entries);
    }
    if AllSurvive(entries, Parse(Print(entries))) {
      AllSurviveOnlyIf(entries);
    }
  }

  // ---------------------------------------------------------------- update_config

  /** The configuration less what the writer leaves out. */
  function Kept(config: map<string, string>): map<string, string> {
    map k | k in config && !Blankish(config[k]) :: config[k]
  }

  ghost predicate GoodUpdates(updates: map<string, string>) {
    forall k :: k in updates && !Blankish(updates[k]) ==> WellFormedName(k) && WellFormedValue(updates[k])
  }

  /** A key that an update leaves alone. */
  predicate Untouched(k: string, config: map<string, string>, updates: map<string, string>) {
    k in config && k !in updates
  }

  /** The writer leaves out an empty value and the word null; a blank value and an unclosed list grow. */
  predicate Rewritable(v: string) {
    !Blankish(v) && !Blank(v) && !Unclosed(v)
  }

  lemma PrintedIsKept(entries: seq<Entry>, config: map<string, string>)
    requires Lists(entries, config)
    ensures Printed(entries) == Kept(config)
  {
    AscendingIsDistinct(entries);
    PrintedHolds(entries);
    forall k | k in Kept(config) ensures k in Printed(entries) && Printed(entries)[k] == config[k] {
      var i :| 0 <= i < |entries| && entries[i] == (k, config[k]);
      assert Survives(entries[i], Printed(entries));
    }
    forall k | k in Printed(entries) ensures k in Kept(config) {
      assert (k, Printed(entries)[k]) in entries;
    }
    assert Printed(entries).Keys == Kept(config).Keys;
  }

  lemma WellFormedListIff(entries: seq<Entry>, config: map<string, string>)
    requires Lists(entries, config)
    ensures WellFormed(entries) <==> forall k :: k in Kept(config) ==> WellFormedName(k) && WellFormedValue(config[k])
  {
    if WellFormed(entries) {
      forall k | k in Kept(config) ensures WellFormedName(k) && WellFormedValue(config[k]) {
        assert (k, config[k]) in entries;
      }
    }
  }

  /** All entries are written and well formed. */
  ghost predicate AllGood(config: map<string, string>) {
    forall k :: k in config ==> !Blankish(config[k]) && WellFormedName(k) && WellFormedValue(config[k])
  }

  /** A listed map is read back whole if and only if the writer writes all of it and all is well formed. */
  lemma MapRoundTripsIff(entries: seq<Entry>, config: map<string, string>)
    requires Lists(entries, config)
    ensures Parse(Print(entries)) == config <==> AllGood(config)
  {
    var reread := Parse(Print(entries));
    AscendingIsDistinct(entries);
    FileRoundTripsIff(entries);
    PrintedIsKept(entries, config);
    WellFormedListIff(entries, config);
    if AllGood(config) {
      assert Kept(config) == config;
    }
    if reread == config {
      forall i | 0 <= i < |entries| ensures Survives(entries[i], reread) {
      }
      assert reread == Kept(config);
    }
  }

  lemma EditedIsGoodIff(content: string, updates: map<string, string>)
    ensures var config := Parse(content);
      AllGood(Edited(config, updates)) <==>
        GoodUpdates(updates) && forall k :: Untouched(k, config, updates) ==> Rewritable(config[k])
  {
    var config := Parse(content);
    var edited := Edited(config, updates);
    ParsedFile(content);
    forall k | Untouched(k, config, updates) ensures k in edited && edited[k] == config[k] {
    }
    forall k | k in updates && !Blankish(updates[k]) ensures k in edited && edited[k] == updates[k] {
    }
    forall k | k in edited ensures Untouched(k, config, updates) || (k in updates && !Blankish(updates[k])) {
    }
    forall k | k in config && WellFormedValue(config[k]) ensures !Blank(config[k]) && !Unclosed(config[k]) {
      WellFormedExcludes(config[k]);
    }
  }

  /** Whatever the file held before: the rewritten file reads back as the edited configuration, so every
      update is in force and every untouched key keeps its value, if and only if all updates are well
      formed and no untouched value is empty, null, blank or an unclosed list. */
  lemma UpdateIsReadBackIff(content: string, updates: map<string, string>, entries: seq<Entry>)
    requires Lists(entries, Edited(Parse(content), updates))
    ensures var config := Parse(content);
      Parse(Print(entries)) == Edited(config, updates) <==>
        GoodUpdates(updates) && forall k :: Untouched(k, config, updates) ==> Rewritable(config[k])
  {
    MapRoundTripsIff(entries, Edited(Parse(content), updates));
    EditedIsGoodIff(content, updates);
  }

  lemma {:induction false} NameOfReread(entries: seq<Entry>, k: string) returns (i: nat)
    requires k in Reread(entries)
    ensures i < |entries| && entries[i].0 == k
  {
    if k == entries[0].0 {
      i := 0;
    } else {
      var j := NameOfReread(entries[1..], k);
      i := j + 1;
    }
  }

  lemma {:induction false} RereadHolds(entries: seq<Entry>, i: nat)
    requires Distinct(entries) && i < |entries|
    ensures var (k, v) := entries[i];
      (k in Reread(entries) <==> !Blankish(v)) && (k in Reread(entries) ==> Reread(entries)[k] == Regrown(v))
  {
    var rest := entries[1..];
    if i == 0 {
      forall j | 0 <= j < |rest| ensures rest[j].0 != entries[0].0 {
        assert rest[j] == entries[j + 1];
      }
      if entries[0].0 in Reread(rest) {
        var j := NameOfReread(rest, entries[0].0);
      }
    } else {
      assert rest[i - 1] == entries[i] && entries[0].0 != entries[i].0;
      RereadHolds(rest, i - 1);
    }
  }

  /** And as long as no untouched value is an unclosed list, each untouched key fares by itself: it is lost
      exactly when its value is empty or null, and keeps its value exactly when that is not blank either;
      a blank one gains a space. */
  lemma UntouchedKeyIsReadBack(content: string, updates: map<string, string>, entries: seq<Entry>, key: string)
    requires Lists(entries, Edited(Parse(content), updates)) && GoodUpdates(updates)
    requires forall k :: Untouched(k, Parse(content), updates) ==> !Unclosed(Parse(content)[k])
    requires Untouched(key, Parse(content), updates)
    ensures var v, reread := Parse(content)[key], Parse(Print(entries));
      && (key in reread <==> !Blankish(v))
      && (key in reread ==> reread[key] == Regrown(v))
      && (key in reread && reread[key] == v <==> !Blankish(v) && !Blank(v))
  {
    var config := Parse(content);
    var edited := Edited(config, updates);
    ParsedFile(content);
    forall i | 0 <= i < |entries| ensures Closed(entries[i]) {
      var k := entries[i].0;
      if !Blankish(entries[i].1) && k !in updates {
        assert Untouched(k, config, updates);
      }
    }
    ClosedFileIsReread(entries);
    AscendingIsDistinct(entries);
    var i :| 0 <= i < |entries| && entries[i] == (key, edited[key]);
    RereadHolds(entries, i);
  }

  lemma NullIsWellFormed()
    ensures WellFormedValue("null")
  {
    assert "null"[1..] == "ull" && "ull"[1..] == "ll" && "ll"[1..] == "l" && "l"[1..] == "";
    assert CommentAt("l", Plain) == 1 && CommentAt("ll", Plain) == 2 && CommentAt("ull", Plain) == 3;
  }

  /** So an update of one key can lose another: the word null is read from a file but never written. */
  lemma NullIsLost(key: string, other: string, value: string, entries: seq<Entry>)
    requires WellFormedName(key) && WellFormedName(other) && other != key && WellFormedValue(value)
    requires Lists(entries, Edited(Parse(PrintEntry(key, "null")), map[other := value]))
    ensures Parse(PrintEntry(key, "null")) == map[key := "null"]
    ensures key !in Parse(Print(entries))
  {
    var content := PrintEntry(key, "null");
    NullIsWellFormed();
    EntryRoundTrips(key, "null");
    WellFormedExcludes("null");
    UntouchedKeyIsReadBack(content, map[other := value], entries, key);
  }
}
