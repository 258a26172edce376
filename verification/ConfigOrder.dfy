/** The order in which the writer goes through the configuration: std::map keeps its keys ascending. */
module ConfigOrder {
  import opened ConfigText

  /** std::string's operator<. */
  predicate Less(a: string, b: string)
    decreases a
  {
    b != [] && (a == [] || a[0] < b[0] || (a[0] == b[0] && Less(a[1..], b[1..])))
  }

  lemma {:induction false} LessIsTotal(a: string, b: string)
    ensures Less(a, b) || Less(b, a) || a == b
    decreases a
  {
    if a == [] || b == [] {
    } else if a[0] == b[0] {
      LessIsTotal(a[1..], b[1..]);
      assert a == [a[0]] + a[1..] && b == [b[0]] + b[1..];
    }
  }

  lemma {:induction false} LessIsTransitive(a: string, b: string, c: string)
    requires Less(a, b) && Less(b, c)
    ensures Less(a, c)
    decreases a
  {
    if a == [] {
    } else if a[0] == b[0] == c[0] {
      LessIsTransitive(a[1..], b[1..], c[1..]);
    }
  }

  lemma {:induction false} LessIsIrreflexive(a: string)
    ensures !Less(a, a)
  {
    if a == [] {
    } else {
      LessIsIrreflexive(a[1..]);
    }
  }

  ghost predicate Ascending(entries: seq<Entry>) {
    forall i, j :: 0 <= i < j < |entries| ==> Less(entries[i].0, entries[j].0)
  }

  ghost predicate Distinct(entries: seq<Entry>) {
    forall i, j :: 0 <= i < j < |entries| ==> entries[i].0 != entries[j].0
  }

  /** The entries of the map, no others, in the order of their keys. */
  ghost predicate Lists(entries: seq<Entry>, config: map<string, string>) {
    && (forall i :: 0 <= i < |entries| ==> entries[i].0 in config && config[entries[i].0] == entries[i].1)
    && (forall k :: k in config ==> (k, config[k]) in entries)
    && Ascending(entries)
  }

  lemma AscendingIsDistinct(entries: seq<Entry>)
    requires Ascending(entries)
    ensures Distinct(entries)
  {
    forall i, j | 0 <= i < j < |entries| ensures entries[i].0 != entries[j].0 {
      LessIsIrreflexive(entries[i].0);
    }
  }

  lemma FirstIsLeast(entries: seq<Entry>, e: Entry)
    requires Ascending(entries) && e in entries
    ensures e == entries[0] || Less(entries[0].0, e.0)
  {
  }

  lemma TailLists(entries: seq<Entry>, config: map<string, string>)
    requires entries != [] && Lists(entries, config)
    ensures Lists(entries[1..], config - {entries[0].0})
  {
    AscendingIsDistinct(entries);
    var rest := config - {entries[0].0};
    forall k | k in rest ensures (k, rest[k]) in entries[1..] {
      assert (k, config[k]) in entries;
    }
  }

  lemma ListsNothingIff(entries: seq<Entry>, config: map<string, string>)
    requires Lists(entries, config)
    ensures entries == [] <==> config == map[]
  {
    if entries != [] {
      assert entries[0].0 in config;
    }
    if config != map[] {
      var k :| k in config;
      assert (k, config[k]) in entries;
    }
  }

  /** So there is only one such list, and the file written is a function of the map. */
  lemma {:induction false} ListIsUnique(a: seq<Entry>, b: seq<Entry>, config: map<string, string>)
    requires Lists(a, config) && Lists(b, config)
    ensures a == b
  {
    ListsNothingIff(a, config);
    ListsNothingIff(b, config);
    if a == [] {
    } else {
      assert a[0] in b && b[0] in a by {
        assert a[0] == (a[0].0, config[a[0].0]) && b[0] == (b[0].0, config[b[0].0]);
      }
      FirstIsLeast(a, b[0]);
      FirstIsLeast(b, a[0]);
      if a[0] != b[0] {
        LessIsTransitive(a[0].0, b[0].0, a[0].0);
        LessIsIrreflexive(a[0].0);
      }
      TailLists(a, config);
      TailLists(b, config);
      ListIsUnique(a[1..], b[1..], config - {a[0].0});
      assert a == [a[0]] + a[1..] && b == [b[0]] + b[1..];
    }
  }
}
