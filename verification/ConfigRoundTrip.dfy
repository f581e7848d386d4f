/** Every mapping that a configuration file can hold can be written as one, and is what reading that file gives. */
module ConfigRoundTrip {
  import opened ConfigSyntax
  import opened ConfigText

  /** Names, keys and values are within the format; no key is without a value and no section without a key. */
  ghost predicate Storable(m: Mapping) {
    forall s :: s in m ==> (s == "" || (PlainName(s) && ']' !in s)) && StorableSection(m[s])
  }

  ghost predicate StorableSection(inner: map<string, seq<string>>) {
    inner != map[] && forall k :: k in inner ==> PlainKey(k) && inner[k] != [] && StorableValues(k, inner[k])
  }

  ghost predicate StorableValues(key: string, values: seq<string>) {
    forall i :: 0 <= i < |values| ==> PlainValue(values[i]) && |key| + |values[i]| < 127
  }

  // ---- writing ----

  lemma {:induction false} OneMore(doc: seq<Entry>, e: Entry, section: string, key: string)
    ensures SectionAfter(doc + [e]) == if e.Section? then e.name else SectionAfter(doc)
    ensures EntryValues(doc + [e], section, key) == EntryValues(doc, section, key)
            + if e.Setting? && e.key == key && SectionAfter(doc) == section then [e.value] else []
  {
    assert (doc + [e])[..|doc|] == doc;
  }

  /** All values of one key, in order. */
  lemma {:induction false} WriteValues(doc: seq<Entry>, key: string, values: seq<string>) returns (doc': seq<Entry>)
    requires AllWritable(doc) && PlainKey(key) && StorableValues(key, values)
    ensures AllWritable(doc') && SectionAfter(doc') == SectionAfter(doc)
    ensures forall s, k :: EntryValues(doc', s, k)
                           == EntryValues(doc, s, k) + if s == SectionAfter(doc) && k == key then values else []
  {
    if values == [] {
      doc' := doc;
    } else {
      var n := |values| - 1;
      var half := WriteValues(doc, key, values[..n]);
      doc' := half + [Setting(key, values[n])];
      assert values == values[..n] + [values[n]];
      OneMore(half, Setting(key, values[n]), "", "");
      forall s, k
        ensures EntryValues(doc', s, k)
                == EntryValues(doc, s, k) + if s == SectionAfter(doc) && k == key then values else []
      {
        OneMore(half, Setting(key, values[n]), s, k);
      }
    }
  }

  /** Some keys of a section, all of them new to it. */
  lemma {:induction false} WriteKeys(doc: seq<Entry>, inner: map<string, seq<string>>, keys: set<string>)
    returns (doc': seq<Entry>)
    requires AllWritable(doc) && StorableSection(inner) && keys <= inner.Keys
    requires forall k :: k in keys ==> EntryValues(doc, SectionAfter(doc), k) == []
    ensures AllWritable(doc') && SectionAfter(doc') == SectionAfter(doc)
    ensures forall s, k :: EntryValues(doc', s, k)
                           == if s == SectionAfter(doc) && k in keys then inner[k] else EntryValues(doc, s, k)
    decreases |keys|
  {
    if keys == {} {
      doc' := doc;
    } else {
      var key :| key in keys;
      var half := WriteKeys(doc, inner, keys - {key});
      assert PlainKey(key) && StorableValues(key, inner[key]);
      assert EntryValues(half, SectionAfter(doc), key) == [];
      doc' := WriteValues(half, key, inner[key]);
      forall s, k
        ensures EntryValues(doc', s, k)
                == if s == SectionAfter(doc) && k in keys then inner[k] else EntryValues(doc, s, k)
      {
        assert EntryValues(half, s, k)
               == if s == SectionAfter(doc) && k in keys - {key} then inner[k] else EntryValues(doc, s, k);
      }
    }
  }

  /** What m holds for a key in the unnamed section and the sections names. */
  ghost function Held(m: Mapping, names: set<string>, s: string, k: string): seq<string> {
    if (s == "" || s in names) && s in m && k in m[s] then m[s][k] else []
  }

  /** doc holds what m does, in the unnamed section and the sections names. */
  ghost predicate Holds(doc: seq<Entry>, m: Mapping, names: set<string>) {
    forall s, k :: EntryValues(doc, s, k) == Held(m, names, s, k)
  }

  lemma {:induction false} WriteHeader(doc: seq<Entry>, m: Mapping, names: set<string>, name: string)
    requires AllWritable(doc) && Storable(m) && Holds(doc, m, names) && name in m && name != ""
    ensures AllWritable(doc + [Section(name)]) && SectionAfter(doc + [Section(name)]) == name
    ensures Holds(doc + [Section(name)], m, names)
  {
    OneMore(doc, Section(name), "", "");
    forall s, k
      ensures EntryValues(doc + [Section(name)], s, k) == Held(m, names, s, k)
    {
      OneMore(doc, Section(name), s, k);
    }
  }

  lemma {:induction false} HeldMore(m: Mapping, names: set<string>, name: string, s: string, k: string)
    requires name in m && name != "" && name !in names
    ensures Held(m, names, name, k) == []
    ensures Held(m, names + {name}, s, k) == if s == name && k in m[name] then m[name][k] else Held(m, names, s, k)
  {
  }

  /** One more section under its header: its keys after head. */
  lemma {:induction false} WriteSection(head: seq<Entry>, m: Mapping, names: set<string>, name: string,
                                        inner: map<string, seq<string>>) returns (doc: seq<Entry>)
    requires AllWritable(head) && SectionAfter(head) == name && Holds(head, m, names)
    requires name in m && name != "" && name !in names && inner == m[name] && StorableSection(inner)
    ensures AllWritable(doc) && Holds(doc, m, names + {name})
  {
    forall k | k in inner.Keys
      ensures EntryValues(head, name, k) == []
    {
      assert EntryValues(head, name, k) == Held(m, names, name, k);
      HeldMore(m, names, name, name, k);
    }
    doc := WriteKeys(head, inner, inner.Keys);
    forall s, k
      ensures EntryValues(doc, s, k) == Held(m, names + {name}, s, k)
    {
      assert EntryValues(head, s, k) == Held(m, names, s, k);
      HeldMore(m, names, name, s, k);
    }
  }

  /** The unnamed section first, then the others. */
  lemma {:induction false} WriteSections(m: Mapping, names: set<string>) returns (doc: seq<Entry>)
    requires Storable(m) && names <= m.Keys && "" !in names
    ensures AllWritable(doc) && Holds(doc, m, names)
    decreases |names|
  {
    if names == {} {
      doc := WriteUnnamed(m);
    } else {
      var name :| name in names;
      doc := WriteSections(m, names - {name});
      WriteHeader(doc, m, names - {name}, name);
      doc := WriteSection(doc + [Section(name)], m, names - {name}, name, m[name]);
      assert names - {name} + {name} == names;
    }
  }

  lemma {:induction false} WriteUnnamed(m: Mapping) returns (doc: seq<Entry>)
    requires Storable(m)
    ensures AllWritable(doc) && Holds(doc, m, {})
  {
    doc := [];
    if "" in m {
      doc := WriteKeys([], m[""], m[""].Keys);
    }
  }

  // ---- reading ----

  /** No section without a key, no key without a value. */
  ghost predicate Full(m: Mapping) {
    forall s :: s in m ==> m[s] != map[] && forall k :: k in m[s] ==> m[s][k] != []
  }

  lemma {:induction false} ParsedIsFull(lines: seq<string>)
    ensures Parse(lines).Running? ==> Full(Parse(lines).mapping)
  {
    if lines != [] {
      var n := |lines| - 1;
      ParsedIsFull(lines[..n]);
      var o, line := Parse(lines[..n]), Classify(lines[n]);
      if o.Running? && line.Pair? {
        AddedIsFull(o.mapping, o.section, line.key, line.value);
      }
    }
  }

  lemma {:induction false} AddedIsFull(m: Mapping, section: string, key: string, value: string)
    requires Full(m)
    ensures Full(Add(m, section, key, value))
  {
    assert key in Add(m, section, key, value)[section];
  }

  /** Full mappings with the same values for every section and key are the same. */
  lemma {:induction false} SameMapping(m: Mapping, n: Mapping, doc: seq<Entry>)
    requires Full(m) && Full(n) && Means(m, doc) && Means(n, doc)
    ensures m == n
  {
    forall s | s in m
      ensures s in n && m[s] == n[s]
    {
      SameSection(m, n, doc, s);
    }
    forall s | s in n
      ensures s in m
    {
      SameSection(n, m, doc, s);
    }
  }

  lemma {:induction false} SameSection(m: Mapping, n: Mapping, doc: seq<Entry>, s: string)
    requires Full(m) && Full(n) && Means(m, doc) && Means(n, doc) && s in m
    ensures s in n && m[s] == n[s]
  {
    var k :| k in m[s];
    assert Present(m, s, k) && Present(n, s, k);
    forall k | k in m[s]
      ensures k in n[s] && m[s][k] == n[s][k]
    {
      assert Present(m, s, k) && Present(n, s, k) && Lookup(m, s, k) == Lookup(n, s, k);
    }
    forall k | k in n[s]
      ensures k in m[s]
    {
      assert Present(n, s, k) && Present(m, s, k);
    }
  }

  /** Whatever mapping is to be stored, there is a file that reads as exactly that mapping. */
  lemma {:induction false} MappingRoundTrip(m: Mapping)
    requires Storable(m)
    ensures exists doc ::
              && AllWritable(doc) && Parse(Lines(Render(doc), 0)).Running? && Parse(Lines(Render(doc), 0)).mapping == m
  {
    var doc := WriteSections(m, m.Keys - {""});
    forall s, k
      ensures Lookup(m, s, k) == EntryValues(doc, s, k)
      ensures Present(m, s, k) <==> EntryValues(doc, s, k) != []
    {
      assert EntryValues(doc, s, k) == Held(m, m.Keys - {""}, s, k);
    }
    ReadsBack(doc);
    ParsedIsFull(Lines(Render(doc), 0));
    SameMapping(Parse(Lines(Render(doc), 0)).mapping, m, doc);
  }
}
