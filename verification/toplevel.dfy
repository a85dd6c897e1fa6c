/**
 The top-level configuration object. Go decodes it into a map
 (logdeb.go:154-158), so a key repeated in the document keeps only its
 last value; `Collapse` does the same to the sections in document order.
 */
module TopLevel {

  import opened Common
  import opened Levels
  import opened Rules
  import opened Config
  import opened Registry
  import opened LogDeb

  /** The keys of a list of sections. */
  function SectionNames(sections: seq<Section>): set<string> {
    set i | 0 <= i < |sections| :: sections[i].name
  }

  lemma SectionNamesCons(sections: seq<Section>)
    requires sections != []
    ensures SectionNames(sections) == {sections[0].name} + SectionNames(sections[1..])
  {
    var rest := sections[1..];
    forall n | n in SectionNames(sections) ensures n in {sections[0].name} + SectionNames(rest) {
      var i :| 0 <= i < |sections| && sections[i].name == n;
      if i > 0 { assert rest[i - 1].name == n; }
    }
    forall n | n in SectionNames(rest) ensures n in SectionNames(sections) {
      var i :| 0 <= i < |rest| && rest[i].name == n;
      assert sections[i + 1].name == n;
    }
  }

  /** The writer names are the keys other than "main". */
  lemma WriterNamesAreKeys(sections: seq<Section>)
    ensures WriterNames(sections) == SectionNames(sections) - {MainName}
  {
  }

  /** No key occurs twice: the shape of a decoded Go map. */
  predicate DistinctNames(sections: seq<Section>) {
    forall a, b | 0 <= a < b < |sections| :: sections[a].name != sections[b].name
  }

  /** `s` is the last section of its name in `sections`. */
  predicate IsLast(sections: seq<Section>, s: Section) {
    exists j | 0 <= j < |sections| :: sections[j] == s && LastNamed(sections, j, s.name)
  }

  /**
   The top-level object as `json.Unmarshal` decodes it into
   `map[string]json.RawMessage`: a repeated key keeps only its last value.
   The survivors are listed in the order of their last occurrence, which
   is one of the orders a Go `range` over the map may take.
   */
  function Collapse(sections: seq<Section>): seq<Section>
    decreases |sections|
  {
    if sections == [] then []
    else if sections[0].name in SectionNames(sections[1..]) then Collapse(sections[1..])
    else [sections[0]] + Collapse(sections[1..])
  }

  /** A section that is last of its name in the tail is last of its name in the whole. */
  lemma IsLastCons(sections: seq<Section>, s: Section)
    requires sections != [] && IsLast(sections[1..], s)
    ensures IsLast(sections, s)
  {
    var rest := sections[1..];
    var j :| 0 <= j < |rest| && rest[j] == s && LastNamed(rest, j, s.name);
    assert sections[j + 1] == s;
    forall m | j + 1 < m < |sections| ensures sections[m].name != s.name {
      assert sections[m] == rest[m - 1];
    }
  }

  /** `Collapse` keeps the set of keys and leaves every key once. */
  lemma {:induction false} CollapseKeys(sections: seq<Section>)
    ensures DistinctNames(Collapse(sections))
    ensures SectionNames(Collapse(sections)) == SectionNames(sections)
    decreases |sections|
  {
    if sections != [] {
      var s := sections[0];
      var rest := sections[1..];
      var tail := Collapse(rest);
      CollapseKeys(rest);
      SectionNamesCons(sections);
      if s.name !in SectionNames(rest) {
        var out := [s] + tail;
        assert Collapse(sections) == out;
        assert forall k | 0 < k < |out| :: out[k] == tail[k - 1];
        SectionNamesCons(out);
        assert out[1..] == tail;
        forall b | 0 < b < |out| ensures out[0].name != out[b].name {
          assert tail[b - 1].name in SectionNames(tail);
        }
      }
    }
  }

  /** `Collapse` keeps only the last section of each key, and keeps every last section. */
  lemma {:induction false} CollapseLast(sections: seq<Section>)
    ensures var out := Collapse(sections);
      && (forall k | 0 <= k < |out| :: IsLast(sections, out[k]))
      && (forall j | 0 <= j < |sections| && LastNamed(sections, j, sections[j].name) :: sections[j] in out)
    decreases |sections|
  {
    if sections != [] {
      var s := sections[0];
      var rest := sections[1..];
      var tail := Collapse(rest);
      CollapseLast(rest);
      forall k | 0 <= k < |tail| ensures IsLast(sections, tail[k]) {
        IsLastCons(sections, tail[k]);
      }
      forall j | 0 < j < |sections| && LastNamed(sections, j, sections[j].name) ensures sections[j] in tail {
        assert sections[j] == rest[j - 1];
        assert LastNamed(rest, j - 1, rest[j - 1].name);
      }
      if s.name in SectionNames(rest) {
        var m :| 0 <= m < |rest| && rest[m].name == s.name;
        assert sections[m + 1].name == s.name;
        assert !LastNamed(sections, 0, s.name);
      } else {
        var out := [s] + tail;
        assert Collapse(sections) == out;
        forall m | 0 < m < |sections| ensures sections[m].name != s.name {
          assert rest[m - 1].name in SectionNames(rest);
        }
        assert LastNamed(sections, 0, s.name);
        assert IsLast(sections, out[0]);
      }
    }
  }

  /**
   `Collapse` keeps the set of keys, leaves every key once, keeps only the
   last section of each key, and keeps every last section.
   */
  lemma CollapseSpec(sections: seq<Section>)
    ensures var out := Collapse(sections);
      && DistinctNames(out)
      && SectionNames(out) == SectionNames(sections)
      && (forall k | 0 <= k < |out| :: IsLast(sections, out[k]))
      && (forall j | 0 <= j < |sections| && LastNamed(sections, j, sections[j].name) :: sections[j] in out)
  {
    CollapseKeys(sections);
    CollapseLast(sections);
  }

  /** On distinct keys there is nothing to collapse. */
  lemma {:induction false} CollapseDistinct(sections: seq<Section>)
    requires DistinctNames(sections)
    ensures Collapse(sections) == sections
    decreases |sections|
  {
    if sections != [] {
      var rest := sections[1..];
      assert DistinctNames(rest) by {
        forall a, b | 0 <= a < b < |rest| ensures rest[a].name != rest[b].name {
          assert rest[a] == sections[a + 1] && rest[b] == sections[b + 1];
        }
      }
      CollapseDistinct(rest);
      assert sections[0].name !in SectionNames(rest) by {
        forall m | 0 <= m < |rest| ensures rest[m].name != sections[0].name {
          assert rest[m] == sections[m + 1];
        }
      }
    }
  }

  /** In a list of distinct keys every section is the last of its name. */
  lemma DistinctLast(sections: seq<Section>, k: int)
    requires DistinctNames(sections) && 0 <= k < |sections|
    ensures LastNamed(sections, k, sections[k].name)
  {
  }

  /** The last section of every key is accepted by the construction loop. */
  predicate LastSectionsOk(reg: Registry, sections: seq<Section>) {
    forall i | 0 <= i < |sections| && LastNamed(sections, i, sections[i].name) :: SectionOk(reg, sections[i])
  }

  /** The loop runs on the collapsed sections; only the last copy of a key can panic. */
  lemma CollapseOk(reg: Registry, sections: seq<Section>)
    ensures LastSectionsOk(reg, sections) <==>
      forall k | 0 <= k < |Collapse(sections)| :: SectionOk(reg, Collapse(sections)[k])
    ensures WriterNames(Collapse(sections)) == WriterNames(sections)
  {
    var out := Collapse(sections);
    CollapseSpec(sections);
    WriterNamesAreKeys(sections);
    WriterNamesAreKeys(out);
    if LastSectionsOk(reg, sections) {
      forall k | 0 <= k < |out| ensures SectionOk(reg, out[k]) {
        var j :| 0 <= j < |sections| && sections[j] == out[k] && LastNamed(sections, j, out[k].name);
      }
    }
  }

  /** A writer key that is unregistered, or registered with a nil factory, in any copy, leaves its last copy unacceptable. */
  lemma UnknownWriterPanics(reg: Registry, sections: seq<Section>)
    ensures (exists i | 0 <= i < |sections| :: sections[i].name != MainName && sections[i].name !in reg)
      ==> !LastSectionsOk(reg, sections)
    ensures (exists i | 0 <= i < |sections| :: sections[i].name != MainName && sections[i].name in reg
                                              && reg[sections[i].name].Nil?)
      ==> !LastSectionsOk(reg, sections)
  {
    CollapseSpec(sections);
    if i :| 0 <= i < |sections| && sections[i].name != MainName
            && (sections[i].name !in reg || reg[sections[i].name].Nil?) {
      var j := LastIndex(sections, i);
      assert !SectionOk(reg, sections[j]);
    }
  }

  /** The index of the last section with the same key as `sections[i]`. */
  function LastIndex(sections: seq<Section>, i: int): (j: int)
    requires 0 <= i < |sections|
    ensures i <= j < |sections| && sections[j].name == sections[i].name
    ensures LastNamed(sections, j, sections[i].name)
    decreases |sections| - i
  {
    if exists m | i < m < |sections| :: sections[m].name == sections[i].name then
      var m :| i < m < |sections| && sections[m].name == sections[i].name;
      LastIndex(sections, m)
    else i
  }

  /** The last copy of a key survives `Collapse` as the only section of its key. */
  lemma CollapseKeepsLast(sections: seq<Section>, i: int) returns (k: int)
    requires 0 <= i < |sections| && LastNamed(sections, i, sections[i].name)
    ensures 0 <= k < |Collapse(sections)| && Collapse(sections)[k] == sections[i]
    ensures LastNamed(Collapse(sections), k, sections[i].name)
  {
    CollapseSpec(sections);
    k :| 0 <= k < |Collapse(sections)| && Collapse(sections)[k] == sections[i];
    DistinctLast(Collapse(sections), k);
  }

  /** A "main" section that survives `Collapse` is the last "main" section of the input. */
  lemma CollapseMainWasLast(sections: seq<Section>, k: int) returns (i: int)
    requires 0 <= k < |Collapse(sections)| && Collapse(sections)[k].name == MainName
    ensures 0 <= i < |sections| && sections[i] == Collapse(sections)[k] && LastNamed(sections, i, MainName)
  {
    CollapseSpec(sections);
    assert IsLast(sections, Collapse(sections)[k]);
    i :| 0 <= i < |sections| && sections[i] == Collapse(sections)[k] && LastNamed(sections, i, MainName);
  }
}
