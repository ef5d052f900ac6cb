/** The material checkboxes: `materiali` maps each material name to whether
    its checkbox is ticked, and every handler keeps exactly one ticked. */
module Materials {

  /** The five materials of the torus page, in the order of its literal. */
  const FiveMaterials: seq<string> := ["brass", "emerald", "bronze", "jade", "gold"]

  /** The gems and metals of the cone pages' `materialData` table. */
  const Minerals: seq<string> := [
    "emerald", "jade", "obsidian", "pearl", "ruby", "turquoise",
    "brass", "bronze", "chrome", "copper", "gold", "silver"
  ]

  /** The plastics and rubbers of the same table. */
  const Synthetics: seq<string> := [
    "blackPlastic", "cyanPlastic", "greenPlastic", "redPlastic", "whitePlastic", "yellowPlastic",
    "blackRubber", "cyanRubber", "greenRubber", "redRubber", "whiteRubber", "yellowRubber"
  ]

  /** The keys of the cone pages' `materialData` table, in table order. */
  const MaterialNames: seq<string> := Minerals + Synthetics

  /** The material every page starts with. */
  const Initial: string := "brass"

  /** Exactly `key` is ticked. */
  predicate OnlySelected(m: map<string, bool>, key: string)
  {
    key in m && m[key] && forall k :: k in m && k != key ==> !m[k]
  }

  /** Exactly one checkbox is ticked. */
  predicate ExactlyOne(m: map<string, bool>)
  {
    exists key :: key in m && OnlySelected(m, key)
  }

  /** Every checkbox unticked, over the same names. */
  function Cleared(m: map<string, bool>): (r: map<string, bool>)
    ensures r.Keys == m.Keys
    ensures forall k :: k in r ==> !r[k]
  {
    map k | k in m :: false
  }

  /** What a handler leaves behind when `key` is ticked: every other name
      unticked, `key` ticked, and no name lost. */
  function Select(m: map<string, bool>, key: string): (r: map<string, bool>)
    ensures r.Keys == m.Keys + {key}
    ensures OnlySelected(r, key)
  {
    Cleared(m)[key := true]
  }

  /** Ticking a listed material keeps the set of names. */
  lemma SelectKeepsKeys(m: map<string, bool>, key: string)
    requires key in m
    ensures Select(m, key).Keys == m.Keys
  {
  }

  /** At most one name can be the only one ticked. */
  lemma OnlySelectedUnique(m: map<string, bool>, a: string, b: string)
    requires OnlySelected(m, a) && OnlySelected(m, b)
    ensures a == b
  {
  }

  /** Ticking `key` again changes nothing. */
  lemma SelectIdempotent(m: map<string, bool>, key: string)
    ensures Select(Select(m, key), key) == Select(m, key)
  {
    var once := Select(m, key);
    var twice := Select(once, key);
    assert twice.Keys == once.Keys;
    forall k | k in twice
      ensures twice[k] == once[k]
    {
    }
  }

  /** Only the last choice matters: ticking a, then b, is ticking b. */
  lemma SelectLastWins(m: map<string, bool>, a: string, b: string)
    requires a in m
    ensures Select(Select(m, a), b) == Select(m, b)
  {
    var left := Select(Select(m, a), b);
    var right := Select(m, b);
    assert left.Keys == right.Keys;
    forall k | k in left
      ensures left[k] == right[k]
    {
    }
  }

  /** If the map already has exactly `key` ticked, ticking `key` is a no-op. */
  lemma SelectSelected(m: map<string, bool>, key: string)
    requires OnlySelected(m, key)
    ensures Select(m, key) == m
  {
    var r := Select(m, key);
    assert r.Keys == m.Keys;
    forall k | k in r
      ensures r[k] == m[k]
    {
    }
  }

  /** Pairwise different names. */
  predicate Distinct(names: seq<string>)
  {
    forall i, j :: 0 <= i < j < |names| ==> names[i] != names[j]
  }

  /** A table of distinct names gives one checkbox per name. */
  lemma {:induction false} DistinctKeyCount(names: seq<string>)
    requires Distinct(names)
    ensures |set k | k in names| == |names|
  {
    if names != [] {
      var init := names[..|names| - 1];
      var last := names[|names| - 1];
      DistinctKeyCount(init);
      assert (set k | k in names) == (set k | k in init) + {last};
      assert last !in init;
    }
  }

  class MaterialPanel {
    /** `materiali`: name to checkbox state. */
    var materiali: map<string, bool>

    /** The torus page's literal: brass ticked, the other four not. */
    constructor Literal()
      ensures materiali == map["brass" := true, "emerald" := false, "bronze" := false, "jade" := false, "gold" := false]
      ensures materiali.Keys == set k | k in FiveMaterials
      ensures OnlySelected(materiali, Initial)
    {
      materiali := map["brass" := true, "emerald" := false, "bronze" := false, "jade" := false, "gold" := false];
    }

    /** The cone pages' initialisation: a false entry for every name of
        the table, then brass ticked. */
    constructor FromTable(names: seq<string>)
      ensures materiali.Keys == (set k | k in names) + {Initial}
      ensures OnlySelected(materiali, Initial)
    {
      materiali := map[];
      new;
      var n := 0;
      while n < |names|
        invariant 0 <= n <= |names|
        invariant materiali.Keys == set k | k in names[..n]
        invariant forall k :: k in materiali ==> !materiali[k]
      {
        assert names[..n + 1] == names[..n] + [names[n]];
        materiali := materiali[names[n] := false];
        n := n + 1;
      }
      assert names[..n] == names;
      materiali := materiali[Initial := true];
    }

    /** `onFinishChange(value)` of the checkbox for `material`: when the box
        was ticked, untick every name, then tick `material`; an unticked box
        leaves the map as it is. */
    method OnFinishChange(material: string, value: bool)
      modifies this
      ensures value ==> materiali == Select(old(materiali), material)
      ensures !value ==> materiali == old(materiali)
    {
      if value == true {
        var pending := materiali.Keys;
        while pending != {}
          invariant pending <= materiali.Keys
          invariant materiali.Keys == old(materiali).Keys
          invariant forall k :: k in materiali && k !in pending ==> !materiali[k]
          decreases pending
        {
          var i :| i in pending;
          materiali := materiali[i := false];
          pending := pending - {i};
        }
        assert materiali == Cleared(old(materiali));
        materiali := materiali[material := true];
      }
    }
  }

  /** No name of the first list appears in the second. */
  predicate Apart(a: seq<string>, b: seq<string>)
  {
    forall i, j :: 0 <= i < |a| && 0 <= j < |b| ==> a[i] != b[j]
  }

  lemma DistinctConcat(a: seq<string>, b: seq<string>)
    requires Distinct(a) && Distinct(b) && Apart(a, b)
    ensures Distinct(a + b)
  {
    forall i, j | 0 <= i < j < |a + b|
      ensures (a + b)[i] != (a + b)[j]
    {
      if j < |a| {
        assert (a + b)[i] == a[i] && (a + b)[j] == a[j];
      } else if i < |a| {
        assert (a + b)[i] == a[i] && (a + b)[j] == b[j - |a|];
      } else {
        assert (a + b)[i] == b[i - |a|] && (a + b)[j] == b[j - |a|];
      }
    }
  }

  lemma MineralsDistinct()
    ensures Distinct(Minerals)
  {
    forall i, j | 0 <= i < j < |Minerals|
      ensures Minerals[i] != Minerals[j]
    {
      assert |Minerals[i]| != |Minerals[j]| || Minerals[i][0] != Minerals[j][0]
        || Minerals[i][1] != Minerals[j][1];
    }
  }

  lemma SyntheticsDistinct()
    ensures Distinct(Synthetics)
  {
    forall i, j | 0 <= i < j < |Synthetics|
      ensures Synthetics[i] != Synthetics[j]
    {
      assert |Synthetics[i]| != |Synthetics[j]| || Synthetics[i][0] != Synthetics[j][0];
    }
  }

  /** The gems and metals are at most 9 letters long and the plastics and
      rubbers at least 9; the one length they share, 9, starts with a
      different letter on each side. */
  lemma MineralsApart()
    ensures Apart(Minerals, Synthetics)
  {
    forall i, j | 0 <= i < |Minerals| && 0 <= j < |Synthetics|
      ensures Minerals[i] != Synthetics[j]
    {
      assert |Minerals[i]| < |Synthetics[j]| || Minerals[i][0] != Synthetics[j][0];
    }
  }

  /** No name appears twice in the table. */
  lemma MaterialNamesDistinct()
    ensures Distinct(MaterialNames)
  {
    MineralsDistinct();
    SyntheticsDistinct();
    MineralsApart();
    DistinctConcat(Minerals, Synthetics);
  }

  /** A table of distinct names that lists brass gives, after the
      initialisation, one checkbox per name and no other. */
  lemma TableKeys(names: seq<string>, m: map<string, bool>)
    requires Distinct(names) && Initial in names
    requires m.Keys == (set k | k in names) + {Initial}
    ensures m.Keys == set k | k in names
    ensures |m.Keys| == |names|
  {
    DistinctKeyCount(names);
  }

  /** The cone pages' table has 24 distinct names, brass among them. */
  lemma MaterialTable()
    ensures |MaterialNames| == 24
    ensures Distinct(MaterialNames) && Initial in MaterialNames
  {
    assert MaterialNames[6] == Initial;
    MaterialNamesDistinct();
  }

  /** The one case no handler restores: when the checkbox of the only ticked
      name is unticked, the map holds `false` for it and then no name is
      ticked, since a handler fed `false` changes nothing. */
  lemma UntickLeavesNone(m: map<string, bool>, key: string)
    requires OnlySelected(m, key)
    ensures !ExactlyOne(m[key := false])
    ensures forall k :: k in m ==> !m[key := false][k]
  {
  }

  /** Any handler for a listed name, fed `true`, keeps the names and leaves
      exactly one ticked. */
  lemma HandlerKeepsOneTicked(m: map<string, bool>, material: string)
    requires material in m
    ensures Select(m, material).Keys == m.Keys
    ensures ExactlyOne(Select(m, material))
    ensures forall k :: OnlySelected(Select(m, material), k) ==> k == material
  {
    forall k | OnlySelected(Select(m, material), k)
      ensures k == material
    {
      OnlySelectedUnique(Select(m, material), k, material);
    }
  }
}
