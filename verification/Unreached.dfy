/** The keys config.go does not reach (config.go:251-255, 304-311): those of maps inside lists, and of
    mappings that have a key which is no string, which come out of the YAML parser as maps of another type.

    canonMap goes down from section to section and takes everything else as it is, so what it promises of
    "every key" it keeps for keys reached by keys. The lemmas here say exactly when it holds of every map. */
module Unreached {
  import opened Sections
  import opened Keys
  import opened Config

  /** Every string key of every map is its own relaxed spelling, wherever the map is. */
  ghost predicate CanonEverywhere(v: Value) {
    match v
    case Atom(ListLeaf(items)) => forall i :: 0 <= i < |items| ==> CanonEverywhere(items[i])
    case Atom(MixedLeaf(m)) => forall k :: k in m ==> (k.Word? ==> Canon(k.text) == k.text) && CanonEverywhere(m[k])
    case Atom(_) => true
    case Sec(m) => forall k :: k in m ==> Canon(k) == k && CanonEverywhere(m[k])
  }

  /** No map anywhere holds two spellings of one key. */
  ghost predicate DistinctEverywhere(v: Value) {
    match v
    case Atom(ListLeaf(items)) => forall i :: 0 <= i < |items| ==> DistinctEverywhere(items[i])
    case Atom(MixedLeaf(m)) =>
      && (forall k, l :: k in m && l in m && k.Word? && l.Word? && Canon(k.text) == Canon(l.text) ==> k == l)
      && (forall k :: k in m ==> DistinctEverywhere(m[k]))
    case Atom(_) => true
    case Sec(m) =>
      && (forall k, l :: k in m && l in m && Canon(k) == Canon(l) ==> k == l)
      && (forall k :: k in m ==> DistinctEverywhere(m[k]))
  }

  /** A leaf that holds no map with a key that is not canonical: trivially one that holds no map at all. */
  ghost predicate CanonInside(leaf: Leaf) {
    CanonEverywhere(Atom(leaf))
  }

  /** A leaf that holds no map with two spellings of one key. */
  ghost predicate DistinctInside(leaf: Leaf) {
    DistinctEverywhere(Atom(leaf))
  }

  /** Every leaf that is found at some path is as `ok` says. */
  ghost predicate LeavesOk(v: Value, ok: Leaf -> bool) {
    forall q: Path :: Look(v, q).AtomAt? ==> ok(Look(v, q).leaf)
  }

  lemma LeavesDown(v: Value, ok: Leaf -> bool)
    ensures LeavesOk(v, ok) <==>
            match v case Atom(l) => ok(l) case Sec(m) => forall k :: k in m ==> LeavesOk(m[k], ok)
  {
    if v.Sec? {
      if LeavesOk(v, ok) {
        forall k | k in v.entries ensures LeavesOk(v.entries[k], ok) {
          forall q: Path | Look(v.entries[k], q).AtomAt? ensures ok(Look(v.entries[k], q).leaf) {
            LookDown(v, k, q);
            assert Look(v, [k] + q) == Look(v.entries[k], q);
          }
        }
      }
      if forall k :: k in v.entries ==> LeavesOk(v.entries[k], ok) {
        forall q: Path | Look(v, q).AtomAt? ensures ok(Look(v, q).leaf) {
          assert q != [] && Look(v, q) == Look(v.entries[q[0]], q[1..]);
        }
      }
    } else {
      assert Look(v, []) == AtomAt(v.leaf);
    }
  }

  /** Every key anywhere is canonical exactly when every key reached by keys is, and no leaf found at any
      path, list or mapping, holds a map with one that is not. */
  lemma {:induction false} CanonEverywhereIff(v: Value)
    ensures CanonEverywhere(v) <==> AllCanon(v) && LeavesOk(v, CanonInside)
  {
    hide LeavesOk;
    LeavesDown(v, CanonInside);
    if v.Sec? {
      forall k | k in v.entries
        ensures CanonEverywhere(v.entries[k]) <==> AllCanon(v.entries[k]) && LeavesOk(v.entries[k], CanonInside)
      {
        CanonEverywhereIff(v.entries[k]);
      }
    }
  }

  lemma {:induction false} DistinctEverywhereIff(v: Value)
    ensures DistinctEverywhere(v) <==> NoClash(v) && LeavesOk(v, DistinctInside)
  {
    hide LeavesOk;
    LeavesDown(v, DistinctInside);
    if v.Sec? {
      forall k | k in v.entries
        ensures DistinctEverywhere(v.entries[k]) <==> NoClash(v.entries[k]) && LeavesOk(v.entries[k], DistinctInside)
      {
        DistinctEverywhereIff(v.entries[k]);
      }
    }
  }

  // ------------------------------------------------------------ one document

  /** canonMap leaves every leaf as it was. */
  lemma CanonLeaves(v: Value, ok: Leaf -> bool)
    requires NoClash(v)
    ensures LeavesOk(CanonValue(v), ok) <==> LeavesOk(v, ok)
  {
    hide NoClash, CanonValue, Look;
    if LeavesOk(v, ok) {
      forall q: Path | Look(CanonValue(v), q).AtomAt? ensures ok(Look(CanonValue(v), q).leaf) {
        var path := CanonAddsNothing(v, q);
        assert Look(v, path) == Look(CanonValue(v), q);
      }
    }
    if LeavesOk(CanonValue(v), ok) {
      forall q: Path | Look(v, q).AtomAt? ensures ok(Look(v, q).leaf) {
        CanonKeepsPaths(v, q);
        assert Look(CanonValue(v), CanonPath(q)) == Look(v, q);
      }
    }
  }

  /** A document canonMap accepts comes out canonical in every map exactly when no leaf in it, list or
      mapping, holds a map with a key that is not; and it holds no two spellings of one key, in any map,
      exactly when no leaf in it holds a map with two. */
  lemma AcceptedDocument(v: Value)
    requires NoClash(v)
    ensures CanonEverywhere(CanonValue(v)) <==> LeavesOk(v, CanonInside)
    ensures DistinctEverywhere(CanonValue(v)) <==> LeavesOk(v, DistinctInside)
    ensures DistinctEverywhere(v) <==> LeavesOk(v, DistinctInside)
  {
    hide NoClash, CanonValue, LeavesOk, CanonEverywhere, DistinctEverywhere, AllCanon;
    CanonValueCanonical(v);
    CanonLeaves(v, CanonInside);
    CanonLeaves(v, DistinctInside);
    CanonEverywhereIff(CanonValue(v));
    DistinctEverywhereIff(CanonValue(v));
    DistinctEverywhereIff(v);
    CanonNoClash(CanonValue(v));
  }

  lemma {:induction false} CanonNoClash(v: Value)
    requires AllCanon(v)
    ensures NoClash(v)
  {
    if v.Sec? {
      forall k | k in v.entries ensures NoClash(v.entries[k]) {
        CanonNoClash(v.entries[k]);
      }
    }
  }

  /** A document with one entry, which is a leaf. */
  function OneLeaf(key: string, leaf: Leaf): Value {
    Sec(map[key := Atom(leaf)])
  }

  /** canonMap accepts a document of one leaf whatever maps are in the leaf, and leaves them as they are. */
  lemma LeafEscapes(key: string, leaf: Leaf)
    ensures NoClash(OneLeaf(key, leaf))
    ensures CanonEverywhere(CanonValue(OneLeaf(key, leaf))) <==> CanonInside(leaf)
    ensures DistinctEverywhere(CanonValue(OneLeaf(key, leaf))) <==> DistinctInside(leaf)
  {
    hide Canon, CanonValue, LeavesOk, CanonEverywhere, DistinctEverywhere;
    var v := OneLeaf(key, leaf);
    AcceptedDocument(v);
    LeavesDown(v, CanonInside);
    LeavesDown(v, DistinctInside);
    LeavesDown(v.entries[key], CanonInside);
    LeavesDown(v.entries[key], DistinctInside);
  }

  /** A map with these two entries. */
  function Pair(k: string, x: Value, l: string, y: Value): Value {
    Sec(map[k := x, l := y])
  }

  lemma PairClashes(k: string, x: Value, l: string, y: Value)
    requires k != l && Canon(k) == Canon(l)
    ensures !DistinctEverywhere(Pair(k, x, l, y)) && !CanonEverywhere(Pair(k, x, l, y))
  {
    hide Canon;
    assert k in Pair(k, x, l, y).entries && l in Pair(k, x, l, y).entries;
  }

  /** Whatever two spellings of one key stand in a map inside a list (key: [{k: x, l: y}]), canonMap accepts
      the document and leaves them there. */
  lemma ListsEscape(key: string, k: string, x: Value, l: string, y: Value)
    requires k != l && Canon(k) == Canon(l)
    ensures var v := OneLeaf(key, ListLeaf([Pair(k, x, l, y)]));
            NoClash(v) && !CanonEverywhere(CanonValue(v)) && !DistinctEverywhere(CanonValue(v))
  {
    hide Canon, CanonValue, NoClash, Pair, OneLeaf;
    var leaf := ListLeaf([Pair(k, x, l, y)]);
    PairClashes(k, x, l, y);
    assert leaf.items[0] == Pair(k, x, l, y);
    LeafEscapes(key, leaf);
  }

  /** And so it does under a key that is no string (key: {8080: {k: x, l: y}}), with no list anywhere. */
  lemma MappingsEscape(key: string, number: int, k: string, x: Value, l: string, y: Value)
    requires k != l && Canon(k) == Canon(l)
    ensures var v := OneLeaf(key, MixedLeaf(map[NoWord(number) := Pair(k, x, l, y)]));
            NoClash(v) && !CanonEverywhere(CanonValue(v)) && !DistinctEverywhere(CanonValue(v))
  {
    hide Canon, CanonValue, NoClash, Pair, OneLeaf;
    var leaf := MixedLeaf(map[NoWord(number) := Pair(k, x, l, y)]);
    PairClashes(k, x, l, y);
    assert leaf.under[NoWord(number)] == Pair(k, x, l, y);
    LeafEscapes(key, leaf);
  }

  lemma CanonOf(c: char)
    ensures Canon([c]) == if c == '-' || c == '_' then [] else [Lower(c)]
  {
    assert [c][1..] == [];
  }

  lemma TwoSpellings(a: string, b: string)
    ensures Canon("R" + a + "-" + b) == Canon("r" + a + b)
  {
    hide Canon;
    CanonAppend("R" + a + "-", b);
    CanonAppend("R" + a, "-");
    CanonAppend("R", a);
    CanonAppend("r" + a, b);
    CanonAppend("r", a);
    CanonOf('R');
    CanonOf('r');
    CanonOf('-');
  }

  /** servers: [{Read-Timeout: x, readTimeout: y}] and limits: {8080: {Read-Timeout: x, readTimeout: y}} are
      two such documents. */
  lemma ReadTimeoutEscapes(x: Value, y: Value)
    ensures var v := OneLeaf("servers", ListLeaf([Pair("Read-Timeout", x, "readTimeout", y)]));
            NoClash(v) && !CanonEverywhere(CanonValue(v)) && !DistinctEverywhere(CanonValue(v))
    ensures var v := OneLeaf("limits", MixedLeaf(map[NoWord(8080) := Pair("Read-Timeout", x, "readTimeout", y)]));
            NoClash(v) && !CanonEverywhere(CanonValue(v)) && !DistinctEverywhere(CanonValue(v))
  {
    hide Canon, CanonValue, NoClash, CanonEverywhere, DistinctEverywhere, OneLeaf, Pair;
    TwoSpellings("ead", "Timeout");
    assert "Read-Timeout" == "R" + "ead" + "-" + "Timeout";
    assert "readTimeout" == "r" + "ead" + "Timeout";
    ListsEscape("servers", "Read-Timeout", x, "readTimeout", y);
    MappingsEscape("limits", 8080, "Read-Timeout", x, "readTimeout", y);
  }

  // --------------------------------------------------------- the whole Load

  /** A leaf of layer i that no later layer claims. */
  ghost predicate Survives(layers: seq<Value>, i: int, q: Path) {
    0 <= i < |layers| && Look(layers[i], q).AtomAt? && forall j :: i < j < |layers| ==> !Claims(layers[j], q)
  }

  lemma {:induction false} LastClaimer(layers: seq<Value>, q: Path) returns (i: int)
    ensures -1 <= i < |layers| && (i >= 0 ==> Claims(layers[i], q))
    ensures forall j :: i < j < |layers| ==> !Claims(layers[j], q)
    decreases |layers|
  {
    hide Claims;
    i := |layers| - 1;
    if layers != [] && !Claims(layers[i], q) {
      i := LastClaimer(layers[..i], q);
    }
  }

  /** What is found in a stack of layers is exactly what survives of them, each leaf as a whole. */
  lemma StackLeaves(layers: seq<Value>, ok: Leaf -> bool)
    ensures LeavesOk(Stack(layers), ok) <==>
            forall i, q: Path :: Survives(layers, i, q) ==> ok(Look(layers[i], q).leaf)
  {
    if LeavesOk(Stack(layers), ok) {
      forall i, q: Path | Survives(layers, i, q) ensures ok(Look(layers[i], q).leaf) {
        LastClaimWins(layers, q, i);
        assert Look(Stack(layers), q).AtomAt?;
      }
    }
    if forall i, q: Path :: Survives(layers, i, q) ==> ok(Look(layers[i], q).leaf) {
      forall q: Path | Look(Stack(layers), q).AtomAt? ensures ok(Look(Stack(layers), q).leaf) {
        var i := LastClaimer(layers, q);
        if i >= 0 {
          LastClaimWins(layers, q, i);
          assert Survives(layers, i, q);
        } else if q != [] {
          NoClaimNothing(layers, q);
        }
      }
    }
  }

  /** The loaded configuration has canonical keys in every map anywhere exactly when no leaf that survives
      from some layer, list or mapping, holds a map with a key that is not, and no two spellings of one
      key in any map exactly when no such leaf holds a map with two. */
  lemma LoadedEverywhereIff(ss: seq<Source>, env: seq<string>, prefix: string, f: Format, parse: string -> Leaf)
    requires AllUsable(ss, f, parse)
    ensures var layers := LoadLayers(ss, env, prefix, f, parse);
            && (CanonEverywhere(Stack(layers)) <==>
                  forall i, q: Path :: Survives(layers, i, q) ==> CanonInside(Look(layers[i], q).leaf))
            && (DistinctEverywhere(Stack(layers)) <==>
                  forall i, q: Path :: Survives(layers, i, q) ==> DistinctInside(Look(layers[i], q).leaf))
  {
    hide CanonEverywhere, DistinctEverywhere, AllCanon, NoClash, LeavesOk, LoadLayers, Stack, Survives, AllUsable;
    var layers := LoadLayers(ss, env, prefix, f, parse);
    LoadedCanonical(ss, env, prefix, f, parse);
    CanonNoClash(Stack(layers));
    CanonEverywhereIff(Stack(layers));
    DistinctEverywhereIff(Stack(layers));
    StackLeaves(layers, CanonInside);
    StackLeaves(layers, DistinctInside);
  }
}
