/** The values config.go merges, and the algebra of the merge (config.go:318-328).

    A parsed document is a tree: a section maps keys to values, and everything that is not a
    section is an atom, lists included, because the merge replaces both wholesale. A section is what
    config.go sees as one, a map with string keys. A mapping of the document with a key that is no
    string (8080: ...) comes out of the YAML parser as a map of another type: an atom too, replaced
    wholesale. The items of a list and the entries of such a mapping are values again, maps among
    them, which nothing in config.go looks into. `Overlay` is
    the value a merge leaves behind; the lemmas below say what it means path by path. */
module Sections {

  /** A key of a mapping of any kind: a string, or something else, told apart by number. */
  datatype Key = Word(text: string) | NoWord(id: int)

  datatype Leaf =
    | Null | BoolLeaf(b: bool) | IntLeaf(n: int) | FloatLeaf(r: real) | TextLeaf(s: string)
    | ListLeaf(items: seq<Value>) | MixedLeaf(under: map<Key, Value>)

  datatype Value = Atom(leaf: Leaf) | Sec(entries: map<string, Value>)

  /** What stands at a path: nothing, a leaf, or a section (whatever it holds). */
  datatype Found = Absent | AtomAt(leaf: Leaf) | SecAt

  type Path = seq<string>

  const EMPTY: Value := Sec(map[])

  /** src laid over dst: two sections merge key by key, anything else is replaced. */
  function Overlay(dst: Value, src: Value): Value
    decreases src
  {
    if dst.Sec? && src.Sec? then
      Sec(map k | k in dst.entries.Keys + src.entries.Keys ::
            if k !in src.entries then dst.entries[k]
            else if k !in dst.entries then src.entries[k]
            else Overlay(dst.entries[k], src.entries[k]))
    else src
  }

  /** The left fold of Load: each layer laid over everything before it. */
  function Stack(layers: seq<Value>): Value {
    if layers == [] then EMPTY
    else Overlay(Stack(layers[..|layers| - 1]), layers[|layers| - 1])
  }

  /** The one-leaf document that puts `leaf` at `path`. */
  function Chain(path: Path, leaf: Leaf): Value {
    if path == [] then Atom(leaf) else Sec(map[path[0] := Chain(path[1..], leaf)])
  }

  function Look(v: Value, path: Path): Found {
    match v
    case Atom(l) => if path == [] then AtomAt(l) else Absent
    case Sec(m) =>
      if path == [] then SecAt
      else if path[0] in m then Look(m[path[0]], path[1..])
      else Absent
  }

  /** A document claims a path when it puts anything there, or a leaf at a proper prefix of it. */
  ghost predicate Claims(v: Value, path: Path) {
    Look(v, path) != Absent || AtomAbove(v, path)
  }

  ghost predicate AtomAbove(v: Value, path: Path) {
    exists i :: 0 <= i < |path| && Look(v, path[..i]).AtomAt?
  }

  /** a holds something strictly below a path where b has a leaf and c has a section again, and
      c says nothing about it. */
  ghost predicate BuriedAt(a: Value, b: Value, c: Value, p: Path, q: Path) {
    p < q && Look(b, p).AtomAt? && Look(c, p).SecAt? && Look(a, q) != Absent && !Claims(c, q)
  }

  ghost predicate Buried(a: Value, b: Value, c: Value) {
    exists p: Path, q: Path :: BuriedAt(a, b, c, p, q)
  }

  /** No path is a section in one of the two and a leaf in the other. */
  ghost predicate SameKinds(a: Value, b: Value) {
    forall p: Path :: !(Look(a, p).SecAt? && Look(b, p).AtomAt?) && !(Look(a, p).AtomAt? && Look(b, p).SecAt?)
  }

  // ---------------------------------------------------------------- paths

  /** A claim of a section, one key further down. */
  lemma ClaimsDown(m: map<string, Value>, path: Path)
    requires path != []
    ensures Claims(Sec(m), path) <==> path[0] in m && Claims(m[path[0]], path[1..])
  {
    var v := Sec(m);
    if path[0] in m && AtomAbove(m[path[0]], path[1..]) {
      var i :| 0 <= i < |path[1..]| && Look(m[path[0]], path[1..][..i]).AtomAt?;
      assert path[..i + 1][1..] == path[1..][..i];
      assert Look(v, path[..i + 1]).AtomAt?;
    }
    if AtomAbove(v, path) {
      var i :| 0 <= i < |path| && Look(v, path[..i]).AtomAt?;
      assert i > 0;
      assert path[..i][1..] == path[1..][..i - 1];
    }
  }

  lemma AtomClaims(leaf: Leaf, path: Path)
    ensures Claims(Atom(leaf), path)
  {
    if path != [] {
      assert Look(Atom(leaf), path[..0]).AtomAt?;
    }
  }

  lemma LookHere(v: Value)
    ensures Look(v, []) == match v case Atom(l) => AtomAt(l) case Sec(_) => SecAt
  {
  }

  lemma LookDown(v: Value, k: string, path: Path)
    ensures Look(v, [k] + path) == if v.Sec? && k in v.entries then Look(v.entries[k], path) else Absent
  {
    assert ([k] + path)[1..] == path;
  }

  /** Two values that show the same thing at every path are the same value. */
  lemma {:induction false} LookDetermines(a: Value, b: Value)
    requires forall p: Path :: Look(a, p) == Look(b, p)
    ensures a == b
  {
    hide Look;
    assert Look(a, []) == Look(b, []);
    LookHere(a);
    LookHere(b);
    if a.Sec? {
      forall k: string
        ensures k in a.entries <==> k in b.entries
        ensures k in a.entries ==> a.entries[k] == b.entries[k]
      {
        SameKey(a, b, k);
        if k in a.entries {
          forall p: Path ensures Look(a.entries[k], p) == Look(b.entries[k], p) {
            assert Look(a, [k] + p) == Look(b, [k] + p);
            LookDown(a, k, p);
            LookDown(b, k, p);
          }
          LookDetermines(a.entries[k], b.entries[k]);
        }
      }
    }
  }

  lemma SameKey(a: Value, b: Value, k: string)
    requires a.Sec? && b.Sec? && forall p: Path :: Look(a, p) == Look(b, p)
    ensures k in a.entries <==> k in b.entries
  {
    hide Look;
    assert Look(a, [k] + []) == Look(b, [k] + []);
    LookDown(a, k, []);
    LookDown(b, k, []);
    if k in a.entries {
      LookHere(a.entries[k]);
    }
    if k in b.entries {
      LookHere(b.entries[k]);
    }
  }

  // ------------------------------------------------------------ precedence

  /** What a merge shows at a path: the source where it claims the path, else what was there. A list, or a
      mapping with a key that is no string, is one leaf here and is replaced as a whole. */
  lemma {:induction false} LookOverlay(dst: Value, src: Value, path: Path)
    ensures Look(Overlay(dst, src), path) == if Claims(src, path) then Look(src, path) else Look(dst, path)
    decreases |path|
  {
    if src.Atom? {
      AtomClaims(src.leaf, path);
    } else if path != [] {
      ClaimsDown(src.entries, path);
      if dst.Sec? && path[0] in dst.entries && path[0] in src.entries {
        LookOverlay(dst.entries[path[0]], src.entries[path[0]], path[1..]);
      } else if path[0] in src.entries && !Claims(src, path) {
        assert Look(src, path) == Absent;
      }
    }
  }

  /** The precedence theorem: the last layer that claims a path decides what stands there,
      and nothing of an earlier layer shows through. */
  lemma {:induction false} LastClaimWins(layers: seq<Value>, path: Path, i: nat)
    requires i < |layers| && Claims(layers[i], path)
    requires forall j :: i < j < |layers| ==> !Claims(layers[j], path)
    ensures Look(Stack(layers), path) == Look(layers[i], path)
    decreases |layers|
  {
    var n := |layers| - 1;
    LookOverlay(Stack(layers[..n]), layers[n], path);
    if i < n {
      LastClaimWins(layers[..n], path, i);
    }
  }

  lemma {:induction false} NoClaimNothing(layers: seq<Value>, path: Path)
    requires path != [] && forall j :: 0 <= j < |layers| ==> !Claims(layers[j], path)
    ensures Look(Stack(layers), path) == Absent
    decreases |layers|
  {
    if layers != [] {
      var n := |layers| - 1;
      LookOverlay(Stack(layers[..n]), layers[n], path);
      NoClaimNothing(layers[..n], path);
    }
  }

  // --------------------------------------------------------------- algebra

  lemma {:induction false} OverlayIdempotent(v: Value)
    ensures Overlay(v, v) == v
  {
    if v.Sec? {
      forall k | k in v.entries ensures Overlay(v.entries[k], v.entries[k]) == v.entries[k] {
        OverlayIdempotent(v.entries[k]);
      }
      assert Overlay(v, v).entries == v.entries;
    }
  }

  /** The empty document is neutral on both sides. */
  lemma EmptyNeutral(m: map<string, Value>)
    ensures Overlay(EMPTY, Sec(m)) == Sec(m)
    ensures Overlay(Sec(m), EMPTY) == Sec(m)
  {
    assert Overlay(EMPTY, Sec(m)).entries == m;
    assert Overlay(Sec(m), EMPTY).entries == m;
  }

  /** What the merge of two documents claims: what either claims, except what b claims only through
      a leaf that c has turned into a section. */
  lemma ClaimsOverlay(b: Value, c: Value, q: Path)
    ensures Claims(c, q) ==> Claims(Overlay(b, c), q)
    ensures Claims(Overlay(b, c), q) ==> Claims(b, q) || Claims(c, q)
    ensures !Claims(c, q) && Claims(b, q) && !Claims(Overlay(b, c), q) ==>
            Look(b, q) == Absent && exists i :: 0 <= i < |q| && Look(b, q[..i]).AtomAt? && Look(c, q[..i]).SecAt?
  {
    var bc := Overlay(b, c);
    LookOverlay(b, c, q);
    forall i | 0 <= i < |q|
      ensures Look(bc, q[..i]) == if Claims(c, q[..i]) then Look(c, q[..i]) else Look(b, q[..i])
    {
      LookOverlay(b, c, q[..i]);
    }
    if AtomAbove(c, q) {
      var i :| 0 <= i < |q| && Look(c, q[..i]).AtomAt?;
      assert Look(bc, q[..i]).AtomAt?;
    }
    if AtomAbove(bc, q) {
      var i :| 0 <= i < |q| && Look(bc, q[..i]).AtomAt?;
      assert Look(c, q[..i]).AtomAt? || Look(b, q[..i]).AtomAt?;
    }
    if !Claims(c, q) && Claims(b, q) && !Claims(bc, q) {
      var i :| 0 <= i < |q| && Look(b, q[..i]).AtomAt?;
      assert !Look(bc, q[..i]).AtomAt?;
      assert forall j :: 0 <= j < i ==> q[..i][..j] == q[..j];
      assert Look(c, q[..i]).SecAt?;
    }
  }

  /** A leaf at a proper prefix of q leaves nothing at q, and nothing strictly between. */
  lemma {:induction false} NothingBelowAtom(v: Value, p: Path, q: Path)
    requires p < q && Look(v, p).AtomAt?
    ensures Look(v, q) == Absent
    decreases |p|
  {
    if p != [] {
      assert q[1..][..|p| - 1] == p[1..];
      NothingBelowAtom(v.entries[p[0]], p[1..], q[1..]);
    }
  }

  lemma BuriedLeavesNoClaim(b: Value, c: Value, p: Path, q: Path)
    requires p < q && Look(b, p).AtomAt? && Look(c, p).SecAt? && !Claims(c, q)
    ensures !Claims(Overlay(b, c), q)
  {
    var bc := Overlay(b, c);
    NothingBelowAtom(b, p, q);
    LookOverlay(b, c, q);
    forall i | 0 <= i < |q| ensures !Look(bc, q[..i]).AtomAt? {
      LookOverlay(b, c, q[..i]);
      if Look(b, q[..i]).AtomAt? {
        if i < |p| {
          NothingBelowAtom(b, q[..i], p);
        } else if |p| < i {
          NothingBelowAtom(b, p, q[..i]);
        } else {
          assert q[..i] == p;
        }
      }
    }
  }

  /** Exactly when the grouping of three layers does not matter. */
  lemma {:induction false} AssociativeIff(a: Value, b: Value, c: Value)
    ensures Overlay(Overlay(a, b), c) == Overlay(a, Overlay(b, c)) <==> !Buried(a, b, c)
  {
    var left, right := Overlay(Overlay(a, b), c), Overlay(a, Overlay(b, c));
    if Buried(a, b, c) {
      var p: Path, q: Path :| BuriedAt(a, b, c, p, q);
      BuriedLeavesNoClaim(b, c, p, q);
      NothingBelowAtom(b, p, q);
      LookOverlay(a, Overlay(b, c), q);
      LookOverlay(Overlay(a, b), c, q);
      LookOverlay(a, b, q);
      assert q[..|p|] == p;
      assert AtomAbove(b, q);
      assert Look(left, q) == Absent != Look(right, q);
    } else {
      forall q: Path ensures Look(left, q) == Look(right, q) {
        LookOverlay(a, Overlay(b, c), q);
        LookOverlay(b, c, q);
        LookOverlay(Overlay(a, b), c, q);
        LookOverlay(a, b, q);
        ClaimsOverlay(b, c, q);
        if !Claims(c, q) && Claims(b, q) && !Claims(Overlay(b, c), q) {
          var i :| 0 <= i < |q| && Look(b, q[..i]).AtomAt? && Look(c, q[..i]).SecAt?;
          assert !BuriedAt(a, b, c, q[..i], q);
        }
      }
      LookDetermines(left, right);
    }
  }

  /** Layers that agree on which paths are sections and which are leaves merge in any grouping. */
  lemma {:induction false} SameKindsAssociative(a: Value, b: Value, c: Value)
    requires SameKinds(a, b) && SameKinds(b, c) && SameKinds(a, c)
    ensures Overlay(Overlay(a, b), c) == Overlay(a, Overlay(b, c))
  {
    AssociativeIff(a, b, c);
  }

  /** The agreement is needed: a section, a leaf and a section again differ by grouping. */
  lemma GroupingMatters(x: Leaf, y: Leaf, z: Leaf)
    ensures var a, b, c := Chain(["db", "host"], x), Chain(["db"], y), Chain(["db", "port"], z);
            Look(Overlay(Overlay(a, b), c), ["db", "host"]) == Absent
            && Look(Overlay(a, Overlay(b, c)), ["db", "host"]) == AtomAt(x)
  {
    var a, b, c := Chain(["db", "host"], x), Chain(["db"], y), Chain(["db", "port"], z);
    var q := ["db", "host"];
    assert q[..1] == ["db"] && q[1..] == ["host"] && q[..0] == [];
    assert ["db", "port"][1..] == ["port"] && ["db"][1..] == [];
    ChainLook(["db", "host"], x, q);
    ChainClaims(["db"], y, q);
    ChainClaims(["db", "port"], z, q);
    LookOverlay(Overlay(a, b), c, q);
    LookOverlay(a, b, q);
    LookOverlay(a, Overlay(b, c), q);
    ChainLook(["db"], y, q);
    ChainLook(["db"], y, ["db"]);
    ChainLook(["db", "port"], z, ["db"]);
    BuriedLeavesNoClaim(b, c, ["db"], q);
  }

  // ------------------------------------------------------------- one leaf

  ghost predicate Comparable(p: Path, q: Path) {
    p <= q || q <= p
  }

  /** A one-leaf document shows sections on the way, its leaf at the path, and nothing else. */
  lemma {:induction false} ChainLook(path: Path, leaf: Leaf, q: Path)
    ensures Look(Chain(path, leaf), q) == if q == path then AtomAt(leaf) else if q < path then SecAt else Absent
    decreases |path|
  {
    if path != [] && q != [] {
      ChainLook(path[1..], leaf, q[1..]);
      if q[0] == path[0] {
        assert q == [q[0]] + q[1..] && path == [path[0]] + path[1..];
        assert q[1..] == path[1..] ==> q == path;
        assert q < path <==> q[1..] < path[1..];
      }
    }
  }

  /** It claims exactly the paths comparable with its own. */
  lemma ChainClaims(path: Path, leaf: Leaf, q: Path)
    ensures Claims(Chain(path, leaf), q) <==> Comparable(path, q)
  {
    ChainLook(path, leaf, q);
    if path < q {
      ChainLook(path, leaf, q[..|path|]);
      assert q[..|path|] == path;
    }
    if AtomAbove(Chain(path, leaf), q) {
      var i :| 0 <= i < |q| && Look(Chain(path, leaf), q[..i]).AtomAt?;
      ChainLook(path, leaf, q[..i]);
      assert path == q[..i] <= q;
    }
  }

  /** Laying one leaf over a document reads the leaf back, leaves every incomparable path alone,
      turns every proper prefix into a section and clears everything below. */
  lemma OneLeafOver(m: Value, path: Path, leaf: Leaf, q: Path)
    ensures Look(Overlay(m, Chain(path, leaf)), q) ==
            if q == path then AtomAt(leaf)
            else if q < path then SecAt
            else if path < q then Absent
            else Look(m, q)
  {
    LookOverlay(m, Chain(path, leaf), q);
    ChainLook(path, leaf, q);
    ChainClaims(path, leaf, q);
  }
}
