/** The relaxed key of config.go:275-289 and what it makes of a whole document (config.go:291-313). */
module Keys {
  import opened Sections

  function Lower(c: char): char {
    if 'A' <= c <= 'Z' then c - 'A' + 'a' else c
  }

  function Canon(k: string): string {
    if k == "" then ""
    else if k[0] == '-' || k[0] == '_' then Canon(k[1..])
    else [Lower(k[0])] + Canon(k[1..])
  }

  lemma {:induction false} CanonAppend(k: string, l: string)
    ensures Canon(k + l) == Canon(k) + Canon(l)
    decreases |k|
  {
    if k == "" {
      assert k + l == l;
    } else {
      assert (k + l)[1..] == k[1..] + l;
      CanonAppend(k[1..], l);
    }
  }

  /** What is left has no dash, no underscore and no capital, and a key that had none is kept as it is. */
  lemma {:induction false} CanonShape(k: string)
    ensures forall i :: 0 <= i < |Canon(k)| ==> Canon(k)[i] !in "-_" && !('A' <= Canon(k)[i] <= 'Z')
    ensures (forall i :: 0 <= i < |k| ==> k[i] !in "-_" && !('A' <= k[i] <= 'Z')) ==> Canon(k) == k
    decreases |k|
  {
    if k != "" {
      CanonShape(k[1..]);
      assert k == [k[0]] + k[1..];
      assert forall i :: 0 <= i < |k| - 1 ==> k[1..][i] == k[i + 1];
    }
  }

  /** One letter in either case, or one character. */
  predicate OneLetter(c: char, d: char) {
    || c == d
    || (65 <= c as int <= 90 && d as int == c as int + 32)
    || (65 <= d as int <= 90 && c as int == d as int + 32)
  }

  /** A dash or an underscore anywhere does not show, */
  lemma DashBlind(a: string, b: string)
    ensures Canon(a + "-" + b) == Canon(a + b) && Canon(a + "_" + b) == Canon(a + b)
  {
    CanonAppend(a, b);
    CanonAppend(a, "-" + b);
    CanonAppend(a, "_" + b);
    assert a + "-" + b == a + ("-" + b) && a + "_" + b == a + ("_" + b);
    assert ("-" + b)[1..] == b && ("_" + b)[1..] == b;
  }

  /** and keys without any have one spelling exactly if they differ in nothing but case. */
  lemma {:induction false} CaseBlindIff(k: string, l: string)
    requires '-' !in k && '_' !in k && '-' !in l && '_' !in l
    ensures Canon(k) == Canon(l) <==> |k| == |l| && forall i :: 0 <= i < |k| ==> OneLetter(k[i], l[i])
    decreases |k|
  {
    if k != "" && l != "" {
      CaseBlindIff(k[1..], l[1..]);
      assert Canon(k)[1..] == Canon(k[1..]) && Canon(l)[1..] == Canon(l[1..]);
      assert Canon(k) == Canon(l) <==> Lower(k[0]) == Lower(l[0]) && Canon(k[1..]) == Canon(l[1..]);
      assert Lower(k[0]) == Lower(l[0]) <==> OneLetter(k[0], l[0]);
      if |k| == |l| {
        assert (forall i :: 0 <= i < |k| ==> OneLetter(k[i], l[i])) ==>
          forall i :: 0 <= i < |k[1..]| ==> OneLetter(k[1..][i], l[1..][i]);
        if OneLetter(k[0], l[0]) && forall i :: 0 <= i < |k[1..]| ==> OneLetter(k[1..][i], l[1..][i]) {
          forall i | 0 <= i < |k| ensures OneLetter(k[i], l[i]) {
            assert i > 0 ==> OneLetter(k[1..][i - 1], l[1..][i - 1]);
          }
        }
      }
    }
  }

  /** The loop that fills the builder, one rune at a time. */
  method Relax(k: string) returns (r: string)
    ensures r == Canon(k)
  {
    r := "";
    for i := 0 to |k|
      invariant r == Canon(k[..i])
    {
      assert k[..i + 1] == k[..i] + [k[i]];
      CanonAppend(k[..i], [k[i]]);
      if k[i] == '-' || k[i] == '_' {
        continue;
      }
      r := r + [Lower(k[i])];
    }
    assert k[..|k|] == k;
  }

  function CanonPath(path: Path): Path {
    if path == [] then [] else [Canon(path[0])] + CanonPath(path[1..])
  }

  /** Every key of every section that is reached by keys is its own relaxed spelling. */
  ghost predicate AllCanon(v: Value) {
    v.Sec? ==> forall k :: k in v.entries ==> Canon(k) == k && AllCanon(v.entries[k])
  }

  /** No section that is reached by keys, at whatever depth, holds two spellings of one key. */
  ghost predicate NoClash(v: Value) {
    v.Sec? ==>
      && (forall k, l :: k in v.entries && l in v.entries && Canon(k) == Canon(l) ==> k == l)
      && (forall k :: k in v.entries ==> NoClash(v.entries[k]))
  }

  /** The one spelling that gives the canonical key c. */
  ghost function Spelling(m: map<string, Value>, c: string): (k: string)
    requires exists k :: k in m && Canon(k) == c
    ensures k in m && Canon(k) == c
  {
    var k :| k in m && Canon(k) == c;
    k
  }

  ghost function CanonValue(v: Value): (r: Value)
    requires NoClash(v)
    ensures r.Sec? <==> v.Sec?
  {
    match v
    case Atom(_) => v
    case Sec(m) => Sec(map c | c in set k | k in m :: Canon(k) :: CanonValue(m[Spelling(m, c)]))
  }

  /** The canonical document holds each entry under its canonical key. */
  lemma CanonAt(v: Value, k: string)
    requires NoClash(v) && v.Sec? && k in v.entries
    ensures Canon(k) in CanonValue(v).entries
    ensures CanonValue(v).entries[Canon(k)] == CanonValue(v.entries[k])
  {
    assert Spelling(v.entries, Canon(k)) == k;
  }

  lemma {:induction false} CanonIdempotent(k: string)
    ensures Canon(Canon(k)) == Canon(k)
  {
    if k != "" {
      CanonIdempotent(k[1..]);
      if k[0] != '-' && k[0] != '_' {
        assert Canon(k)[1..] == Canon(k[1..]);
      }
    }
  }

  lemma {:induction false} CanonPathAt(path: Path, i: nat)
    requires i <= |path|
    ensures |CanonPath(path)| == |path|
    ensures i < |path| ==> CanonPath(path)[i] == Canon(path[i])
    ensures CanonPath(path[..i]) == CanonPath(path)[..i]
    decreases |path|
  {
    if path != [] {
      CanonPathAt(path[1..], if i == 0 then 0 else i - 1);
      if i > 0 {
        assert path[..i][1..] == path[1..][..i - 1];
      }
    }
  }

  // ------------------------------------------------ what canonMap leaves behind

  /** The canonical document shows at the canonical path what the original shows at the path. */
  lemma {:induction false} CanonKeepsPaths(v: Value, path: Path)
    requires NoClash(v) && Look(v, path) != Absent
    ensures Look(CanonValue(v), CanonPath(path)) == Look(v, path)
    decreases |path|
  {
    if path != [] {
      CanonAt(v, path[0]);
      CanonKeepsPaths(v.entries[path[0]], path[1..]);
    }
  }

  lemma Longer(v: Value, k: string, rest: Path) returns (path: Path)
    requires v.Sec? && k in v.entries
    ensures CanonPath(path) == [Canon(k)] + CanonPath(rest) && Look(v, path) == Look(v.entries[k], rest)
  {
    path := [k] + rest;
    assert path[1..] == rest;
  }

  /** And it shows nothing that no spelling of the path showed before. */
  lemma {:induction false} CanonAddsNothing(v: Value, q: Path) returns (path: Path)
    requires NoClash(v) && Look(CanonValue(v), q) != Absent
    ensures CanonPath(path) == q && Look(v, path) == Look(CanonValue(v), q)
    decreases |q|
  {
    if q == [] {
      path := [];
    } else {
      var k := Spelling(v.entries, q[0]);
      CanonAt(v, k);
      var rest := CanonAddsNothing(v.entries[k], q[1..]);
      path := Longer(v, k, rest);
    }
  }

  lemma {:induction false} CanonValueCanonical(v: Value)
    requires NoClash(v)
    ensures AllCanon(CanonValue(v))
  {
    if v.Sec? {
      forall c | c in CanonValue(v).entries
        ensures Canon(c) == c && AllCanon(CanonValue(v).entries[c])
      {
        var k := Spelling(v.entries, c);
        CanonIdempotent(k);
        CanonAt(v, k);
        CanonValueCanonical(v.entries[k]);
      }
    }
  }

  // ------------------------------------- canonical keys survive the whole Load

  lemma {:induction false} OverlayCanonical(dst: Value, src: Value)
    requires AllCanon(dst) && AllCanon(src)
    ensures AllCanon(Overlay(dst, src))
    decreases src
  {
    if dst.Sec? && src.Sec? {
      forall k | k in dst.entries && k in src.entries
        ensures AllCanon(Overlay(dst.entries[k], src.entries[k]))
      {
        OverlayCanonical(dst.entries[k], src.entries[k]);
      }
    }
  }

  lemma {:induction false} ChainCanonical(path: Path, leaf: Leaf)
    ensures AllCanon(Chain(CanonPath(path), leaf))
    decreases |path|
  {
    if path != [] {
      CanonIdempotent(path[0]);
      ChainCanonical(path[1..], leaf);
      assert CanonPath(path)[1..] == CanonPath(path[1..]);
    }
  }

  lemma {:induction false} StackCanonical(layers: seq<Value>)
    requires forall i :: 0 <= i < |layers| ==> AllCanon(layers[i])
    ensures AllCanon(Stack(layers))
    decreases |layers|
  {
    if layers != [] {
      StackCanonical(layers[..|layers| - 1]);
      OverlayCanonical(Stack(layers[..|layers| - 1]), layers[|layers| - 1]);
    }
  }
}
