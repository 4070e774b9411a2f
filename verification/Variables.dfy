/** What the environment layer holds, variable by variable (config.go:212-230), said of the text of the
    variables alone. */
module Variables {
  import opened Sections
  import opened Keys
  import opened Text
  import opened Config
  import opened Wrappers

  /** The variable kv reads k = v; one without = is a name with no text. */
  predicate Reads(kv: string, k: string, v: string) {
    kv == k + "=" + v || (kv == k && v == "")
  }

  /** It sets the key that `name` spells to the text v: its own name, which the first = ends, is the prefix and
      `name`. The Profile variable sets nothing. */
  ghost predicate Sets(kv: string, prefix: string, name: string, v: string) {
    '=' !in prefix && '=' !in name && Canon(name) != "profile" && Reads(kv, prefix + name, v)
  }

  /** Where that key is: a double underscore parts two sections. */
  function KeyOf(name: string): Path {
    CanonPath(Split(name, "__"))
  }

  lemma CutAt(k: string, v: string)
    requires '=' !in k
    ensures Index(k + "=" + v, "=") == |k| && Index(k, "=") == -1
  {
    IndexOfChar(k + "=" + v, '=');
    IndexOfChar(k, '=');
    assert (k + "=" + v)[|k|] == '=';
    assert forall i :: 0 <= i < |k| ==> (k + "=" + v)[i] == k[i];
  }

  lemma SetsRead(kv: string, prefix: string, name: string, v: string, parse: string -> Leaf)
    requires Sets(kv, prefix, name, v)
    ensures ReadVar(kv, prefix, parse) == Some(Entry(Split(name, "__"), parse(v)))
  {
    hide Split, Index;
    var k := prefix + name;
    CutAt(k, v);
    assert k[|prefix|..] == name;
    assert (k + "=" + v)[..|k|] == k && (k + "=" + v)[|k| + 1..] == v;
  }

  lemma ReadSets(kv: string, prefix: string, parse: string -> Leaf)
    requires ReadVar(kv, prefix, parse).Some?
    ensures exists name, v :: Sets(kv, prefix, name, v)
  {
    hide Split, Index;
    IndexOfChar(kv, '=');
    var cut := Index(kv, "=");
    var k, v := if cut < 0 then kv else kv[..cut], if cut < 0 then "" else kv[cut + 1..];
    assert '=' !in k;
    assert k == prefix + k[|prefix|..];
    assert Sets(kv, prefix, k[|prefix|..], v);
  }

  /** One more variable at the end of the sorted order. */
  lemma OneMoreVar(kvs: seq<string>, kv: string, prefix: string, name: string, v: string, parse: string -> Leaf)
    requires Sets(kv, prefix, name, v)
    ensures Stack(Layers(VarEntries(kvs + [kv], prefix, parse)))
        == Overlay(Stack(Layers(VarEntries(kvs, prefix, parse))), Chain(KeyOf(name), parse(v)))
  {
    hide ReadVar, Stack, Layers;
    var all := kvs + [kv];
    NextVar(all, |kvs|, prefix, parse);
    assert all[..|kvs|] == kvs && all[..|kvs| + 1] == all;
    SetsRead(kv, prefix, name, v, parse);
    OneMoreLayer(VarEntries(kvs, prefix, parse), Entry(Split(name, "__"), parse(v)));
  }

  lemma OneMoreUnset(kvs: seq<string>, kv: string, prefix: string, parse: string -> Leaf)
    requires forall name, v :: !Sets(kv, prefix, name, v)
    ensures VarEntries(kvs + [kv], prefix, parse) == VarEntries(kvs, prefix, parse)
  {
    hide ReadVar;
    var all := kvs + [kv];
    NextVar(all, |kvs|, prefix, parse);
    assert all[..|kvs|] == kvs && all[..|kvs| + 1] == all;
    if ReadVar(kv, prefix, parse).Some? {
      ReadSets(kv, prefix, parse);
    }
  }

  /** Nothing this variable sets has to do with the path. */
  ghost predicate Aside(kv: string, prefix: string, q: Path) {
    forall name, v :: Sets(kv, prefix, name, v) ==> !Comparable(KeyOf(name), q)
  }

  /** What a path shows does not change with such a variable. */
  lemma AsideKeeps(kvs: seq<string>, kv: string, prefix: string, q: Path, parse: string -> Leaf)
    requires Aside(kv, prefix, q)
    ensures Look(Stack(Layers(VarEntries(kvs + [kv], prefix, parse))), q)
        == Look(Stack(Layers(VarEntries(kvs, prefix, parse))), q)
  {
    hide Stack, Layers, VarEntries, Sets, Chain, Claims, Comparable;
    if name, v :| Sets(kv, prefix, name, v) {
      OneMoreVar(kvs, kv, prefix, name, v, parse);
      LookOverlay(Stack(Layers(VarEntries(kvs, prefix, parse))), Chain(KeyOf(name), parse(v)), q);
      ChainClaims(KeyOf(name), parse(v), q);
    } else {
      OneMoreUnset(kvs, kv, prefix, parse);
    }
  }

  lemma {:induction false} LastInOrder(kvs: seq<string>, i: nat, prefix: string, name: string, v: string, q: Path,
      parse: string -> Leaf)
    requires i < |kvs| && Sets(kvs[i], prefix, name, v) && Comparable(KeyOf(name), q)
    requires forall j :: i < j < |kvs| ==> Aside(kvs[j], prefix, q)
    ensures Look(Stack(Layers(VarEntries(kvs, prefix, parse))), q) == Look(Chain(KeyOf(name), parse(v)), q)
    decreases |kvs|
  {
    hide Stack, Layers, VarEntries, Sets, Chain, Claims, Comparable, Aside;
    var front, last := kvs[..|kvs| - 1], kvs[|kvs| - 1];
    assert kvs == front + [last];
    if i == |front| {
      OneMoreVar(front, last, prefix, name, v, parse);
      LookOverlay(Stack(Layers(VarEntries(front, prefix, parse))), Chain(KeyOf(name), parse(v)), q);
      ChainClaims(KeyOf(name), parse(v), q);
    } else {
      LastInOrder(front, i, prefix, name, v, q, parse);
      AsideKeeps(front, last, prefix, q, parse);
    }
  }

  lemma {:induction false} NoneInOrder(kvs: seq<string>, prefix: string, q: Path, parse: string -> Leaf)
    requires forall j :: 0 <= j < |kvs| ==> Aside(kvs[j], prefix, q)
    ensures Look(Stack(Layers(VarEntries(kvs, prefix, parse))), q) == if q == [] then SecAt else Absent
    decreases |kvs|
  {
    if kvs != [] {
      hide Stack, Layers, VarEntries, Aside;
      var front, last := kvs[..|kvs| - 1], kvs[|kvs| - 1];
      assert kvs == front + [last];
      NoneInOrder(front, prefix, q, parse);
      AsideKeeps(front, last, prefix, q, parse);
    }
  }

  /** Of several variables the last in sorted order that has to do with a path decides it: at the key it
      sets the path shows its text as parsed, on the way there a section, and below it nothing. */
  lemma LastVariableDecides(env: seq<string>, order: seq<string>, i: nat, prefix: string, name: string, v: string,
      q: Path, parse: string -> Leaf)
    requires InOrder(order) && multiset(order) == multiset(env)
    requires i < |order| && Sets(order[i], prefix, name, v) && Comparable(KeyOf(name), q)
    requires forall j :: i < j < |order| ==> Aside(order[j], prefix, q)
    ensures Look(EnvValue(env, prefix, parse), q)
        == if q == KeyOf(name) then AtomAt(parse(v)) else if q < KeyOf(name) then SecAt else Absent
  {
    hide InOrder, Sets, Aside, Stack, Layers, VarEntries;
    SortedIsSorted(env);
    SortedUnique(Sorted(env), order);
    LastInOrder(order, i, prefix, name, v, q, parse);
    ChainLook(KeyOf(name), parse(v), q);
  }

  /** Where no variable has to do with a path the layer shows nothing. */
  lemma UnsetShowsNothing(env: seq<string>, prefix: string, q: Path, parse: string -> Leaf)
    requires forall kv :: kv in env ==> Aside(kv, prefix, q)
    ensures Look(EnvValue(env, prefix, parse), q) == if q == [] then SecAt else Absent
  {
    hide InOrder, Aside, Stack, Layers, VarEntries;
    SortedIsSorted(env);
    var order := Sorted(env);
    forall j | 0 <= j < |order| ensures Aside(order[j], prefix, q) {
      assert order[j] in multiset(order);
      assert order[j] in multiset(env);
    }
    NoneInOrder(order, prefix, q, parse);
  }

  /** A variable that does not begin with the prefix, and the Profile variable in any spelling, leave the
      layer as it would be without them. */
  lemma ForeignAddsNothing(env: seq<string>, kv: string, prefix: string, parse: string -> Leaf)
    requires || !(prefix <= kv)
             || exists name, v :: '=' !in name && Canon(name) == "profile" && Reads(kv, prefix + name, v)
    ensures EnvValue(env + [kv], prefix, parse) == EnvValue(env, prefix, parse)
  {
    forall name, v ensures !Sets(kv, prefix, name, v) {
      if Sets(kv, prefix, name, v) {
        assert prefix <= prefix + name + "=" + v;
        var n, w :| '=' !in n && Canon(n) == "profile" && Reads(kv, prefix + n, w);
        SameName(kv, prefix, name, v, n, w);
        assert false;
      }
    }
    hide Sets, Stack, Layers, ReadVar;
    EnvOrderFree(env + [kv], [kv] + env, prefix, parse);
    UnsetInserted(kv, Sorted(env), prefix, parse);
    assert ([kv] + env)[1..] == env;
  }

  /** The first = settles where the name ends. */
  lemma SameName(kv: string, prefix: string, name: string, v: string, n: string, w: string)
    requires Sets(kv, prefix, name, v) && '=' !in n && Reads(kv, prefix + n, w)
    ensures name == n
  {
    var k, l := prefix + n, prefix + name;
    CutAt(k, w);
    CutAt(l, v);
    assert (k + "=" + w)[..|k|] == k && (l + "=" + v)[..|l|] == l;
    assert k == l;
    assert k[|prefix|..] == n && l[|prefix|..] == name;
  }

  lemma {:induction false} VarsAppend(a: seq<string>, b: seq<string>, prefix: string, parse: string -> Leaf)
    ensures VarEntries(a + b, prefix, parse) == VarEntries(a, prefix, parse) + VarEntries(b, prefix, parse)
    decreases |b|
  {
    if b == [] {
      assert a + b == a;
    } else {
      hide ReadVar;
      assert (a + b)[..|a + b| - 1] == a + b[..|b| - 1];
      VarsAppend(a, b[..|b| - 1], prefix, parse);
    }
  }

  lemma {:induction false} UnsetInserted(kv: string, kvs: seq<string>, prefix: string, parse: string -> Leaf)
    requires forall name, v :: !Sets(kv, prefix, name, v)
    ensures VarEntries(Insert(kv, kvs), prefix, parse) == VarEntries(kvs, prefix, parse)
    decreases |kvs|
  {
    hide ReadVar, Sets, VarEntries;
    OneMoreUnset([], kv, prefix, parse);
    assert [] + [kv] == [kv];
    if kvs == [] || Before(kv, kvs[0]) {
      VarsAppend([kv], kvs, prefix, parse);
      VarsAppend([], kvs, prefix, parse);
      assert [] + kvs == kvs;
    } else {
      UnsetInserted(kv, kvs[1..], prefix, parse);
      VarsAppend([kvs[0]], Insert(kv, kvs[1..]), prefix, parse);
      VarsAppend([kvs[0]], kvs[1..], prefix, parse);
      assert kvs == [kvs[0]] + kvs[1..];
    }
  }

  /** One variable alone: the layer is its text as parsed, at its key, and nothing anywhere else. */
  lemma OneVariable(kv: string, prefix: string, name: string, v: string, q: Path, parse: string -> Leaf)
    requires '=' !in prefix && '=' !in name && Canon(name) != "profile" && Reads(kv, prefix + name, v)
    ensures Look(EnvValue([kv], prefix, parse), q)
        == if q == KeyOf(name) then AtomAt(parse(v)) else if q < KeyOf(name) then SecAt else Absent
  {
    if Comparable(KeyOf(name), q) {
      LastVariableDecides([kv], [kv], 0, prefix, name, v, q, parse);
    } else {
      hide Canon, KeyOf;
      forall n, w | Sets(kv, prefix, n, w) ensures n == name {
        SameName(kv, prefix, n, w, name, v);
      }
      assert Aside(kv, prefix, q);
      UnsetShowsNothing([kv], prefix, q, parse);
    }
  }
}
