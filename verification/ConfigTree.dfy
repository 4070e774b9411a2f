/** The nested maps of config.go as they are in memory: mutable nodes that point at one another.

    A ghost `Tree` remembers which node holds which section. `Holds` ties it to the heap, `Tidy`
    says that no node is reached twice, and `Erase` forgets the nodes and leaves the value. */
module ConfigTree {
  import opened Sections
  import opened Keys

  datatype Slot = Held(leaf: Leaf) | Sub(node: Node)

  /** One Go map[string]any. */
  class Node {
    var entries: map<string, Slot>

    constructor ()
      ensures entries == map[]
    {
      entries := map[];
    }
  }

  datatype Tree = Bare(leaf: Leaf) | Branch(node: Node, kids: map<string, Tree>)

  function SlotOf(t: Tree): Slot {
    match t
    case Bare(l) => Held(l)
    case Branch(n, _) => Sub(n)
  }

  ghost function Erase(t: Tree): Value {
    match t
    case Bare(l) => Atom(l)
    case Branch(_, kids) => Sec(map k | k in kids :: Erase(kids[k]))
  }

  ghost function Nodes(t: Tree): set<Node> {
    match t
    case Bare(_) => {}
    case Branch(n, kids) => {n} + (set k, x | k in kids && x in Nodes(kids[k]) :: x)
  }

  ghost predicate Tidy(t: Tree) {
    t.Branch? ==>
      && (forall k :: k in t.kids ==> t.node !in Nodes(t.kids[k]) && Tidy(t.kids[k]))
      && (forall k, l :: k in t.kids && l in t.kids && k != l ==> Nodes(t.kids[k]) !! Nodes(t.kids[l]))
  }

  /** What the nodes hold at one moment. */
  type Memory = map<Node, map<string, Slot>>

  ghost function Snapshot(nodes: set<Node>): Memory
    reads nodes
  {
    map x | x in nodes :: x.entries
  }

  ghost predicate HoldsIn(t: Tree, mem: Memory) {
    t.Branch? ==>
      && t.node in mem
      && mem[t.node].Keys == t.kids.Keys
      && (forall k :: k in t.kids ==> mem[t.node][k] == SlotOf(t.kids[k]))
      && (forall k :: k in t.kids ==> HoldsIn(t.kids[k], mem))
  }

  ghost predicate Holds(t: Tree)
    reads Nodes(t)
  {
    HoldsIn(t, Snapshot(Nodes(t)))
  }

  /** `t` is the section held by `n`, and the heap agrees. */
  ghost predicate Represents(n: Node, t: Tree)
    reads Nodes(t)
  {
    t.Branch? && t.node == n && Tidy(t) && Holds(t)
  }

  ghost predicate AgreeOn(m1: Memory, m2: Memory, nodes: set<Node>) {
    forall x :: x in nodes ==> x in m1 && x in m2 && m1[x] == m2[x]
  }

  lemma {:induction false} NodesAllocated(t: Tree)
    ensures forall x :: x in Nodes(t) ==> allocated(x)
  {
    if t.Branch? {
      forall k | k in t.kids ensures forall x :: x in Nodes(t.kids[k]) ==> allocated(x) {
        NodesAllocated(t.kids[k]);
      }
    }
  }

  /** Only a tree's own nodes matter to it. */
  lemma {:induction false} SameMemory(t: Tree, m1: Memory, m2: Memory)
    requires HoldsIn(t, m1) && AgreeOn(m1, m2, Nodes(t))
    ensures HoldsIn(t, m2)
  {
    if t.Branch? {
      assert t.node in Nodes(t);
      forall k | k in t.kids ensures HoldsIn(t.kids[k], m2) {
        KidsInside(t, k);
        SameMemory(t.kids[k], m1, m2);
      }
    }
  }

  /** The heap seen through any larger set of nodes. */
  lemma HoldsVia(t: Tree, nodes: set<Node>)
    requires Nodes(t) <= nodes
    ensures Holds(t) <==> HoldsIn(t, Snapshot(nodes))
  {
    var own := Nodes(t);
    assert AgreeOn(Snapshot(own), Snapshot(nodes), own) && AgreeOn(Snapshot(nodes), Snapshot(own), own);
    if Holds(t) {
      SameMemory(t, Snapshot(own), Snapshot(nodes));
    }
    if HoldsIn(t, Snapshot(nodes)) {
      SameMemory(t, Snapshot(nodes), Snapshot(own));
    }
  }

  lemma KidsInside(t: Tree, k: string)
    requires t.Branch? && k in t.kids
    ensures Nodes(t.kids[k]) <= Nodes(t)
  {
  }

  // ------------------------------------------------------------------- merge

  ghost function KidNodes(t: Tree, k: string): set<Node>
    requires t.Branch?
  {
    if k in t.kids then Nodes(t.kids[k]) else {}
  }

  lemma ErasedKids(t: Tree, m: map<string, Value>)
    requires t.Branch? && t.kids.Keys == m.Keys && forall k :: k in m ==> Erase(t.kids[k]) == m[k]
    ensures Erase(t) == Sec(m)
  {
    assert Erase(t).entries == m;
  }

  /** The overlay of two sections, one key. */
  lemma OverlayAt(d: Value, s: Value, k: string)
    requires d.Sec? && s.Sec?
    ensures var o := Overlay(d, s);
            && o.Sec?
            && o.entries.Keys == d.entries.Keys + s.entries.Keys
            && (k in s.entries && k in d.entries ==> o.entries[k] == Overlay(d.entries[k], s.entries[k]))
            && (k in s.entries && k !in d.entries ==> o.entries[k] == s.entries[k])
            && (k !in s.entries && k in d.entries ==> o.entries[k] == d.entries[k])
  {
  }

  lemma ErasedAt(t: Tree, k: string)
    requires t.Branch?
    ensures Erase(t).Sec? && Erase(t).entries.Keys == t.kids.Keys
    ensures k in t.kids ==> Erase(t).entries[k] == Erase(t.kids[k])
  {
  }

  /** What the merge has to leave under k, in terms of the two trees. */
  lemma GoalAt(dt: Tree, st: Tree, g: map<string, Value>, k: string)
    requires dt.Branch? && st.Branch? && Sec(g) == Overlay(Erase(dt), Erase(st))
    ensures g.Keys == dt.kids.Keys + st.kids.Keys
    ensures k in st.kids && k in dt.kids ==> g[k] == Overlay(Erase(dt.kids[k]), Erase(st.kids[k]))
    ensures k in st.kids && k !in dt.kids ==> g[k] == Erase(st.kids[k])
    ensures k !in st.kids && k in dt.kids ==> g[k] == Erase(dt.kids[k])
  {
    OverlayAt(Erase(dt), Erase(st), k);
    ErasedAt(dt, k);
    ErasedAt(st, k);
  }

  ghost predicate KeyDone(kid: Tree, want: Value, room: set<Node>) {
    Erase(kid) == want && Tidy(kid) && Nodes(kid) <= room
  }

  /** `cur` is dt with the keys of `done` brought to what g says, reaching under each such key only
      nodes that dt or st reached there. */
  ghost predicate PartMerged(cur: Tree, dt: Tree, st: Tree, g: map<string, Value>, done: set<string>)
    requires dt.Branch? && st.Branch?
  {
    && cur.Branch? && cur.node == dt.node
    && cur.kids.Keys == dt.kids.Keys + done
    && done <= g.Keys
    && (forall k :: k in dt.kids && k !in done ==> cur.kids[k] == dt.kids[k])
    && (forall k :: k in done ==> KeyDone(cur.kids[k], g[k], KidNodes(dt, k) + KidNodes(st, k)))
  }

  lemma NothingMerged(dt: Tree, st: Tree, g: map<string, Value>)
    requires dt.Branch? && st.Branch?
    ensures PartMerged(dt, dt, st, g, {})
  {
  }

  lemma UnmergedKey(cur: Tree, dt: Tree, st: Tree, g: map<string, Value>, done: set<string>, k: string)
    requires dt.Branch? && st.Branch? && PartMerged(cur, dt, st, g, done)
    ensures cur.Branch? && cur.node == dt.node
    ensures k !in done ==> KidNodes(cur, k) == KidNodes(dt, k)
    ensures k !in done && k in dt.kids ==> k in cur.kids && cur.kids[k] == dt.kids[k]
    ensures k !in done && k !in dt.kids ==> k !in cur.kids
  {
  }

  lemma PartMergedTidy(cur: Tree, dt: Tree, st: Tree, g: map<string, Value>, done: set<string>)
    requires dt.Branch? && st.Branch? && Tidy(dt) && Tidy(st) && Nodes(dt) !! Nodes(st)
    requires PartMerged(cur, dt, st, g, done)
    ensures Tidy(cur) && Nodes(cur) <= Nodes(dt) + Nodes(st)
  {
    forall k | k in cur.kids
      ensures Nodes(cur.kids[k]) <= KidNodes(dt, k) + KidNodes(st, k)
      ensures KidNodes(dt, k) <= Nodes(dt) && KidNodes(st, k) <= Nodes(st)
      ensures dt.node !in KidNodes(dt, k) + KidNodes(st, k)
    {
    }
    forall k, l | k in cur.kids && l in cur.kids && k != l
      ensures Nodes(cur.kids[k]) !! Nodes(cur.kids[l])
    {
      assert KidNodes(dt, k) !! KidNodes(dt, l);
      assert KidNodes(st, k) !! KidNodes(st, l);
    }
  }

  lemma AllMerged(cur: Tree, dt: Tree, st: Tree, g: map<string, Value>)
    requires dt.Branch? && st.Branch? && Sec(g) == Overlay(Erase(dt), Erase(st))
    requires PartMerged(cur, dt, st, g, st.kids.Keys)
    ensures Erase(cur) == Sec(g)
  {
    forall k | k in cur.kids ensures k in g && Erase(cur.kids[k]) == g[k] {
      GoalAt(dt, st, g, k);
    }
    GoalAt(dt, st, g, "");
    ErasedKids(cur, g);
  }

  /** One more key merged. */
  lemma KeyMerged(cur: Tree, dt: Tree, st: Tree, g: map<string, Value>, done: set<string>, k: string, kid: Tree)
    requires dt.Branch? && st.Branch? && PartMerged(cur, dt, st, g, done) && k in g
    requires KeyDone(kid, g[k], KidNodes(dt, k) + KidNodes(st, k))
    ensures PartMerged(Branch(cur.node, cur.kids[k := kid]), dt, st, g, done + {k})
  {
    var next := Branch(cur.node, cur.kids[k := kid]);
    forall j | j in done + {k} ensures KeyDone(next.kids[j], g[j], KidNodes(dt, j) + KidNodes(st, j)) {
      if j != k {
        assert next.kids[j] == cur.kids[j];
      }
    }
  }

  /** Writing key k of one section, and nothing else outside what hung under k, leaves a tree that
      differs in that one kid. */
  lemma KidWritten(t: Tree, k: string, kid: Tree, st: Tree, m1: Memory, m2: Memory)
    requires t.Branch? && Tidy(t) && HoldsIn(t, m1) && HoldsIn(kid, m2)
    requires HoldsIn(st, m1) && Nodes(st) !! {t.node} + KidNodes(t, k)
    requires t.node in m2 && m2[t.node] == m1[t.node][k := SlotOf(kid)]
    requires AgreeOn(m1, m2, Nodes(t) + Nodes(st) - {t.node} - KidNodes(t, k))
    ensures HoldsIn(Branch(t.node, t.kids[k := kid]), m2) && HoldsIn(st, m2)
  {
    SameMemory(st, m1, m2) by {
      hide Nodes, HoldsIn, Tidy;
    }
    OtherKidsHold(t, k, m1, m2) by {
      hide Nodes, HoldsIn, Tidy;
    }
    KidReplacedHolds(t, k, kid, m1, m2) by {
      hide Nodes, Tidy;
    }
  }

  lemma OtherKidsHold(t: Tree, k: string, m1: Memory, m2: Memory)
    requires t.Branch? && Tidy(t) && HoldsIn(t, m1)
    requires AgreeOn(m1, m2, Nodes(t) - {t.node} - KidNodes(t, k))
    ensures forall j :: j in t.kids && j != k ==> HoldsIn(t.kids[j], m2)
  {
    forall j | j in t.kids && j != k ensures HoldsIn(t.kids[j], m2) {
      KidsInside(t, j);
      SameMemory(t.kids[j], m1, m2);
    }
  }

  lemma WrittenInside(t: Tree, k: string, kid: Tree, nodes: set<Node>)
    requires t.Branch? && Nodes(t) <= nodes && Nodes(kid) <= nodes
    ensures Nodes(Branch(t.node, t.kids[k := kid])) <= nodes
  {
    forall x | x in Nodes(Branch(t.node, t.kids[k := kid])) ensures x in nodes {
      if x != t.node {
        var j :| j in t.kids[k := kid] && x in Nodes(t.kids[k := kid][j]);
        if j != k {
          KidsInside(t, j);
        }
      }
    }
  }

  lemma RootHeld(t: Tree, mem: Memory, k: string)
    requires t.Branch? && HoldsIn(t, mem)
    ensures t.node in Nodes(t) && t.node in mem && mem[t.node].Keys == t.kids.Keys
    ensures k in t.kids ==> mem[t.node][k] == SlotOf(t.kids[k]) && Nodes(t.kids[k]) <= Nodes(t)
    ensures Nodes(t) >= KidNodes(t, k)
  {
    if k in t.kids {
      KidsInside(t, k);
    }
  }

  lemma OverlaySec(d: Value, s: Value)
    ensures d.Sec? && s.Sec? ==> Overlay(d, s).Sec?
  {
  }

  lemma OntoAtom(d: Value, s: Value)
    requires d.Atom? || s.Atom?
    ensures Overlay(d, s) == s
  {
  }

  lemma ErasedAtom(t: Tree)
    ensures Erase(t).Atom? <==> t.Bare?
  {
  }

  /** What a kid of a held tree gives a recursive call. */
  lemma KidRepresented(t: Tree, k: string, mem: Memory)
    requires t.Branch? && Tidy(t) && HoldsIn(t, mem) && k in t.kids
    ensures Tidy(t.kids[k]) && HoldsIn(t.kids[k], mem) && Nodes(t.kids[k]) <= Nodes(t) - {t.node}
    ensures mem[t.node][k] == SlotOf(t.kids[k])
  {
    KidsInside(t, k);
  }

  /** What MergeKey may write lies in dt and clear of st. */
  lemma OwnNodes(dt: Tree, st: Tree, k: string)
    requires dt.Branch? && Nodes(dt) !! Nodes(st)
    ensures {dt.node} + KidNodes(dt, k) <= Nodes(dt)
    ensures Nodes(st) !! {dt.node} + KidNodes(dt, k)
  {
  }

  /** The in-place merge, over the source's keys in whatever order the map yields them. The nodes of
      src are shared with dst afterwards and were not written; the value left in dst is the overlay. */
  method Merge(dst: Node, src: Node, ghost dt: Tree, ghost st: Tree) returns (ghost t: Tree)
    requires Represents(dst, dt) && Represents(src, st) && Nodes(dt) !! Nodes(st)
    modifies Nodes(dt)
    ensures Represents(dst, t) && Nodes(t) <= Nodes(dt) + Nodes(st)
    ensures Erase(t) == Overlay(Erase(dt), Erase(st))
    ensures Represents(src, st)
    decreases st, 1
  {
    hide Nodes, HoldsIn, Tidy, Erase, Overlay, KeyDone, PartMerged, KidNodes;
    t := dt;
    ErasedAtom(dt);
    ErasedAtom(st);
    OverlaySec(Erase(dt), Erase(st));
    ghost var g := Overlay(Erase(dt), Erase(st)).entries;
    RootHeld(dt, Snapshot(Nodes(dt)), "");
    RootHeld(st, Snapshot(Nodes(st)), "");
    NothingMerged(dt, st, g);
    var todo := src.entries.Keys;
    ghost var done := {};
    while todo != {}
      invariant done + todo == st.kids.Keys && done !! todo
      invariant PartMerged(t, dt, st, g, done)
      invariant Tidy(t) && Holds(t) && Holds(st)
      invariant Nodes(t) <= Nodes(dt) + Nodes(st)
      decreases todo
    {
      var k :| k in todo;
      ghost var before := t;
      GoalAt(dt, st, g, k);
      OwnNodes(dt, st, k);
      UnmergedKey(before, dt, st, g, done, k);
      ghost var kid := MergeKey(dst, src, k, before, st);
      t := Branch(dst, before.kids[k := kid]);
      KeyMerged(before, dt, st, g, done, k, kid);
      todo, done := todo - {k}, done + {k};
      PartMergedTidy(t, dt, st, g, done);
    }
    assert done == st.kids.Keys;
    UnmergedKey(t, dt, st, g, done, "");
    AllMerged(t, dt, st, g);
  }

  /** The body of the loop for one key: two sections merge, anything else is replaced. */
  method MergeKey(dst: Node, src: Node, k: string, ghost t: Tree, ghost st: Tree) returns (ghost kid: Tree)
    requires Represents(dst, t) && Represents(src, st) && k in st.kids
    requires Nodes(st) !! {dst} + KidNodes(t, k)
    modifies {dst} + KidNodes(t, k)
    ensures KeyDone(kid, if k in t.kids then Overlay(Erase(t.kids[k]), Erase(st.kids[k])) else Erase(st.kids[k]),
                    KidNodes(t, k) + KidNodes(st, k))
    ensures Holds(Branch(dst, t.kids[k := kid])) && Holds(st)
    decreases st, 0
  {
    hide Nodes, HoldsIn, Tidy, Erase, Overlay;
    ghost var all := Nodes(t) + Nodes(st);
    ghost var m1 := Snapshot(all);
    HoldsVia(t, all);
    HoldsVia(st, all);
    RootHeld(t, m1, k);
    RootHeld(st, m1, k);
    KidRepresented(st, k, m1);
    kid := st.kids[k];
    var v := src.entries[k];
    if v.Sub? && k in dst.entries && dst.entries[k].Sub? {
      KidRepresented(t, k, m1);
      HoldsVia(t.kids[k], all);
      HoldsVia(kid, all);
      kid := Merge(dst.entries[k].node, v.node, t.kids[k], kid);
    } else {
      HoldsVia(kid, all);
      dst.entries := dst.entries[k := v];
      ErasedAtom(kid);
      if k in t.kids {
        ErasedAtom(t.kids[k]);
        OntoAtom(Erase(t.kids[k]), Erase(kid));
      }
    }
    ghost var m2 := Snapshot(all);
    HoldsVia(kid, all);
    KidWritten(t, k, kid, st, m1, m2);
    WrittenInside(t, k, kid, all);
    HoldsVia(Branch(dst, t.kids[k := kid]), all);
    HoldsVia(st, all);
  }

  // --------------------------------------------------------------------- set

  /** Sections all the way down the path. */
  ghost predicate Walks(t: Tree, p: Path) {
    t.Branch? && (p != [] ==> p[0] in t.kids && Walks(t.kids[p[0]], p[1..]))
  }

  ghost function At(t: Tree, p: Path): (r: Tree)
    requires Walks(t, p)
    ensures r.Branch?
  {
    if p == [] then t else At(t.kids[p[0]], p[1..])
  }

  /** t with x written under key k of the section at p. */
  ghost function Graft(t: Tree, p: Path, k: string, x: Tree): (r: Tree)
    requires Walks(t, p)
    ensures r.Branch? && r.node == t.node
  {
    if p == [] then Branch(t.node, t.kids[k := x])
    else Branch(t.node, t.kids[p[0] := Graft(t.kids[p[0]], p[1..], k, x)])
  }

  lemma {:induction false} AtHeld(t: Tree, p: Path, mem: Memory)
    requires Walks(t, p) && HoldsIn(t, mem)
    ensures HoldsIn(At(t, p), mem) && Nodes(At(t, p)) <= Nodes(t)
    decreases |p|
  {
    if p != [] {
      AtHeld(t.kids[p[0]], p[1..], mem);
      KidsInside(t, p[0]);
    }
  }

  lemma {:induction false} WalksOn(t: Tree, p: Path, k: string)
    requires Walks(t, p) && k in At(t, p).kids && At(t, p).kids[k].Branch?
    ensures Walks(t, p + [k]) && At(t, p + [k]) == At(t, p).kids[k]
    decreases |p|
  {
    if p != [] {
      WalksOn(t.kids[p[0]], p[1..], k);
      assert (p + [k])[1..] == p[1..] + [k];
    }
  }

  lemma {:induction false} GraftAt(t: Tree, p: Path, k: string, x: Tree)
    requires Walks(t, p)
    ensures Walks(Graft(t, p, k, x), p)
    ensures At(Graft(t, p, k, x), p) == Branch(At(t, p).node, At(t, p).kids[k := x])
    decreases |p|
  {
    if p != [] {
      GraftAt(t.kids[p[0]], p[1..], k, x);
    }
  }

  /** A write to one node c, at the root or under key k, leaves the other kids as they were. */
  lemma OtherKidsKept(t: Tree, k: string, c: Node, m1: Memory, m2: Memory)
    requires t.Branch? && Tidy(t) && HoldsIn(t, m1) && (c == t.node || c in KidNodes(t, k))
    requires AgreeOn(m1, m2, Nodes(t) - {c})
    ensures forall j :: j in t.kids && j != k ==> HoldsIn(t.kids[j], m2)
    ensures c != t.node ==> t.node in m2 && m2[t.node] == m1[t.node]
  {
    forall j | j in t.kids && j != k ensures HoldsIn(t.kids[j], m2) {
      KidsInside(t, j);
      assert c !in Nodes(t.kids[j]);
      SameMemory(t.kids[j], m1, m2);
    }
  }

  lemma KidReplacedHolds(t: Tree, k: string, kid: Tree, m1: Memory, m2: Memory)
    requires t.Branch? && HoldsIn(t, m1) && HoldsIn(kid, m2) && t.node in m2
    requires m2[t.node] == m1[t.node][k := SlotOf(kid)]
    requires forall j :: j in t.kids && j != k ==> HoldsIn(t.kids[j], m2)
    ensures HoldsIn(Branch(t.node, t.kids[k := kid]), m2)
  {
  }

  /** One kid replaced by a tree that reaches no more than it did, plus nodes of its own. */
  lemma KidReplacedTidy(t: Tree, k: string, kid: Tree, extra: set<Node>)
    requires t.Branch? && Tidy(t) && Tidy(kid) && extra !! Nodes(t)
    requires Nodes(kid) <= KidNodes(t, k) + extra
    ensures Tidy(Branch(t.node, t.kids[k := kid])) && Nodes(Branch(t.node, t.kids[k := kid])) <= Nodes(t) + extra
  {
    if k in t.kids {
      KidsInside(t, k);
    }
    WrittenInside(t, k, kid, Nodes(t) + extra);
    forall j | j in t.kids && j != k ensures Nodes(t.kids[j]) !! Nodes(kid) {
      KidsInside(t, j);
      assert k in t.kids ==> Nodes(t.kids[j]) !! Nodes(t.kids[k]);
    }
  }

  /** Writing one key of one section somewhere in the tree: the tree with that one change. */
  lemma {:induction false} Grafted(t: Tree, p: Path, k: string, x: Tree, m1: Memory, m2: Memory)
    requires Walks(t, p) && Tidy(t) && HoldsIn(t, m1)
    requires Tidy(x) && HoldsIn(x, m2) && Nodes(x) !! Nodes(t)
    requires At(t, p).node in m1 && At(t, p).node in m2
    requires m2[At(t, p).node] == m1[At(t, p).node][k := SlotOf(x)]
    requires AgreeOn(m1, m2, Nodes(t) - {At(t, p).node})
    ensures Tidy(Graft(t, p, k, x)) && HoldsIn(Graft(t, p, k, x), m2)
    ensures Nodes(Graft(t, p, k, x)) <= Nodes(t) + Nodes(x)
    decreases |p|
  {
    hide Nodes, HoldsIn, Tidy;
    var c := At(t, p).node;
    AtHeld(t, p, m1);
    RootHeld(At(t, p), m1, k);
    if p == [] {
      KidReplacedTidy(t, k, x, Nodes(x));
      OtherKidsKept(t, k, c, m1, m2);
      KidReplacedHolds(t, k, x, m1, m2);
    } else {
      var kid := t.kids[p[0]];
      KidRepresented(t, p[0], m1);
      AtHeld(kid, p[1..], m1);
      Grafted(kid, p[1..], k, x, m1, m2);
      KidReplacedTidy(t, p[0], Graft(kid, p[1..], k, x), Nodes(x));
      OtherKidsKept(t, p[0], c, m1, m2);
      RootHeld(t, m1, p[0]);
      KidReplacedHolds(t, p[0], Graft(kid, p[1..], k, x), m1, m2);
    }
  }

  /** Two sections that differ under one key only, where both overlay to the same thing. */
  lemma SameOverlayAt(d1: map<string, Value>, d2: map<string, Value>, k: string, rest: Value)
    requires d1.Keys + {k} == d2.Keys + {k} && forall j :: j in d1 && j != k ==> d1[j] == d2[j]
    requires (if k in d1 then Overlay(d1[k], rest) else rest) == (if k in d2 then Overlay(d2[k], rest) else rest)
    ensures Overlay(Sec(d1), Sec(map[k := rest])) == Overlay(Sec(d2), Sec(map[k := rest]))
  {
    var s := Sec(map[k := rest]);
    var o1, o2 := Overlay(Sec(d1), s).entries, Overlay(Sec(d2), s).entries;
    assert o1.Keys == o2.Keys;
    forall j | j in o1 ensures o1[j] == o2[j] {
      OverlayAt(Sec(d1), s, j);
      OverlayAt(Sec(d2), s, j);
    }
    assert o1 == o2;
  }

  lemma ErasedGraft(t: Tree, k: string, kid: Tree)
    requires t.Branch?
    ensures Erase(Branch(t.node, t.kids[k := kid])) == Sec(Erase(t).entries[k := Erase(kid)])
  {
    ErasedKids(Branch(t.node, t.kids[k := kid]), Erase(t).entries[k := Erase(kid)]);
  }

  lemma ChainStep(p: Path, leaf: Leaf)
    requires p != []
    ensures Chain(p, leaf) == Sec(map[p[0] := Chain(p[1..], leaf)])
  {
  }

  /** Opening an empty section where the path needs one changes nothing about the final overlay. */
  lemma {:induction false} OpenedSection(t: Tree, p: Path, k: string, n: Node, rest: Path, leaf: Leaf)
    requires Walks(t, p) && rest != []
    requires k in At(t, p).kids ==> At(t, p).kids[k].Bare?
    ensures Overlay(Erase(Graft(t, p, k, Branch(n, map[]))), Chain(p + [k] + rest, leaf))
         == Overlay(Erase(t), Chain(p + [k] + rest, leaf))
    decreases |p|
  {
    var full := p + [k] + rest;
    ChainStep(full, leaf);
    if p == [] {
      var open := Branch(n, map[]);
      assert Erase(open) == EMPTY;
      ErasedGraft(t, k, open);
      assert full[0] == k && full[1..] == rest;
      ChainStep(rest, leaf);
      EmptyNeutral(Chain(rest, leaf).entries);
      ErasedAt(t, k);
      SameOverlayAt(Erase(t).entries[k := EMPTY], Erase(t).entries, k, Chain(rest, leaf));
    } else {
      var kid := t.kids[p[0]];
      var kid2 := Graft(kid, p[1..], k, Branch(n, map[]));
      assert full[0] == p[0] && full[1..] == p[1..] + [k] + rest;
      OpenedSection(kid, p[1..], k, n, rest, leaf);
      ErasedGraft(t, p[0], kid2);
      ErasedAt(t, p[0]);
      SameOverlayAt(Erase(t).entries[p[0] := Erase(kid2)], Erase(t).entries, p[0], Chain(full[1..], leaf));
    }
  }

  /** Writing the leaf under the last key finishes the overlay. */
  lemma {:induction false} WrittenLeaf(t: Tree, p: Path, k: string, leaf: Leaf)
    requires Walks(t, p)
    ensures Erase(Graft(t, p, k, Bare(leaf))) == Overlay(Erase(t), Chain(p + [k], leaf))
    decreases |p|
  {
    var full := p + [k];
    ChainStep(full, leaf);
    var kid := if p == [] then Bare(leaf) else Graft(t.kids[p[0]], p[1..], k, Bare(leaf));
    if p == [] {
      assert full[1..] == [];
    } else {
      assert full[1..] == p[1..] + [k];
      WrittenLeaf(t.kids[p[0]], p[1..], k, leaf);
    }
    ErasedGraft(t, full[0], kid);
    ErasedAt(t, full[0]);
    var d, s := Erase(t), Chain(full, leaf);
    forall j | j in d.entries.Keys + {full[0]}
      ensures Overlay(d, s).entries.Keys == d.entries.Keys + {full[0]}
      ensures Overlay(d, s).entries[j] == d.entries[full[0] := Erase(kid)][j]
    {
      OverlayAt(d, s, j);
    }
    OverlayAt(d, s, full[0]);
    assert Overlay(d, s).entries == d.entries[full[0] := Erase(kid)];
  }

  /** The cursor walk of config.go:262-273: it opens the sections the path needs, replacing a leaf in
      the way, and writes the leaf under the last key, every key canonical. */
  method Set(m: Node, path: Path, leaf: Leaf, ghost mt: Tree) returns (ghost t: Tree, ghost made: set<Node>)
    requires path != [] && Represents(m, mt)
    modifies Nodes(mt)
    ensures Represents(m, t) && fresh(made) && Nodes(t) <= Nodes(mt) + made
    ensures Erase(t) == Overlay(Erase(mt), Chain(CanonPath(path), leaf))
  {
    hide Nodes, HoldsIn, Tidy, Erase, Overlay, Chain, Walks, At, Graft;
    ghost var cp := CanonPath(path);
    CanonPathAt(path, 0);
    t := mt;
    var cur, last := m, |path| - 1;
    var i := 0;
    StartWalk(mt);
    made := {};
    while i < last
      invariant 0 <= i <= last
      invariant Represents(m, t) && fresh(made) && Nodes(t) <= Nodes(mt) + made
      invariant Walks(t, cp[..i]) && At(t, cp[..i]).node == cur
      invariant Overlay(Erase(t), Chain(cp, leaf)) == Overlay(Erase(mt), Chain(cp, leaf))
    {
      CanonPathAt(path, i);
      CursorInside(t, cp[..i]);
      assert cp[..i + 1] == cp[..i] + [cp[i]] && cp[..i + 1] + cp[i + 1..] == cp;
      ghost var added;
      cur, t, added := Descend(cur, path[i], m, t, cp[..i], cp[i + 1..], leaf);
      made := made + added;
      i := i + 1;
    }
    CanonPathAt(path, i);
    CursorInside(t, cp[..i]);
    assert cp == cp[..i] + [cp[i]];
    t := Write(cur, path[i], leaf, m, t, cp[..i]);
  }

  /** One turn of the loop: move into the section under the key, making it if there is none. */
  method Descend(cur: Node, name: string, ghost m: Node, ghost t: Tree, ghost p: Path, ghost rest: Path,
      ghost leaf: Leaf)
    returns (next: Node, ghost t2: Tree, ghost made: set<Node>)
    requires Represents(m, t) && Walks(t, p) && At(t, p).node == cur && rest != []
    modifies cur
    ensures Represents(m, t2) && fresh(made) && Nodes(t2) <= Nodes(t) + made
    ensures Walks(t2, p + [Canon(name)]) && At(t2, p + [Canon(name)]).node == next
    ensures Overlay(Erase(t2), Chain(p + [Canon(name)] + rest, leaf))
        == Overlay(Erase(t), Chain(p + [Canon(name)] + rest, leaf))
  {
    hide Nodes, HoldsIn, Tidy, Erase, Overlay, Chain, Walks, At, Graft;
    NodesAllocated(t);
    var key := Relax(name);
    t2, made := t, {};
    ghost var m1 := Snapshot(Nodes(t));
    AtHeld(t, p, m1);
    RootHeld(At(t, p), m1, key);
    if key in cur.entries && cur.entries[key].Sub? {
      WalksOn(t, p, key);
      next := cur.entries[key].node;
    } else {
      next := new Node();
      made := {next};
      ghost var open := Branch(next, map[]);
      cur.entries := cur.entries[key := Sub(next)];
      NewSection(open);
      ghost var all := Nodes(t) + {next};
      ghost var m2 := Snapshot(all);
      Grafted(t, p, key, open, m1, m2);
      OpenedSection(t, p, key, next, rest, leaf);
      GraftAt(t, p, key, open);
      t2 := Graft(t, p, key, open);
      HoldsVia(t2, all);
      WalksOn(t2, p, key);
    }
  }

  method Write(cur: Node, name: string, leaf: Leaf, ghost m: Node, ghost t: Tree, ghost p: Path)
      returns (ghost t2: Tree)
    requires Represents(m, t) && Walks(t, p) && At(t, p).node == cur
    modifies cur
    ensures Represents(m, t2) && Nodes(t2) <= Nodes(t)
    ensures Erase(t2) == Overlay(Erase(t), Chain(p + [Canon(name)], leaf))
  {
    hide Nodes, HoldsIn, Tidy, Erase, Overlay, Chain, Walks, At, Graft;
    NodesAllocated(t);
    var key := Relax(name);
    ghost var all := Nodes(t);
    ghost var m1 := Snapshot(all);
    AtHeld(t, p, m1);
    RootHeld(At(t, p), m1, key);
    cur.entries := cur.entries[key := Held(leaf)];
    ghost var m2 := Snapshot(all);
    NewLeaf(leaf, m2);
    Grafted(t, p, key, Bare(leaf), m1, m2);
    WrittenLeaf(t, p, key, leaf);
    t2 := Graft(t, p, key, Bare(leaf));
    HoldsVia(t2, all);
  }

  lemma CursorInside(t: Tree, p: Path)
    requires Walks(t, p) && Holds(t)
    ensures At(t, p).node in Nodes(t)
  {
    AtHeld(t, p, Snapshot(Nodes(t)));
  }

  lemma StartWalk(t: Tree)
    requires t.Branch?
    ensures Walks(t, []) && At(t, []) == t
  {
  }

  lemma NewSection(t: Tree)
    requires t.Branch? && t.kids == map[] && t.node.entries == map[]
    ensures Tidy(t) && Nodes(t) == {t.node}
    ensures forall mem: Memory :: t.node in mem && mem[t.node] == map[] ==> HoldsIn(t, mem)
  {
  }

  lemma NewMap(t: Tree)
    requires t.Branch? && t.kids == map[] && t.node.entries == map[]
    ensures Represents(t.node, t) && Nodes(t) == {t.node}
  {
    NewSection(t);
  }

  lemma NewLeaf(leaf: Leaf, mem: Memory)
    ensures Tidy(Bare(leaf)) && Nodes(Bare(leaf)) == {} && HoldsIn(Bare(leaf), mem)
  {
  }
}
