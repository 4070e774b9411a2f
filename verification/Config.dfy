/** config.go above the merge: canonMap, the properties parser, the environment layer and Load.

    Reading a file is an input (`Content`); so are a parsed YAML document and `parse`, which types
    one value (parseValue, config.go:236-258). Decoding into a struct is not part of this model. */
module Config {
  import opened Sections
  import opened Keys
  import opened ConfigTree
  import opened Text
  import opened Wrappers

  // ---------------------------------------------------------------- canonMap

  /** The keys of `done` taken over into `kids`, each under its canonical spelling. */
  ghost predicate TakenOver(m: map<string, Value>, done: set<string>, seen: map<string, string>,
                            kids: map<string, Tree>)
  {
    && done <= m.Keys
    && seen.Keys == kids.Keys
    && (forall k :: k in done ==> Canon(k) in seen && seen[Canon(k)] == k && NoClash(m[k]))
    && (forall c :: c in seen ==> seen[c] in done && Canon(seen[c]) == c && NoClash(m[seen[c]])
                                  && Erase(kids[c]) == CanonValue(m[seen[c]]))
  }

  lemma OneMoreTaken(m: map<string, Value>, done: set<string>, seen: map<string, string>, kids: map<string, Tree>,
                     k: string, kid: Tree)
    requires TakenOver(m, done, seen, kids) && k in m && k !in done && Canon(k) !in seen
    requires NoClash(m[k]) && Erase(kid) == CanonValue(m[k])
    ensures TakenOver(m, done + {k}, seen[Canon(k) := k], kids[Canon(k) := kid])
  {
    hide NoClash, CanonValue, Erase, Canon;
  }

  lemma AllTaken(m: map<string, Value>, seen: map<string, string>, t: Tree)
    requires t.Branch? && TakenOver(m, m.Keys, seen, t.kids)
    ensures NoClash(Sec(m)) && Erase(t) == CanonValue(Sec(m))
  {
    forall k, l | k in m && l in m && Canon(k) == Canon(l) ensures k == l {
      assert seen[Canon(k)] == k && seen[Canon(l)] == l;
    }
    var want := CanonValue(Sec(m)).entries;
    forall c | c in want ensures c in t.kids && Erase(t.kids[c]) == want[c] {
      var k := Spelling(m, c);
      CanonAt(Sec(m), k);
      assert seen[c] == k;
    }
    forall c | c in t.kids ensures c in want {
      CanonAt(Sec(m), seen[c]);
    }
    ErasedKids(t, want);
  }

  /** One entry added to a section that nothing else writes meanwhile. */
  lemma EntryAdded(t: Tree, c: string, kid: Tree, m1: Memory, m2: Memory)
    requires t.Branch? && Tidy(t) && HoldsIn(t, m1) && Tidy(kid) && HoldsIn(kid, m2) && Nodes(kid) !! Nodes(t)
    requires t.node in m2 && t.node in m1 && m2[t.node] == m1[t.node][c := SlotOf(kid)]
    requires AgreeOn(m1, m2, Nodes(t) - {t.node})
    ensures var out := Branch(t.node, t.kids[c := kid]);
            Tidy(out) && HoldsIn(out, m2) && Nodes(out) <= Nodes(t) + Nodes(kid)
  {
    StartWalk(t);
    Grafted(t, [], c, kid, m1, m2);
    assert Graft(t, [], c, kid) == Branch(t.node, t.kids[c := kid]);
  }

  lemma LeafCanon(l: Leaf)
    ensures NoClash(Atom(l)) && CanonValue(Atom(l)) == Atom(l) && Erase(Bare(l)) == Atom(l)
    ensures Tidy(Bare(l)) && Nodes(Bare(l)) == {} && Holds(Bare(l))
  {
  }

  method AddEntry(out: Node, c: string, slot: Slot, ghost t: Tree, ghost kid: Tree)
    requires Represents(out, t) && Tidy(kid) && Holds(kid) && slot == SlotOf(kid) && Nodes(kid) !! Nodes(t)
    modifies out
    ensures Represents(out, Branch(out, t.kids[c := kid]))
    ensures Nodes(Branch(out, t.kids[c := kid])) <= Nodes(t) + Nodes(kid)
  {
    hide Nodes, HoldsIn, Tidy;
    ghost var all := Nodes(t) + Nodes(kid);
    ghost var m1 := Snapshot(all);
    HoldsVia(t, all);
    RootHeld(t, m1, c);
    out.entries := out.entries[c := slot];
    ghost var m2 := Snapshot(all);
    HoldsVia(kid, all);
    EntryAdded(t, c, kid, m1, m2);
    HoldsVia(Branch(out, t.kids[c := kid]), all);
  }

  lemma NothingTaken(m: map<string, Value>)
    ensures TakenOver(m, {}, map[], map[])
  {
  }

  lemma ClashFound(m: map<string, Value>, done: set<string>, seen: map<string, string>, kids: map<string, Tree>,
      k: string)
    requires TakenOver(m, done, seen, kids) && k in m && k !in done && Canon(k) in seen
    ensures !NoClash(Sec(m))
  {
    var first := seen[Canon(k)];
    assert first in m && Canon(first) == Canon(k) && first != k;
  }

  lemma ClashBelow(m: map<string, Value>, k: string)
    requires k in m && !NoClash(m[k])
    ensures !NoClash(Sec(m))
  {
  }

  /** canonMap over the document's keys in whatever order the map yields them. It fails exactly when
      some section reached by keys holds two spellings of one key, and otherwise builds one value whatever
      the order. A list, or a mapping with a key that is no string, is kept as it is with whatever maps are
      in it: see Unreached. */
  method CanonMap(m: map<string, Value>) returns (r: Option<Node>, ghost t: Tree)
    ensures r.Some? <==> NoClash(Sec(m))
    ensures r.Some? ==> Represents(r.value, t) && fresh(Nodes(t)) && Erase(t) == CanonValue(Sec(m))
    decreases Sec(m), 0
  {
    hide Nodes, HoldsIn, Tidy, Erase, CanonValue, NoClash, TakenOver, Canon, Holds;
    var out := new Node();
    var seen: map<string, string> := map[];
    t := Branch(out, map[]);
    NewMap(t);
    NothingTaken(m);
    var todo := m.Keys;
    ghost var done := {};
    while todo != {}
      invariant done + todo == m.Keys && done !! todo
      invariant Represents(out, t) && fresh(Nodes(t))
      invariant TakenOver(m, done, seen, t.kids)
      decreases todo
    {
      var k :| k in todo;
      NodesAllocated(t);
      var c := Relax(k);
      if c in seen {
        ClashFound(m, done, seen, t.kids, k);
        r := None;
        return;
      }
      NodesAllocated(t);
      var slot;
      ghost var kid;
      slot, kid := CanonEntry(m[k]);
      if slot.None? {
        ClashBelow(m, k);
        r := None;
        return;
      }
      AddEntry(out, c, slot.value, t, kid);
      OneMoreTaken(m, done, seen, t.kids, k, kid);
      t := Branch(out, t.kids[c := kid]);
      seen := seen[c := k];
      todo, done := todo - {k}, done + {k};
    }
    assert done == m.Keys;
    AllTaken(m, seen, t);
    r := Some(out);
  }

  /** One value of the document: a section is converted in its turn, anything else is kept. */
  method CanonEntry(v: Value) returns (slot: Option<Slot>, ghost kid: Tree)
    ensures slot.Some? <==> NoClash(v)
    ensures slot.Some? ==> Tidy(kid) && Holds(kid) && slot.value == SlotOf(kid) && fresh(Nodes(kid))
                           && Erase(kid) == CanonValue(v)
    decreases v, 1
  {
    match v
    case Atom(l) =>
      slot, kid := Some(Held(l)), Bare(l);
      LeafCanon(l);
    case Sec(sub) =>
      var s;
      s, kid := CanonMap(sub);
      slot := if s.None? then None else Some(Sub(s.value));
  }

  // ------------------------------------------------------- entries and layers

  /** One key of a properties file or of the environment. */
  datatype Entry = Entry(path: Path, leaf: Leaf)

  /** The one-leaf document an entry stands for. */
  function Layer(e: Entry): Value {
    Chain(CanonPath(e.path), e.leaf)
  }

  function Layers(es: seq<Entry>): seq<Value> {
    if es == [] then [] else Layers(es[..|es| - 1]) + [Layer(es[|es| - 1])]
  }

  lemma {:induction false} LayersAt(es: seq<Entry>, i: nat)
    requires i < |es|
    ensures |Layers(es)| == |es| && Layers(es)[i] == Layer(es[i])
    decreases |es|
  {
    if |es| > 1 {
      LayersAt(es[..|es| - 1], if i < |es| - 1 then i else 0);
    }
  }

  lemma OneMoreLayer(es: seq<Entry>, e: Entry)
    ensures Stack(Layers(es + [e])) == Overlay(Stack(Layers(es)), Layer(e))
  {
    assert (es + [e])[..|es|] == es;
    assert (Layers(es) + [Layer(e)])[..|Layers(es)|] == Layers(es);
  }

  /** Among entries folded in order, the last one comparable with a path decides it; an entry that no
      later one crosses is read back. */
  lemma LastEntryWins(es: seq<Entry>, i: nat, q: Path)
    requires i < |es| && Comparable(CanonPath(es[i].path), q)
    requires forall j :: i < j < |es| ==> !Comparable(CanonPath(es[j].path), q)
    ensures Look(Stack(Layers(es)), q) == Look(Layer(es[i]), q)
    ensures q == CanonPath(es[i].path) ==> Look(Stack(Layers(es)), q) == AtomAt(es[i].leaf)
  {
    LayersAt(es, i);
    ChainClaims(CanonPath(es[i].path), es[i].leaf, q);
    ChainLook(CanonPath(es[i].path), es[i].leaf, q);
    forall j | i < j < |Layers(es)| ensures !Claims(Layers(es)[j], q) {
      LayersAt(es, j);
      ChainClaims(CanonPath(es[j].path), es[j].leaf, q);
    }
    LastClaimWins(Layers(es), q, i);
  }

  lemma {:induction false} LayersCanonical(es: seq<Entry>)
    ensures AllCanon(Stack(Layers(es)))
  {
    forall i | 0 <= i < |Layers(es)| ensures AllCanon(Layers(es)[i]) {
      LayersAt(es, 0);
      LayersAt(es, i);
      ChainCanonical(es[i].path, es[i].leaf);
    }
    StackCanonical(Layers(es));
  }

  // --------------------------------------------------------- parseProperties

  datatype LineError = UnicodeEscape | Continuation | NoSeparator | EmptyKey | EscapedKey | IndexedKey

  datatype Line = Blank | Bad(error: LineError) | Good(entry: Entry)

  lemma IndexOfChar(s: string, c: char)
    ensures var r := Index(s, [c]);
            && (r == -1 || (0 <= r < |s| && s[r] == c))
            && forall i :: 0 <= i < |s| && (r < 0 || i < r) ==> s[i] != c
  {
    var r := Index(s, [c]);
    forall i | 0 <= i < |s| && (r < 0 || i < r) ensures s[i] != c {
      assert !StartsAt(s, [c], i);
    }
  }

  /** Whichever of = and : comes first, or -1 when there is neither. */
  function FirstSeparator(s: string): (r: int)
    ensures r == -1 || 0 <= r < |s|
    ensures r >= 0 ==> s[r] == '=' || s[r] == ':'
    ensures forall i :: 0 <= i < |s| && (r < 0 || i < r) ==> s[i] != '=' && s[i] != ':'
  {
    IndexOfChar(s, '=');
    IndexOfChar(s, ':');
    var eq, colon := Index(s, "="), Index(s, ":");
    if eq < 0 then colon
    else if colon < 0 then eq
    else if eq < colon then eq else colon
  }

  /** The checks of config.go:169-193 on one line, in their order. */
  function ReadLine(line: string, parse: string -> Leaf): (r: Line)
    ensures r.Good? ==> r.entry.path != []
  {
    var s := Trim(line);
    if s == "" || HasPrefix(s, "#") || HasPrefix(s, "!") then Blank
    else if Index(s, "\\u") >= 0 then Bad(UnicodeEscape)
    else if HasSuffix(s, "\\") then Bad(Continuation)
    else
      var cut := FirstSeparator(s);
      if cut < 0 then Bad(NoSeparator)
      else
        var key := Trim(s[..cut]);
        if key == "" then Bad(EmptyKey)
        else if '\\' in key then Bad(EscapedKey)
        else if '[' in key || ']' in key then Bad(IndexedKey)
        else Good(Entry(Split(key, "."), parse(Trim(s[cut + 1..]))))
  }

  /** The entries of the good lines, in order. */
  function LineEntries(lines: seq<string>, parse: string -> Leaf): (es: seq<Entry>)
    ensures forall e :: e in es ==> e.path != []
  {
    if lines == [] then []
    else
      var rest := LineEntries(lines[..|lines| - 1], parse);
      match ReadLine(lines[|lines| - 1], parse)
      case Good(e) => rest + [e]
      case _ => rest
  }

  lemma NextLine(lines: seq<string>, i: nat, parse: string -> Leaf)
    requires i < |lines|
    ensures LineEntries(lines[..i + 1], parse) ==
            var before := LineEntries(lines[..i], parse);
            match ReadLine(lines[i], parse) case Good(e) => before + [e] case _ => before
  {
    assert lines[..i + 1][..i] == lines[..i];
  }

  /** None of these lines is refused. */
  ghost predicate NoneBad(lines: seq<string>, parse: string -> Leaf) {
    forall i :: 0 <= i < |lines| ==> !ReadLine(lines[i], parse).Bad?
  }

  lemma NextGood(lines: seq<string>, i: nat, parse: string -> Leaf)
    requires i < |lines| && NoneBad(lines[..i], parse)
    ensures NoneBad(lines[..i + 1], parse) <==> !ReadLine(lines[i], parse).Bad?
  {
    hide ReadLine;
    var next := lines[..i + 1];
    assert next[i] == lines[i];
    forall j | 0 <= j < i ensures !ReadLine(next[j], parse).Bad? {
      assert next[j] == lines[..i][j];
    }
  }

  datatype Parsed = Loaded(node: Node) | BadLine(number: nat, error: LineError)

  /** It refuses a file at its first bad line, naming it, and otherwise leaves the fold of its entries. */
  method ParseProperties(body: string, parse: string -> Leaf) returns (r: Parsed, ghost t: Tree)
    ensures var lines := Split(body, "\n");
            r.BadLine? ==>
              && 1 <= r.number <= |lines| && ReadLine(lines[r.number - 1], parse) == Bad(r.error)
              && NoneBad(lines[..r.number - 1], parse)
    ensures var lines := Split(body, "\n");
            r.Loaded? ==>
              && NoneBad(lines, parse)
              && Represents(r.node, t) && fresh(Nodes(t))
              && Erase(t) == Stack(Layers(LineEntries(lines, parse)))
  {
    hide HoldsIn, Tidy, Erase, Stack, Overlay, Layers, ReadLine, LineEntries, CanonPath, Chain, Holds, Split, NoneBad,
      Nodes;
    var m := new Node();
    t := Branch(m, map[]);
    NewMap(t);
    NoEntries(t, "", parse);
    ghost var made := {m};
    var lines := Split(body, "\n");
    for i := 0 to |lines|
      invariant NoneBad(lines[..i], parse)
      invariant Represents(m, t) && fresh(made) && Nodes(t) <= made
      invariant Erase(t) == Stack(Layers(LineEntries(lines[..i], parse)))
    {
      NextLine(lines, i, parse);
      NextGood(lines, i, parse);
      var line := ReadLine(lines[i], parse);
      if line.Bad? {
        return BadLine(i + 1, line.error), t;
      }
      if line.Good? {
        OneMoreLayer(LineEntries(lines[..i], parse), line.entry);
        ghost var added;
        t, added := Set(m, line.entry.path, line.entry.leaf, t);
        made := made + added;
      }
    }
    assert lines[..|lines|] == lines;
    r := Loaded(m);
  }

  lemma NoEntries(t: Tree, prefix: string, parse: string -> Leaf)
    requires t.Branch? && t.kids == map[]
    ensures Erase(t) == Stack(Layers(LineEntries([], parse))) == Stack(Layers(VarEntries([], prefix, parse)))
    ensures NoneBad([], parse)
  {
    assert Erase(t).entries == map[];
  }

  // ---------------------------------------------------------------- envLayer

  /** What one environment variable contributes under the prefix; the Profile variable, nothing. */
  function ReadVar(kv: string, prefix: string, parse: string -> Leaf): (e: Option<Entry>)
    ensures e.Some? ==> e.value.path != []
  {
    var cut := Index(kv, "=");
    var k, v := if cut < 0 then kv else kv[..cut], if cut < 0 then "" else kv[cut + 1..];
    if !HasPrefix(k, prefix) then None
    else
      var name := k[|prefix|..];
      if Canon(name) == "profile" then None
      else Some(Entry(Split(name, "__"), parse(v)))
  }

  function VarEntries(env: seq<string>, prefix: string, parse: string -> Leaf): (es: seq<Entry>)
    ensures forall e :: e in es ==> e.path != []
  {
    if env == [] then []
    else
      var rest := VarEntries(env[..|env| - 1], prefix, parse);
      match ReadVar(env[|env| - 1], prefix, parse)
      case Some(e) => rest + [e]
      case None => rest
  }

  lemma NextVar(env: seq<string>, i: nat, prefix: string, parse: string -> Leaf)
    requires i < |env|
    ensures VarEntries(env[..i + 1], prefix, parse) ==
            var before := VarEntries(env[..i], prefix, parse);
            match ReadVar(env[i], prefix, parse) case Some(e) => before + [e] case None => before
  {
    assert env[..i + 1][..i] == env[..i];
  }

  /** The environment layer as a value. */
  function EnvValue(env: seq<string>, prefix: string, parse: string -> Leaf): Value {
    Stack(Layers(VarEntries(Sorted(env), prefix, parse)))
  }

  /** The order the process was handed its environment in does not matter. */
  lemma EnvOrderFree(env: seq<string>, env2: seq<string>, prefix: string, parse: string -> Leaf)
    requires multiset(env) == multiset(env2)
    ensures EnvValue(env, prefix, parse) == EnvValue(env2, prefix, parse)
  {
    SortedIsSorted(env);
    SortedIsSorted(env2);
    SortedUnique(Sorted(env), Sorted(env2));
  }

  method EnvLayer(env: seq<string>, prefix: string, parse: string -> Leaf) returns (m: Node, ghost t: Tree)
    ensures Represents(m, t) && fresh(Nodes(t))
    ensures Erase(t) == EnvValue(env, prefix, parse)
  {
    hide HoldsIn, Tidy, Erase, Stack, Overlay, Layers, ReadVar, VarEntries, CanonPath, Chain, Holds, Nodes;
    m := new Node();
    t := Branch(m, map[]);
    NewMap(t);
    NoEntries(t, prefix, parse);
    ghost var made := {m};
    var sorted := Sorted(env);
    for i := 0 to |sorted|
      invariant Represents(m, t) && fresh(made) && Nodes(t) <= made
      invariant Erase(t) == Stack(Layers(VarEntries(sorted[..i], prefix, parse)))
    {
      NextVar(sorted, i, prefix, parse);
      var e := ReadVar(sorted[i], prefix, parse);
      if e.Some? {
        OneMoreLayer(VarEntries(sorted[..i], prefix, parse), e.value);
        ghost var added;
        t, added := Set(m, e.value.path, e.value.leaf, t);
        made := made + added;
      }
    }
    assert sorted[..|sorted|] == sorted;
  }

  // -------------------------------------------------------------------- Load

  datatype Format = AsYaml | AsProperties

  /** One format for every file of a Load, picked by the extension of its path. */
  function ParserFor(path: string): (f: Option<Format>)
    ensures f == Some(AsYaml) <==> Ext(path) in [".yaml", ".yml"]
    ensures f == Some(AsProperties) <==> Ext(path) == ".properties"
  {
    var ext := Ext(path);
    if ext == ".yaml" || ext == ".yml" then Some(AsYaml)
    else if ext == ".properties" then Some(AsProperties)
    else None
  }

  /** What reading one file came to: its text, and what the YAML parser would make of it, which is no
      document where it does not parse. */
  datatype Content = Missing | Unreadable | File(text: string, doc: Option<map<string, Value>>)

  datatype Source = Source(required: bool, content: Content)

  ghost predicate Usable(s: Source, f: Format, parse: string -> Leaf) {
    match s.content
    case Missing => !s.required
    case Unreadable => false
    case File(text, doc) =>
      if f.AsYaml? then doc.Some? && NoClash(Sec(doc.value)) else NoneBad(Split(text, "\n"), parse)
  }

  /** The layer a usable file stands for; an absent optional file is the empty document. */
  ghost function SourceValue(s: Source, f: Format, parse: string -> Leaf): Value
    requires Usable(s, f, parse)
  {
    match s.content
    case Missing => EMPTY
    case File(text, doc) =>
      if f.AsYaml? then CanonValue(Sec(doc.value)) else Stack(Layers(LineEntries(Split(text, "\n"), parse)))
  }

  ghost predicate AllUsable(ss: seq<Source>, f: Format, parse: string -> Leaf) {
    forall i :: 0 <= i < |ss| ==> Usable(ss[i], f, parse)
  }

  ghost function SourceValues(ss: seq<Source>, f: Format, parse: string -> Leaf): (vs: seq<Value>)
    requires AllUsable(ss, f, parse)
    ensures |vs| == |ss|
  {
    seq(|ss|, i requires 0 <= i < |ss| => SourceValue(ss[i], f, parse))
  }

  /** Everything Load lays on top of the empty document, the environment last. */
  ghost function LoadLayers(ss: seq<Source>, env: seq<string>, prefix: string, f: Format,
      parse: string -> Leaf): seq<Value>
    requires AllUsable(ss, f, parse)
  {
    SourceValues(ss, f, parse) + [EnvValue(env, prefix, parse)]
  }

  lemma NextSource(ss: seq<Source>, i: nat, f: Format, parse: string -> Leaf)
    requires i < |ss| && AllUsable(ss[..i], f, parse) && Usable(ss[i], f, parse)
    ensures AllUsable(ss[..i + 1], f, parse)
    ensures Stack(SourceValues(ss[..i + 1], f, parse))
        == Overlay(Stack(SourceValues(ss[..i], f, parse)), SourceValue(ss[i], f, parse))
  {
    hide Usable, SourceValue, Overlay;
    var next := ss[..i + 1];
    forall j | 0 <= j < |next| ensures Usable(next[j], f, parse) {
      assert j < i ==> next[j] == ss[..i][j];
    }
    var vs := SourceValues(ss[..i + 1], f, parse);
    assert vs[..i] == SourceValues(ss[..i], f, parse);
  }

  /** Every key of a loaded configuration is canonical, in every section reached by keys. Unreached says
      when that holds of every map. */
  lemma {:induction false} LoadedCanonical(ss: seq<Source>, env: seq<string>, prefix: string, f: Format,
      parse: string -> Leaf)
    requires AllUsable(ss, f, parse)
    ensures AllCanon(Stack(LoadLayers(ss, env, prefix, f, parse)))
  {
    var layers := LoadLayers(ss, env, prefix, f, parse);
    forall i | 0 <= i < |layers| ensures AllCanon(layers[i]) {
      if i == |ss| {
        LayersCanonical(VarEntries(Sorted(env), prefix, parse));
      } else {
        match ss[i].content
        case File(text, doc) =>
          if f.AsYaml? {
            CanonValueCanonical(Sec(doc.value));
          } else {
            LayersCanonical(LineEntries(Split(text, "\n"), parse));
          }
        case _ =>
      }
    }
    StackCanonical(layers);
  }

  datatype Outcome = Merged(node: Node) | NoPrefix | NoParser | Refused(index: nat)

  /** Reads one file: refused, left out, or a fresh map. */
  method ReadSource(s: Source, f: Format, parse: string -> Leaf) returns (r: Option<Option<Node>>, ghost t: Tree)
    ensures r.Some? <==> Usable(s, f, parse)
    ensures s.content.Unreadable? || (s.content.Missing? && s.required) ==> r.None?
    ensures s.content.Missing? && !s.required <==> r == Some(None)
    ensures s.content.File? && f.AsYaml? ==> (r.Some? <==> s.content.doc.Some? && NoClash(Sec(s.content.doc.value)))
    ensures s.content.File? && f.AsProperties? ==> (r.Some? <==> NoneBad(Split(s.content.text, "\n"), parse))
    ensures r.Some? && r.value.Some? ==>
        Represents(r.value.value, t) && fresh(Nodes(t)) && Erase(t) == SourceValue(s, f, parse)
  {
    hide HoldsIn, Tidy, Erase, Stack, Overlay, Layers, ReadLine, LineEntries, CanonPath, Chain, Nodes, NoClash,
      CanonValue;
    r, t := None, Bare(BoolLeaf(false));
    match s.content
    case Missing =>
      r := if s.required then None else Some(None);
    case Unreadable =>
    case File(text, doc) =>
      if f.AsProperties? {
        var parsed;
        parsed, t := ParseProperties(text, parse);
        r := if parsed.Loaded? then Some(Some(parsed.node)) else None;
      } else if doc.Some? {
        var n;
        n, t := CanonMap(doc.value);
        r := if n.Some? then Some(n) else None;
      }
  }

  /** Load up to the decode. It refuses exactly an empty prefix, a path with an unsupported extension, or an
      unusable file, in that order and naming the first such file; otherwise the map it hands to the decoder
      is the stack of every layer in order. */
  method Load(path: string, ss: seq<Source>, env: seq<string>, prefix: string, parse: string -> Leaf)
    returns (r: Outcome, ghost t: Tree)
    ensures r.NoPrefix? <==> prefix == ""
    ensures r.NoParser? <==> prefix != "" && ParserFor(path).None?
    ensures r.Merged? <==> prefix != "" && ParserFor(path).Some? && AllUsable(ss, ParserFor(path).value, parse)
    ensures r.Refused? ==> ParserFor(path).Some? && r.index < |ss|
    ensures r.Refused? ==>
              var f := ParserFor(path).value;
              !Usable(ss[r.index], f, parse) && AllUsable(ss[..r.index], f, parse)
    ensures r.Merged? ==>
              Represents(r.node, t) && Erase(t) == Stack(LoadLayers(ss, env, prefix, ParserFor(path).value, parse))
  {
    hide HoldsIn, Tidy, Erase, Stack, Overlay, Layers, ReadLine, LineEntries, CanonPath, Chain, NoClash, CanonValue,
      Usable, ParserFor;
    t := Bare(BoolLeaf(false));
    if prefix == "" {
      return NoPrefix, t;
    }
    var parser := ParserFor(path);
    if parser.None? {
      return NoParser, t;
    }
    var f := parser.value;
    var merged := new Node();
    t := Branch(merged, map[]);
    NewMap(t);
    NoSources(t, f, parse);
    for i := 0 to |ss|
      invariant AllUsable(ss[..i], f, parse)
      invariant Represents(merged, t) && fresh(Nodes(t))
      invariant Erase(t) == Stack(SourceValues(ss[..i], f, parse))
    {
      NodesAllocated(t);
      var file;
      ghost var ft;
      file, ft := ReadSource(ss[i], f, parse);
      if file.None? {
        return Refused(i), t;
      }
      NextSource(ss, i, f, parse);
      if file.value.None? {
        SkippedSource(t, ss[i], f, parse);
        continue;
      }
      t := Merge(merged, file.value.value, t, ft);
    }
    assert ss[..|ss|] == ss;
    NodesAllocated(t);
    var e;
    ghost var et;
    e, et := EnvLayer(env, prefix, parse);
    t := Merge(merged, e, t, et);
    LastLayer(SourceValues(ss, f, parse), EnvValue(env, prefix, parse));
    r := Merged(merged);
  }

  lemma NoSources(t: Tree, f: Format, parse: string -> Leaf)
    requires t.Branch? && t.kids == map[]
    ensures AllUsable([], f, parse) && Erase(t) == Stack(SourceValues([], f, parse))
  {
    assert Erase(t).entries == map[];
  }

  lemma SkippedSource(t: Tree, s: Source, f: Format, parse: string -> Leaf)
    requires t.Branch? && Usable(s, f, parse) && s.content.Missing?
    ensures Overlay(Erase(t), SourceValue(s, f, parse)) == Erase(t)
  {
    EmptyNeutral(Erase(t).entries);
  }

  lemma LastLayer(layers: seq<Value>, v: Value)
    ensures Stack(layers + [v]) == Overlay(Stack(layers), v)
  {
    assert (layers + [v])[..|layers|] == layers;
  }
}
