/** The signing-key cache of security/jwks.go: lazy load, the refetch floor, outright replacement and
    several keys under one kid (section 4.5 of RFC 7517).

    A key is opaque and a load is an input that succeeds or fails; time is an integer that never goes
    back. Each call runs under the mutex, so calls come one after another. The clock is read twice, once
    to check the floor and once to stamp the load, and the stamps are what the floor holds apart. */
module Jwks {
  import opened Wrappers

  type Key = nat

  /** kid to the keys published under it. */
  type Keys = map<string, seq<Key>>

  ghost predicate NoEmptyKid(keys: Keys) {
    forall kid :: kid in keys ==> keys[kid] != []
  }

  // ---------------------------------------------------------------- the bag

  /** Every key held, however many times it is published. */
  ghost function Bag(keys: Keys): multiset<Key>
    decreases |keys|
  {
    if keys == map[] then multiset{}
    else
      var kid :| kid in keys;
      multiset(keys[kid]) + Bag(keys - {kid})
  }

  /** It does not matter which kid is taken first. */
  lemma {:induction false} BagTakesAny(keys: Keys, kid: string)
    requires kid in keys
    ensures Bag(keys) == multiset(keys[kid]) + Bag(keys - {kid})
    decreases |keys|
  {
    var first :| first in keys && Bag(keys) == multiset(keys[first]) + Bag(keys - {first});
    if first != kid {
      BagTakesAny(keys - {first}, kid);
      BagTakesAny(keys - {kid}, first);
      assert keys - {first} - {kid} == keys - {kid} - {first};
    }
  }

  lemma NoKeysNoBag(keys: Keys)
    requires NoEmptyKid(keys)
    ensures |Bag(keys)| == 0 <==> keys == map[]
  {
    if keys != map[] {
      var kid :| kid in keys;
      BagTakesAny(keys, kid);
      assert |multiset(keys[kid])| == |keys[kid]| > 0;
    }
  }

  // ----------------------------------------------------------- parseJWKS

  /** One entry of the document; key is None when it is not one that can be read. */
  datatype Jwk = Jwk(kid: string, use: string, key: Option<Key>)

  predicate Usable(j: Jwk) {
    (j.use == "" || j.use == "sig") && j.key.Some?
  }

  /** The usable keys published under a kid, in document order. */
  function KeysUnder(js: seq<Jwk>, kid: string): seq<Key> {
    if js == [] then []
    else
      var j := js[|js| - 1];
      KeysUnder(js[..|js| - 1], kid) + if Usable(j) && j.kid == kid then [j.key.value] else []
  }

  lemma {:induction false} KeysUnderSome(js: seq<Jwk>, kid: string)
    ensures KeysUnder(js, kid) != [] <==> exists j :: j in js && Usable(j) && j.kid == kid
    decreases |js|
  {
    if js != [] {
      KeysUnderSome(js[..|js| - 1], kid);
      assert js == js[..|js| - 1] + [js[|js| - 1]];
    }
  }

  /** The keys of two documents under a kid are those of the first and then those of the second. */
  lemma {:induction false} KeysUnderSplit(a: seq<Jwk>, b: seq<Jwk>, kid: string)
    ensures KeysUnder(a + b, kid) == KeysUnder(a, kid) + KeysUnder(b, kid)
    decreases |b|
  {
    if b == [] {
      assert a + b == a;
    } else {
      assert (a + b)[..|a + b| - 1] == a + b[..|b| - 1];
      KeysUnderSplit(a, b[..|b| - 1], kid);
    }
  }

  /** One entry counts under its own kid if it says it is for signatures, or does not say what it is for, and
      its key can be read; whatever else it is for, it counts under none. */
  lemma KeysUnderOne(j: Jwk, kid: string)
    ensures (j.use == "" || j.use == "sig") && j.key.Some? && kid == j.kid ==> KeysUnder([j], kid) == [j.key.value]
    ensures (j.use != "" && j.use != "sig") || j.key.None? || kid != j.kid ==> KeysUnder([j], kid) == []
    ensures KeysUnder([], kid) == []
  {
    assert [j][..0] == [];
  }

  lemma NextKey(js: seq<Jwk>, i: nat)
    requires i < |js|
    ensures forall kid :: KeysUnder(js[..i + 1], kid) ==
              KeysUnder(js[..i], kid) + if Usable(js[i]) && js[i].kid == kid then [js[i].key.value] else []
  {
    assert js[..i + 1][..i] == js[..i];
  }

  lemma NoKeysYet()
    ensures forall kid :: KeysUnder([], kid) == []
  {
  }

  /** The grouping loop. Nothing usable is lost or reordered under its kid, an entry that cannot be used is
      skipped, and a document with none at all is refused. */
  method ParseJWKS(doc: Option<seq<Jwk>>) returns (r: Option<Keys>)
    ensures r.Some? <==> doc.Some? && exists j :: j in doc.value && Usable(j)
    ensures r.Some? ==>
              && r.value != map[] && NoEmptyKid(r.value)
              && (forall kid :: kid in r.value <==> exists j :: j in doc.value && Usable(j) && j.kid == kid)
              && (forall kid :: kid in r.value ==> r.value[kid] == KeysUnder(doc.value, kid))
  {
    hide KeysUnder;
    if doc.None? {
      return None;
    }
    var js := doc.value;
    var out: Keys := map[];
    NoKeysYet();
    for i := 0 to |js|
      invariant forall kid :: kid in out ==> out[kid] == KeysUnder(js[..i], kid) && out[kid] != []
      invariant forall kid :: kid !in out ==> KeysUnder(js[..i], kid) == []
    {
      NextKey(js, i);
      var j := js[i];
      if Usable(j) {
        out := out[j.kid := (if j.kid in out then out[j.kid] else []) + [j.key.value]];
      }
    }
    assert js[..|js|] == js;
    forall kid ensures kid in out <==> exists j :: j in js && Usable(j) && j.kid == kid {
      KeysUnderSome(js, kid);
    }
    if out == map[] {
      forall j | j in js ensures !Usable(j) {
        assert Usable(j) ==> j.kid in out;
      }
      return None;
    }
    var kid :| kid in out;
    return Some(out);
  }

  // ------------------------------------------------------------ the key set

  /** One call of load: when it was stamped and what it came to. */
  datatype Load = Load(at: int, keys: Option<Keys>)

  /** The keys after a history of loads: those of the last that worked. */
  function LastGood(initial: Keys, loads: seq<Load>): Keys {
    if loads == [] then initial
    else if loads[|loads| - 1].keys.Some? then loads[|loads| - 1].keys.value
    else LastGood(initial, loads[..|loads| - 1])
  }

  ghost predicate Spaced(loads: seq<Load>, gap: int) {
    forall i :: 0 <= i < |loads| - 1 ==> loads[i + 1].at - loads[i].at >= gap
  }

  datatype Answer = Candidates(keys: seq<Key>) | NoSuchKey | LoadFailed | TooSoon | NotReloadable

  class KeySet {
    const reloadable: bool
    const keyless: bool
    const minRefetch: nat
    var keys: Keys
    var fetched: Option<int>
    ghost const initial: Keys
    ghost var loads: seq<Load>

    ghost predicate Valid()
      reads this
    {
      && NoEmptyKid(keys)
      && keys == LastGood(initial, loads)
      && fetched == (if loads == [] then None else Some(loads[|loads| - 1].at))
      && Spaced(loads, minRefetch)
      && (!reloadable ==> loads == [])
    }

    /** jwksUrl: nothing is read until the first token. */
    constructor FromUrl(minRefetch: nat)
      ensures Valid() && reloadable && !keyless && this.minRefetch == minRefetch
      ensures keys == map[] && loads == []
    {
      reloadable, keyless, this.minRefetch := true, false, minRefetch;
      keys, fetched := map[], None;
      initial, loads := map[], [];
    }

    /** jwksFile, once the read at construction has worked. */
    constructor FromFile(minRefetch: nat, read: Keys, now: int)
      requires NoEmptyKid(read)
      ensures Valid() && reloadable && !keyless && this.minRefetch == minRefetch
      ensures keys == read && loads == [Load(now, Some(read))]
    {
      reloadable, keyless, this.minRefetch := true, false, minRefetch;
      keys, fetched := read, Some(now);
      initial, loads := map[], [Load(now, Some(read))];
    }

    /** publicKeyFile: one key, no kid, no reload. */
    constructor FromPEM(key: Key)
      ensures Valid() && !reloadable && keyless && keys == map["" := [key]] && loads == []
    {
      reloadable, keyless, minRefetch := false, true, 0;
      keys, fetched := map["" := [key]], None;
      initial, loads := map["" := [key]], [];
    }

    /** Whether there is a key to try for this kid. */
    predicate Holds(kid: string)
      reads this
    {
      if kid == "" then keys != map[] else kid in keys
    }

    /** The keys worth trying: those under the kid, or for no kid every key, in whatever order the map
        yields them. */
    method CandidatesFor(kid: string) returns (found: seq<Key>)
      requires NoEmptyKid(keys)
      ensures found != [] <==> Holds(kid)
      ensures kid == "" ==> multiset(found) == Bag(keys)
      ensures kid != "" && kid in keys ==> found == keys[kid]
    {
      found := [];
      if kid != "" {
        if kid in keys {
          found := keys[kid];
        }
        return;
      }
      var rest := keys;
      while rest != map[]
        invariant rest.Keys <= keys.Keys && forall k :: k in rest ==> rest[k] == keys[k]
        invariant multiset(found) + Bag(rest) == Bag(keys)
        decreases |rest|
      {
        var k :| k in rest;
        BagTakesAny(rest, k);
        found := found + rest[k];
        rest := rest - {k};
      }
      NoKeysNoBag(keys);
      assert |multiset(found)| == |found|;
    }

    /** Reads the source again unless it cannot be read again or was read less than the floor ago, and says
        why not when it did not. A failed read keeps the keys, a good one replaces them. */
    method Refresh(checked: int, stamped: int, loaded: Option<Keys>) returns (err: Option<Answer>)
      requires Valid() && checked <= stamped && (loads != [] ==> loads[|loads| - 1].at <= checked)
      requires loaded.Some? ==> NoEmptyKid(loaded.value)
      modifies this
      ensures Valid()
      ensures err == Some(NotReloadable) <==> !reloadable
      ensures err == Some(TooSoon) <==> reloadable && old(fetched).Some? && checked - old(fetched).value < minRefetch
      ensures loads ==
              if err in [Some(NotReloadable), Some(TooSoon)] then old(loads)
              else old(loads) + [Load(stamped, loaded)]
      ensures err in [None, Some(NotReloadable), Some(TooSoon), Some(LoadFailed)]
      ensures err == None ==> loaded.Some?
      ensures err == Some(LoadFailed) ==> loaded.None?
      ensures keys == if err == None then loaded.value else old(keys)
    {
      if !reloadable {
        return Some(NotReloadable);
      }
      if fetched.Some? && checked - fetched.value < minRefetch {
        return Some(TooSoon);
      }
      fetched := Some(stamped);
      loads := loads + [Load(stamped, loaded)];
      assert loads[..|loads| - 1] == old(loads);
      if loaded.None? {
        return Some(LoadFailed);
      }
      keys := loaded.value;
      return None;
    }

    /** One token's key lookup. `checked` and `stamped` are the two clock readings and `loaded` what load
        comes to if it is called. */
    method Keyfunc(tokenKid: string, checked: int, stamped: int, loaded: Option<Keys>) returns (a: Answer)
      requires Valid() && checked <= stamped && (loads != [] ==> loads[|loads| - 1].at <= checked)
      requires loaded.Some? ==> NoEmptyKid(loaded.value)
      modifies this
      ensures Valid()
      // Which kid counts, and what a kid that is held costs: nothing.
      ensures var kid := if keyless then "" else tokenKid;
              old(Holds(kid)) ==> loads == old(loads) && keys == old(keys) && a.Candidates?
      // Otherwise at most one load, stamped now, and never inside the floor.
      ensures loads == old(loads) || loads == old(loads) + [Load(stamped, loaded)]
      ensures loads != old(loads) <==>
                !old(Holds(if keyless then "" else tokenKid)) && reloadable
                && (old(fetched).None? || checked - old(fetched).value >= minRefetch)
      // A failed load keeps the old keys, a good one replaces them.
      ensures keys == if loads != old(loads) && loaded.Some? then loaded.value else old(keys)
      // What the caller is told.
      ensures var kid := if keyless then "" else tokenKid;
              && (a.Candidates? <==> Holds(kid) && (old(Holds(kid)) || loads != old(loads)))
              && (a.Candidates? && kid == "" ==> multiset(a.keys) == Bag(keys))
              && (a.Candidates? && kid != "" ==> a.keys == keys[kid])
              && (a == NotReloadable <==> !old(Holds(kid)) && !reloadable)
              && (a == TooSoon <==> !old(Holds(kid)) && reloadable && loads == old(loads))
              && (a == LoadFailed <==> loads != old(loads) && loaded.None?)
              && (a == NoSuchKey <==> loads != old(loads) && loaded.Some? && !Holds(kid))
    {
      hide LastGood, Spaced, Bag;
      var kid := if keyless then "" else tokenKid;
      var found := CandidatesFor(kid);
      if found != [] {
        return Candidates(found);
      }
      var err := Refresh(checked, stamped, loaded);
      if err.Some? {
        return err.value;
      }
      found := CandidatesFor(kid);
      return if found != [] then Candidates(found) else NoSuchKey;
    }
  }

  /** newFileKeySet: the file is read at once, and one that cannot be read is no key set at all. */
  method NewFileKeySet(minRefetch: nat, read: Option<Keys>, now: int) returns (ks: Option<KeySet>)
    requires read.Some? ==> NoEmptyKid(read.value)
    ensures ks.None? <==> read.None?
    ensures ks.Some? ==>
              && fresh(ks.value) && ks.value.Valid()
              && ks.value.reloadable && !ks.value.keyless && ks.value.minRefetch == minRefetch
              && ks.value.keys == read.value && ks.value.loads == [Load(now, read)]
  {
    if read.None? {
      return None;
    }
    var k := new KeySet.FromFile(minRefetch, read.value, now);
    return Some(k);
  }

  /** newPEMKeySet: likewise, and it is never read again. */
  method NewPEMKeySet(read: Option<Key>) returns (ks: Option<KeySet>)
    ensures ks.None? <==> read.None?
    ensures ks.Some? ==>
              && fresh(ks.value) && ks.value.Valid()
              && !ks.value.reloadable && ks.value.keyless
              && ks.value.keys == map["" := [read.value]] && ks.value.loads == []
  {
    if read.None? {
      return None;
    }
    var k := new KeySet.FromPEM(read.value);
    return Some(k);
  }

  // ------------------------------------------------------------ the rate bound

  /** How many loads were stamped in the window from lo to hi. */
  function CountIn(loads: seq<Load>, lo: int, hi: int): nat {
    if loads == [] then 0
    else CountIn(loads[..|loads| - 1], lo, hi) + if lo <= loads[|loads| - 1].at <= hi then 1 else 0
  }

  /** The positions of the loads stamped in it. */
  ghost function Within(loads: seq<Load>, lo: int, hi: int): set<int> {
    set i | 0 <= i < |loads| && lo <= loads[i].at <= hi
  }

  /** Each is counted once. */
  lemma {:induction false} CountInIs(loads: seq<Load>, lo: int, hi: int)
    ensures CountIn(loads, lo, hi) == |Within(loads, lo, hi)|
    decreases |loads|
  {
    if loads == [] {
      assert Within(loads, lo, hi) == {};
    } else {
      var n := |loads| - 1;
      CountInIs(loads[..n], lo, hi);
      OneMoreWithin(loads, lo, hi);
    }
  }

  lemma OneMoreWithin(loads: seq<Load>, lo: int, hi: int)
    requires loads != []
    ensures var n := |loads| - 1;
            && Within(loads, lo, hi) == Within(loads[..n], lo, hi) + (if lo <= loads[n].at <= hi then {n} else {})
            && n !in Within(loads[..n], lo, hi)
  {
    var n := |loads| - 1;
    var front := loads[..n];
    assert forall i :: 0 <= i < n ==> front[i] == loads[i];
  }

  lemma {:induction false} SpacedApart(loads: seq<Load>, gap: nat, i: nat, j: nat)
    requires Spaced(loads, gap) && i < j < |loads|
    ensures loads[j].at - loads[i].at >= gap
    decreases j
  {
    if i + 1 < j {
      SpacedApart(loads, gap, i, j - 1);
      assert loads[j - 1 + 1].at - loads[j - 1].at >= gap;
    } else {
      assert loads[i + 1].at - loads[i].at >= gap;
    }
  }

  /** The n-th load of a window comes at least n - 1 floors after its start. */
  lemma {:induction false} LastInWindow(loads: seq<Load>, gap: nat, lo: int, hi: int) returns (i: nat)
    requires Spaced(loads, gap) && CountIn(loads, lo, hi) > 0
    ensures i < |loads| && lo <= loads[i].at <= hi
    ensures loads[i].at - lo >= (CountIn(loads, lo, hi) - 1) * gap
    decreases |loads|
  {
    var n := |loads| - 1;
    var front := loads[..n];
    assert forall k :: 0 <= k < n ==> front[k] == loads[k];
    var c := CountIn(front, lo, hi);
    if !(lo <= loads[n].at <= hi) {
      i := LastInWindow(front, gap, lo, hi);
    } else if c == 0 {
      i := n;
    } else {
      var k := LastInWindow(front, gap, lo, hi);
      SpacedApart(loads, gap, k, n);
      i := n;
      OneGapMore(c, gap);
    }
  }

  lemma OneGapMore(c: nat, gap: nat)
    ensures (c - 1) * gap + gap == c * gap
  {
  }

  /** Whatever the kids, the failures and the calls: n loads in a window of length w satisfy
      (n - 1) * minRefetch <= w. AnyCalls is the same for whatever calls a key set is given. */
  lemma RateBound(loads: seq<Load>, minRefetch: nat, lo: int, w: nat)
    requires Spaced(loads, minRefetch)
    ensures (CountIn(loads, lo, lo + w) - 1) * minRefetch <= w
  {
    if CountIn(loads, lo, lo + w) > 0 {
      var i := LastInWindow(loads, minRefetch, lo, lo + w);
    } else {
      assert -1 * minRefetch <= 0;
    }
  }

  /** One call of keyfunc: the token's kid, the two clock readings, and what load would come to. */
  datatype Call = Call(kid: string, checked: int, stamped: int, loaded: Option<Keys>)

  /** The clock never goes back, within a call or from one to the next. */
  ghost predicate Timely(calls: seq<Call>) {
    && (forall i :: 0 <= i < |calls| ==> calls[i].checked <= calls[i].stamped)
    && (forall i :: 0 <= i < |calls| - 1 ==> calls[i].stamped <= calls[i + 1].checked)
    && (forall i :: 0 <= i < |calls| && calls[i].loaded.Some? ==> NoEmptyKid(calls[i].loaded.value))
  }

  /** Any sequence of calls on any key set: every window of whatever length has at most the loads the floor
      allows, those of the construction and of earlier calls included, and no call makes more than one. */
  method AnyCalls(ks: KeySet, calls: seq<Call>) returns (answers: seq<Answer>)
    requires ks.Valid() && Timely(calls)
    requires calls != [] && ks.loads != [] ==> ks.loads[|ks.loads| - 1].at <= calls[0].checked
    modifies ks
    ensures ks.Valid() && |answers| == |calls|
    ensures old(ks.loads) <= ks.loads && |ks.loads| <= |old(ks.loads)| + |calls|
    ensures forall lo, hi :: lo <= hi ==> (CountIn(ks.loads, lo, hi) - 1) * ks.minRefetch <= hi - lo
  {
    hide LastGood, Spaced, Bag, CountIn;
    answers := [];
    for i := 0 to |calls|
      invariant ks.Valid() && |answers| == i
      invariant old(ks.loads) <= ks.loads && |ks.loads| <= |old(ks.loads)| + i
      invariant i < |calls| && ks.loads != [] ==> ks.loads[|ks.loads| - 1].at <= calls[i].checked
    {
      var c := calls[i];
      var a := ks.Keyfunc(c.kid, c.checked, c.stamped, c.loaded);
      answers := answers + [a];
    }
    forall lo, hi | lo <= hi ensures (CountIn(ks.loads, lo, hi) - 1) * ks.minRefetch <= hi - lo {
      RateBound(ks.loads, ks.minRefetch, lo, hi - lo);
    }
  }

  lemma {:induction false} HeldSince(initial: Keys, loads: seq<Load>, i: nat)
    requires i < |loads| && loads[i].keys.Some? && forall j :: i < j < |loads| ==> loads[j].keys.None?
    ensures LastGood(initial, loads) == loads[i].keys.value
    decreases |loads|
  {
    if i < |loads| - 1 {
      HeldSince(initial, loads[..|loads| - 1], i);
    }
  }

  lemma {:induction false} HeldFromTheStart(initial: Keys, loads: seq<Load>)
    requires forall j :: 0 <= j < |loads| ==> loads[j].keys.None?
    ensures LastGood(initial, loads) == initial
    decreases |loads|
  {
    if loads != [] {
      HeldFromTheStart(initial, loads[..|loads| - 1]);
    }
  }

  /** What is held is what the constructor or the last load that worked gave, so a kid that load no longer
      publishes is gone. */
  lemma {:induction false} HeldIsLastGood(initial: Keys, loads: seq<Load>)
    ensures (forall i :: 0 <= i < |loads| ==> loads[i].keys.None?) ==> LastGood(initial, loads) == initial
    ensures forall i :: 0 <= i < |loads| && loads[i].keys.Some?
                        && (forall j :: i < j < |loads| ==> loads[j].keys.None?) ==>
              LastGood(initial, loads) == loads[i].keys.value
  {
    hide LastGood;
    if forall i :: 0 <= i < |loads| ==> loads[i].keys.None? {
      HeldFromTheStart(initial, loads);
    }
    forall i | 0 <= i < |loads| && loads[i].keys.Some? && forall j :: i < j < |loads| ==> loads[j].keys.None?
      ensures LastGood(initial, loads) == loads[i].keys.value
    {
      HeldSince(initial, loads, i);
    }
  }
}
