/** The string helpers config.go calls: strings.Cut, Split, TrimSpace, HasPrefix, and slices.Sort. */
module Text {

  predicate HasPrefix(s: string, p: string) {
    p <= s
  }

  predicate HasSuffix(s: string, p: string) {
    |p| <= |s| && s[|s| - |p|..] == p
  }

  predicate StartsAt(s: string, sep: string, i: int) {
    0 <= i <= |s| && HasPrefix(s[i..], sep)
  }

  lemma StartsNext(s: string, sep: string)
    requires s != ""
    ensures forall i :: i >= 1 ==> (StartsAt(s, sep, i) <==> StartsAt(s[1..], sep, i - 1))
  {
    forall i | i >= 1 ensures StartsAt(s, sep, i) <==> StartsAt(s[1..], sep, i - 1) {
      if i <= |s| {
        assert s[i..] == s[1..][i - 1..];
      }
    }
  }

  /** strings.Index: where sep first starts in s, or -1. */
  function Index(s: string, sep: string): (r: int)
    ensures r == -1 || (0 <= r && r + |sep| <= |s| && StartsAt(s, sep, r))
    ensures forall i :: 0 <= i && (r < 0 || i < r) ==> !StartsAt(s, sep, i)
  {
    if StartsAt(s, sep, 0) then 0
    else if s == "" then -1
    else
      var rest := Index(s[1..], sep);
      StartsNext(s, sep);
      hide StartsAt;
      if rest < 0 then -1 else rest + 1
  }

  predicate IsSpace(c: char) {
    c == ' ' || '\t' <= c <= '\r' || c == '\U{85}' || c == '\U{A0}'
  }

  function TrimLeft(s: string): string {
    if s != "" && IsSpace(s[0]) then TrimLeft(s[1..]) else s
  }

  function TrimRight(s: string): string {
    if s != "" && IsSpace(s[|s| - 1]) then TrimRight(s[..|s| - 1]) else s
  }

  function Trim(s: string): string {
    TrimRight(TrimLeft(s))
  }

  /** The code points that are taken off. */
  predicate White(s: string) {
    forall i :: 0 <= i < |s| ==> s[i] as int in {9, 10, 11, 12, 13, 32, 133, 160}
  }

  lemma {:induction false} TrimLeftOf(a: string, t: string)
    requires White(a) && (t != "" ==> !White(t[..1]))
    ensures TrimLeft(a + t) == t
    decreases |a|
  {
    if a == "" {
      assert a + t == t;
      assert t != "" ==> t[..1][0] == t[0];
    } else {
      assert (a + t)[1..] == a[1..] + t;
      TrimLeftOf(a[1..], t);
    }
  }

  lemma {:induction false} TrimRightOf(t: string, b: string)
    requires White(b) && (t != "" ==> !White(t[|t| - 1..]))
    ensures TrimRight(t + b) == t
    decreases |b|
  {
    if b == "" {
      assert t + b == t;
      assert t != "" ==> t[|t| - 1..][0] == t[|t| - 1];
    } else {
      assert (t + b)[..|t + b| - 1] == t + b[..|b| - 1];
      TrimRightOf(t, b[..|b| - 1]);
    }
  }

  /** It begins and ends with something else, or there is nothing of it. */
  predicate Tight(t: string) {
    t != "" ==> !White(t[..1]) && !White(t[|t| - 1..])
  }

  /** Space around a string is taken off, and what does not begin or end with space is left: every string is
      such a string with space around it. */
  lemma TrimOf(a: string, t: string, b: string)
    requires White(a) && White(b) && Tight(t)
    ensures Trim(a + t + b) == t
  {
    if t == "" {
      assert White(a + t + b) && a + t + b + "" == a + t + b;
      TrimLeftOf(a + t + b, "");
    } else {
      assert a + t + b == a + (t + b);
      assert (t + b)[..1] == t[..1];
      TrimLeftOf(a, t + b);
      TrimRightOf(t, b);
    }
  }

  lemma TrimParts(s: string) returns (a: string, b: string)
    ensures s == a + Trim(s) + b && White(a) && White(b) && Tight(Trim(s))
  {
    a := TrimmedLeft(s);
    b := TrimmedRight(TrimLeft(s));
    var l, t := TrimLeft(s), Trim(s);
    hide TrimLeft, TrimRight;
    assert l == t + b;
    assert s == a + (t + b) == a + t + b;
    if t != "" {
      assert t[0] == l[0];
      assert t[..1][0] == t[0] && t[|t| - 1..][0] == t[|t| - 1];
    }
  }

  lemma {:induction false} TrimmedLeft(s: string) returns (a: string)
    ensures s == a + TrimLeft(s) && White(a)
    ensures TrimLeft(s) != "" ==> !IsSpace(TrimLeft(s)[0])
    decreases |s|
  {
    if s != "" && IsSpace(s[0]) {
      a := TrimmedLeft(s[1..]);
      a := [s[0]] + a;
    } else {
      a := "";
    }
  }

  lemma {:induction false} TrimmedRight(s: string) returns (b: string)
    ensures s == TrimRight(s) + b && White(b)
    ensures TrimRight(s) != "" ==> !IsSpace(TrimRight(s)[|TrimRight(s)| - 1])
    decreases |s|
  {
    if s != "" && IsSpace(s[|s| - 1]) {
      b := TrimmedRight(s[..|s| - 1]);
      b := b + [s[|s| - 1]];
    } else {
      b := "";
    }
  }

  /** filepath.Ext: from the last dot of the last element of a path, or nothing. */
  function Ext(path: string): (ext: string)
    ensures HasSuffix(path, ext)
    ensures ext != "" ==> ext[0] == '.' && forall i :: 1 <= i < |ext| ==> ext[i] != '.' && ext[i] != '/'
  {
    if path == "" || path[|path| - 1] == '/' then ""
    else if path[|path| - 1] == '.' then "."
    else
      var ext := Ext(path[..|path| - 1]);
      if ext == "" then "" else ext + [path[|path| - 1]]
  }

  /** There is none only where every dot has a separator behind it. */
  lemma {:induction false} ExtNone(path: string, i: nat)
    requires Ext(path) == "" && i < |path| && path[i] == '.'
    ensures exists j :: i < j < |path| && path[j] == '/'
    decreases |path|
  {
    var last := |path| - 1;
    if path[last] != '/' {
      assert Ext(path[..last]) == "";
      ExtNone(path[..last], i);
      var j :| i < j < last && path[..last][j] == '/';
      assert path[j] == '/';
    }
  }

  /** strings.Split on a non-empty separator: the parts joined give the string back, and none of them has
      the separator in it. */
  function Split(s: string, sep: string): (parts: seq<string>)
    requires sep != ""
    ensures parts != []
    ensures Join(parts, sep) == s
    ensures forall p :: p in parts ==> Index(p, sep) == -1
    decreases |s|
  {
    var i := Index(s, sep);
    if i < 0 then [s]
    else
      var rest := Split(s[i + |sep|..], sep);
      assert s[i..][..|sep|] == sep;
      assert s == s[..i] + sep + s[i + |sep|..];
      NoneBefore(s, sep);
      assert ([s[..i]] + rest)[1..] == rest;
      [s[..i]] + rest
  }

  /** What stands before the first separator is the first part, and what is behind it is split in its turn. */
  lemma SplitFirst(p: string, rest: string, sep: string)
    requires sep != "" && forall j :: 0 <= j < |p| ==> !StartsAt(p + sep + rest, sep, j)
    ensures Split(p + sep + rest, sep) == [p] + Split(rest, sep)
  {
    var s := p + sep + rest;
    assert s[|p|..] == sep + rest;
    assert StartsAt(s, sep, |p|);
    assert Index(s, sep) == |p| && s[..|p|] == p && s[|p| + |sep|..] == rest;
  }

  lemma SplitNone(p: string, sep: string)
    requires sep != "" && forall j :: 0 <= j <= |p| ==> !StartsAt(p, sep, j)
    ensures Split(p, sep) == [p]
  {
    assert Index(p, sep) == -1;
  }

  /** What starts in a prefix of s starts in s. */
  lemma StartsInWhole(s: string, i: nat, j: int, sep: string)
    requires i <= |s| && StartsAt(s[..i], sep, j)
    ensures StartsAt(s, sep, j) && j + |sep| <= i
  {
    assert s[..i][j..] == s[j..i];
  }

  lemma NoneBefore(s: string, sep: string)
    requires sep != "" && Index(s, sep) >= 0
    ensures Index(s[..Index(s, sep)], sep) == -1
  {
    hide StartsAt;
    var i := Index(s, sep);
    forall j | StartsAt(s[..i], sep, j) ensures StartsAt(s, sep, j) && j < i {
      StartsInWhole(s, i, j, sep);
    }
  }

  function Join(parts: seq<string>, sep: string): string {
    if parts == [] then ""
    else if |parts| == 1 then parts[0]
    else parts[0] + sep + Join(parts[1..], sep)
  }

  // ----------------------------------------------------------------- sorting

  /** The order slices.Sort puts strings in. */
  predicate Before(a: string, b: string) {
    a == "" || (b != "" && (a[0] < b[0] || (a[0] == b[0] && Before(a[1..], b[1..]))))
  }

  function Insert(x: string, ys: seq<string>): seq<string> {
    if ys == [] || Before(x, ys[0]) then [x] + ys else [ys[0]] + Insert(x, ys[1..])
  }

  function Sorted(xs: seq<string>): seq<string> {
    if xs == [] then [] else Insert(xs[0], Sorted(xs[1..]))
  }

  ghost predicate InOrder(xs: seq<string>) {
    forall i, j :: 0 <= i < j < |xs| ==> Before(xs[i], xs[j])
  }

  /** A string comes before those it begins, and otherwise the first difference decides. */
  lemma {:induction false} BeforeIff(a: string, b: string)
    ensures Before(a, b) <==> a <= b || exists i :: (0 <= i < |a| && i < |b| && a[..i] == b[..i] && a[i] < b[i])
    decreases |a|
  {
    if a != "" && b != "" {
      if a[0] == b[0] {
        BeforeIff(a[1..], b[1..]);
        DifferLater(a, b);
      } else {
        assert a[..0] == b[..0];
        assert forall i :: 0 < i <= |a| && i <= |b| ==> a[..i][0] != b[..i][0];
      }
    }
  }

  lemma DifferLater(a: string, b: string)
    requires a != "" && b != "" && a[0] == b[0]
    ensures (exists i :: 0 <= i < |a| && i < |b| && a[..i] == b[..i] && a[i] < b[i]) <==>
            (exists i :: 0 <= i < |a[1..]| && i < |b[1..]| && a[1..][..i] == b[1..][..i] && a[1..][i] < b[1..][i])
  {
    if i :| 0 <= i < |a| && i < |b| && a[..i] == b[..i] && a[i] < b[i] {
      assert a[1..][..i - 1] == a[..i][1..] && b[1..][..i - 1] == b[..i][1..];
      assert a[1..][i - 1] < b[1..][i - 1];
    }
    if i :| 0 <= i < |a[1..]| && i < |b[1..]| && a[1..][..i] == b[1..][..i] && a[1..][i] < b[1..][i] {
      assert a[..i + 1] == [a[0]] + a[1..][..i] && b[..i + 1] == [b[0]] + b[1..][..i];
      assert a[i + 1] < b[i + 1];
    }
  }

  lemma {:induction false} BeforeTotal(a: string, b: string)
    ensures Before(a, b) || Before(b, a)
    ensures Before(a, b) && Before(b, a) ==> a == b
    decreases |a|
  {
    if a != "" && b != "" && a[0] == b[0] {
      BeforeTotal(a[1..], b[1..]);
      assert a == [a[0]] + a[1..] && b == [b[0]] + b[1..];
    }
  }

  lemma {:induction false} BeforeTransitive(a: string, b: string, c: string)
    requires Before(a, b) && Before(b, c)
    ensures Before(a, c)
    decreases |a|
  {
    if a != "" && b != "" && c != "" && a[0] == b[0] == c[0] {
      BeforeTransitive(a[1..], b[1..], c[1..]);
    }
  }

  lemma {:induction false} InsertKeepsBag(x: string, ys: seq<string>)
    ensures multiset(Insert(x, ys)) == multiset{x} + multiset(ys)
    decreases |ys|
  {
    if ys != [] && !Before(x, ys[0]) {
      InsertKeepsBag(x, ys[1..]);
      assert ys == [ys[0]] + ys[1..];
    }
  }

  lemma {:induction false} InsertKeepsOrder(x: string, ys: seq<string>)
    requires InOrder(ys)
    ensures InOrder(Insert(x, ys))
    decreases |ys|
  {
    if ys == [] {
    } else if Before(x, ys[0]) {
      forall j | 0 <= j < |ys| ensures Before(x, ys[j]) {
        if j > 0 {
          BeforeTransitive(x, ys[0], ys[j]);
        }
      }
    } else {
      BeforeTotal(x, ys[0]);
      var rest := Insert(x, ys[1..]);
      InsertKeepsOrder(x, ys[1..]);
      InsertKeepsBag(x, ys[1..]);
      forall j | 0 <= j < |rest| ensures Before(ys[0], rest[j]) {
        assert rest[j] in multiset(rest);
        assert rest[j] == x || rest[j] in ys[1..];
      }
    }
  }

  lemma {:induction false} SortedIsSorted(xs: seq<string>)
    ensures InOrder(Sorted(xs)) && multiset(Sorted(xs)) == multiset(xs)
    decreases |xs|
  {
    if xs != [] {
      SortedIsSorted(xs[1..]);
      InsertKeepsOrder(xs[0], Sorted(xs[1..]));
      InsertKeepsBag(xs[0], Sorted(xs[1..]));
      assert xs == [xs[0]] + xs[1..];
    }
  }

  lemma LeastFirst(xs: seq<string>, y: string)
    requires InOrder(xs) && y in multiset(xs)
    ensures xs != [] && Before(xs[0], y)
  {
    var i :| 0 <= i < |xs| && xs[i] == y;
    BeforeTotal(y, y);
  }

  lemma TailBag(xs: seq<string>)
    requires xs != []
    ensures multiset(xs[1..]) == multiset(xs) - multiset{xs[0]}
    ensures InOrder(xs) ==> InOrder(xs[1..])
  {
    assert xs == [xs[0]] + xs[1..];
  }

  lemma SameHead(xs: seq<string>, ys: seq<string>)
    requires InOrder(xs) && InOrder(ys) && multiset(xs) == multiset(ys) && xs != []
    ensures ys != [] && xs[0] == ys[0]
  {
    assert xs[0] in multiset(xs);
    LeastFirst(ys, xs[0]);
    assert ys[0] in multiset(ys);
    LeastFirst(xs, ys[0]);
    BeforeTotal(xs[0], ys[0]);
  }

  /** Only one sequence is the sorted form of a bag of strings. */
  lemma {:induction false} SortedUnique(xs: seq<string>, ys: seq<string>)
    requires InOrder(xs) && InOrder(ys) && multiset(xs) == multiset(ys)
    ensures xs == ys
    decreases |xs|
  {
    if xs == [] {
      assert |multiset(ys)| == |ys|;
    } else {
      hide InOrder, Before;
      SameHead(xs, ys);
      TailBag(xs);
      TailBag(ys);
      SortedUnique(xs[1..], ys[1..]);
      assert xs == [xs[0]] + xs[1..] && ys == [ys[0]] + ys[1..];
    }
  }
}
