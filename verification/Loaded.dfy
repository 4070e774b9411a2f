/** What a loaded configuration shows at a path, layer by layer (config.go:50-78): the environment, then the
    files, the last first. */
module Loaded {
  import opened Sections
  import opened Keys
  import opened Text
  import opened Config
  import opened Wrappers

  /** The line has nothing to do with the path. */
  ghost predicate Past(line: string, q: Path, parse: string -> Leaf) {
    var l := ReadLine(line, parse);
    l.Good? ==> !Comparable(CanonPath(l.entry.path), q)
  }

  lemma OneMoreLine(lines: seq<string>, line: string, q: Path, parse: string -> Leaf)
    ensures var before := Stack(Layers(LineEntries(lines, parse)));
            var after := Stack(Layers(LineEntries(lines + [line], parse)));
            && (Past(line, q, parse) ==> Look(after, q) == Look(before, q))
            && (!Past(line, q, parse) ==> Look(after, q) == Look(Layer(ReadLine(line, parse).entry), q))
  {
    hide ReadLine, Stack, Layers, Look, Claims, Comparable, Chain, CanonPath;
    var all := lines + [line];
    NextLine(all, |lines|, parse);
    assert all[..|lines|] == lines && all[..|lines| + 1] == all;
    var l := ReadLine(line, parse);
    if l.Good? {
      OneMoreLayer(LineEntries(lines, parse), l.entry);
      LookOverlay(Stack(Layers(LineEntries(lines, parse))), Layer(l.entry), q);
      ChainClaims(CanonPath(l.entry.path), l.entry.leaf, q);
    }
  }

  /** Of the lines of a properties file the last that has to do with a path decides it. */
  lemma {:induction false} LastLineDecides(lines: seq<string>, i: nat, e: Entry, q: Path, parse: string -> Leaf)
    requires i < |lines| && ReadLine(lines[i], parse) == Good(e) && Comparable(CanonPath(e.path), q)
    requires forall j :: i < j < |lines| ==> Past(lines[j], q, parse)
    ensures Look(Stack(Layers(LineEntries(lines, parse))), q)
        == var path := CanonPath(e.path);
           if q == path then AtomAt(e.leaf) else if q < path then SecAt else Absent
    decreases |lines|
  {
    hide ReadLine, Stack, Layers, LineEntries, Look, Comparable, Chain, CanonPath;
    var front, last := lines[..|lines| - 1], lines[|lines| - 1];
    assert lines == front + [last];
    OneMoreLine(front, last, q, parse);
    if i < |front| {
      LastLineDecides(front, i, e, q, parse);
    } else {
      ChainLook(CanonPath(e.path), e.leaf, q);
    }
  }

  lemma {:induction false} NoLineNothing(lines: seq<string>, q: Path, parse: string -> Leaf)
    requires forall j :: 0 <= j < |lines| ==> Past(lines[j], q, parse)
    ensures Look(Stack(Layers(LineEntries(lines, parse))), q) == if q == [] then SecAt else Absent
    decreases |lines|
  {
    if lines != [] {
      hide ReadLine, Stack, Layers, LineEntries, Look, Past;
      var front, last := lines[..|lines| - 1], lines[|lines| - 1];
      assert lines == front + [last];
      NoLineNothing(front, q, parse);
      OneMoreLine(front, last, q, parse);
    }
  }

  /** A YAML file shows at the canonical spelling of each path of its document what the document shows there,
      and at no path anything that no spelling of it shows. A properties file shows what its lines decide, and
      an absent file nothing. */
  lemma FileShows(s: Source, f: Format, q: Path, parse: string -> Leaf)
    requires Usable(s, f, parse)
    ensures s.content.Missing? ==> Look(SourceValue(s, f, parse), q) == if q == [] then SecAt else Absent
    ensures s.content.File? && f.AsProperties? ==>
              SourceValue(s, f, parse) == Stack(Layers(LineEntries(Split(s.content.text, "\n"), parse)))
    ensures s.content.File? && f.AsYaml? ==>
              var doc := Sec(s.content.doc.value);
              && (forall p :: Look(doc, p) != Absent && CanonPath(p) == q ==>
                    Look(SourceValue(s, f, parse), q) == Look(doc, p))
              && ((forall p :: CanonPath(p) == q ==> Look(doc, p) == Absent) ==>
                    Look(SourceValue(s, f, parse), q) == Absent)
  {
    if s.content.File? && f.AsYaml? {
      var doc := Sec(s.content.doc.value);
      forall p | Look(doc, p) != Absent && CanonPath(p) == q
        ensures Look(CanonValue(doc), q) == Look(doc, p)
      {
        CanonKeepsPaths(doc, p);
      }
      if Look(CanonValue(doc), q) != Absent {
        var p := CanonAddsNothing(doc, q);
      }
    }
  }

  ghost predicate LastToClaim(ss: seq<Source>, i: nat, f: Format, q: Path, parse: string -> Leaf)
    requires i < |ss| && AllUsable(ss, f, parse)
  {
    && Claims(SourceValue(ss[i], f, parse), q)
    && forall j :: i < j < |ss| ==> !Claims(SourceValue(ss[j], f, parse), q)
  }

  lemma RootClaimed(v: Value)
    ensures Claims(v, [])
  {
  }

  /** What the environment claims is what the environment shows. Anything else is what the last file that
      claims it shows, and what none claims is not there. */
  lemma {:induction false} LoadShows(ss: seq<Source>, env: seq<string>, prefix: string, f: Format, q: Path,
      parse: string -> Leaf)
    requires AllUsable(ss, f, parse)
    ensures var top, loaded := EnvValue(env, prefix, parse), Stack(LoadLayers(ss, env, prefix, f, parse));
            && (Claims(top, q) ==> Look(loaded, q) == Look(top, q))
            && (!Claims(top, q) ==>
                  && (forall i :: 0 <= i < |ss| && LastToClaim(ss, i, f, q, parse) ==>
                        Look(loaded, q) == Look(SourceValue(ss[i], f, parse), q))
                  && ((forall i :: 0 <= i < |ss| ==> !Claims(SourceValue(ss[i], f, parse), q)) ==>
                        Look(loaded, q) == Absent))
  {
    hide Stack, Overlay, Look, Claims, SourceValue, EnvValue, Usable;
    var top, files := EnvValue(env, prefix, parse), SourceValues(ss, f, parse);
    LastLayer(files, top);
    LookOverlay(Stack(files), top, q);
    forall i | 0 <= i < |ss| && LastToClaim(ss, i, f, q, parse)
      ensures Look(Stack(files), q) == Look(SourceValue(ss[i], f, parse), q)
    {
      LastClaimWins(files, q, i);
    }
    if !Claims(top, q) && forall i :: 0 <= i < |ss| ==> !Claims(SourceValue(ss[i], f, parse), q) {
      RootClaimed(top);
      NoClaimNothing(files, q);
    }
  }
}
