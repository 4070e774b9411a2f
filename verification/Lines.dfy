/** What one line of a properties file comes to (config.go:167-195), character by character. */
module Lines {
  import opened Sections
  import opened Text
  import opened Config

  predicate Comment(s: string) {
    s == "" || s[0] == '#' || s[0] == '!'
  }

  /** A backslash with a u behind it. */
  ghost predicate Escape(s: string) {
    exists i :: 0 <= i < |s| - 1 && s[i] == '\\' && s[i + 1] == 'u'
  }

  predicate EndsIn(s: string, c: char) {
    s != "" && s[|s| - 1] == c
  }

  lemma EscapeIff(s: string)
    ensures Index(s, "\\u") >= 0 <==> Escape(s)
  {
    var r := Index(s, "\\u");
    if r >= 0 {
      assert s[r..][..2] == "\\u";
      assert s[r] == s[r..][0] && s[r + 1] == s[r..][1];
    }
    if i :| 0 <= i < |s| - 1 && s[i] == '\\' && s[i + 1] == 'u' {
      assert s[i..][..2] == "\\u";
      assert StartsAt(s, "\\u", i);
    }
  }

  /** With the space around it off, a line is skipped or refused before its separator is looked for in exactly
      these cases, the first that holds naming the error. */
  lemma {:induction false} LineKinds(a: string, s: string, b: string, parse: string -> Leaf)
    requires White(a) && White(b) && Tight(s)
    ensures var line := ReadLine(a + s + b, parse);
            && (line.Blank? <==> Comment(s))
            && (line == Bad(UnicodeEscape) <==> !Comment(s) && Escape(s))
            && (line == Bad(Continuation) <==> !Comment(s) && !Escape(s) && EndsIn(s, '\\'))
            && (line == Bad(NoSeparator) <==>
                  !Comment(s) && !Escape(s) && !EndsIn(s, '\\') && '=' !in s && ':' !in s)
  {
    hide Index, Split, Trim, StartsAt;
    TrimOf(a, s, b);
    EscapeIff(s);
    hide Escape;
    assert s != "" ==> s[|s| - 1..] == [s[|s| - 1]] && s[..1] == [s[0]];
  }

  /** The parts of a line that has a key: space, the key, space, the separator, space, the value, space. What
      is left of it when the space around it is off, */
  function Inside(key: string, c: string, sep: char, d: string, v: string): string {
    (if key == "" then "" else key + c) + [sep] + if v == "" then "" else d + v
  }

  lemma InsideOf(a: string, key: string, c: string, sep: char, d: string, v: string, b: string)
    requires White(a) && White(b) && White(c) && White(d) && Tight(key) && Tight(v) && !White([sep])
    ensures Trim(a + key + c + [sep] + d + v + b) == Inside(key, c, sep, d, v)
  {
    hide Trim, White;
    var s := Inside(key, c, sep, d, v);
    var left, right := if key == "" then a + c else a, if v == "" then d + b else b;
    WhiteAppend(a, c);
    WhiteAppend(d, b);
    assert a + key + c + [sep] + d + v + b == left + s + right;
    assert key != "" ==> s[..1] == key[..1];
    assert key == "" ==> s[..1] == [sep];
    assert v != "" ==> s[|s| - 1..] == v[|v| - 1..];
    assert v == "" ==> s[|s| - 1..] == [sep];
    TrimOf(left, s, right);
  }

  lemma WhiteAppend(a: string, b: string)
    requires White(a) && White(b)
    ensures White(a + b)
  {
  }

  /** and where its first separator stands. */
  lemma CutInside(key: string, c: string, sep: char, d: string, v: string)
    requires White(c) && White(d) && Tight(key) && Tight(v)
    requires '=' !in key && ':' !in key && (sep == '=' || sep == ':')
    ensures var s := Inside(key, c, sep, d, v);
            var cut := FirstSeparator(s);
            0 <= cut < |s| && Trim(s[..cut]) == key && Trim(s[cut + 1..]) == v
  {
    hide Trim;
    var s := Inside(key, c, sep, d, v);
    var head, tail := if key == "" then "" else key + c, if v == "" then "" else d + v;
    assert s == head + [sep] + tail;
    assert s[|head|] == sep;
    assert forall i :: 0 <= i < |head| ==> s[i] == head[i] && head[i] != '=' && head[i] != ':';
    assert FirstSeparator(s) == |head| && s[..|head|] == head && s[|head| + 1..] == tail;
    TrimOf("", key, if key == "" then "" else c);
    TrimOf(if v == "" then "" else d, v, "");
    assert "" + key + (if key == "" then "" else c) == head;
    assert (if v == "" then "" else d) + v + "" == tail;
  }

  /** A line with a separator and none of those faults, whatever the space around its parts, is refused for
      its key or gives it, split at its dots, with the value as parsed. */
  lemma {:induction false} KeyedLine(a: string, key: string, c: string, sep: char, d: string, v: string, b: string,
      parse: string -> Leaf)
    requires White(a) && White(b) && White(c) && White(d) && Tight(key) && Tight(v)
    requires '=' !in key && ':' !in key && (sep == '=' || sep == ':')
    requires !(key != "" && (key[0] == '#' || key[0] == '!'))
    requires !Escape(key + c + [sep] + d + v) && !EndsIn(v, '\\')
    ensures ReadLine(a + key + c + [sep] + d + v + b, parse) ==
            if key == "" then Bad(EmptyKey)
            else if '\\' in key then Bad(EscapedKey)
            else if '[' in key || ']' in key then Bad(IndexedKey)
            else Good(Entry(Split(key, "."), parse(v)))
  {
    hide Trim, Split, White, FirstSeparator, Index;
    NotWhite(sep);
    InsideOf(a, key, c, sep, d, v, b);
    CutInside(key, c, sep, d, v);
    var s := Inside(key, c, sep, d, v);
    EscapeInside(key, c, sep, d, v);
    EscapeIff(s);
    hide Escape;
    assert s != "" && s[0] == if key == "" then sep else key[0];
    assert s[|s| - 1] == if v == "" then sep else v[|v| - 1];
    assert !HasPrefix(s, "#") && !HasPrefix(s, "!");
    assert !HasSuffix(s, "\\");
  }

  lemma NotWhite(sep: char)
    requires sep == '=' || sep == ':'
    ensures !White([sep])
  {
    assert [sep][0] == sep;
  }

  lemma EscapeInside(key: string, c: string, sep: char, d: string, v: string)
    requires !Escape(key + c + [sep] + d + v) && (sep == '=' || sep == ':')
    ensures !Escape(Inside(key, c, sep, d, v))
  {
    var s, whole := Inside(key, c, sep, d, v), key + c + [sep] + d + v;
    var shift := if key == "" then |c| else 0;
    if i :| 0 <= i < |s| - 1 && s[i] == '\\' && s[i + 1] == 'u' {
      assert s == whole[shift..shift + |s|];
      assert whole[i + shift] == '\\' && whole[i + 1 + shift] == 'u';
    }
  }
}
