/** strings.Split and strings.Join on a one-character separator, and the package path built on them. */
module Fragments {

  function Split(s: string, sep: char): (parts: seq<string>)
    ensures parts != []
  {
    if s == [] then [""] else Prepend(s[0], sep, Split(s[1..], sep))
  }

  /** The parts of a string that starts with c, given the parts of what follows. */
  function Prepend(c: char, sep: char, rest: seq<string>): (parts: seq<string>)
    requires rest != []
    ensures parts != []
  {
    if c == sep then [""] + rest else [[c] + rest[0]] + rest[1..]
  }

  function Join(parts: seq<string>, sep: char): string {
    if parts == [] then ""
    else if |parts| == 1 then parts[0]
    else parts[0] + [sep] + Join(parts[1..], sep)
  }

  lemma {:induction false} JoinSplit(s: string, sep: char)
    ensures Join(Split(s, sep), sep) == s
  {
    if s != [] {
      JoinSplit(s[1..], sep);
      var rest := Split(s[1..], sep);
      if s[0] == sep {
        assert ([""] + rest)[1..] == rest;
      } else {
        assert ([[s[0]] + rest[0]] + rest[1..])[1..] == rest[1..];
      }
    }
  }

  ghost predicate NoneContains(parts: seq<string>, sep: char) {
    forall k | 0 <= k < |parts| :: sep !in parts[k]
  }

  lemma {:induction false} SplitHasNoSep(s: string, sep: char)
    ensures NoneContains(Split(s, sep), sep)
  {
    if s != [] {
      SplitHasNoSep(s[1..], sep);
      var rest := Split(s[1..], sep);
      assert sep !in rest[0];
      assert forall k | 1 <= k < |rest| :: rest[1..][k - 1] == rest[k];
    }
  }

  lemma {:induction false} SplitPrefix(word: string, rest: string, sep: char)
    requires sep !in word
    ensures Split(word + [sep] + rest, sep) == [word] + Split(rest, sep)
    ensures Split(word, sep) == [word]
  {
    if word == [] {
      assert ([sep] + rest)[1..] == rest;
      assert word + [sep] + rest == [sep] + rest;
    } else {
      SplitPrefix(word[1..], rest, sep);
      var s := word + [sep] + rest;
      assert s[1..] == word[1..] + [sep] + rest;
      assert [word[0]] + word[1..] == word;
    }
  }

  lemma Pair(a: string, b: string, rest: seq<string>)
    ensures [a] + ([b] + rest) == [a, b] + rest
  {
  }

  lemma SplitTwice(a: string, b: string, rest: string, sep: char)
    requires sep !in a && sep !in b
    ensures Split(a + [sep] + (b + [sep] + rest), sep) == [a, b] + Split(rest, sep)
  {
    SplitPrefix(a, b + [sep] + rest, sep);
    SplitPrefix(b, rest, sep);
    Pair(a, b, Split(rest, sep));
  }

  /** Splitting undoes joining when no part contains the separator. */
  lemma {:induction false} SplitJoin(parts: seq<string>, sep: char)
    requires parts != [] && NoneContains(parts, sep)
    ensures Split(Join(parts, sep), sep) == parts
  {
    if |parts| == 1 {
      SplitPrefix(parts[0], "", sep);
    } else {
      SplitJoin(parts[1..], sep);
      SplitPrefix(parts[0], Join(parts[1..], sep), sep);
    }
  }

  lemma PrependAppend(c: char, sep: char, rest: seq<string>, tail: seq<string>)
    requires rest != []
    ensures Prepend(c, sep, rest + tail) == Prepend(c, sep, rest) + tail
  {
    assert (rest + tail)[1..] == rest[1..] + tail;
  }

  lemma {:induction false} SplitConcat(a: string, b: string, sep: char)
    ensures Split(a + [sep] + b, sep) == Split(a, sep) + Split(b, sep)
  {
    var s := a + [sep] + b;
    if a == [] {
      assert s[1..] == b;
    } else {
      assert s[1..] == a[1..] + [sep] + b;
      SplitConcat(a[1..], b, sep);
      PrependAppend(a[0], sep, Split(a[1..], sep), Split(b, sep));
    }
  }

  // path.Clean and path.Join.

  /** The segments that remain of segs, after those in kept: "." and empty ones go, ".." takes one back. */
  function Reduce(segs: seq<string>, kept: seq<string>, rooted: bool): seq<string>
    decreases |segs|
  {
    if segs == [] then kept
    else if segs[0] == "" || segs[0] == "." then Reduce(segs[1..], kept, rooted)
    else if segs[0] != ".." then Reduce(segs[1..], kept + [segs[0]], rooted)
    else if kept != [] && kept[|kept| - 1] != ".." then Reduce(segs[1..], kept[..|kept| - 1], rooted)
    else Reduce(segs[1..], if rooted then kept else kept + [".."], rooted)
  }

  function Clean(path: string): string {
    var rooted := path != "" && path[0] == '/';
    var cleaned := (if rooted then "/" else "") + Join(Reduce(Split(path, '/'), [], rooted), '/');
    if cleaned == "" then "." else cleaned
  }

  function PathJoin(a: string, b: string): string {
    if a == "" && b == "" then ""
    else if a == "" then Clean(b)
    else if b == "" then Clean(a)
    else Clean(a + "/" + b)
  }

  /** Segments that Clean leaves alone. */
  ghost predicate Plain(segs: seq<string>) {
    forall k | 0 <= k < |segs| :: segs[k] != "" && segs[k] != "." && segs[k] != ".." && '/' !in segs[k]
  }

  /** The absolute path with these segments. */
  function Rooted(segs: seq<string>): string { "/" + Join(segs, '/') }

  lemma {:induction false} JoinAppend(a: seq<string>, b: seq<string>, sep: char)
    requires a != [] && b != []
    ensures Join(a + b, sep) == Join(a, sep) + [sep] + Join(b, sep)
  {
    if |a| == 1 {
      assert (a + b)[1..] == b;
    } else {
      assert (a + b)[1..] == a[1..] + b;
      JoinAppend(a[1..], b, sep);
    }
  }

  /** Absolute paths one after the other are the absolute path of all segments. */
  lemma RootedAppend(a: seq<string>, b: seq<string>)
    requires a != [] && b != []
    ensures Rooted(a) + Rooted(b) == Rooted(a + b)
  {
    JoinAppend(a, b, '/');
  }

  lemma {:induction false} ReducePlain(segs: seq<string>, kept: seq<string>)
    requires Plain(segs)
    ensures Reduce(segs, kept, true) == kept + segs
  {
    if segs != [] {
      ReducePlain(segs[1..], kept + [segs[0]]);
      assert kept + [segs[0]] + segs[1..] == kept + segs;
    } else {
      assert kept + segs == kept;
    }
  }

  lemma {:induction false} ReduceAppend(a: seq<string>, b: seq<string>, kept: seq<string>)
    requires Plain(a)
    ensures Reduce(a + b, kept, true) == Reduce(b, kept + a, true)
  {
    if a == [] {
      assert a + b == b && kept + a == kept;
    } else {
      assert (a + b)[1..] == a[1..] + b;
      ReduceAppend(a[1..], b, kept + [a[0]]);
      assert kept + [a[0]] + a[1..] == kept + a;
    }
  }

  lemma SplitRooted(segs: seq<string>)
    requires Plain(segs) && segs != []
    ensures Split(Rooted(segs), '/') == [""] + segs
  {
    assert Rooted(segs) == "" + ['/'] + Join(segs, '/');
    SplitPrefix("", Join(segs, '/'), '/');
    SplitJoin(segs, '/');
  }

  lemma CleanSplit(p: string, segs: seq<string>)
    requires p != "" && p[0] == '/' && Split(p, '/') == [""] + segs
    ensures Clean(p) == "/" + Join(Reduce(segs, [], true), '/')
  {
    assert ([""] + segs)[1..] == segs;
  }

  lemma CleanRooted(segs: seq<string>)
    requires Plain(segs) && segs != []
    ensures Clean(Rooted(segs)) == Rooted(segs)
  {
    SplitRooted(segs);
    CleanSplit(Rooted(segs), segs);
    ReducePlain(segs, []);
    assert [] + segs == segs;
  }

  lemma Regroup(a: seq<string>, b: seq<string>)
    ensures ([""] + a) + ([""] + b) == [""] + (a + ([""] + b))
  {
  }

  /** The segments of two absolute paths with a slash between them. */
  lemma SplitTwoRooted(a: seq<string>, b: seq<string>)
    requires Plain(a) && Plain(b) && a != [] && b != []
    ensures Split(Rooted(a) + ['/'] + Rooted(b), '/') == [""] + (a + ([""] + b))
  {
    SplitConcat(Rooted(a), Rooted(b), '/');
    SplitRooted(a);
    SplitRooted(b);
    Regroup(a, b);
  }

  /** Joining absolute clean paths appends their segments. */
  lemma PathJoinRooted(a: seq<string>, b: seq<string>)
    requires Plain(a) && Plain(b) && a != [] && b != []
    ensures PathJoin(Rooted(a), Rooted(b)) == Rooted(a + b)
  {
    var p := Rooted(a) + ['/'] + Rooted(b);
    SplitTwoRooted(a, b);
    CleanSplit(p, a + ([""] + b));
    ReduceEmpty(a, b);
  }

  lemma ReduceEmpty(a: seq<string>, b: seq<string>)
    requires Plain(a) && Plain(b)
    ensures Reduce(a + ([""] + b), [], true) == a + b
  {
    ReduceAppend(a, [""] + b, []);
    assert [] + a == a && ([""] + b)[1..] == b;
    ReducePlain(b, a);
  }

  // The rules of path.Clean, for absolute paths.

  lemma {:induction false} ReduceSplit(a: seq<string>, b: seq<string>, kept: seq<string>)
    ensures Reduce(a + b, kept, true) == Reduce(b, Reduce(a, kept, true), true)
    decreases |a|
  {
    if a == [] {
      assert a + b == b;
    } else {
      assert (a + b)[1..] == a[1..] + b;
      if a[0] == "" || a[0] == "." {
        ReduceSplit(a[1..], b, kept);
      } else if a[0] != ".." {
        ReduceSplit(a[1..], b, kept + [a[0]]);
      } else if kept != [] && kept[|kept| - 1] != ".." {
        ReduceSplit(a[1..], b, kept[..|kept| - 1]);
      } else {
        ReduceSplit(a[1..], b, kept);
      }
    }
  }

  /** What Clean makes of the absolute path with these segments. */
  lemma CleanReduces(segs: seq<string>)
    requires NoneContains(segs, '/')
    ensures Clean(Rooted(segs)) == Rooted(Reduce(segs, [], true))
  {
    var p := Rooted(segs);
    assert p == "" + ['/'] + Join(segs, '/');
    SplitPrefix("", Join(segs, '/'), '/');
    if segs == [] {
      assert Split("", '/') == [""];
      CleanSplit(p, [""]);
      assert [""][1..] == [];
    } else {
      SplitJoin(segs, '/');
      CleanSplit(p, segs);
    }
  }

  lemma ReduceSkip(x: string, b: seq<string>, kept: seq<string>)
    requires x == "" || x == "."
    ensures Reduce([x] + b, kept, true) == Reduce(b, kept, true)
  {
    assert ([x] + b)[1..] == b;
  }

  lemma ReduceBack(x: string, b: seq<string>, kept: seq<string>)
    requires Plain([x])
    ensures Reduce([x, ".."] + b, kept, true) == Reduce(b, kept, true)
  {
    assert [x][0] == x;
    assert ([x, ".."] + b)[1..] == [".."] + b && ([".."] + b)[1..] == b;
    assert (kept + [x])[..|kept|] == kept;
  }

  /** Empty segments and single dots go. */
  lemma CleanSkips(a: seq<string>, x: string, b: seq<string>)
    requires NoneContains(a, '/') && NoneContains(b, '/') && (x == "" || x == ".")
    ensures Clean(Rooted(a + ([x] + b))) == Clean(Rooted(a + b))
  {
    CleanReduces(a + ([x] + b));
    CleanReduces(a + b);
    ReduceSplit(a, b, []);
    ReduceSplit(a, [x] + b, []);
    ReduceSkip(x, b, Reduce(a, [], true));
  }

  /** Two dots take the segment before with them. */
  lemma CleanGoesBack(a: seq<string>, x: string, b: seq<string>)
    requires NoneContains(a, '/') && NoneContains(b, '/') && Plain([x])
    ensures Clean(Rooted(a + ([x, ".."] + b))) == Clean(Rooted(a + b))
  {
    assert [x][0] == x;
    CleanReduces(a + ([x, ".."] + b));
    CleanReduces(a + b);
    ReduceSplit(a, b, []);
    ReduceSplit(a, [x, ".."] + b, []);
    ReduceBack(x, b, Reduce(a, [], true));
  }

  /** At the root they go. */
  lemma CleanStaysAtRoot(b: seq<string>)
    requires NoneContains(b, '/')
    ensures Clean(Rooted([".."] + b)) == Clean(Rooted(b))
  {
    CleanReduces([".."] + b);
    CleanReduces(b);
    assert ([".."] + b)[1..] == b;
  }
}
