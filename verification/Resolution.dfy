/** The screen-resolution capabilities: WxH and WxHxD, with the regular expressions as grammars. */
module Resolution {
  import opened Wrappers
  import opened Fragments

  predicate Digits(s: string) {
    s != "" && forall c | c in s :: '0' <= c <= '9'
  }

  const DEPTHS := ["8", "16", "24"]

  /** ^[0-9]+x[0-9]+$ */
  ghost predicate Short(s: string) {
    exists w, h :: Digits(w) && Digits(h) && s == w + "x" + h
  }

  /** ^([0-9]+x[0-9]+)x(8|16|24)$, where size is what the first group matches. */
  ghost predicate FullWith(s: string, size: string) {
    Short(size) && exists d :: d in ["8", "16", "24"] && s == size + "x" + d
  }

  ghost predicate Full(s: string) {
    exists size :: FullWith(s, size)
  }

  // The matchers.

  predicate MatchShort(s: string) {
    var parts := Split(s, 'x');
    |parts| == 2 && Digits(parts[0]) && Digits(parts[1])
  }

  /** The first group, if s matches the full form. */
  function MatchFull(s: string): Option<string> {
    var parts := Split(s, 'x');
    if |parts| == 3 && Digits(parts[0]) && Digits(parts[1]) && parts[2] in DEPTHS
    then Some(parts[0] + "x" + parts[1])
    else None
  }

  lemma SplitTwo(w: string, h: string)
    requires 'x' !in w && 'x' !in h
    ensures Split(w + "x" + h, 'x') == [w, h]
  {
    assert w + "x" + h == w + ['x'] + h;
    SplitPrefix(w, h, 'x');
    SplitPrefix(h, "", 'x');
  }

  lemma JoinTwo(s: string, parts: seq<string>)
    requires Split(s, 'x') == parts && |parts| == 2
    ensures s == parts[0] + "x" + parts[1]
  {
    JoinSplit(s, 'x');
    assert parts[1..] == [parts[1]];
  }

  lemma JoinThree(a: string, b: string, c: string)
    ensures Join([a, b, c], 'x') == a + "x" + b + "x" + c
  {
    var bc := Join([b, c], 'x');
    assert [a, b, c][1..] == [b, c] && [b, c][1..] == [c];
    assert Join([a, b, c], 'x') == a + ['x'] + bc;
    assert Join([c], 'x') == c && bc == b + ['x'] + c;
  }

  lemma MatchesShort(s: string)
    ensures MatchShort(s) <==> Short(s)
  {
    if MatchShort(s) {
      JoinTwo(s, Split(s, 'x'));
    }
    if Short(s) {
      var w, h :| Digits(w) && Digits(h) && s == w + "x" + h;
      SplitTwo(w, h);
    }
  }

  /** The matcher accepts exactly the grammar, and its group is the only size the string has. */
  lemma MatchesFull(s: string, size: string)
    ensures MatchFull(s) == Some(size) <==> FullWith(s, size)
  {
    var parts := Split(s, 'x');
    if MatchFull(s) == Some(size) {
      JoinSplit(s, 'x');
      assert parts == [parts[0], parts[1], parts[2]];
      JoinThree(parts[0], parts[1], parts[2]);
      assert Short(size);
    }
    if FullWith(s, size) {
      var w, h :| Digits(w) && Digits(h) && size == w + "x" + h;
      var d :| d in DEPTHS && s == size + "x" + d;
      assert s == w + ['x'] + (h + "x" + d);
      SplitPrefix(w, h + "x" + d, 'x');
      SplitTwo(h, d);
    }
  }

  // The functions of the hub.

  function GetScreenResolution(input: string): Result<string, string> {
    if input == "" then Ok("1920x1080x24")
    else if MatchFull(input).Some? then Ok(input)
    else if MatchShort(input) then Ok(input + "x24")
    else Err(input)
  }

  /** The index [1] into the submatches is what the precondition is for. */
  function ShortenScreenResolution(resolution: string): string
    requires MatchFull(resolution).Some?
  {
    MatchFull(resolution).value
  }

  function GetVideoScreenSize(size: string, resolution: string): Result<string, string>
    requires size == "" ==> MatchFull(resolution).Some?
  {
    if size == "" then Ok(ShortenScreenResolution(resolution))
    else if MatchShort(size) then Ok(size)
    else Err(size)
  }

  lemma Extended(input: string)
    requires Short(input)
    ensures FullWith(input + "x24", input)
  {
    assert "24" in DEPTHS by {
      assert DEPTHS[2] == "24";
    }
  }

  /**
   * For every input: the result is in the full grammar and is a fixed point; errors are
   * exactly the inputs in neither grammar; shortening an extended short input gives it back.
   */
  lemma ResolutionLaw(input: string)
    ensures GetScreenResolution(input).Ok? <==> input == "" || Full(input) || Short(input)
    ensures GetScreenResolution(input).Ok? ==>
              var r := GetScreenResolution(input).value;
              Full(r) && MatchFull(r).Some? && GetScreenResolution(r) == Ok(r)
    ensures Short(input) ==>
              var r := GetScreenResolution(input).value;
              MatchFull(r).Some? && ShortenScreenResolution(r) == input
  {
    MatchesShort(input);
    if Full(input) {
      var size :| FullWith(input, size);
      MatchesFull(input, size);
    }
    if MatchFull(input).Some? {
      MatchesFull(input, MatchFull(input).value);
    }
    if Short(input) {
      Extended(input);
      MatchesFull(input + "x24", input);
      NotBoth(input);
    }
    if input == "" {
      DefaultIsFull();
    }
  }

  lemma NotBoth(input: string)
    ensures !(MatchShort(input) && MatchFull(input).Some?)
  {
  }

  lemma DefaultIsFull()
    ensures FullWith("1920x1080x24", "1920x1080") && MatchFull("1920x1080x24") == Some("1920x1080")
  {
    assert Digits("1920") && Digits("1080") && "1920x1080" == "1920" + "x" + "1080";
    assert "1920x1080x24" == "1920x1080" + "x24";
    Extended("1920x1080");
    MatchesFull("1920x1080x24", "1920x1080");
  }

  /** A full resolution stays, a short one gets the depth 24, and none means full HD. */
  lemma ResolutionValues(input: string)
    ensures GetScreenResolution("") == Ok("1920x1080x24")
    ensures Full(input) ==> GetScreenResolution(input) == Ok(input)
    ensures Short(input) ==> GetScreenResolution(input) == Ok(input + "x24")
    ensures input != "" && !Full(input) && !Short(input) ==> GetScreenResolution(input) == Err(input)
  {
    MatchesShort(input);
    NotBoth(input);
    if size :| FullWith(input, size) {
      MatchesFull(input, size);
    }
    if MatchFull(input).Some? {
      MatchesFull(input, MatchFull(input).value);
    }
  }

  /** A video size that is given stays, and none means the size of the screen. */
  lemma VideoSizeValues(size: string, resolution: string, screen: string)
    requires FullWith(resolution, screen)
    ensures MatchFull(resolution).Some?
    ensures GetVideoScreenSize("", resolution) == Ok(screen)
    ensures size != "" ==> GetVideoScreenSize(size, resolution) == if Short(size) then Ok(size) else Err(size)
  {
    MatchesFull(resolution, screen);
    MatchesShort(size);
  }

  /**
   * create computes the video size from the resolution it has just checked: that never
   * indexes a missing match, and what it gets is in the short grammar.
   */
  lemma VideoSizeIsShort(input: string, size: string)
    requires GetScreenResolution(input).Ok?
    ensures MatchFull(GetScreenResolution(input).value).Some?
    ensures var v := GetVideoScreenSize(size, GetScreenResolution(input).value);
            && (v.Ok? ==> Short(v.value))
            && (v.Ok? <==> size == "" || Short(size))
  {
    ResolutionLaw(input);
    var r := GetScreenResolution(input).value;
    MatchesFull(r, MatchFull(r).value);
    MatchesShort(size);
  }
}
