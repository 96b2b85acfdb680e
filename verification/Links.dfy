/**
 * Whether the links that processBody advertises lead back to their session: a link is a URL,
 * and its path comes to a route through the hub's ServeMux.
 */
module Links {
  import opened Wrappers
  import opened Fragments
  import opened Routing
  import opened ResponseBody

  predicate Hex(c: char) { '0' <= c <= '9' || 'A' <= c <= 'F' || 'a' <= c <= 'f' }

  function HexValue(c: char): (v: nat)
    requires Hex(c)
    ensures v < 16
  {
    if c <= '9' then c as nat - '0' as nat else if c <= 'F' then 10 + c as nat - 'A' as nat else 10 + c as nat - 'a' as nat
  }

  /** A URL's path is over at the first '?' or '#': section 3.3 of RFC 3986. */
  function Cut(s: string): string {
    if s == "" || s[0] == '?' || s[0] == '#' then "" else [s[0]] + Cut(s[1..])
  }

  /** Its escapes decoded. None: a '%' that two hex digits do not follow. */
  function Decoded(s: string): Option<string> {
    if s == "" then Some("")
    else if s[0] == '%' then
      if |s| < 3 || !Hex(s[1]) || !Hex(s[2]) then None
      else After([(16 * HexValue(s[1]) + HexValue(s[2])) as char], Decoded(s[3..]))
    else After([s[0]], Decoded(s[1..]))
  }

  function After(a: string, rest: Option<string>): Option<string> {
    match rest case None => None case Some(t) => Some(a + t)
  }

  /** The path ServeMux would rather see: clean, but for a slash at its end. */
  function Muxed(path: string): string {
    var clean := Clean(path);
    if path != "" && path[|path| - 1] == '/' && clean != "/" then clean + "/" else clean
  }

  /** The path that the route gets. None: a bad URL, or ServeMux answers with a redirect. */
  function Arrives(target: string): Option<string> {
    match Decoded(Cut(target))
    case None => None
    case Some(path) => if Muxed(path) == path then Some(path) else None
  }

  /** The route finds the id, and nothing after it. */
  predicate LeadsBack(service: string, id: string) {
    Arrives(LinkPath(service, id)).Some? && SplitRequestPath(Arrives(LinkPath(service, id)).value) == Some((id, "/"))
  }

  /** A character that means something in a URL's path. */
  predicate Special(c: char) { c in {'/', '?', '#', '%'} }

  predicate Clear(s: string) { forall c | c in s :: !Special(c) }

  /** An id that is one path segment of a URL as it stands. */
  predicate Segment(id: string) { Clear(id) && id != "" && id != "." && id != ".." }

  // Cutting and decoding.

  lemma {:induction false} CutAfter(a: string, b: string)
    requires '?' !in a && '#' !in a
    ensures Cut(a + b) == a + Cut(b)
  {
    if a == "" {
      assert a + b == b;
    } else {
      assert (a + b)[1..] == a[1..] + b;
      CutAfter(a[1..], b);
    }
  }

  lemma {:induction false} DecodedAfter(a: string, b: string)
    requires '%' !in a
    ensures Decoded(a + b) == After(a, Decoded(b))
  {
    if a == "" {
      assert a + b == b;
      assert Decoded(b).Some? ==> "" + Decoded(b).value == Decoded(b).value;
    } else {
      assert (a + b)[1..] == a[1..] + b;
      DecodedAfter(a[1..], b);
      assert Decoded(b).Some? ==> [a[0]] + (a[1..] + Decoded(b).value) == a + Decoded(b).value;
    }
  }

  lemma {:induction false} CutEnds(a: string, b: string)
    requires '?' in a || '#' in a
    ensures Cut(a + b) == Cut(a) && |Cut(a)| < |a|
  {
    if a[0] != '?' && a[0] != '#' {
      assert (a + b)[1..] == a[1..] + b && a == [a[0]] + a[1..];
      CutEnds(a[1..], b);
    }
  }

  lemma {:induction false} DecodedShorter(s: string)
    requires Decoded(s).Some?
    ensures |Decoded(s).value| <= |s| && ('%' in s ==> |Decoded(s).value| + 2 <= |s|)
  {
    if s == "" {
    } else if s[0] == '%' {
      DecodedShorter(s[3..]);
    } else {
      DecodedShorter(s[1..]);
      assert s == [s[0]] + s[1..];
    }
  }

  // The path of a link.

  lemma LinkShape(service: string, id: string)
    ensures LinkPath(service, id) == "/" + service + "/" + (id + "/")
    ensures LinkPath(service, id) == "" + ['/'] + (service + ['/'] + (id + "/"))
  {
  }

  lemma ServiceFirst(service: string, q: string)
    requires '/' !in service
    ensures Split("/" + service + "/" + q, '/') == ["", service] + Split(q, '/')
  {
    assert "/" + service + "/" + q == "" + ['/'] + (service + ['/'] + q);
    SplitTwice("", service, q, '/');
  }

  /** What the route reads. */
  lemma RouteReads(service: string, q: string)
    requires '/' !in service
    ensures SplitRequestPath("/" + service + "/" + q) == Some((Split(q, '/')[0], "/" + Join(Split(q, '/')[1..], '/')))
  {
    ServiceFirst(service, q);
    assert (["", service] + Split(q, '/'))[3..] == Split(q, '/')[1..];
  }

  /** It reads id and nothing more exactly if there is nothing more, but perhaps a slash. */
  lemma ReadsExactly(q: string, id: string)
    ensures Split(q, '/')[0] == id && Join(Split(q, '/')[1..], '/') == "" <==> '/' !in id && (q == id || q == id + "/")
  {
    var f := Split(q, '/');
    JoinSplit(q, '/');
    SplitHasNoSep(q, '/');
    if '/' !in id {
      SplitPrefix(id, "", '/');
      assert id + ['/'] + "" == id + "/" && [""][1..] == [];
    }
    if f[0] == id && Join(f[1..], '/') == "" && |f| == 1 {
      assert q == id;
    }
  }

  /** The route finds id and nothing more exactly if there is nothing more, but perhaps a slash. */
  lemma RouteFinds(service: string, q: string, id: string)
    requires '/' !in service
    ensures SplitRequestPath("/" + service + "/" + q) == Some((id, "/")) <==> '/' !in id && (q == id || q == id + "/")
  {
    RouteReads(service, q);
    ReadsExactly(q, id);
    var rest := Join(Split(q, '/')[1..], '/');
    assert "/" + rest == "/" <==> rest == "" by {
      assert ("/" + rest)[1..] == rest && "/"[1..] == "";
      assert "/" + "" == "/";
    }
  }

  /** The path of the link, as its URL says it. */
  lemma PathOfLink(service: string, id: string)
    requires Clear(service)
    ensures Decoded(Cut(LinkPath(service, id))) == After("/" + service + "/", Decoded(Cut(id + "/")))
  {
    var front := "/" + service + "/";
    assert forall c | c in front :: c == '/' || c in service;
    LinkShape(service, id);
    CutAfter(front, id + "/");
    DecodedAfter(front, Cut(id + "/"));
  }

  /** An escape, or a character that ends the path, leaves too little of the id. */
  lemma SpecialIsLost(id: string)
    requires Decoded(Cut(id + "/")).Some? && ('?' in id || '#' in id || '%' in id)
    ensures |Decoded(Cut(id + "/")).value| < |id|
  {
    DecodedShorter(Cut(id + "/"));
    if '?' in id || '#' in id {
      CutEnds(id, "/");
    } else {
      CutAfter(id, "/");
      assert id + Cut("/") == id + "/" && (id + "/")[..|id|] == id;
    }
  }

  lemma PlainIsKept(id: string)
    requires '?' !in id && '#' !in id && '%' !in id
    ensures Decoded(Cut(id + "/")) == Some(id + "/")
  {
    CutAfter(id, "/");
    assert Cut("/") == "/" && Decoded("/") == Some("/");
    DecodedAfter(id, "/");
  }

  lemma LinkSplits(service: string, id: string)
    requires '/' !in service && '/' !in id
    ensures Split(LinkPath(service, id), '/') == [""] + [service, id, ""]
  {
    LinkShape(service, id);
    ServiceFirst(service, id + "/");
    SplitPrefix(id, "", '/');
    assert id + ['/'] + "" == id + "/" && Split("", '/') == [""];
    assert ["", service] + ([id] + [""]) == [""] + [service, id, ""];
  }

  lemma ReduceLink(service: string, id: string)
    requires Plain([service]) && '/' !in id
    ensures Join(Reduce([service, id, ""], [], true), '/') ==
            if id == "" || id == "." then service else if id == ".." then "" else service + "/" + id
  {
    assert [service][0] == service;
    assert [service, id, ""][1..] == [id, ""] && [id, ""][1..] == [""];
    assert [] + [service] == [service] && [service][..0] == [] && [service] + [id] == [service, id];
    assert Reduce([service, id, ""], [], true) == Reduce([id, ""], [service], true);
    assert forall kept :: Reduce([""], kept, true) == kept;
    assert [service, id][1..] == [id] && service + ['/'] + id == service + "/" + id;
  }

  lemma CleanLink(service: string, id: string)
    requires Plain([service]) && '/' !in id
    ensures Clean(LinkPath(service, id)) ==
            "/" + if id == "" || id == "." then service else if id == ".." then "" else service + "/" + id
  {
    assert '/' !in [service][0];
    LinkSplits(service, id);
    CleanSplit(LinkPath(service, id), [service, id, ""]);
    ReduceLink(service, id);
  }

  /** ServeMux leaves the path of a link alone exactly if the id is a segment that Clean keeps. */
  lemma MuxedLink(service: string, id: string)
    requires Plain([service]) && '/' !in id
    ensures Muxed(LinkPath(service, id)) == LinkPath(service, id) <==> id != "" && id != "." && id != ".."
  {
    CleanLink(service, id);
    var path := LinkPath(service, id);
    if id != "" && id != "." && id != ".." {
      assert path == "/" + (service + "/" + id) + "/";
    } else {
      assert |Muxed(path)| < |path|;
    }
  }

  lemma SpecialLeadsAway(service: string, id: string)
    requires '/' !in service && Clear(service) && ('?' in id || '#' in id || '%' in id)
    ensures !LeadsBack(service, id)
  {
    PathOfLink(service, id);
    if Decoded(Cut(id + "/")).Some? {
      var q := Decoded(Cut(id + "/")).value;
      SpecialIsLost(id);
      RouteFinds(service, q, id);
    }
  }

  /** Without these characters the route reads the path as it was written. */
  lemma OthersArrive(service: string, id: string)
    requires '/' !in service && Clear(service) && '?' !in id && '#' !in id && '%' !in id
    ensures LeadsBack(service, id) <==> '/' !in id && Muxed(LinkPath(service, id)) == LinkPath(service, id)
  {
    PathOfLink(service, id);
    PlainIsKept(id);
    LinkShape(service, id);
    RouteFinds(service, id + "/", id);
  }

  lemma ClearExactly(s: string)
    ensures Clear(s) <==> '/' !in s && '?' !in s && '#' !in s && '%' !in s
  {
  }

  /**
   * An advertised link leads back to the session of its id exactly if the id is one segment of a
   * URL's path as it stands: no slash in it, nothing that ends the path or escapes, and no dots.
   */
  lemma LinkLeadsBack(service: string, id: string)
    requires Plain([service]) && Clear(service)
    ensures LeadsBack(service, id) <==> Segment(id)
  {
    ClearExactly(service);
    ClearExactly(id);
    if '?' in id || '#' in id || '%' in id {
      SpecialLeadsAway(service, id);
    } else {
      OthersArrive(service, id);
      if '/' !in id {
        MuxedLink(service, id);
      }
    }
  }
}
