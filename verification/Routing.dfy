/** How proxy and the per-service routes take a request path apart. */
module Routing {
  import opened Wrappers
  import opened Fragments

  const VENDOR := "aerokube"

  /** What proxy's Director does with a request. */
  datatype Route =
    | Vendor(path: string)               // back to the hub, to one of its per-service routes
    | Panics                             // index out of range on fragments
    | Upload                             // the hub's own file upload
    | Upstream(path: string, ends: bool) // to the session's driver; ends: it is the session's DELETE
    | Error                              // no such session

  function Suffixed(path: string, suffix: string): bool {
    |path| >= |suffix| && path[|path| - |suffix|..] == suffix
  }

  /** known: the id is in the session map; base: the path of the session's URL. */
  function Direct(path: string, known: bool, isDelete: bool, uploads: bool, base: string): Route {
    var fragments := Split(path, '/');
    if |fragments| < 3 then Panics
    else if !known then Error
    else if |fragments| >= 4 && fragments[3] == VENDOR then
      if |fragments| == 4 then Panics
      else Vendor(Clean(Join(["", fragments[4], fragments[2]] + fragments[5..], '/')))
    else
      var ends := isDelete && |fragments| == 3;
      if !ends && |fragments| == 4 && fragments[3] == "file" && uploads then Upload
      else
        var renamed := if Suffixed(path, "/se/file") then path[..|path| - 8] + "/file" else path;
        Upstream(Clean(base + renamed), ends)
  }

  /** splitRequestPath: the session id and the rest of the path. None: fragments[2] is out of range. */
  function SplitRequestPath(path: string): Option<(string, string)> {
    var fragments := Split(path, '/');
    if |fragments| < 3 then None else Some((fragments[2], "/" + Join(fragments[3..], '/')))
  }

  lemma VendorRewrites(id: string, service: string, rest: seq<string>, isDelete: bool, uploads: bool, base: string)
    requires Plain(["session", id, VENDOR, service] + rest) && Plain([service, id] + rest)
    ensures Direct(Rooted(["session", id, VENDOR, service] + rest), true, isDelete, uploads, base)
         == Vendor(Rooted([service, id] + rest))
  {
    var vendor, own := ["session", id, VENDOR, service] + rest, [service, id] + rest;
    SplitRooted(vendor);
    assert ([""] + vendor)[5..] == rest;
    assert ["", service, id] + rest == [""] + own;
    assert Join([""] + own, '/') == Rooted(own) by {
      assert ([""] + own)[1..] == own;
    }
    CleanRooted(own);
  }

  lemma OwnRouteSplits(id: string, service: string, rest: seq<string>)
    requires Plain([service, id] + rest)
    ensures SplitRequestPath(Rooted([service, id] + rest)) == Some((id, Rooted(rest)))
  {
    SplitRooted([service, id] + rest);
    assert ([""] + ([service, id] + rest))[3..] == rest;
  }

  lemma PlainRoutes(id: string, service: string, rest: seq<string>)
    requires Plain([id, service] + rest)
    ensures Plain(["session", id, VENDOR, service] + rest) && Plain([service, id] + rest)
  {
    forall k | 0 <= k < |rest| ensures rest[k] == ([id, service] + rest)[k + 2] {
    }
    assert id == ([id, service] + rest)[0] && service == ([id, service] + rest)[1];
  }

  /**
   * A vendor request and a request to the service's own route are the same to the service:
   * the same id and the same remaining path.
   */
  lemma RouteEquivalence(id: string, service: string, rest: seq<string>, isDelete: bool, uploads: bool, base: string)
    requires Plain([id, service] + rest)
    ensures var own := Rooted([service, id] + rest);
            && Direct(Rooted(["session", id, "aerokube", service] + rest), true, isDelete, uploads, base) == Vendor(own)
            && SplitRequestPath(own) == Some((id, Rooted(rest)))
  {
    PlainRoutes(id, service, rest);
    VendorRewrites(id, service, rest, isDelete, uploads, base);
    OwnRouteSplits(id, service, rest);
  }

  /** The path of a session's URL with these segments; it may be empty. */
  function Base(segs: seq<string>): string { if segs == [] then "" else Rooted(segs) }

  lemma UnderBase(base: seq<string>, segs: seq<string>)
    requires Plain(base) && Plain(segs) && segs != []
    ensures Clean(Base(base) + Rooted(segs)) == Rooted(base + segs)
  {
    if base == [] {
      assert base + segs == segs && "" + Rooted(segs) == Rooted(segs);
      CleanRooted(segs);
    } else {
      RootedAppend(base, segs);
      CleanRooted(base + segs);
    }
  }

  /** The request is for the session itself: not to the vendor's routes, nor an upload that the hub serves. */
  predicate ForDriver(rest: seq<string>, uploads: bool) {
    (rest != [] ==> rest[0] != "aerokube") && !(uploads && rest == ["file"])
  }

  lemma SessionFragments(id: string, rest: seq<string>)
    requires Plain(["session", id] + rest)
    ensures var f := Split(Rooted(["session", id] + rest), '/');
            |f| == 3 + |rest| && f[2] == id && f[3..] == rest
  {
    SplitRooted(["session", id] + rest);
  }

  /**
   * A request for a session reaches its driver at the same path under the base path of the
   * session's URL, and only a DELETE of the session's own path ends it.
   */
  lemma DriverGetsPath(base: seq<string>, id: string, rest: seq<string>, isDelete: bool, uploads: bool)
    requires Plain(base) && Plain(["session", id] + rest) && ForDriver(rest, uploads)
    requires !Suffixed(Rooted(["session", id] + rest), "/se/file")
    ensures Direct(Rooted(["session", id] + rest), true, isDelete, uploads, Base(base))
         == Upstream(Rooted(base + (["session", id] + rest)), isDelete && rest == [])
  {
    SessionFragments(id, rest);
    UnderBase(base, ["session", id] + rest);
    assert |rest| == 1 ==> rest == [rest[0]];
  }

  lemma SeFile(front: seq<string>)
    requires front != []
    ensures var path := Rooted(front + ["se", "file"]);
            Suffixed(path, "/se/file") && path[..|path| - 8] == Rooted(front)
  {
    RootedAppend(front, ["se", "file"]);
    assert ["se", "file"][1..] == ["file"];
    assert Rooted(["se", "file"]) == "/" + ("se" + ['/'] + "file") == "/se/file";
  }

  /** An upload under its newer name reaches the driver under the older one. */
  lemma SeFileRenamed(base: seq<string>, id: string, rest: seq<string>, isDelete: bool, uploads: bool)
    requires Plain(base) && Plain(["session", id] + rest) && (rest != [] ==> rest[0] != VENDOR)
    ensures Direct(Rooted(["session", id] + rest + ["se", "file"]), true, isDelete, uploads, Base(base))
         == Upstream(Rooted(base + (["session", id] + rest + ["file"])), false)
  {
    var front := ["session", id] + rest;
    var all := rest + ["se", "file"];
    assert front + ["se", "file"] == ["session", id] + all;
    assert Plain(["session", id] + all) && Plain(front + ["file"]);
    SessionFragments(id, all);
    SeFile(front);
    RootedAppend(front, ["file"]);
    assert Rooted(["file"]) == "/file";
    UnderBase(base, front + ["file"]);
    assert all[0] != VENDOR;
  }

  /** The path of a vendor request without a service. */
  function BareVendor(id: string): string { "/session/" + id + "/" + "aerokube" }

  /** proxy is registered for the paths under /session/. */
  lemma UnderSession(rest: string)
    ensures Split("/session/" + rest, '/') == ["", "session"] + Split(rest, '/')
  {
    assert "/session/" + rest == "" + ['/'] + ("session" + ['/'] + rest);
    SplitTwice("", "session", rest, '/');
  }

  lemma VendorHasNoSlash()
    ensures '/' !in VENDOR
  {
  }

  lemma BareVendorFragments(id: string)
    requires '/' !in id
    ensures Split(BareVendor(id), '/') == ["", "session", id, VENDOR]
  {
    VendorHasNoSlash();
    assert BareVendor(id) == "/session/" + (id + ['/'] + VENDOR);
    UnderSession(id + ['/'] + VENDOR);
    SplitPrefix(id, VENDOR, '/');
    SplitPrefix(VENDOR, "", '/');
    assert ["", "session"] + ([id] + [VENDOR]) == ["", "session", id, VENDOR];
  }

  /** The request that makes the Director panic. */
  lemma BareVendorPanics(id: string, isDelete: bool, uploads: bool, base: string)
    requires '/' !in id
    ensures Direct(BareVendor(id), true, isDelete, uploads, base) == Panics
  {
    BareVendorFragments(id);
  }

  lemma TwoFragments(s: string, last: string)
    requires |Split(s, '/')| == 2 && Split(s, '/')[1] == last
    ensures s == Split(s, '/')[0] + ['/'] + last && '/' !in Split(s, '/')[0]
  {
    JoinSplit(s, '/');
    SplitHasNoSep(s, '/');
    assert Split(s, '/')[1..] == [last];
  }

  lemma BareVendorExactly(rest: string)
    ensures var f := Split("/session/" + rest, '/');
            |f| >= 3 && (|f| == 4 && f[3] == VENDOR <==> exists id :: '/' !in id && "/session/" + rest == BareVendor(id))
  {
    var f := Split(rest, '/');
    UnderSession(rest);
    if |f| == 2 && f[1] == VENDOR {
      TwoFragments(rest, VENDOR);
      assert "/session/" + (f[0] + ['/'] + VENDOR) == BareVendor(f[0]);
    }
    if id :| '/' !in id && "/session/" + rest == BareVendor(id) {
      BareVendorFragments(id);
    }
  }

  /** On the paths that proxy is registered for, the Director panics exactly on a bare vendor path of a known session. */
  lemma PanicsOnPath(path: string, known: bool, isDelete: bool, uploads: bool, base: string)
    requires "/session/" <= path
    ensures Direct(path, known, isDelete, uploads, base) == Panics <==>
              known && exists id :: '/' !in id && path == BareVendor(id)
  {
    var rest := path[|"/session/"|..];
    assert path == "/session/" + rest;
    BareVendorExactly(rest);
  }

  /** A path of one segment after the id. */
  lemma OneMoreFragment(rest: string, last: string)
    requires '/' !in last
    ensures |Split(rest, '/')| == 2 && Split(rest, '/')[1] == last <==> exists id :: '/' !in id && rest == id + "/" + last
    ensures |Split(rest, '/')| == 1 <==> '/' !in rest
  {
    var f := Split(rest, '/');
    if |f| == 2 && f[1] == last {
      TwoFragments(rest, last);
      assert rest == f[0] + "/" + last;
    }
    if id :| '/' !in id && rest == id + "/" + last {
      assert rest == id + ['/'] + last;
      SplitPrefix(id, last, '/');
      SplitPrefix(last, "", '/');
    }
    if |f| == 1 {
      JoinSplit(rest, '/');
      SplitHasNoSep(rest, '/');
    }
    if '/' !in rest {
      SplitPrefix(rest, "", '/');
    }
  }

  /** Only the hub's own upload, under a plain id, stays with the hub; only the DELETE of a plain id ends a session. */
  lemma DirectExactly(rest: string, known: bool, isDelete: bool, uploads: bool, base: string)
    ensures var d := Direct("/session/" + rest, known, isDelete, uploads, base);
            && (d == Error <==> !known)
            && (d == Upload <==> known && uploads && exists id :: '/' !in id && rest == id + "/" + "file")
            && (d.Upstream? && d.ends <==> known && isDelete && '/' !in rest)
  {
    UnderSession(rest);
    OneMoreFragment(rest, "file");
    VendorIsNotFile();
  }

  lemma VendorIsNotFile()
    ensures VENDOR != "file"
  {
    assert VENDOR[0] == 'a';
  }

  /** Rejoining what splitRequestPath returns rebuilds the path exactly if there are at least four fragments. */
  lemma SplitThenRejoin(path: string)
    requires |Split(path, '/')| >= 3 && Split(path, '/')[0] == ""
    ensures var fragments, (id, rest) := Split(path, '/'), SplitRequestPath(path).value;
            "/" + fragments[1] + "/" + id + rest == path <==> |fragments| >= 4
  {
    var f := Split(path, '/');
    JoinSplit(path, '/');
    assert f[1..][0] == f[1] && f[1..][1..] == f[2..];
    assert f[2..][0] == f[2] && f[2..][1..] == f[3..];
    assert Join(f, '/') == "/" + f[1] + "/" + Join(f[2..], '/');
  }
}
