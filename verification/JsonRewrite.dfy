/**
 * The request rewriting of selenoid.go:387-436: a parsed JSON body loses the options that only
 * Selenoid understands before it is sent on. Decoded objects are mutable maps, and the rewriting
 * deletes keys in place. Nothing below asks for the objects to be distinct or acyclic.
 */
module JsonRewrite {

  datatype Value =
    | Null
    | Bool(b: bool)
    | Number(x: real)
    | Str(s: string)
    | Array(items: seq<Value>)
    | Object(node: Node)

  type Fields = map<string, Value>

  const OPTIONS := "selenoid:options"
  const BROWSER := "browserName"
  const BUNDLE := "appium:bundleId"
  const APP := "appium:app"

  /** Capabilities for a native iOS application: Appium must choose the browser name itself. */
  predicate NativeApp(f: Fields) {
    BROWSER in f && f[BROWSER] == Str("safari") && (BUNDLE in f || APP in f)
  }

  /** The fields that stay. */
  function Strip(f: Fields): Fields {
    if NativeApp(f) then f - {OPTIONS, BROWSER} else f - {OPTIONS}
  }

  /** The object stored under a key, if there is one. */
  function Under(f: Fields, key: string): set<Node> {
    if key in f && f[key].Object? then {f[key].node} else {}
  }

  /** The objects among some array items. */
  function Entries(items: seq<Value>): set<Node> {
    set i | 0 <= i < |items| && items[i].Object? :: items[i].node
  }

  lemma EntriesStep(items: seq<Value>, i: nat)
    requires i < |items|
    ensures Entries(items[..i + 1]) == Entries(items[..i]) + (if items[i].Object? then {items[i].node} else {})
  {
    var now := items[..i + 1];
    forall n | n in Entries(items[..i]) + (if items[i].Object? then {items[i].node} else {})
      ensures n in Entries(now)
    {
      if n in Entries(items[..i]) {
        var j :| 0 <= j < i && items[..i][j].Object? && items[..i][j].node == n;
        assert now[j].node == n;
      } else {
        assert now[i].node == n;
      }
    }
    forall n | n in Entries(now)
      ensures n in Entries(items[..i]) || (items[i].Object? && n == items[i].node)
    {
      var j :| 0 <= j < i + 1 && now[j].Object? && now[j].node == n;
      if j < i { assert items[..i][j].node == n; }
    }
  }

  function ArrayObjects(f: Fields, key: string): set<Node> {
    if key in f && f[key].Array? then Entries(f[key].items) else {}
  }

  /** The objects that the "capabilities" object of a request offers for matching. */
  function Matched(f: Fields): set<Node> {
    Under(f, "alwaysMatch") + ArrayObjects(f, "firstMatch")
  }

  /** The objects that hold capabilities in a request body. */
  function Targets(body: Node): set<Node>
    reads body, Under(body.fields, "capabilities")
  {
    var f := body.fields;
    Under(f, "desiredCapabilities")
    + if "capabilities" in f && f["capabilities"].Object? then Matched(f["capabilities"].node.fields) else {}
  }

  /** The key holds this object. */
  ghost predicate Holds(f: Fields, key: string, n: Node) { key in f && f[key] == Object(n) }

  /** The key holds an array with this object among its items. */
  ghost predicate Lists(f: Fields, key: string, n: Node) {
    key in f && f[key].Array? && exists i :: 0 <= i < |f[key].items| && f[key].items[i] == Object(n)
  }

  /** The capabilities of a request: the legacy ones, those that always match, and every alternative. */
  lemma TargetsExactly(body: Node, n: Node)
    ensures n in Targets(body) <==>
              || Holds(body.fields, "desiredCapabilities", n)
              || exists c: Node :: c in Under(body.fields, "capabilities") && Holds(body.fields, "capabilities", c)
                                   && (Holds(c.fields, "alwaysMatch", n) || Lists(c.fields, "firstMatch", n))
  {
    if "capabilities" in body.fields && body.fields["capabilities"].Object? {
      var c := body.fields["capabilities"].node;
      assert Holds(body.fields, "capabilities", c);
      ListsExactly(c.fields, "firstMatch", n);
    }
  }

  lemma ListsExactly(f: Fields, key: string, n: Node)
    ensures n in ArrayObjects(f, key) <==> Lists(f, key, n)
  {
    if key in f && f[key].Array? {
      var items := f[key].items;
      if i :| 0 <= i < |items| && items[i] == Object(n) {
        assert items[i].Object? && items[i].node == n;
      }
      if n in Entries(items) {
        var i :| 0 <= i < |items| && items[i].Object? && items[i].node == n;
        assert items[i] == Object(n);
      }
    }
  }

  /** No capabilities object still needs rewriting. */
  ghost predicate NothingLeft(body: Node)
    reads body, Under(body.fields, "capabilities"), Targets(body)
  {
    forall n | n in Targets(body) :: OPTIONS !in n.fields && !NativeApp(n.fields)
  }

  lemma DistinctKeys()
    ensures OPTIONS != BROWSER && OPTIONS != BUNDLE && OPTIONS != APP && BROWSER != BUNDLE && BROWSER != APP
    ensures {"desiredCapabilities", "capabilities", "alwaysMatch", "firstMatch"} !! {OPTIONS, BROWSER}
  {
    assert |"selenoid:options"| == 16 && |"browserName"| == 11 && |"appium:bundleId"| == 15 && |"appium:app"| == 10;
    assert "alwaysMatch"[0] != "browserName"[0];
  }

  /** Deletes one option, and the browser name exactly from a native iOS application; nothing is left for a second time. */
  lemma StripLaw(f: Fields)
    ensures "selenoid:options" !in Strip(f)
    ensures "browserName" in Strip(f) <==>
              "browserName" in f && (f["browserName"] == Str("safari") ==> "appium:bundleId" !in f && "appium:app" !in f)
    ensures forall k | k != "selenoid:options" && k != "browserName" :: k in Strip(f) <==> k in f
    ensures forall k | k in Strip(f) :: k in f && Strip(f)[k] == f[k]
    ensures Strip(f) == f <==> OPTIONS !in f && !NativeApp(f)
    ensures Strip(Strip(f)) == Strip(f)
  {
    DistinctKeys();
    assert Strip(f).Keys <= f.Keys;
    assert NativeApp(f) ==> BROWSER in f && BROWSER !in Strip(f);
    if OPTIONS !in f && !NativeApp(f) { assert f - {OPTIONS} == f; }
    assert !NativeApp(Strip(f));
    assert Strip(f) - {OPTIONS} == Strip(f);
  }

  /** Rewriting an object does not change where the capabilities objects are. */
  lemma StripKeepsTargets(f: Fields, key: string)
    requires key in {"desiredCapabilities", "capabilities", "alwaysMatch", "firstMatch"}
    ensures Under(Strip(f), key) == Under(f, key)
    ensures ArrayObjects(Strip(f), key) == ArrayObjects(f, key)
    ensures key in Strip(f) <==> key in f
    ensures key in f ==> Strip(f)[key] == f[key]
  {
    DistinctKeys();
    StripLaw(f);
  }

  class Node {
    var fields: Fields

    constructor (f: Fields)
      ensures fields == f
    {
      fields := f;
    }

    /** selenoid.go:420-436. */
    method RemoveSafariBrowserName()
      modifies this
      ensures fields == if NativeApp(old(fields)) then old(fields) - {BROWSER} else old(fields)
    {
      if BROWSER !in fields || fields[BROWSER] != Str("safari") { return; }
      if BUNDLE in fields {
        fields := fields - {BROWSER};
        return;
      }
      if APP in fields {
        fields := fields - {BROWSER};
      }
    }

    /** The two deletions made on every capabilities object. */
    method RemoveKeys()
      modifies this
      ensures fields == Strip(old(fields))
    {
      DistinctKeys();
      fields := fields - {OPTIONS};
      RemoveSafariBrowserName();
      assert NativeApp(old(fields)) ==> old(fields) - {OPTIONS} - {BROWSER} == old(fields) - {OPTIONS, BROWSER};
    }
  }

  /** The objects of was that are in done are rewritten, the others are as they were. */
  ghost predicate Rewritten(done: set<Node>, was: map<Node, Fields>)
    reads was.Keys
  {
    forall n | n in was :: n.fields == if n in done then Strip(was[n]) else was[n]
  }

  /** The snapshot knows the body and its capabilities object, so Targets can be read off it. */
  ghost predicate Covers(was: map<Node, Fields>, body: Node) {
    body in was && Under(was[body], "capabilities") <= was.Keys
  }

  ghost function TargetsIn(body: Node, was: map<Node, Fields>): set<Node>
    requires Covers(was, body)
  {
    var f := was[body];
    Under(f, "desiredCapabilities")
    + if "capabilities" in f && f["capabilities"].Object? then Matched(was[f["capabilities"].node]) else {}
  }

  /** While objects are being rewritten the walk still finds the objects it would have found before. */
  lemma WalkKept(body: Node, done: set<Node>, was: map<Node, Fields>)
    requires Covers(was, body) && Rewritten(done, was)
    ensures Under(body.fields, "desiredCapabilities") == Under(was[body], "desiredCapabilities")
    ensures Under(body.fields, "capabilities") == Under(was[body], "capabilities")
    ensures forall c | c in Under(was[body], "capabilities") :: Matched(c.fields) == Matched(was[c])
  {
    StripKeepsTargets(was[body], "capabilities");
    StripKeepsTargets(was[body], "desiredCapabilities");
    forall c | c in Under(was[body], "capabilities")
      ensures Matched(c.fields) == Matched(was[c])
    {
      StripKeepsTargets(was[c], "alwaysMatch");
      StripKeepsTargets(was[c], "firstMatch");
    }
  }

  lemma TargetsKept(body: Node, done: set<Node>, was: map<Node, Fields>)
    requires Covers(was, body) && Rewritten(done, was)
    ensures Targets(body) == TargetsIn(body, was)
  {
    WalkKept(body, done, was);
  }

  /** Once every target is rewritten nothing is left to do, and a clean body is untouched. */
  lemma RewriteDone(body: Node, was: map<Node, Fields>)
    requires Covers(was, body) && TargetsIn(body, was) <= was.Keys && Rewritten(TargetsIn(body, was), was)
    ensures NothingLeft(body)
    ensures forall n | n in TargetsIn(body, was) ::
              n.fields == was[n] <==> OPTIONS !in was[n] && !NativeApp(was[n])
  {
    TargetsKept(body, TargetsIn(body, was), was);
    forall n | n in TargetsIn(body, was)
      ensures OPTIONS !in n.fields && !NativeApp(n.fields)
      ensures n.fields == was[n] <==> OPTIONS !in was[n] && !NativeApp(was[n])
    {
      StripLaw(was[n]);
      StripLaw(n.fields);
    }
  }

  /** An object that the body reaches twice is rewritten twice, which is the same as once. */
  method RewriteOne(n: Node, ghost done: set<Node>, ghost was: map<Node, Fields>)
    requires n in was && Rewritten(done, was)
    modifies n
    ensures n.fields == Strip(old(n.fields))
    ensures Rewritten(done + {n}, was)
  {
    n.RemoveKeys();
    StripLaw(was[n]);
  }

  /** selenoid.go:407-414. */
  method RewriteFirstMatch(items: seq<Value>, ghost done: set<Node>, ghost was: map<Node, Fields>)
    requires Entries(items) <= was.Keys && Rewritten(done, was)
    modifies Entries(items)
    ensures Rewritten(done + Entries(items), was)
  {
    for i := 0 to |items|
      invariant Rewritten(done + Entries(items[..i]), was)
    {
      if items[i].Object? {
        assert items[i].node in Entries(items);
        RewriteOne(items[i].node, done + Entries(items[..i]), was);
      }
      EntriesStep(items, i);
      assert done + Entries(items[..i + 1])
          == done + Entries(items[..i]) + (if items[i].Object? then {items[i].node} else {});
    }
    assert items[..|items|] == items;
  }

  /** selenoid.go:399-415. */
  method RewriteMatches(c: Node, ghost done: set<Node>, ghost was: map<Node, Fields>)
    requires c in was && Rewritten(done, was)
    requires Matched(was[c]) <= was.Keys
    modifies Matched(c.fields)
    ensures Rewritten(done + Matched(was[c]), was)
  {
    StripKeepsTargets(was[c], "alwaysMatch");
    StripKeepsTargets(was[c], "firstMatch");
    if "alwaysMatch" in c.fields && c.fields["alwaysMatch"].Object? {
      RewriteOne(c.fields["alwaysMatch"].node, done, was);
    }
    ghost var now := done + Under(was[c], "alwaysMatch");
    if "firstMatch" in c.fields && c.fields["firstMatch"].Array? {
      RewriteFirstMatch(c.fields["firstMatch"].items, now, was);
    }
    assert done + Matched(was[c]) == now + ArrayObjects(was[c], "firstMatch");
  }

  /** selenoid.go:387-418, between decoding and encoding. */
  method RemoveSelenoidOptions(body: Node)
    modifies Targets(body)
    ensures Targets(body) == old(Targets(body))
    ensures forall n | n in Targets(body) :: n.fields == Strip(old(n.fields))
    ensures NothingLeft(body)
    ensures old(NothingLeft(body)) ==> forall n | n in Targets(body) :: n.fields == old(n.fields)
  {
    ghost var was: map<Node, Fields> := map n: Node | n in Targets(body) + Under(body.fields, "capabilities") + {body} :: n.fields;
    ghost var done: set<Node> := Under(was[body], "desiredCapabilities");
    TargetsKept(body, {}, was);
    if "desiredCapabilities" in body.fields && body.fields["desiredCapabilities"].Object? {
      RewriteOne(body.fields["desiredCapabilities"].node, {}, was);
      assert {} + done == done;
    }
    WalkKept(body, done, was);
    if "capabilities" in body.fields && body.fields["capabilities"].Object? {
      var c := body.fields["capabilities"].node;
      RewriteMatches(c, done, was);
      done := done + Matched(was[c]);
    }
    assert done == TargetsIn(body, was);
    TargetsKept(body, done, was);
    RewriteDone(body, was);
  }
}
