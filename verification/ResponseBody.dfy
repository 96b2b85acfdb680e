/**
 * What create reads from and adds to a driver's answer, selenoid.go:438-484: the id of the
 * new session, and the links under which the hub will serve it.
 */
module ResponseBody {
  import opened Wrappers
  import opened JsonRewrite
  import C = SessionCreation

  datatype Processed =
    | Named(id: string)
    | BadUrl(id: string) // the WebSocket URL does not parse
    | Panicked           // a type assertion fails

  function StringAt(f: Fields, key: string): Option<string> {
    if key in f && f[key].Str? then Some(f[key].s) else None
  }

  /** A WebSocket URL is given; null counts as absent. */
  predicate HasUrl(c: Fields) { "webSocketUrl" in c && c["webSocketUrl"] != Null }

  function LinkPath(service: string, id: string): string { "/" + service + "/" + id + "/" }

  function Link(host: string, service: string, id: string): string { "ws://" + host + LinkPath(service, id) }

  /** The session's capabilities in an answer that follows the W3C protocol. */
  function Capabilities(body: Node): set<Node>
    reads body, Under(body.fields, "value")
  {
    var f := body.fields;
    if "sessionId" !in f && "value" in f && f["value"].Object? then Under(f["value"].node.fields, "capabilities") else {}
  }

  /** The capabilities of a session with this id, with the links under which the hub serves it. */
  function Linked(c: Fields, host: string, id: string): Fields {
    var l := c["se:cdp" := Str(Link(host, "devtools", id))]["se:wsdriver" := Str(Link(host, "wsdriver", id))]
              ["se:wsdriverVersion" := Str("1")];
    if StringAt(c, "browserVersion").Some? then l["se:cdpVersion" := c["browserVersion"]] else l
  }

  /** The links are WebSocket URLs on this host, the versions those of the protocol and of the browser; all else stays. */
  lemma LinkedLaw(c: Fields, host: string, id: string)
    ensures var l := Linked(c, host, id);
            && "se:cdp" in l && l["se:cdp"] == Str("ws://" + host + ("/" + "devtools" + "/" + id + "/"))
            && "se:wsdriver" in l && l["se:wsdriver"] == Str("ws://" + host + ("/" + "wsdriver" + "/" + id + "/"))
            && "se:wsdriverVersion" in l && l["se:wsdriverVersion"] == Str("1")
            && (if "browserVersion" in c && c["browserVersion"].Str?
                then "se:cdpVersion" in l && l["se:cdpVersion"] == c["browserVersion"]
                else ("se:cdpVersion" in l <==> "se:cdpVersion" in c)
                     && ("se:cdpVersion" in c ==> l["se:cdpVersion"] == c["se:cdpVersion"]))
    ensures forall k | k !in {"se:cdp", "se:wsdriver", "se:wsdriverVersion", "se:cdpVersion"} ::
              (k in Linked(c, host, id) <==> k in c) && (k in c ==> Linked(c, host, id)[k] == c[k])
  {
  }

  /** What comes of an answer. rehost puts a host into a URL, if it parses. */
  function ProcessedAs(body: Node, host: string, rehost: (string, string) -> Option<string>): Processed
    reads body, Under(body.fields, "value"), Capabilities(body)
  {
    var f := body.fields;
    if "sessionId" in f then Named(if f["sessionId"].Str? then f["sessionId"].s else "")
    else if Capabilities(body) == {} then Named("")
    else
      var v := f["value"].node.fields;
      var c := v["capabilities"].node.fields;
      match StringAt(v, "sessionId")
      case None => Panicked
      case Some(id) =>
        UrlOutcome(c, host, id, rehost)
  }

  function UrlOutcome(c: Fields, host: string, id: string, rehost: (string, string) -> Option<string>): Processed {
    if !HasUrl(c) then Named(id)
    else match StringAt(c, "webSocketUrl")
      case None => Panicked
      case Some(url) => if rehost(url, host).Some? then Named(id) else BadUrl(id)
  }

  /** The capabilities of a named session as the client gets them. */
  function ClientView(c: Fields, host: string, id: string, rehost: (string, string) -> Option<string>): Fields {
    var l := Linked(c, host, id);
    if HasUrl(c) && StringAt(c, "webSocketUrl").Some? && rehost(c["webSocketUrl"].s, host).Some?
    then l["webSocketUrl" := Str(rehost(c["webSocketUrl"].s, host).value)] else l
  }

  lemma LinkKeys()
    ensures {"browserVersion", "webSocketUrl"} !! {"se:cdp", "se:wsdriver", "se:wsdriverVersion", "se:cdpVersion"}
  {
    assert "se:cdp"[0] == 's' && "se:wsdriver"[0] == 's' && "se:wsdriverVersion"[0] == 's' && "se:cdpVersion"[0] == 's';
    assert "browserVersion"[0] == 'b' && "webSocketUrl"[0] == 'w';
  }

  /** A WebSocket URL that parses gets this host; all else is as with the links alone. */
  lemma ClientViewLaw(c: Fields, host: string, id: string, rehost: (string, string) -> Option<string>)
    ensures var v := ClientView(c, host, id, rehost);
            && (forall url :: "webSocketUrl" in c && c["webSocketUrl"] == Str(url) && rehost(url, host).Some? ==>
                  "webSocketUrl" in v && v["webSocketUrl"] == Str(rehost(url, host).value))
            && ("webSocketUrl" !in c || !c["webSocketUrl"].Str? || rehost(c["webSocketUrl"].s, host).None? ==>
                  v == Linked(c, host, id))
    ensures forall k | k != "webSocketUrl" ::
              (k in ClientView(c, host, id, rehost) <==> k in Linked(c, host, id))
              && (k in Linked(c, host, id) ==> ClientView(c, host, id, rehost)[k] == Linked(c, host, id)[k])
  {
  }

  /** selenoid.go:456-463. */
  method AddLinks(c: Node, host: string, id: string)
    modifies c
    ensures c.fields == Linked(old(c.fields), host, id)
    ensures HasUrl(c.fields) == HasUrl(old(c.fields)) && StringAt(c.fields, "webSocketUrl") == StringAt(old(c.fields), "webSocketUrl")
  {
    LinkKeys();
    LinkedLaw(c.fields, host, id);
    c.fields := c.fields["se:cdp" := Str(Link(host, "devtools", id))];
    c.fields := c.fields["se:wsdriver" := Str(Link(host, "wsdriver", id))];
    c.fields := c.fields["se:wsdriverVersion" := Str("1")];
    if StringAt(c.fields, "browserVersion").Some? {
      c.fields := c.fields["se:cdpVersion" := c.fields["browserVersion"]];
    }
  }

  /** selenoid.go:465-473. */
  method Rehost(c: Node, host: string, id: string, rehost: (string, string) -> Option<string>) returns (r: Processed)
    modifies c
    ensures r == UrlOutcome(old(c.fields), host, id, rehost)
    ensures c.fields == if r.Named? && HasUrl(old(c.fields))
                        then old(c.fields)["webSocketUrl" := Str(rehost(old(c.fields)["webSocketUrl"].s, host).value)]
                        else old(c.fields)
  {
    if !HasUrl(c.fields) {
      return Named(id);
    }
    if !c.fields["webSocketUrl"].Str? {
      return Panicked;
    }
    var rehosted := rehost(c.fields["webSocketUrl"].s, host);
    if rehosted.None? {
      return BadUrl(id);
    }
    c.fields := c.fields["webSocketUrl" := Str(rehosted.value)];
    return Named(id);
  }

  /** The capabilities are changed in place, and only if the answer is a W3C one. */
  method ProcessBody(body: Node, host: string, rehost: (string, string) -> Option<string>) returns (r: Processed)
    modifies Capabilities(body)
    ensures r == old(ProcessedAs(body, host, rehost))
    ensures r.Named? ==> forall c | c in old(Capabilities(body)) :: c.fields == ClientView(old(c.fields), host, r.id, rehost)
  {
    if "sessionId" in body.fields {
      return Named(if body.fields["sessionId"].Str? then body.fields["sessionId"].s else "");
    }
    if "value" !in body.fields || !body.fields["value"].Object? {
      return Named("");
    }
    var v := body.fields["value"].node;
    if "capabilities" !in v.fields || !v.fields["capabilities"].Object? {
      return Named("");
    }
    var c := v.fields["capabilities"].node;
    var sessionId := StringAt(v.fields, "sessionId");
    if sessionId.None? {
      return Panicked;
    }
    var id := sessionId.value;
    AddLinks(c, host, id);
    r := Rehost(c, host, id, rehost);
  }

  /** The answer follows the W3C protocol: c are its capabilities, and v the object around them. */
  ghost predicate Follows(body: Node, v: Node, c: Node)
    reads body, v
  {
    && "sessionId" !in body.fields && "value" in body.fields && body.fields["value"] == Object(v)
    && "capabilities" in v.fields && v.fields["capabilities"] == Object(c)
  }

  /** An older answer names its session at the top, by a string or not at all. */
  lemma OlderAnswer(body: Node, host: string, rehost: (string, string) -> Option<string>)
    requires "sessionId" in body.fields
    ensures forall id :: body.fields["sessionId"] == Str(id) ==> ProcessedAs(body, host, rehost) == Named(id)
    ensures !body.fields["sessionId"].Str? ==> ProcessedAs(body, host, rehost) == Named("")
  {
  }

  /** A W3C one beside its capabilities; it is refused exactly if its WebSocket URL does not parse. */
  lemma W3cAnswer(body: Node, v: Node, c: Node, id: string, host: string, rehost: (string, string) -> Option<string>)
    requires Follows(body, v, c) && "sessionId" in v.fields && v.fields["sessionId"] == Str(id)
    ensures "webSocketUrl" !in c.fields || c.fields["webSocketUrl"] == Null ==> ProcessedAs(body, host, rehost) == Named(id)
    ensures forall url :: "webSocketUrl" in c.fields && c.fields["webSocketUrl"] == Str(url) ==>
              ProcessedAs(body, host, rehost) == if rehost(url, host).Some? then Named(id) else BadUrl(id)
  {
    assert Capabilities(body) == {c};
  }

  /** Any other names none. */
  lemma OtherAnswer(body: Node, host: string, rehost: (string, string) -> Option<string>)
    requires "sessionId" !in body.fields && forall v, c :: !Follows(body, v, c)
    ensures ProcessedAs(body, host, rehost) == Named("")
  {
    if Capabilities(body) != {} {
      assert Follows(body, body.fields["value"].node, body.fields["value"].node.fields["capabilities"].node);
    }
  }

  /** When a driver's answer makes the handler panic, and so leak its slot. */
  lemma PanicsExactly(body: Node, host: string, rehost: (string, string) -> Option<string>)
    ensures ProcessedAs(body, host, rehost) == Panicked <==>
              && "sessionId" !in body.fields
              && (exists c ::
                    && c in Capabilities(body)
                    && (StringAt(body.fields["value"].node.fields, "sessionId").None?
                        || (HasUrl(c.fields) && !c.fields["webSocketUrl"].Str?)))
  {
    if Capabilities(body) != {} {
      var c := body.fields["value"].node.fields["capabilities"].node;
      assert c in Capabilities(body);
    }
  }

  /** What the answer comes to for create. */
  function NamingOf(r: Processed): C.Naming {
    match r
    case Named(id) => C.Body(id)
    case BadUrl(_) => C.Unprocessable
    case Panicked => C.Panics
  }

  /** The request whose answer has this body. */
  function AnsweredBy(q: C.Request, body: Node, host: string, rehost: (string, string) -> Option<string>): C.Request
    reads body, Under(body.fields, "value"), Capabilities(body)
  {
    q.(naming := NamingOf(ProcessedAs(body, host, rehost)))
  }

  lemma SameUpToAnswer(q: C.Request, naming: C.Naming)
    ensures C.Starts(q.(naming := naming)) == C.Starts(q) && C.NilEntry(q.(naming := naming)) == C.NilEntry(q)
    ensures q.(naming := naming).Attempted() == q.Attempted()
  {
  }

  /** create on a request whose answer names the session in its body: the slot is settled by what the body says. */
  method CreateFromBody(q: C.Request, body: Node, host: string, rehost: (string, string) -> Option<string>)
    returns (log: seq<C.Effect>, ending: C.Ending)
    modifies Capabilities(body)
    ensures C.Settled(old(AnsweredBy(q, body, host, rehost)), log, ending)
    ensures ending.Served? ==> forall c | c in old(Capabilities(body)) :: c.fields == ClientView(old(c.fields), host, ending.id, rehost)
  {
    var early, base;
    log, early, base := C.Launch(q);
    C.NilIsEarly(q);
    SameUpToAnswer(q, NamingOf(ProcessedAs(body, host, rehost)));
    if early.Some? {
      return log, early.value;
    }
    var r := ProcessBody(body, host, rehost);
    var rest;
    rest, ending := C.Conclude(NamingOf(r), base);
    log := log + rest;
  }
}
