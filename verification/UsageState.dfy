/** Config.State: the usage report built from the session map, in whatever order the map is visited. */
module UsageState {

  /** The fields of a session that the report reads. */
  datatype Session = Session(
    name: string, deviceName: string, w3cDeviceName: string, version: string, quota: string,
    vnc: string, containerId: string, screen: string)
  {
    /** Caps.BrowserName */
    function BrowserName(): string {
      if name != "" then name else if deviceName != "" then deviceName else w3cDeviceName
    }

    function Report(id: string): Entry { Entry(id, containerId, vnc != "", screen) }

    predicate Belongs(b: string, v: string, q: string) { BrowserName() == b && version == v && quota == q }
  }

  /** The browser's name is the first of the three that is given. */
  lemma BrowserNameLaw(s: Session)
    ensures s.name != "" ==> s.BrowserName() == s.name
    ensures s.name == "" && s.deviceName != "" ==> s.BrowserName() == s.deviceName
    ensures s.name == "" && s.deviceName == "" ==> s.BrowserName() == s.w3cDeviceName
  {
  }

  datatype Entry = Entry(id: string, container: string, vnc: bool, screen: string)

  datatype Cell = Cell(count: nat, list: seq<Entry>)

  type Quotas = map<string, Cell>
  type Versions = map<string, Quotas>
  type Browsers = map<string, Versions>

  const EMPTY := Cell(0, [])

  /** What the report shows for a browser, version and quota; nothing is EMPTY. */
  function At(m: Browsers, b: string, v: string, q: string): Cell {
    if b in m && v in m[b] && q in m[b][v] then m[b][v][q] else EMPTY
  }

  /** The reports of the sessions in ids that belong to one cell, in order. */
  function Listed(sessions: map<string, Session>, ids: seq<string>, b: string, v: string, q: string): seq<Entry>
    requires forall id | id in ids :: id in sessions
  {
    if ids == [] then []
    else
      var before, id := ids[..|ids| - 1], ids[|ids| - 1];
      Listed(sessions, before, b, v, q) + if sessions[id].Belongs(b, v, q) then [sessions[id].Report(id)] else []
  }

  // Sums over maps.

  ghost function Sum<V>(m: map<string, V>, f: V -> nat): nat {
    if m == map[] then 0
    else var k :| k in m; f(m[k]) + Sum(m - {k}, f)
  }

  lemma {:induction false} SumAny<V>(m: map<string, V>, f: V -> nat, k: string)
    requires k in m
    ensures Sum(m, f) == f(m[k]) + Sum(m - {k}, f)
    decreases m.Keys
  {
    var j :| j in m && Sum(m, f) == f(m[j]) + Sum(m - {j}, f);
    if j != k {
      SumAny(m - {j}, f, k);
      SumAny(m - {k}, f, j);
      assert m - {j} - {k} == m - {k} - {j};
    }
  }

  lemma SumPut<V>(m: map<string, V>, f: V -> nat, k: string, x: V)
    ensures Sum(m[k := x], f) == Sum(m, f) - (if k in m then f(m[k]) else 0) + f(x)
  {
    SumAny(m[k := x], f, k);
    assert m[k := x] - {k} == m - {k};
    if k in m {
      SumAny(m, f, k);
    } else {
      assert m - {k} == m;
    }
  }

  function CellCount(c: Cell): nat { c.count }
  ghost function QuotasCount(m: Quotas): nat { Sum(m, CellCount) }
  ghost function VersionsCount(m: Versions): nat { Sum(m, (x: Quotas) => QuotasCount(x)) }
  ghost function BrowsersCount(m: Browsers): nat { Sum(m, (x: Versions) => VersionsCount(x)) }

  /** m' is m with the session appended to its own cell and counted there. */
  ghost predicate Added(m: Browsers, id: string, s: Session, m': Browsers) {
    forall b, v, q :: At(m', b, v, q) ==
      var c := At(m, b, v, q);
      if s.Belongs(b, v, q) then Cell(c.count + 1, c.list + [s.Report(id)]) else c
  }

  /** m with the cell of b, v and q set to c, and the maps on the way to it made if missing. */
  function PutCell(m: Browsers, b: string, v: string, q: string, c: Cell): Browsers {
    var versions := if b in m then m[b] else map[];
    var quotas := if v in versions then versions[v] else map[];
    m[b := versions[v := quotas[q := c]]]
  }

  lemma PutAt(m: Browsers, b: string, v: string, q: string, c: Cell)
    ensures forall b', v', q' ::
              At(PutCell(m, b, v, q, c), b', v', q') == if b' == b && v' == v && q' == q then c else At(m, b', v', q')
  {
  }

  lemma PutConfigured(config: map<string, set<string>>, m: Browsers, b: string, v: string, q: string, c: Cell)
    requires Configured(config, m)
    ensures Configured(config, PutCell(m, b, v, q, c))
  {
  }

  lemma PutCount(m: Browsers, b: string, v: string, q: string, c: Cell)
    ensures BrowsersCount(PutCell(m, b, v, q, c)) == BrowsersCount(m) - At(m, b, v, q).count + c.count
  {
    var versions := if b in m then m[b] else map[];
    var quotas := if v in versions then versions[v] else map[];
    SumPut(quotas, CellCount, q, c);
    SumPut(versions, (x: Quotas) => QuotasCount(x), v, quotas[q := c]);
    SumPut(m, (x: Versions) => VersionsCount(x), b, versions[v := quotas[q := c]]);
  }

  ghost predicate Configured(config: map<string, set<string>>, m: Browsers) {
    forall b | b in config :: b in m && forall v | v in config[b] :: v in m[b]
  }

  lemma {:induction false} ZeroSum<V>(m: map<string, V>, f: V -> nat)
    requires forall k | k in m :: f(m[k]) == 0
    ensures Sum(m, f) == 0
    decreases m.Keys
  {
    if m != map[] {
      var k :| k in m;
      SumAny(m, f, k);
      ZeroSum(m - {k}, f);
    }
  }

  /** order visits every session once. */
  ghost predicate Visits(order: seq<string>, sessions: map<string, Session>) {
    && (forall id | id in order :: id in sessions) && (forall id | id in sessions :: id in order)
    && (forall i, j | 0 <= i < j < |order| :: order[i] != order[j])
  }

  /** Every cell lists exactly the sessions among ids that belong to it, in order, and counts them. */
  ghost predicate Reports(m: Browsers, sessions: map<string, Session>, ids: seq<string>)
    requires forall id | id in ids :: id in sessions
  {
    forall b, v, q :: At(m, b, v, q).list == Listed(sessions, ids, b, v, q) && At(m, b, v, q).count == |At(m, b, v, q).list|
  }

  lemma ReportsNext(m: Browsers, sessions: map<string, Session>, ids: seq<string>, id: string, m': Browsers)
    requires forall i | i in ids + [id] :: i in sessions
    requires id in sessions && Reports(m, sessions, ids)
    requires Added(m, id, sessions[id], m')
    ensures Reports(m', sessions, ids + [id])
  {
    assert (ids + [id])[..|ids|] == ids;
  }

  lemma BuiltNext(config: map<string, set<string>>, sessions: map<string, Session>, ids: seq<string>, id: string,
                  used: nat, m: Browsers)
    requires Built(config, sessions, ids, used, m) && id in sessions
    ensures var s := sessions[id];
            var cell := At(m, s.BrowserName(), s.version, s.quota);
            Built(config, sessions, ids + [id], used + 1,
                  PutCell(m, s.BrowserName(), s.version, s.quota, Cell(cell.count + 1, cell.list + [s.Report(id)])))
  {
    var s := sessions[id];
    var b, v, q := s.BrowserName(), s.version, s.quota;
    var counted := Cell(At(m, b, v, q).count + 1, At(m, b, v, q).list + [s.Report(id)]);
    PutCount(m, b, v, q, counted);
    PutConfigured(config, m, b, v, q, counted);
    PutAt(m, b, v, q, counted);
    ReportsNext(m, sessions, ids, id, PutCell(m, b, v, q, counted));
  }

  /** The report while it is built. */
  class Usage {
    ghost const config: map<string, set<string>>
    ghost const sessions: map<string, Session>
    ghost var seen: seq<string>
    var used: nat
    var browsers: Browsers

    ghost predicate Valid()
      reads this
    {
      Built(config, sessions, seen, used, browsers)
    }

    /** Every configured browser and version, with no sessions. */
    constructor (config: map<string, set<string>>, ghost sessions: map<string, Session>)
      ensures Valid() && this.config == config && this.sessions == sessions && seen == []
    {
      this.config, this.sessions, seen := config, sessions, [];
      used := 0;
      browsers := map b | b in config :: map v | v in config[b] :: map[];
      new;
      forall b | b in browsers ensures VersionsCount(browsers[b]) == 0 {
        ZeroSum(browsers[b], (x: Quotas) => QuotasCount(x));
      }
      ZeroSum(browsers, (x: Versions) => VersionsCount(x));
    }

    /** The callback for one session: it makes the maps that are missing on the way to its cell. */
    method Add(id: string, s: Session)
      requires Valid() && id in sessions && sessions[id] == s
      modifies this
      ensures Valid() && seen == old(seen) + [id] && used == old(used) + 1
    {
      used := used + 1;
      var b, v, q := s.BrowserName(), s.version, s.quota;
      var versions := if b in browsers then browsers[b] else map[];
      var quotas := if v in versions then versions[v] else map[];
      var cell := if q in quotas then quotas[q] else EMPTY;
      var counted := Cell(cell.count + 1, cell.list + [s.Report(id)]);
      browsers := browsers[b := versions[v := quotas[q := counted]]];
      seen := seen + [id];
      BuiltNext(config, sessions, old(seen), id, old(used), old(browsers));
    }
  }

  /** The report on the sessions in ids: complete, and with every count right. */
  ghost predicate Built(config: map<string, set<string>>, sessions: map<string, Session>, ids: seq<string>,
                        used: nat, m: Browsers)
  {
    && Configured(config, m)
    && used == |ids| == BrowsersCount(m)
    && (forall id | id in ids :: id in sessions) && Reports(m, sessions, ids)
  }

  /**
   * Whatever the order: used is the number of sessions and the sum of all counts, each
   * count is the length of its list, each list holds exactly its cell's sessions, and every
   * configured browser and version is there.
   */
  method State(config: map<string, set<string>>, sessions: map<string, Session>, order: seq<string>)
    returns (used: nat, browsers: Browsers)
    requires Visits(order, sessions)
    ensures used == |sessions| == BrowsersCount(browsers)
    ensures Reports(browsers, sessions, order)
    ensures Configured(config, browsers)
  {
    var usage := new Usage(config, sessions);
    for i := 0 to |order|
      invariant usage.Valid() && usage.config == config && usage.sessions == sessions && usage.seen == order[..i]
    {
      assert order[..i + 1] == order[..i] + [order[i]];
      usage.Add(order[i], sessions[order[i]]);
    }
    assert order[..|order|] == order;
    VisitsAll(order, sessions);
    return usage.used, usage.browsers;
  }

  lemma VisitsAll(order: seq<string>, sessions: map<string, Session>)
    requires Visits(order, sessions)
    ensures |order| == |sessions|
  {
    DistinctSize(order);
    assert sessions.Keys == set id | id in order;
  }

  lemma {:induction false} DistinctSize(order: seq<string>)
    requires forall i, j | 0 <= i < j < |order| :: order[i] != order[j]
    ensures |set id | id in order| == |order|
  {
    if order != [] {
      var n := |order| - 1;
      DistinctSize(order[..n]);
      assert (set id | id in order) == (set id | id in order[..n]) + {order[n]};
    }
  }

  /** A session is listed in exactly one cell: the one of its browser name, version and quota. */
  lemma {:induction false} ListedOnce(sessions: map<string, Session>, order: seq<string>, id: string, b: string, v: string, q: string)
    requires forall i | i in order :: i in sessions
    requires id in order
    ensures sessions[id].Report(id) in Listed(sessions, order, b, v, q) <==> sessions[id].Belongs(b, v, q)
    ensures forall e | e in Listed(sessions, order, b, v, q) ::
              e.id in order && var s := sessions[e.id];
              s.BrowserName() == b && s.version == v && s.quota == q
              && e.container == s.containerId && e.screen == s.screen && (e.vnc <==> s.vnc != "")
  {
    var before, last := order[..|order| - 1], order[|order| - 1];
    ListedSound(sessions, before, b, v, q);
    if id in before {
      ListedOnce(sessions, before, id, b, v, q);
    }
  }

  lemma {:induction false} ListedSound(sessions: map<string, Session>, order: seq<string>, b: string, v: string, q: string)
    requires forall i | i in order :: i in sessions
    ensures forall e | e in Listed(sessions, order, b, v, q) ::
              e.id in order && sessions[e.id].Belongs(b, v, q) && e == sessions[e.id].Report(e.id)
  {
    if order != [] {
      ListedSound(sessions, order[..|order| - 1], b, v, q);
    }
  }
}
