/**
 * The idle timers of sessions. A timer is a goroutine of onTimeout that waits for its
 * deadline or for its cancel channel to be closed; it is named by its place in the order
 * of arming. Time is discrete. Each block that closes the old channel and arms a new
 * timer is one step. A DELETE is two: sessions.Get, and then, under the session's lock,
 * the close of its channel, sessions.Remove and queue.Release. Nothing looks at the map
 * again in between.
 */
module IdleTimers {
  import opened Wrappers

  datatype Status = Waiting | Quit | Fired(at: nat)

  /** entry: how long the log of uses was when the timer was armed. */
  datatype Timer = Timer(owner: nat, armed: nat, timeout: nat, entry: nat, closed: Option<nat>, status: Status) {
    function Deadline(): nat { armed + timeout }

    /** Neither its deadline nor its channel has woken the goroutine. */
    predicate Armed() { status.Waiting? && closed.None? }

    /** It may fire, now or later: it is armed, or its channel was closed only after its deadline. */
    predicate MayFire() { status.Waiting? && (closed.Some? ==> Deadline() <= closed.value) }
  }

  /** A session object: the id create gave it, its Timeout, the timer TimeoutCh belongs to, and whether it was put. */
  datatype Session = Session(id: string, timeout: nat, timeoutCh: nat, put: bool)

  /** A request that used session owner. keeps: its creation or a touch, and not its DELETE. */
  datatype Use = Use(owner: nat, at: nat, keeps: bool)

  /** A DELETE between sessions.Get, which returned owner, and the session's lock. sender: the timer that sent it. */
  datatype Found = Found(id: string, owner: nat, sender: Option<nat>)

  /** closes and uses are logs; overwritten counts Puts over a live id, surplus Removes that removed nothing. */
  datatype Past = Past(closes: seq<nat>, uses: seq<Use>, releases: nat, overwritten: nat, surplus: nat)

  /** sessions maps ids to objects; sent holds the timers whose DELETE has not yet arrived. */
  datatype State = State(now: nat, timers: seq<Timer>, objects: seq<Session>, sessions: map<string, nat>,
                         sent: set<nat>, found: multiset<Found>, past: Past)

  datatype Event =
    | Tick
    | Open(id: string, timeout: nat) // create builds the session object and arms its timer
    | Put(o: nat)                    // sessions.Put
    | Touch(o: nat)                  // a request or a ticker that holds the object re-arms
    | Delete(id: string)             // a client's DELETE /session/<id> passes Get, or finds nothing
    | Serve(i: nat)                  // so does the DELETE that timer i sent
    | End(f: Found)                  // a DELETE past Get takes the lock and removes the session
    | Fire(i: nat)                   // the deadline wakes timer i
    | Leave(i: nat)                  // the closed channel wakes timer i

  const INIT := State(0, [], [], map[], {}, multiset{}, Past([], [], 0, 0, 0))

  /** onTimeout for object o: the new timer, and TimeoutCh pointing to it. */
  function Arm(s: State, o: nat): State
    requires o < |s.objects|
  {
    var x := s.objects[o];
    s.(timers := s.timers + [Timer(o, s.now, x.timeout, |s.past.uses|, None, Waiting)],
       objects := s.objects[o := x.(timeoutCh := |s.timers|)])
  }

  /** The select that closes TimeoutCh unless it is closed already. */
  function CloseOnce(s: State, o: nat): State
    requires HasTimer(s, o)
  {
    var i := s.objects[o].timeoutCh;
    if s.timers[i].closed.Some? then s
    else s.(timers := s.timers[i := s.timers[i].(closed := Some(s.now))],
            past := s.past.(closes := s.past.closes + [i]))
  }

  function Record(s: State, o: nat, keeps: bool): State {
    s.(past := s.past.(uses := s.past.uses + [Use(o, s.now, keeps)]))
  }

  predicate HasTimer(s: State, o: nat) {
    o < |s.objects| && s.objects[o].timeoutCh < |s.timers|
  }

  /** The first of deadline and close wins; a close at or after the deadline may lose. */
  predicate CanFire(s: State, i: nat)
    requires i < |s.timers|
  {
    s.timers[i].MayFire() && s.timers[i].Deadline() <= s.now
  }

  /** sessions.Get for a DELETE. */
  function Get(s: State, id: string, sender: Option<nat>): State {
    if id in s.sessions then s.(found := s.found + multiset{Found(id, s.sessions[id], sender)}) else s
  }

  /** sessions.Remove and queue.Release. */
  function Remove(s: State, f: Found): State {
    s.(sessions := s.sessions - {f.id}, found := s.found - multiset{f},
       past := s.past.(releases := s.past.releases + 1,
                       surplus := s.past.surplus + if f.id in s.sessions then 0 else 1))
  }

  function PutSession(s: State, o: nat): State
    requires o < |s.objects|
  {
    var id := s.objects[o].id;
    s.(sessions := s.sessions[id := o], objects := s.objects[o := s.objects[o].(put := true)],
       past := s.past.(overwritten := s.past.overwritten + if id in s.sessions then 1 else 0))
  }

  function Next(s: State, e: Event): Option<State> {
    match e
    case Tick => Some(s.(now := s.now + 1))
    case Open(id, timeout) =>
      Some(Arm(Record(s.(objects := s.objects + [Session(id, timeout, 0, false)]), |s.objects|, true), |s.objects|))
    case Put(o) => if o < |s.objects| && !s.objects[o].put then Some(PutSession(s, o)) else None
    case Touch(o) => if HasTimer(s, o) then Some(Arm(Record(CloseOnce(s, o), o, true), o)) else None
    case Delete(id) => Some(Get(s, id, None))
    case Serve(i) =>
      if i in s.sent && i < |s.timers| && s.timers[i].owner < |s.objects|
      then Some(Get(s.(sent := s.sent - {i}), s.objects[s.timers[i].owner].id, Some(i))) else None
    case End(f) =>
      if f in s.found && HasTimer(s, f.owner)
      then Some(Remove(Record(CloseOnce(s, f.owner), f.owner, false), f)) else None
    case Fire(i) =>
      if i < |s.timers| && CanFire(s, i)
      then Some(s.(timers := s.timers[i := s.timers[i].(status := Fired(s.now))], sent := s.sent + {i})) else None
    case Leave(i) =>
      if i < |s.timers| && s.timers[i].status.Waiting? && s.timers[i].closed.Some?
      then Some(s.(timers := s.timers[i := s.timers[i].(status := Quit)])) else None
  }

  function Run(s: State, es: seq<Event>): Option<State> {
    if es == [] then Some(s)
    else match Run(s, es[..|es| - 1])
      case None => None
      case Some(m) => Next(m, es[|es| - 1])
  }

  // The invariant, part by part.

  /** TimeoutCh is the session's own timer, and its only one that may be open. */
  ghost predicate Current(ts: seq<Timer>, os: seq<Session>) {
    && (forall o | 0 <= o < |os| :: os[o].timeoutCh < |ts| && ts[os[o].timeoutCh].owner == o)
    && (forall i | 0 <= i < |ts| :: ts[i].owner < |os| && (ts[i].closed.None? ==> os[ts[i].owner].timeoutCh == i))
  }

  ghost predicate Mapped(os: seq<Session>, sessions: map<string, nat>) {
    forall id | id in sessions :: sessions[id] < |os| && os[sessions[id]].id == id
  }

  /** The close of a timer's channel lies between its arming and now. */
  predicate TimelyOne(now: nat, t: Timer) {
    && t.armed <= now
    && (t.closed.Some? ==> t.armed <= t.closed.value <= now)
    && (t.status.Quit? ==> t.closed.Some?)
    && (t.status.Fired? ==> t.Deadline() <= t.status.at <= now && (t.closed.Some? ==> t.Deadline() <= t.closed.value))
  }

  ghost predicate Timely(now: nat, ts: seq<Timer>) {
    forall i | 0 <= i < |ts| :: TimelyOne(now, ts[i])
  }

  /** closes lists closed channels, each once. */
  ghost predicate ClosedOnce(ts: seq<Timer>, closes: seq<nat>) {
    && (forall k | 0 <= k < |closes| :: closes[k] < |ts| && ts[closes[k]].closed.Some?)
    && (forall j, k | 0 <= j < k < |closes| :: closes[j] != closes[k])
  }

  /** Every use of a session after a timer was armed finds that timer's channel closed, or closes it. */
  ghost predicate UsesClose(ts: seq<Timer>, uses: seq<Use>) {
    && (forall i | 0 <= i < |ts| :: ts[i].entry <= |uses|)
    && (forall i, k | 0 <= i < |ts| && ts[i].entry <= k < |uses| && uses[k].owner == ts[i].owner ::
          ts[i].closed.Some? && ts[i].closed.value <= uses[k].at)
  }

  ghost predicate HasFired(ts: seq<Timer>, i: nat) { i < |ts| && ts[i].status.Fired? }

  /** DELETEs on their way are of timers that fired, and those past Get hold a session of their id. */
  ghost predicate Requests(ts: seq<Timer>, os: seq<Session>, sent: set<nat>, found: multiset<Found>) {
    && (forall i | i in sent :: HasFired(ts, i))
    && (forall f | f in found :: f.owner < |os| && os[f.owner].id == f.id && (f.sender.Some? ==> HasFired(ts, f.sender.value)))
  }

  ghost predicate Inv(s: State) {
    && Current(s.timers, s.objects) && Mapped(s.objects, s.sessions) && Timely(s.now, s.timers)
    && ClosedOnce(s.timers, s.past.closes) && UsesClose(s.timers, s.past.uses)
    && Requests(s.timers, s.objects, s.sent, s.found)
  }

  /** All timers of object o are closed. */
  ghost predicate AllClosed(ts: seq<Timer>, o: nat) {
    forall i | 0 <= i < |ts| && ts[i].owner == o :: ts[i].closed.Some?
  }

  /** Objects of the same ids and channels. */
  ghost predicate SameObjects(os: seq<Session>, os': seq<Session>) {
    |os'| == |os| && forall o | 0 <= o < |os| :: os'[o].id == os[o].id && os'[o].timeoutCh == os[o].timeoutCh
  }

  // How the timers change.

  lemma CloseKeeps(now: nat, ts: seq<Timer>, os: seq<Session>, i: nat)
    requires i < |ts| && ts[i].closed.None? && Current(ts, os) && Timely(now, ts)
    ensures var ts' := ts[i := ts[i].(closed := Some(now))];
            Current(ts', os) && Timely(now, ts') && (os[ts[i].owner].timeoutCh == i)
  {
  }

  lemma CloseKeepsLogs(now: nat, ts: seq<Timer>, i: nat, closes: seq<nat>, uses: seq<Use>)
    requires i < |ts| && ts[i].closed.None? && ClosedOnce(ts, closes) && UsesClose(ts, uses)
    ensures var ts' := ts[i := ts[i].(closed := Some(now))];
            ClosedOnce(ts', closes + [i]) && UsesClose(ts', uses)
  {
  }

  lemma CloseOnceKeeps(s: State, o: nat)
    requires Inv(s) && o < |s.objects|
    ensures HasTimer(s, o) && Inv(CloseOnce(s, o))
    ensures CloseOnce(s, o).objects == s.objects && AllClosed(CloseOnce(s, o).timers, o)
  {
    var i := s.objects[o].timeoutCh;
    if s.timers[i].closed.None? {
      CloseKeeps(s.now, s.timers, s.objects, i);
      CloseKeepsLogs(s.now, s.timers, i, s.past.closes, s.past.uses);
    }
  }

  lemma UseKeeps(now: nat, ts: seq<Timer>, uses: seq<Use>, u: Use)
    requires UsesClose(ts, uses) && AllClosed(ts, u.owner) && Timely(now, ts) && u.at == now
    ensures UsesClose(ts, uses + [u])
  {
  }

  lemma RecordKeeps(s: State, o: nat, keeps: bool)
    requires Inv(s) && AllClosed(s.timers, o)
    ensures Inv(Record(s, o, keeps))
  {
    UseKeeps(s.now, s.timers, s.past.uses, Use(o, s.now, keeps));
  }

  /** os': the objects, and perhaps a new one for the timer to belong to. */
  lemma NewKeeps(now: nat, ts: seq<Timer>, os: seq<Session>, os': seq<Session>, t: Timer)
    requires Current(ts, os) && Timely(now, ts) && AllClosed(ts, t.owner) && TimelyOne(now, t)
    requires |os| <= |os'| && |os'| == (if t.owner < |os| then |os| else t.owner + 1) && t.owner <= |os|
    requires os'[t.owner].timeoutCh == |ts| && forall o | 0 <= o < |os| && o != t.owner :: os'[o] == os[o]
    ensures Current(ts + [t], os') && Timely(now, ts + [t])
  {
    var ts' := ts + [t];
    assert forall i | 0 <= i < |ts| :: ts'[i] == ts[i];
  }

  lemma NewKeepsLogs(ts: seq<Timer>, closes: seq<nat>, uses: seq<Use>, t: Timer)
    requires ClosedOnce(ts, closes) && UsesClose(ts, uses) && t.entry == |uses|
    ensures ClosedOnce(ts + [t], closes) && UsesClose(ts + [t], uses)
  {
    var ts' := ts + [t];
    assert forall i | 0 <= i < |ts| :: ts'[i] == ts[i];
  }

  lemma NewKeepsRequests(ts: seq<Timer>, os: seq<Session>, os': seq<Session>, t: Timer,
                                            sent: set<nat>, found: multiset<Found>)
    requires Requests(ts, os, sent, found) && |os| <= |os'| && forall o | 0 <= o < |os| :: os'[o].id == os[o].id
    ensures Requests(ts + [t], os', sent, found)
  {
    assert forall i :: HasFired(ts, i) ==> HasFired(ts + [t], i);
  }

  lemma ArmKeeps(s: State, o: nat)
    requires Inv(s) && o < |s.objects| && AllClosed(s.timers, o)
    ensures Inv(Arm(s, o))
  {
    var n := Arm(s, o);
    var t := n.timers[|s.timers|];
    NewKeeps(s.now, s.timers, s.objects, n.objects, t);
    NewKeepsLogs(s.timers, s.past.closes, s.past.uses, t);
    NewKeepsRequests(s.timers, s.objects, n.objects, t, s.sent, s.found);
  }

  /** A new object has no timers before its own. */
  lemma OpenKeeps(s: State, id: string, timeout: nat)
    requires Inv(s)
    ensures Inv(Next(s, Open(id, timeout)).value)
  {
    var o := |s.objects|;
    assert AllClosed(s.timers, o);
    RecordKeeps(s, o, true);
    var r := Record(s, o, true);
    var n := Next(s, Open(id, timeout)).value;
    var t := Timer(o, s.now, timeout, |r.past.uses|, None, Waiting);
    assert n.timers == s.timers + [t];
    NewKeeps(s.now, s.timers, s.objects, n.objects, t);
    NewKeepsLogs(s.timers, s.past.closes, r.past.uses, t);
    NewKeepsRequests(s.timers, s.objects, n.objects, t, s.sent, s.found);
  }

  lemma PutKeeps(s: State, o: nat)
    requires Inv(s) && Next(s, Put(o)).Some?
    ensures Inv(Next(s, Put(o)).value)
  {
    var n := Next(s, Put(o)).value;
    SameKeeps(s.timers, s.objects, n.objects, s.sent, s.found);
  }

  lemma SameKeeps(ts: seq<Timer>, os: seq<Session>, os': seq<Session>, sent: set<nat>, found: multiset<Found>)
    requires Current(ts, os) && Requests(ts, os, sent, found) && SameObjects(os, os')
    ensures Current(ts, os') && Requests(ts, os', sent, found)
  {
  }

  /** A timer that its deadline or its channel wakes. */
  lemma WakeKeeps(now: nat, ts: seq<Timer>, os: seq<Session>, i: nat, status: Status)
    requires Current(ts, os) && Timely(now, ts) && i < |ts| && ts[i].status.Waiting?
    requires TimelyOne(now, ts[i].(status := status))
    ensures var ts' := ts[i := ts[i].(status := status)]; Current(ts', os) && Timely(now, ts')
  {
  }

  lemma WakeKeepsLogs(ts: seq<Timer>, i: nat, status: Status, closes: seq<nat>, uses: seq<Use>)
    requires i < |ts| && ClosedOnce(ts, closes) && UsesClose(ts, uses)
    ensures var ts' := ts[i := ts[i].(status := status)]; ClosedOnce(ts', closes) && UsesClose(ts', uses)
  {
  }

  lemma WakeKeepsRequests(ts: seq<Timer>, os: seq<Session>, i: nat, status: Status, sent: set<nat>, found: multiset<Found>)
    requires i < |ts| && ts[i].status.Waiting? && Requests(ts, os, sent, found)
    ensures var ts' := ts[i := ts[i].(status := status)];
            Requests(ts', os, if status.Fired? then sent + {i} else sent, found)
  {
    var ts' := ts[i := ts[i].(status := status)];
    assert forall j :: HasFired(ts, j) ==> HasFired(ts', j);
  }

  lemma FireKeeps(s: State, i: nat)
    requires Inv(s) && Next(s, Fire(i)).Some?
    ensures Inv(Next(s, Fire(i)).value)
  {
    WakeKeeps(s.now, s.timers, s.objects, i, Fired(s.now));
    WakeKeepsLogs(s.timers, i, Fired(s.now), s.past.closes, s.past.uses);
    WakeKeepsRequests(s.timers, s.objects, i, Fired(s.now), s.sent, s.found);
  }

  lemma LeaveKeeps(s: State, i: nat)
    requires Inv(s) && Next(s, Leave(i)).Some?
    ensures Inv(Next(s, Leave(i)).value)
  {
    WakeKeeps(s.now, s.timers, s.objects, i, Quit);
    WakeKeepsLogs(s.timers, i, Quit, s.past.closes, s.past.uses);
    WakeKeepsRequests(s.timers, s.objects, i, Quit, s.sent, s.found);
  }

  lemma GetKeeps(s: State, id: string, sender: Option<nat>)
    requires Inv(s) && (sender.Some? ==> HasFired(s.timers, sender.value))
    ensures Inv(Get(s, id, sender))
  {
  }

  lemma RemoveKeeps(s: State, f: Found)
    requires Inv(s)
    ensures Inv(Remove(s, f))
  {
  }

  lemma EndKeeps(s: State, f: Found)
    requires Inv(s) && f in s.found
    ensures Next(s, End(f)).Some? && Inv(Next(s, End(f)).value)
  {
    var c := CloseOnce(s, f.owner);
    CloseOnceKeeps(s, f.owner);
    RecordKeeps(c, f.owner, false);
    RemoveKeeps(Record(c, f.owner, false), f);
  }

  lemma TouchKeeps(s: State, o: nat)
    requires Inv(s) && o < |s.objects|
    ensures Next(s, Touch(o)).Some? && Inv(Next(s, Touch(o)).value)
  {
    CloseOnceKeeps(s, o);
    RecordKeeps(CloseOnce(s, o), o, true);
    ArmKeeps(Record(CloseOnce(s, o), o, true), o);
  }

  lemma InvStep(s: State, e: Event)
    requires Inv(s) && Next(s, e).Some?
    ensures Inv(Next(s, e).value)
  {
    match e
    case Tick =>
    case Open(id, timeout) => OpenKeeps(s, id, timeout);
    case Put(o) => PutKeeps(s, o);
    case Touch(o) => TouchKeeps(s, o);
    case Delete(id) => GetKeeps(s, id, None);
    case Serve(i) => GetKeeps(s.(sent := s.sent - {i}), s.objects[s.timers[i].owner].id, Some(i));
    case End(f) => EndKeeps(s, f);
    case Fire(i) => FireKeeps(s, i);
    case Leave(i) => LeaveKeeps(s, i);
  }

  lemma {:induction false} InvFrom(s: State, es: seq<Event>)
    requires Inv(s) && Run(s, es).Some?
    ensures Inv(Run(s, es).value)
  {
    if es != [] {
      InvFrom(s, es[..|es| - 1]);
      InvStep(Run(s, es[..|es| - 1]).value, es[|es| - 1]);
    }
  }

  lemma InvRun(es: seq<Event>)
    requires Run(INIT, es).Some?
    ensures Inv(Run(INIT, es).value)
  {
    InvFrom(INIT, es);
  }

  // The discipline, over all runs.

  /**
   * At any time a session has at most one armed timer, the one TimeoutCh refers to, and no
   * channel has been closed twice.
   */
  lemma {:induction false} OneArmedTimer(es: seq<Event>)
    requires Run(INIT, es).Some?
    ensures var s := Run(INIT, es).value;
            && (forall i | 0 <= i < |s.timers| && s.timers[i].Armed() ::
                  s.timers[i].owner < |s.objects| && s.objects[s.timers[i].owner].timeoutCh == i)
            && (forall j, k | 0 <= j < k < |s.past.closes| :: s.past.closes[j] != s.past.closes[k])
  {
    InvRun(es);
  }
}
