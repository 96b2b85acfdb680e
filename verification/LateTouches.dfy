/**
 * When a timer's DELETE removes a session that is in use: a request may re-arm the session
 * after its timer has fired, and nothing calls the DELETE back.
 */
module LateTouches {
  import opened Wrappers
  import opened IdleTimers
  import opened TimerTheorems
  import H = TimerHistory

  /** Each timer was armed by a use that keeps its session, the last one logged then. */
  ghost predicate Stamped(ts: seq<Timer>, uses: seq<Use>) {
    forall i | 0 <= i < |ts| ::
      1 <= ts[i].entry <= |uses| && uses[ts[i].entry - 1] == Use(ts[i].owner, ts[i].armed, true)
  }

  /** The current timer of a session is its last, has its timeout, and was armed after all uses that keep it. */
  ghost predicate Latest(ts: seq<Timer>, os: seq<Session>, uses: seq<Use>) {
    && (forall i | 0 <= i < |ts| :: ts[i].owner < |os| && i <= os[ts[i].owner].timeoutCh && ts[i].timeout == os[ts[i].owner].timeout)
    && (forall o | 0 <= o < |os| :: os[o].timeoutCh < |ts| && ts[os[o].timeoutCh].owner == o)
    && (forall k | 0 <= k < |uses| && uses[k].keeps ::
          uses[k].owner < |os| && uses[k].at <= ts[os[uses[k].owner].timeoutCh].armed)
  }

  /** A timer was closed before the next one of its session was armed. */
  ghost predicate Ordered(ts: seq<Timer>) {
    forall i, j | 0 <= i < j < |ts| && ts[i].owner == ts[j].owner ::
      ts[i].closed.Some? && ts[i].closed.value <= ts[j].armed
  }

  ghost predicate Dated(ts: seq<Timer>, os: seq<Session>, uses: seq<Use>) {
    Stamped(ts, uses) && Latest(ts, os, uses) && Ordered(ts)
  }

  /** Timers that wake, or whose open channels are closed. */
  ghost predicate SameStamps(ts: seq<Timer>, ts': seq<Timer>) {
    |ts'| == |ts| && forall i | 0 <= i < |ts| ::
      && ts'[i].(closed := ts[i].closed, status := ts[i].status) == ts[i]
      && (ts[i].closed.Some? ==> ts'[i].closed == ts[i].closed)
  }

  lemma SameStampsDated(ts: seq<Timer>, ts': seq<Timer>, os: seq<Session>, uses: seq<Use>)
    requires Dated(ts, os, uses) && SameStamps(ts, ts')
    ensures Dated(ts', os, uses)
  {
    assert forall i | 0 <= i < |ts| :: ts'[i].owner == ts[i].owner && ts'[i].armed == ts[i].armed
                                    && ts'[i].timeout == ts[i].timeout && ts'[i].entry == ts[i].entry;
  }

  /** A DELETE is logged. */
  lemma DeleteDated(ts: seq<Timer>, os: seq<Session>, uses: seq<Use>, u: Use)
    requires Dated(ts, os, uses) && !u.keeps
    ensures Dated(ts, os, uses + [u])
  {
    assert forall i | 0 <= i < |ts| :: (uses + [u])[ts[i].entry - 1] == uses[ts[i].entry - 1];
  }

  lemma PutDated(ts: seq<Timer>, os: seq<Session>, os': seq<Session>, uses: seq<Use>)
    requires Dated(ts, os, uses) && |os'| == |os|
    requires forall o | 0 <= o < |os| :: os'[o].timeoutCh == os[o].timeoutCh && os'[o].timeout == os[o].timeout
    ensures Dated(ts, os', uses)
  {
  }

  // A use that keeps a session: all of its timers are closed, and a new one is armed.

  lemma KeepStamped(ts: seq<Timer>, uses: seq<Use>, t: Timer)
    requires Stamped(ts, uses) && t.entry == |uses| + 1
    ensures Stamped(ts + [t], uses + [Use(t.owner, t.armed, true)])
  {
    var ts', uses' := ts + [t], uses + [Use(t.owner, t.armed, true)];
    assert forall i | 0 <= i < |ts| :: ts'[i] == ts[i] && uses'[ts[i].entry - 1] == uses[ts[i].entry - 1];
  }

  lemma KeepOrdered(ts: seq<Timer>, t: Timer)
    requires Ordered(ts) && AllClosed(ts, t.owner) && Timely(t.armed, ts)
    ensures Ordered(ts + [t])
  {
    var ts' := ts + [t];
    assert forall i | 0 <= i < |ts| :: ts'[i] == ts[i] && TimelyOne(t.armed, ts[i]);
  }

  /** os': the objects, perhaps with a new one, the owner of the new timer. */
  ghost predicate Rearmed(os: seq<Session>, os': seq<Session>, o: nat, i: nat, timeout: nat) {
    && o < |os'| && os'[o].timeoutCh == i && os'[o].timeout == timeout
    && |os| <= |os'| <= |os| + 1 && (|os| < |os'| ==> o == |os|)
    && forall x | 0 <= x < |os| :: os'[x].timeout == os[x].timeout && (x != o ==> os'[x].timeoutCh == os[x].timeoutCh)
  }

  lemma KeepLatest(ts: seq<Timer>, os: seq<Session>, os': seq<Session>, uses: seq<Use>, t: Timer)
    requires Latest(ts, os, uses) && Timely(t.armed, ts) && Rearmed(os, os', t.owner, |ts|, t.timeout)
    ensures Latest(ts + [t], os', uses + [Use(t.owner, t.armed, true)])
  {
    var ts', uses' := ts + [t], uses + [Use(t.owner, t.armed, true)];
    assert forall i | 0 <= i < |ts| :: ts'[i] == ts[i] && TimelyOne(t.armed, ts[i]);
    assert forall k | 0 <= k < |uses| :: uses'[k] == uses[k];
  }

  lemma KeepAll(ts: seq<Timer>, os: seq<Session>, os': seq<Session>, uses: seq<Use>, t: Timer)
    requires Dated(ts, os, uses) && AllClosed(ts, t.owner) && Timely(t.armed, ts)
    requires t.entry == |uses| + 1 && Rearmed(os, os', t.owner, |ts|, t.timeout)
    ensures Dated(ts + [t], os', uses + [Use(t.owner, t.armed, true)])
  {
    KeepStamped(ts, uses, t);
    KeepOrdered(ts, t);
    KeepLatest(ts, os, os', uses, t);
  }

  ghost predicate StateDated(s: State) { Dated(s.timers, s.objects, s.past.uses) }

  lemma CloseDated(s: State, o: nat)
    requires HasTimer(s, o) && StateDated(s)
    ensures StateDated(CloseOnce(s, o))
  {
    SameStampsDated(s.timers, CloseOnce(s, o).timers, s.objects, s.past.uses);
  }

  lemma TouchDated(s: State, o: nat)
    requires Inv(s) && StateDated(s) && o < |s.objects|
    ensures Next(s, Touch(o)).Some? && StateDated(Next(s, Touch(o)).value)
  {
    CloseOnceKeeps(s, o);
    CloseDated(s, o);
    var c := CloseOnce(s, o);
    var n := Next(s, Touch(o)).value;
    KeepAll(c.timers, c.objects, n.objects, c.past.uses, n.timers[|c.timers|]);
  }

  lemma OpenDated(s: State, id: string, timeout: nat)
    requires Inv(s) && StateDated(s)
    ensures StateDated(Next(s, Open(id, timeout)).value)
  {
    var n := Next(s, Open(id, timeout)).value;
    assert AllClosed(s.timers, |s.objects|);
    KeepAll(s.timers, s.objects, n.objects, s.past.uses, n.timers[|s.timers|]);
  }

  lemma EndDated(s: State, f: Found)
    requires HasTimer(s, f.owner) && f in s.found && StateDated(s)
    ensures StateDated(Next(s, End(f)).value)
  {
    CloseDated(s, f.owner);
    var c := CloseOnce(s, f.owner);
    DeleteDated(c.timers, c.objects, c.past.uses, Use(f.owner, s.now, false));
  }

  lemma PutStateDated(s: State, o: nat)
    requires StateDated(s) && Next(s, Put(o)).Some?
    ensures StateDated(Next(s, Put(o)).value)
  {
    PutDated(s.timers, s.objects, Next(s, Put(o)).value.objects, s.past.uses);
  }

  lemma WakeDated(s: State, e: Event)
    requires StateDated(s) && (e.Fire? || e.Leave?) && Next(s, e).Some?
    ensures StateDated(Next(s, e).value)
  {
    SameStampsDated(s.timers, Next(s, e).value.timers, s.objects, s.past.uses);
  }

  lemma DatedStep(s: State, e: Event)
    requires Inv(s) && StateDated(s) && Next(s, e).Some?
    ensures StateDated(Next(s, e).value)
  {
    match e
    case Tick =>
    case Open(id, timeout) => OpenDated(s, id, timeout);
    case Put(o) => PutStateDated(s, o);
    case Touch(o) => TouchDated(s, o);
    case Delete(id) =>
    case Serve(i) =>
    case End(f) => EndDated(s, f);
    case Fire(i) => WakeDated(s, e);
    case Leave(i) => WakeDated(s, e);
  }

  lemma {:induction false} DatedRun(es: seq<Event>)
    requires Run(INIT, es).Some?
    ensures StateDated(Run(INIT, es).value)
  {
    if es != [] {
      DatedRun(es[..|es| - 1]);
      InvRun(es[..|es| - 1]);
      DatedStep(Run(INIT, es[..|es| - 1]).value, es[|es| - 1]);
    }
  }

  /** The run has created or touched the session less than its timeout ago. */
  ghost predicate InUse(es: seq<Event>, o: nat) {
    exists k :: H.UsesAt(es, k, o) && !es[k].End? && o < |H.Opened(es)|
                && H.Clock(es) < H.Clock(es[..k]) + H.Opened(es)[o].timeout
  }

  /** So says the log. */
  ghost predicate LoggedInUse(s: State, o: nat)
    requires o < |s.objects|
  {
    exists k :: 0 <= k < |s.past.uses| && s.past.uses[k].keeps && s.past.uses[k].owner == o
                && s.now < s.past.uses[k].at + s.objects[o].timeout
  }

  lemma InUseByTimer(s: State, o: nat)
    requires StateDated(s) && o < |s.objects|
    ensures HasTimer(s, o) && (LoggedInUse(s, o) <==> s.now < s.timers[s.objects[o].timeoutCh].Deadline())
  {
    var t := s.timers[s.objects[o].timeoutCh];
    if s.now < t.Deadline() {
      assert s.past.uses[t.entry - 1].keeps;
    }
  }

  lemma InUseIsLogged(es: seq<Event>, o: nat)
    requires Run(INIT, es).Some? && o < |Run(INIT, es).value.objects|
    ensures InUse(es, o) <==> LoggedInUse(Run(INIT, es).value, o)
  {
    H.RunTells(es);
    var s := Run(INIT, es).value;
    if k :| H.UsesAt(es, k, o) && !es[k].End? && H.Clock(es) < H.Clock(es[..k]) + H.Opened(es)[o].timeout {
      var u := Use(o, H.Clock(es[..k]), true);
      assert H.IsUse(es, k, u);
      H.UsesAtPlaces(es, u);
    }
    if LoggedInUse(s, o) {
      var u :| u in s.past.uses && u.keeps && u.owner == o && s.now < u.at + s.objects[o].timeout;
      H.UsesAtPlaces(es, u);
      var k :| H.IsUse(es, k, u);
    }
  }

  // Whose DELETE it is: a timer names the id of its own session.

  ghost predicate Signed(ts: seq<Timer>, os: seq<Session>, found: multiset<Found>) {
    forall f | f in found && f.sender.Some? :: OfId(ts, os, f.sender.value, f.id)
  }

  lemma CloseStays(s: State, o: nat, i: nat)
    requires HasTimer(s, o) && i < |s.timers|
    ensures var c := CloseOnce(s, o);
            |c.timers| == |s.timers| && c.objects == s.objects && c.timers[i].owner == s.timers[i].owner
  {
  }

  lemma ArmStays(s: State, o: nat, i: nat, x: nat)
    requires o < |s.objects| && i < |s.timers| && x < |s.objects|
    ensures var n := Arm(s, o);
            i < |n.timers| && x < |n.objects| && n.timers[i].owner == s.timers[i].owner && n.objects[x].id == s.objects[x].id
  {
  }

  /** No event changes the owner of a timer or the id of an object. */
  lemma NamesStay(s: State, e: Event, i: nat, id: string)
    requires Next(s, e).Some? && OfId(s.timers, s.objects, i, id)
    ensures OfId(Next(s, e).value.timers, Next(s, e).value.objects, i, id)
  {
    var x := s.timers[i].owner;
    match e
    case Open(y, timeout) => ArmStays(Record(s.(objects := s.objects + [Session(y, timeout, 0, false)]), |s.objects|, true), |s.objects|, i, x);
    case Touch(o) =>
      CloseStays(s, o, i);
      ArmStays(Record(CloseOnce(s, o), o, true), o, i, x);
    case End(f) => CloseStays(s, f.owner, i);
    case _ =>
  }

  lemma SignedStep(s: State, e: Event)
    requires Signed(s.timers, s.objects, s.found) && Next(s, e).Some?
    ensures Signed(Next(s, e).value.timers, Next(s, e).value.objects, Next(s, e).value.found)
  {
    var n := Next(s, e).value;
    forall f | f in n.found && f.sender.Some? ensures OfId(n.timers, n.objects, f.sender.value, f.id) {
      if f in s.found {
        NamesStay(s, e, f.sender.value, f.id);
      }
    }
  }

  lemma {:induction false} SignedRun(es: seq<Event>)
    requires Run(INIT, es).Some?
    ensures var s := Run(INIT, es).value; Signed(s.timers, s.objects, s.found)
  {
    if es != [] {
      SignedRun(es[..|es| - 1]);
      SignedStep(Run(INIT, es[..|es| - 1]).value, es[|es| - 1]);
    }
  }

  // What a DELETE removes.

  /** The deadline of the session's current timer has come. */
  predicate Due(s: State, o: nat)
    requires HasTimer(s, o)
  {
    s.timers[s.objects[o].timeoutCh].Deadline() <= s.now
  }

  /** The DELETE takes a session out of the map that is in use: whichever is under its id by now. */
  ghost predicate EndsInUse(es: seq<Event>, f: Found)
    requires Run(INIT, es).Some?
  {
    var s := Run(INIT, es).value;
    && f.id in s.sessions && InUse(es, s.sessions[f.id])
    && Next(s, End(f)).Some? && f.id !in Next(s, End(f)).value.sessions
  }

  /** Session o was armed anew, when its timer i was due already. */
  predicate Touched(s: State, i: nat, o: nat)
    requires i < |s.timers| && HasTimer(s, o)
  {
    var c := s.objects[o].timeoutCh;
    s.timers[i].owner == o && c != i && s.timers[i].Deadline() <= s.timers[c].armed
  }

  /** Timer i belongs to another session, of the same id. */
  predicate Replaced(s: State, i: nat, o: nat)
    requires i < |s.timers| && o < |s.objects|
  {
    var x := s.timers[i].owner;
    x != o && x < |s.objects| && s.objects[x].id == s.objects[o].id
  }

  lemma EndRemoves(s: State, f: Found)
    requires Inv(s) && f in s.found
    ensures Next(s, End(f)).Some? && f.id !in Next(s, End(f)).value.sessions
  {
    CloseOnceKeeps(s, f.owner);
  }

  /** A timer that fired against the current timer of its session, which is not due. */
  lemma FiredBefore(now: nat, ts: seq<Timer>, i: nat, c: nat)
    requires Timely(now, ts) && Ordered(ts) && HasFired(ts, i) && c < |ts|
    requires ts[c].owner == ts[i].owner && i <= c && now < ts[c].Deadline()
    ensures i != c && ts[i].Deadline() <= ts[c].armed
  {
    assert TimelyOne(now, ts[i]) && TimelyOne(now, ts[c]);
  }

  /** The timer that sent a DELETE, and a session under the id that is not due. */
  lemma TouchedOrReplaced(s: State, i: nat, o: nat)
    requires Inv(s) && StateDated(s) && HasFired(s.timers, i) && HasTimer(s, o) && !Due(s, o)
    requires OfId(s.timers, s.objects, i, s.objects[o].id)
    ensures Touched(s, i, o) <==> !Replaced(s, i, o)
  {
    if s.timers[i].owner == o {
      FiredBefore(s.now, s.timers, i, s.objects[o].timeoutCh);
    }
  }

  /**
   * A DELETE past Get removes a session in use exactly if there is a session under its id, whose
   * current timer is not due. If a timer sent the DELETE, then either the session was touched
   * when that timer was due already, or another session was put under its id.
   */
  lemma RemovesInUseExactly(es: seq<Event>, f: Found)
    requires Run(INIT, es).Some? && f in Run(INIT, es).value.found
    ensures var s := Run(INIT, es).value;
            && (f.id in s.sessions ==> HasTimer(s, s.sessions[f.id]))
            && (EndsInUse(es, f) <==> f.id in s.sessions && !Due(s, s.sessions[f.id]))
    ensures var s := Run(INIT, es).value;
            EndsInUse(es, f) && f.sender.Some? ==>
              && f.sender.value < |s.timers|
              && (Touched(s, f.sender.value, s.sessions[f.id]) <==> !Replaced(s, f.sender.value, s.sessions[f.id]))
  {
    InvRun(es);
    DatedRun(es);
    SignedRun(es);
    var s := Run(INIT, es).value;
    EndRemoves(s, f);
    if f.id in s.sessions {
      var o := s.sessions[f.id];
      InUseByTimer(s, o);
      InUseIsLogged(es, o);
      if f.sender.Some? && !Due(s, o) {
        TouchedOrReplaced(s, f.sender.value, o);
      }
    }
  }

  /** A session is put, and its timer fires after one tick. */
  lemma OneDue(id: string) returns (es: seq<Event>, s: State)
    ensures Run(INIT, es) == Some(s)
    ensures s == State(1, [Timer(0, 0, 1, 1, None, Fired(1))], [Session(id, 1, 0, true)], map[id := 0], {0}, multiset{},
                       Past([], [Use(0, 0, true)], 0, 0, 0))
  {
    es, s := OnePut(id, 1);
    es, s := Then(es, s, Tick);
    es, s := Then(es, s, Fire(0));
    assert s.timers == [Timer(0, 0, 1, 1, None, Fired(1))] && s.sent == {0};
  }

  /** The session is touched: its timer fires, a request arms it anew, and then the DELETE is served. */
  lemma {:induction false} TouchedIsRemoved(id: string) returns (es: seq<Event>, s: State, f: Found)
    ensures Run(INIT, es) == Some(s) && f in s.found && f.sender.Some?
    ensures EndsInUse(es, f) && f.sender.value < |s.timers| && HasTimer(s, s.sessions[f.id])
    ensures Touched(s, f.sender.value, s.sessions[f.id])
  {
    f := Found(id, 0, Some(0));
    es, s := OneDue(id);
    es, s := Then(es, s, Touch(0));
    assert s.past.uses[1] == Use(0, 1, true) && s.now == 1 && s.objects[0].timeout == 1;
    es, s := Then(es, s, Serve(0));
    assert f in s.found && LoggedInUse(s, 0) && HasTimer(s, 0);
    InUseIsLogged(es, 0);
  }

  /** The id is used again: the DELETE passes Get, and then another session is put under its id, and removed. */
  lemma {:induction false} SuccessorIsRemoved(id: string) returns (es: seq<Event>, s: State, f: Found)
    ensures Run(INIT, es) == Some(s) && f in s.found && f.sender.Some?
    ensures EndsInUse(es, f) && f.sender.value < |s.timers| && s.sessions[f.id] < |s.objects|
    ensures Replaced(s, f.sender.value, s.sessions[f.id]) && f.owner != s.sessions[f.id]
  {
    f := Found(id, 0, Some(0));
    es, s := OneDue(id);
    es, s := Then(es, s, Serve(0));
    assert f in s.found;
    es, s := Then(es, s, Open(id, 1));
    assert s.past.uses[1] == Use(1, 1, true) && s.now == 1 && s.objects[1] == Session(id, 1, 1, false);
    es, s := Then(es, s, Put(1));
    assert f in s.found && LoggedInUse(s, 1) && HasTimer(s, 0);
    InUseIsLogged(es, 1);
  }
}
