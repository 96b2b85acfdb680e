/**
 * The timers as they are on the heap: a session object refers to the cancel channel of its
 * current timer, the timer's goroutine to the same channel and to its session, and the map
 * to session objects. Nothing here knows places in sequences; the ghost model does. Closing
 * a closed channel would panic, so Close asks that it is open.
 */
module SessionTimers {
  import opened Wrappers
  import I = IdleTimers

  /** A chan struct{} that is only ever closed. at: the place of its timer in the order of arming. */
  class CancelChannel {
    ghost const at: nat
    var closed: bool

    constructor (ghost at: nat)
      ensures this.at == at && !closed
    {
      this.at, closed := at, false;
    }

    method Close()
      requires !closed
      modifies this
      ensures closed
    {
      closed := true;
    }
  }

  /** session.Session; at: its place in the order of creation. */
  class SessionObject {
    ghost const at: nat
    const id: string
    const timeout: nat
    var timeoutCh: CancelChannel

    constructor (ghost at: nat, id: string, timeout: nat, ch: CancelChannel)
      ensures this.at == at && this.id == id && this.timeout == timeout && timeoutCh == ch
    {
      this.at, this.id, this.timeout, timeoutCh := at, id, timeout, ch;
    }
  }

  /** The goroutine that onTimeout starts. */
  class TimerGoroutine {
    const session: SessionObject
    const cancel: CancelChannel
    const deadline: nat
    var status: I.Status

    constructor (session: SessionObject, cancel: CancelChannel, now: nat)
      ensures this.session == session && this.cancel == cancel && this.deadline == now + session.timeout
      ensures status == I.Waiting
    {
      this.session, this.cancel, this.deadline, status := session, cancel, now + session.timeout, I.Waiting;
    }
  }

  // What the objects stand for.

  /** x is one of xs, at its place. */
  ghost predicate Placed(xs: seq<SessionObject>, x: SessionObject) {
    x.at < |xs| && xs[x.at] == x
  }

  ghost predicate IsTimer(g: TimerGoroutine, k: nat, xs: seq<SessionObject>, t: I.Timer)
    reads g, g.cancel
  {
    && g.cancel.at == k && Placed(xs, g.session) && g.session.at == t.owner
    && g.deadline == t.Deadline() && g.status == t.status && (g.cancel.closed <==> t.closed.Some?)
  }

  /** The goroutines gs, of sessions xs, are the timers ts. */
  ghost predicate AreTimers(gs: seq<TimerGoroutine>, xs: seq<SessionObject>, ts: seq<I.Timer>)
    reads gs, set g | g in gs :: g.cancel
  {
    |ts| == |gs| && forall k {:trigger IsTimer(gs[k], k, xs, ts[k])} | 0 <= k < |gs| :: IsTimer(gs[k], k, xs, ts[k])
  }

  ghost predicate IsSession(x: SessionObject, k: nat, gs: seq<TimerGoroutine>, o: I.Session)
    reads x
  {
    && x.at == k && x.id == o.id && x.timeout == o.timeout
    && o.timeoutCh < |gs| && gs[o.timeoutCh].cancel == x.timeoutCh
  }

  /** The objects xs, with the channels of timers gs, are the sessions os. */
  ghost predicate AreSessions(xs: seq<SessionObject>, gs: seq<TimerGoroutine>, os: seq<I.Session>)
    reads xs
  {
    |os| == |xs| && forall k {:trigger IsSession(xs[k], k, gs, os[k])} | 0 <= k < |xs| :: IsSession(xs[k], k, gs, os[k])
  }

  ghost predicate IsMap(m: map<string, SessionObject>, xs: seq<SessionObject>, places: map<string, nat>) {
    m.Keys == places.Keys && forall id | id in m :: Placed(xs, m[id]) && m[id].at == places[id]
  }

  /** One more goroutine, and perhaps one more object. */
  lemma TimersGrow(gs: seq<TimerGoroutine>, xs: seq<SessionObject>, ts: seq<I.Timer>, g: TimerGoroutine, xs': seq<SessionObject>, t: I.Timer)
    requires AreTimers(gs, xs, ts) && IsTimer(g, |gs|, xs', t) && xs <= xs'
    ensures AreTimers(gs + [g], xs', ts + [t])
  {
    var gs', ts' := gs + [g], ts + [t];
    forall k | 0 <= k < |gs'| ensures IsTimer(gs'[k], k, xs', ts'[k]) {
      if k < |gs| { assert IsTimer(gs[k], k, xs, ts[k]); }
    }
  }

  /** One more object, the last goroutine being its own. */
  lemma SessionsGrow(xs: seq<SessionObject>, gs: seq<TimerGoroutine>, os: seq<I.Session>, x: SessionObject, g: TimerGoroutine, o: I.Session)
    requires AreSessions(xs, gs, os) && IsSession(x, |xs|, gs + [g], o)
    ensures AreSessions(xs + [x], gs + [g], os + [o])
  {
    var xs', os' := xs + [x], os + [o];
    forall k | 0 <= k < |xs'| ensures IsSession(xs'[k], k, gs + [g], os'[k]) {
      if k < |xs| { assert IsSession(xs[k], k, gs, os[k]); }
    }
  }

  lemma MapGrows(m: map<string, SessionObject>, xs: seq<SessionObject>, places: map<string, nat>, xs': seq<SessionObject>)
    requires IsMap(m, xs, places) && xs <= xs'
    ensures IsMap(m, xs', places)
  {
    assert forall x | Placed(xs, x) :: Placed(xs', x);
  }

  class Timers {
    var now: nat
    var goroutines: seq<TimerGoroutine>
    var objects: seq<SessionObject>
    var sessions: map<string, SessionObject>
    ghost var model: I.State

    ghost function Repr(): set<object>
      reads this
    {
      var xs: set<object> := set x | x in objects;
      var gs: set<object> := set g | g in goroutines;
      var cs: set<object> := set g | g in goroutines :: g.cancel;
      {this} + xs + gs + cs
    }

    ghost predicate Known(x: SessionObject)
      reads this
    {
      Placed(objects, x)
    }

    /** The objects are what the model says. */
    ghost predicate Valid()
      reads Repr()
    {
      && model.now == now && AreTimers(goroutines, objects, model.timers)
      && AreSessions(objects, goroutines, model.objects) && IsMap(sessions, objects, model.sessions)
    }

    constructor ()
      ensures Valid() && model == I.INIT && fresh(Repr())
    {
      now, goroutines, objects, sessions, model := 0, [], [], map[], I.INIT;
    }

    /** The select that closes the session's channel unless it is closed: never twice. */
    method CloseTimeoutCh(x: SessionObject)
      requires Valid() && Known(x)
      modifies this`model, x.timeoutCh
      ensures Valid() && I.HasTimer(old(model), x.at) && model == I.CloseOnce(old(model), x.at)
      ensures x.timeoutCh.closed
    {
      ghost var i := model.objects[x.at].timeoutCh;
      assert IsSession(x, x.at, goroutines, model.objects[x.at]) && IsTimer(goroutines[i], i, objects, model.timers[i]);
      if !x.timeoutCh.closed {
        x.timeoutCh.Close();
      }
      model := I.CloseOnce(model, x.at);
      assert AreTimers(goroutines, objects, model.timers) by {
        forall k | 0 <= k < |goroutines| ensures IsTimer(goroutines[k], k, objects, model.timers[k]) {
          assert old(IsTimer(goroutines[k], k, objects, model.timers[k]));
        }
      }
    }

    /** onTimeout, its result stored in the session's TimeoutCh. */
    method OnTimeout(x: SessionObject)
      requires Valid() && Known(x)
      modifies this`goroutines, this`model, x`timeoutCh
      ensures Valid() && model == I.Arm(old(model), x.at)
      ensures fresh(Repr() - old(Repr())) && !x.timeoutCh.closed
    {
      assert IsSession(x, x.at, goroutines, model.objects[x.at]);
      var ch := new CancelChannel(|goroutines|);
      var g := new TimerGoroutine(x, ch, now);
      x.timeoutCh := ch;
      goroutines := goroutines + [g];
      model := I.Arm(model, x.at);
      assert AreTimers(goroutines, objects, model.timers) by {
        forall k | 0 <= k < |goroutines| ensures IsTimer(goroutines[k], k, objects, model.timers[k]) {
          if k < |old(goroutines)| { assert old(IsTimer(goroutines[k], k, objects, model.timers[k])); }
        }
      }
      assert AreSessions(objects, goroutines, model.objects) by {
        forall k | 0 <= k < |objects| ensures IsSession(objects[k], k, goroutines, model.objects[k]) {
          assert old(IsSession(objects[k], k, goroutines, model.objects[k]));
        }
      }
    }

    /** What Open adds to the model. */
    static lemma OpenAdds(m: I.State, id: string, timeout: nat)
      ensures var n := I.Next(m, I.Open(id, timeout)).value;
              && n.timers == m.timers + [I.Timer(|m.objects|, m.now, timeout, |m.past.uses| + 1, None, I.Waiting)]
              && n.objects == m.objects + [I.Session(id, timeout, |m.timers|, false)]
              && n.now == m.now && n.sessions == m.sessions
    {
    }

    /** create builds the session object; its timer is armed before anybody else can see it. */
    method Open(id: string, timeout: nat) returns (x: SessionObject)
      requires Valid()
      modifies this`goroutines, this`objects, this`model
      ensures Valid() && model == I.Next(old(model), I.Open(id, timeout)).value
      ensures fresh(Repr() - old(Repr())) && fresh(x) && Known(x) && x.id == id
    {
      var ch := new CancelChannel(|goroutines|);
      x := new SessionObject(|objects|, id, timeout, ch);
      var g := new TimerGoroutine(x, ch, now);
      OpenAdds(model, id, timeout);
      ghost var n := I.Next(model, I.Open(id, timeout)).value;
      TimersGrow(goroutines, objects, model.timers, g, objects + [x], n.timers[|goroutines|]);
      SessionsGrow(objects, goroutines, model.objects, x, g, n.objects[|objects|]);
      MapGrows(sessions, objects, model.sessions, objects + [x]);
      objects, goroutines, model := objects + [x], goroutines + [g], n;
    }

    /** sessions.Put; create does it once for an object. */
    method Put(x: SessionObject)
      requires Valid() && Known(x) && !model.objects[x.at].put
      modifies this`sessions, this`model
      ensures Valid() && model == I.PutSession(old(model), x.at)
      ensures sessions == old(sessions)[x.id := x]
    {
      assert IsSession(x, x.at, goroutines, model.objects[x.at]);
      sessions := sessions[x.id := x];
      model := I.PutSession(model, x.at);
      assert AreSessions(objects, goroutines, model.objects) by {
        forall k | 0 <= k < |objects| ensures IsSession(objects[k], k, goroutines, model.objects[k]) {
          assert old(IsSession(objects[k], k, goroutines, model.objects[k]));
        }
      }
    }

    /** A request that holds the object re-arms it. */
    method Touch(x: SessionObject)
      requires Valid() && Known(x)
      modifies this`goroutines, this`model, x`timeoutCh, x.timeoutCh
      ensures Valid() && I.Next(old(model), I.Touch(x.at)) == Some(model)
      ensures fresh(Repr() - old(Repr()))
    {
      CloseTimeoutCh(x);
      model := I.Record(model, x.at, true);
      OnTimeout(x);
    }

    /**
     * The liveness check of a WsDriver connection that was opened on session object x: a
     * new session under the same id is not kept alive by a connection to the old one.
     */
    method IsSessionAlive(id: string, x: SessionObject) returns (alive: bool)
      requires Valid() && Known(x)
      modifies this`goroutines, this`model, x`timeoutCh, x.timeoutCh
      ensures Valid() && fresh(Repr() - old(Repr()))
      ensures alive <==> id in sessions && sessions[id] == x
      ensures alive ==> I.Next(old(model), I.Touch(x.at)) == Some(model)
      ensures !alive ==> model == old(model)
    {
      alive := id in sessions && sessions[id] == x;
      if alive {
        Touch(x);
      }
    }

    /** sessions.Get for a DELETE. */
    method Get(id: string, ghost sender: Option<nat>) returns (x: Option<SessionObject>)
      requires Valid()
      modifies this`model
      ensures Valid() && model == I.Get(old(model), id, sender)
      ensures x == if id in sessions then Some(sessions[id]) else None
    {
      model := I.Get(model, id, sender);
      x := if id in sessions then Some(sessions[id]) else None;
    }

    /** A DELETE that got x, under its lock: it does not look at the map again. */
    method End(id: string, x: SessionObject, ghost f: I.Found)
      requires Valid() && Known(x) && f in model.found && f.id == id && f.owner == x.at
      modifies this`sessions, this`model, x.timeoutCh
      ensures Valid() && I.Next(old(model), I.End(f)) == Some(model)
      ensures sessions == old(sessions) - {id}
    {
      CloseTimeoutCh(x);
      model := I.Record(model, x.at, false);
      sessions := sessions - {id};
      model := I.Remove(model, f);
    }

    /** The deadline wakes goroutine g: it sends a DELETE for its session's id. */
    method Fire(g: TimerGoroutine, ghost i: nat) returns (id: string)
      requires Valid() && i < |goroutines| && goroutines[i] == g && I.CanFire(model, i)
      modifies g`status, this`model
      ensures Valid() && I.Next(old(model), I.Fire(i)) == Some(model)
      ensures id == g.session.id && g.deadline <= now
    {
      assert IsTimer(g, i, objects, model.timers[i]);
      g.status := I.Fired(now);
      id := g.session.id;
      model := I.Next(model, I.Fire(i)).value;
      assert AreTimers(goroutines, objects, model.timers) by {
        forall k | 0 <= k < |goroutines| ensures IsTimer(goroutines[k], k, objects, model.timers[k]) {
          assert old(IsTimer(goroutines[k], k, objects, model.timers[k]));
        }
      }
    }

    /** The closed channel wakes goroutine g. */
    method Leave(g: TimerGoroutine, ghost i: nat)
      requires Valid() && i < |goroutines| && goroutines[i] == g && g.status.Waiting? && g.cancel.closed
      modifies g`status, this`model
      ensures Valid() && I.Next(old(model), I.Leave(i)) == Some(model)
    {
      assert IsTimer(g, i, objects, model.timers[i]);
      g.status := I.Quit;
      model := I.Next(model, I.Leave(i)).value;
      assert AreTimers(goroutines, objects, model.timers) by {
        forall k | 0 <= k < |goroutines| ensures IsTimer(goroutines[k], k, objects, model.timers[k]) {
          assert old(IsTimer(goroutines[k], k, objects, model.timers[k]));
        }
      }
    }

    /** A Serve: the DELETE of a timer passes Get. */
    method Serve(g: TimerGoroutine, ghost i: nat)
      requires Valid() && i < |goroutines| && goroutines[i] == g && i in model.sent
      modifies this`model
      ensures Valid() && I.Next(old(model), I.Serve(i)) == Some(model)
    {
      assert IsTimer(g, i, objects, model.timers[i]);
      assert IsSession(g.session, g.session.at, goroutines, model.objects[g.session.at]);
      model := model.(sent := model.sent - {i});
      var x := Get(g.session.id, Some(i));
    }

    /** The event e, which may happen now. */
    method Step(e: I.Event)
      requires Valid() && I.Next(model, e).Some?
      modifies Repr()
      ensures Valid() && I.Next(old(model), e) == Some(model) && fresh(Repr() - old(Repr()))
    {
      match e
      case Tick =>
        now, model := now + 1, I.Next(model, I.Tick).value;
      case Open(id, timeout) =>
        var x := Open(id, timeout);
      case Put(o) =>
        assert IsSession(objects[o], o, goroutines, model.objects[o]);
        Put(objects[o]);
      case Touch(o) =>
        assert IsSession(objects[o], o, goroutines, model.objects[o]);
        Touch(objects[o]);
      case Delete(id) =>
        var x := Get(id, None);
      case Serve(i) =>
        Serve(goroutines[i], i);
      case End(f) =>
        assert IsSession(objects[f.owner], f.owner, goroutines, model.objects[f.owner]);
        End(f.id, objects[f.owner], f);
      case Fire(i) =>
        var id := Fire(goroutines[i], i);
      case Leave(i) =>
        assert IsTimer(goroutines[i], i, objects, model.timers[i]);
        Leave(goroutines[i], i);
    }

    /** On the heap: the only channel that may still cancel a waiting timer of x is the one x refers to. */
    lemma OneOpenChannel(g: TimerGoroutine, i: nat)
      requires Valid() && I.Inv(model)
      requires i < |goroutines| && goroutines[i] == g && g.status.Waiting? && !g.cancel.closed
      ensures g.session.timeoutCh == g.cancel
    {
      assert IsTimer(g, i, objects, model.timers[i]);
      assert IsSession(g.session, g.session.at, goroutines, model.objects[g.session.at]);
    }

    lemma OpenChannels()
      requires Valid() && I.Inv(model)
      ensures forall g | g in goroutines && g.status.Waiting? && !g.cancel.closed :: g.session.timeoutCh == g.cancel
    {
      forall i | 0 <= i < |goroutines| && goroutines[i].status.Waiting? && !goroutines[i].cancel.closed
        ensures goroutines[i].session.timeoutCh == goroutines[i].cancel
      {
        OneOpenChannel(goroutines[i], i);
      }
    }
  }

  /**
   * Any schedule that the model allows runs on these objects. No channel is closed twice on
   * the way, and at its end each waiting timer with an open channel is its session's one.
   */
  method Drive(es: seq<I.Event>) returns (t: Timers)
    requires I.Run(I.INIT, es).Some?
    ensures fresh(t.Repr()) && t.Valid() && I.Run(I.INIT, es) == Some(t.model)
    ensures forall g | g in t.goroutines && g.status.Waiting? && !g.cancel.closed :: g.session.timeoutCh == g.cancel
  {
    t := new Timers();
    for i := 0 to |es|
      invariant fresh(t.Repr()) && t.Valid() && I.Run(I.INIT, es[..i]) == Some(t.model)
    {
      assert es[..i + 1][..i] == es[..i];
      SomeBefore(es, i + 1);
      t.Step(es[i]);
    }
    assert es[..|es|] == es;
    I.InvRun(es);
    t.OpenChannels();
  }

  /** A possible run has possible beginnings. */
  lemma {:induction false} SomeBefore(es: seq<I.Event>, i: nat)
    requires i <= |es| && I.Run(I.INIT, es).Some?
    ensures I.Run(I.INIT, es[..i]).Some?
  {
    if i == |es| {
      assert es[..i] == es;
    } else {
      var prefix := es[..|es| - 1];
      assert prefix[..i] == es[..i];
      SomeBefore(prefix, i);
    }
  }
}
