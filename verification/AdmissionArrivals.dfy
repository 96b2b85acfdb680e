/**
 * What becomes of each request, in every run: whether it is let in, waits or is turned away, as its
 * header, the queue and the room it found decide; and what each DELETE found.
 */
module AdmissionArrivals {
  import opened Wrappers
  import opened Admission

  /** The arrivals of a run, in order: each makes a thread. */
  function Arrivals(es: seq<Event>): seq<Event> {
    if es == [] then []
    else
      var e := es[|es| - 1];
      Arrivals(es[..|es| - 1]) + if e.Arrive? || e.ArriveDelete? then [e] else []
  }

  /** Whether request t found room in limit at its first step; None before that. */
  function FoundRoom(s: State, es: seq<Event>, t: nat): Option<bool> {
    if es == [] then None
    else
      var m, e := Run(s, es[..|es| - 1]), es[|es| - 1];
      if m.Some? && e == Do(t, Advance) && t < |m.value.threads|
         && m.value.threads[t].Protect? && m.value.threads[t].protect.Arrived?
      then Some(m.value.shared.chan.limit < m.value.size) else FoundRoom(s, es[..|es| - 1], t)
  }

  /** What DELETE t found in the session map at its first step; None before that. */
  function FoundSession(s: State, es: seq<Event>, t: nat): Option<Option<nat>> {
    if es == [] then None
    else
      var m, e := Run(s, es[..|es| - 1]), es[|es| - 1];
      if m.Some? && e == Do(t, Advance) && t < |m.value.threads|
         && m.value.threads[t].Delete? && m.value.threads[t].delete.Deleting?
      then
        var id, sessions := m.value.threads[t].delete.id, m.value.shared.book.sessions;
        Some(if id in sessions then Some(sessions[id]) else None)
      else FoundSession(s, es[..|es| - 1], t)
  }

  /**
   * Where a request may be. mayWait: it does not ask not to wait, and the queue is not disabled.
   * left: its client went away.
   */
  predicate RequestAt(p: Thread, noWait: bool, mayWait: bool, room: Option<bool>, left: bool) {
    match p
    case Protect(Arrived(n)) => n == noWait && room == None
    case Protect(Full(n)) => n == noWait && room == Some(false)
    case Protect(Rejected) => room == Some(false) && !mayWait
    case Protect(Waiting) => room == Some(false) && mayWait
    case Protect(Cancelled) => room == Some(false) && mayWait && left
    case Protect(Gone) => room == Some(false) && mayWait && left
    case Protect(Got) => room == Some(true)
    case Protect(_) => room == Some(true) || (room == Some(false) && mayWait)
    case Create(_) => room == Some(true) || (room == Some(false) && mayWait)
    case Delete(_) => false
  }

  predicate DeleteAt(p: Thread, id: string, found: Option<Option<nat>>) {
    match p
    case Delete(Deleting(i)) => i == id && found == None
    case Delete(Found(i, owner)) => i == id && found == Some(Some(owner))
    case Delete(Unknown) => found == Some(None)
    case Delete(d) => found == Some(Some(d.owner))
    case _ => false
  }

  /** Thread t, which event a made, is where it may be. */
  ghost predicate Stands(s: State, disabled: bool, es: seq<Event>, a: Event, t: nat, p: Thread) {
    if a.Arrive? then
      RequestAt(p, a.noWait, !a.noWait && !disabled, FoundRoom(s, es, t), Do(t, ClientGone) in es)
    else a.ArriveDelete? && DeleteAt(p, a.id, FoundSession(s, es, t))
  }

  ghost predicate AllStand(s: State, es: seq<Event>, ts: seq<Thread>) {
    && |ts| == |Arrivals(es)|
    && (forall t | 0 <= t < |ts| :: Stands(s, s.disabled, es, Arrivals(es)[t], t, ts[t]))
    && (forall t: nat, act | Do(t, act) in es :: t < |ts|)
  }

  lemma RequestMoves(size: nat, disabled: bool, c: Channels, p: ProtectPc, act: Act, noWait: bool, room: Option<bool>, left: bool)
    requires RequestAt(Protect(p), noWait, !noWait && !disabled, room, left)
    requires ProtectNext(size, disabled, c, p, act).Some?
    ensures var room' := if p.Arrived? then Some(c.limit < size) else room;
            RequestAt(ProtectNext(size, disabled, c, p, act).value.1, noWait, !noWait && !disabled, room', left || act == ClientGone)
    ensures p.Arrived? ==> act == Advance
  {
  }

  lemma DeleteMoves(h: Shared, p: DeletePc, id: string, found: Option<Option<nat>>)
    requires DeleteAt(Delete(p), id, found) && DeleteNext(h, p).Some?
    ensures var found' := if !p.Deleting? then found
                          else Some(if p.id in h.book.sessions then Some(h.book.sessions[p.id]) else None);
            DeleteAt(Delete(DeleteNext(h, p).value.1), id, found')
  {
  }

  lemma Last(es: seq<Event>, e: Event)
    ensures (es + [e])[..|es|] == es
  {
  }

  /** A thread that e does not move. */
  lemma StandsStill(s: State, disabled: bool, es: seq<Event>, e: Event, a: Event, t: nat, p: Thread)
    requires Stands(s, disabled, es, a, t, p) && !(e.Do? && e.t == t)
    ensures Stands(s, disabled, es + [e], a, t, p)
  {
    Last(es, e);
  }

  /** One that e moves. */
  lemma StandsMoved(s: State, es: seq<Event>, m: State, t: nat, act: Act, a: Event)
    requires Run(s, es) == Some(m) && t < |m.threads| && ThreadNext(m, t, act).Some?
    requires Stands(s, m.disabled, es, a, t, m.threads[t])
    ensures Stands(s, m.disabled, es + [Do(t, act)], a, t, ThreadNext(m, t, act).value.1)
  {
    Last(es, Do(t, act));
    match m.threads[t]
    case Protect(p) =>
      RequestMoves(m.size, m.disabled, m.shared.chan, p, act, a.noWait, FoundRoom(s, es, t), Do(t, ClientGone) in es);
    case Create(_) =>
    case Delete(p) =>
      DeleteMoves(m.shared, p, a.id, FoundSession(s, es, t));
  }

  lemma {:induction false} NotYet(s: State, es: seq<Event>, t: nat)
    requires forall act :: Do(t, act) !in es
    ensures FoundRoom(s, es, t) == None && FoundSession(s, es, t) == None
  {
    if es != [] {
      assert es[|es| - 1] in es;
      NotYet(s, es[..|es| - 1], t);
    }
  }

  /** A new thread. */
  lemma StandsNew(s: State, es: seq<Event>, e: Event, t: nat)
    requires (e.Arrive? || e.ArriveDelete?) && forall act :: Do(t, act) !in es
    ensures Stands(s, s.disabled, es + [e], e, t, if e.Arrive? then Protect(Arrived(e.noWait)) else Delete(Deleting(e.id)))
  {
    NotYet(s, es + [e], t);
  }

  lemma AllStandStep(s: State, es: seq<Event>, m: State, e: Event)
    requires Run(s, es) == Some(m) && m.disabled == s.disabled && AllStand(s, es, m.threads) && Next(m, e).Some?
    ensures AllStand(s, es + [e], Next(m, e).value.threads)
  {
    Last(es, e);
    var n := Next(m, e).value;
    assert Arrivals(es + [e]) == Arrivals(es) + if e.Arrive? || e.ArriveDelete? then [e] else [];
    forall t | 0 <= t < |n.threads| ensures Stands(s, s.disabled, es + [e], Arrivals(es + [e])[t], t, n.threads[t]) {
      if t == |m.threads| {
        StandsNew(s, es, e, t);
      } else if e.Do? && e.t == t {
        StandsMoved(s, es, m, t, e.act, Arrivals(es)[t]);
      } else {
        StandsStill(s, s.disabled, es, e, Arrivals(es)[t], t, m.threads[t]);
      }
    }
  }

  lemma {:induction false} SameQueue(s: State, es: seq<Event>)
    requires Run(s, es).Some?
    ensures Run(s, es).value.size == s.size && Run(s, es).value.disabled == s.disabled
  {
    if es != [] {
      SameQueue(s, es[..|es| - 1]);
    }
  }

  /**
   * In every run: a request is turned away only if it found limit full and may not wait, and waits, or
   * leaves, only if it found limit full and may; only a request whose client went away leaves. Every
   * other request is let in: it found room, or waited for it. A DELETE finds no session only if there
   * was none under its id.
   */
  lemma {:induction false} ArrivalLaw(size: nat, disabled: bool, es: seq<Event>)
    requires Run(Init(size, disabled), es).Some?
    ensures AllStand(Init(size, disabled), es, Run(Init(size, disabled), es).value.threads)
  {
    if es != [] {
      var before := es[..|es| - 1];
      ArrivalLaw(size, disabled, before);
      SameQueue(Init(size, disabled), before);
      assert es == before + [es[|es| - 1]];
      AllStandStep(Init(size, disabled), before, Run(Init(size, disabled), before).value, es[|es| - 1]);
    }
  }

  /** A request is never held up but by a full channel: it moves at once, or waits for room in limit and takes it. */
  lemma MovesExactly(s: State, t: nat)
    requires t < |s.threads| && s.threads[t].Protect?
    ensures s.threads[t].protect.Arrived? || s.threads[t].protect.Full? || s.threads[t].protect.Got? ==> Next(s, Do(t, Advance)).Some?
    ensures s.threads[t].protect.Holding? && s.shared.chan.pending < 0x7FFF_FFFF ==> Next(s, Do(t, Advance)).Some?
    ensures s.threads[t].protect.Waiting? ==>
              && (Next(s, Do(t, Advance)).Some? <==> s.shared.chan.limit < s.size)
              && (Next(s, Do(t, Advance)).Some? ==> Next(s, Do(t, Advance)).value.threads[t] == Protect(Holding))
              && Next(s, Do(t, ClientGone)).Some?
    ensures s.threads[t].protect.Arrived? ==>
              forall act :: act != Advance ==> Next(s, Do(t, act)).None?
  {
  }
}
