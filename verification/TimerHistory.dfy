/**
 * The state of the idle timers as it follows from the run alone: who used which session when,
 * which event armed a timer, which use closed its channel first, and what woke it. Nothing
 * here reads the log that the steps themselves write.
 */
module TimerHistory {
  import opened Wrappers
  import opened IdleTimers

  // What a run tells, event by event.

  function Clock(es: seq<Event>): nat {
    if es == [] then 0 else Clock(es[..|es| - 1]) + if es[|es| - 1].Tick? then 1 else 0
  }

  /** The session objects that were built, in order. */
  function Opened(es: seq<Event>): (os: seq<Event>)
    ensures forall o | 0 <= o < |os| :: os[o].Open?
  {
    if es == [] then [] else Opened(es[..|es| - 1]) + if es[|es| - 1].Open? then [es[|es| - 1]] else []
  }

  /** The session that e uses, after the run before. */
  function User(before: seq<Event>, e: Event): Option<nat> {
    match e
    case Open(_, _) => Some(|Opened(before)|)
    case Touch(o) => Some(o)
    case End(f) => Some(f.owner)
    case _ => None
  }

  /** A use keeps its session, unless it is its DELETE. */
  function Uses(es: seq<Event>): seq<Use> {
    if es == [] then []
    else
      var before, e := es[..|es| - 1], es[|es| - 1];
      Uses(before) + match User(before, e)
                     case None => []
                     case Some(o) => [Use(o, Clock(before), !e.End?)]
  }

  /** The event at this place arms a timer for owner at this time. */
  datatype Arming = Arming(place: nat, owner: nat, at: nat)

  predicate Arms(e: Event) { e.Open? || e.Touch? }

  function Armings(es: seq<Event>): seq<Arming> {
    if es == [] then []
    else
      var before, e := es[..|es| - 1], es[|es| - 1];
      Armings(before) + if Arms(e) then [Arming(|before|, User(before, e).value, Clock(before))] else []
  }

  /** When session o was first used after the event at place. */
  function FirstUse(es: seq<Event>, place: nat, o: nat): Option<nat> {
    if |es| <= place + 1 then None
    else
      var before, e := es[..|es| - 1], es[|es| - 1];
      var first := FirstUse(before, place, o);
      if first.None? && User(before, e) == Some(o) then Some(Clock(before)) else first
  }

  /** What last woke timer i. */
  function Woken(es: seq<Event>, i: nat): Status {
    if es == [] then Waiting
    else
      var before, e := es[..|es| - 1], es[|es| - 1];
      if e == Fire(i) then Fired(Clock(before)) else if e == Leave(i) then Quit else Woken(before, i)
  }

  /** The object last put under id, unless a DELETE has removed the id since. */
  function Holder(es: seq<Event>, id: string): Option<nat> {
    if es == [] then None
    else
      var before, e := es[..|es| - 1], es[|es| - 1];
      if e.Put? && e.o < |Opened(before)| && Opened(before)[e.o].id == id then Some(e.o)
      else if e.End? && e.f.id == id then None
      else Holder(before, id)
  }

  /** The DELETE that passes Get by e, if the id it names is in the map. */
  function Got(before: seq<Event>, e: Event): multiset<Found> {
    var id := match e
      case Delete(id) => Some((id, None))
      case Serve(i) =>
        if i < |Armings(before)| && Armings(before)[i].owner < |Opened(before)|
        then Some((Opened(before)[Armings(before)[i].owner].id, Some(i))) else None
      case _ => None;
    if id.Some? && Holder(before, id.value.0).Some?
    then multiset{Found(id.value.0, Holder(before, id.value.0).value, id.value.1)} else multiset{}
  }

  /** The DELETEs past Get that have not ended. */
  function Pending(es: seq<Event>): multiset<Found> {
    if es == [] then multiset{}
    else
      var before, e := es[..|es| - 1], es[|es| - 1];
      Pending(before) + Got(before, e) - if e.End? then multiset{e.f} else multiset{}
  }

  /** Releases, Puts over a live id, and DELETEs that find nothing under the lock. */
  datatype Tallies = Tallies(releases: nat, overwritten: nat, surplus: nat)

  function Tallied(es: seq<Event>): Tallies {
    if es == [] then Tallies(0, 0, 0)
    else
      var before, e := es[..|es| - 1], es[|es| - 1];
      var t := Tallied(before);
      if e.End? then Tallies(t.releases + 1, t.overwritten, t.surplus + if Holder(before, e.f.id).None? then 1 else 0)
      else if e.Put? && e.o < |Opened(before)| && Holder(before, Opened(before)[e.o].id).Some? then t.(overwritten := t.overwritten + 1)
      else t
  }

  // The state that goes with it, part by part.

  ghost predicate TimerIs(es: seq<Event>, i: nat, a: Arming, t: Timer) {
    && a.owner < |Opened(es)| && t.owner == a.owner && t.armed == a.at && t.timeout == Opened(es)[a.owner].timeout
    && t.closed == FirstUse(es, a.place, a.owner) && t.status == Woken(es, i)
  }

  ghost predicate TimersAre(es: seq<Event>, ts: seq<Timer>) {
    && |ts| == |Armings(es)| && (forall i | 0 <= i < |ts| :: TimerIs(es, i, Armings(es)[i], ts[i]))
    && forall i: nat | Fire(i) in es || Leave(i) in es :: i < |ts|
  }

  ghost predicate ObjectsAre(es: seq<Event>, os: seq<Session>) {
    && |os| == |Opened(es)|
    && (forall o | 0 <= o < |os| ::
          os[o].id == Opened(es)[o].id && os[o].timeout == Opened(es)[o].timeout && (os[o].put <==> Put(o) in es))
    && forall o: nat | Put(o) in es :: o < |os|
  }

  ghost predicate MapIs(es: seq<Event>, sessions: map<string, nat>) {
    forall id :: Holder(es, id) == if id in sessions then Some(sessions[id]) else None
  }

  ghost predicate SentIs(es: seq<Event>, sent: set<nat>) {
    && (forall i: nat :: i in sent <==> Fire(i) in es && Serve(i) !in es)
    && forall i: nat | Serve(i) in es :: Fire(i) in es
  }

  ghost predicate Told(es: seq<Event>, s: State) {
    && s.now == Clock(es) && s.past.uses == Uses(es)
    && TimersAre(es, s.timers) && ObjectsAre(es, s.objects) && MapIs(es, s.sessions)
    && SentIs(es, s.sent) && s.found == Pending(es)
    && Tallies(s.past.releases, s.past.overwritten, s.past.surplus) == Tallied(es)
  }

  // One more event.

  lemma Last(es: seq<Event>, e: Event)
    ensures (es + [e])[..|es|] == es
  {
  }

  lemma {:induction false} PlacesBefore(es: seq<Event>, i: nat)
    requires i < |Armings(es)|
    ensures Armings(es)[i].place < |es|
  {
    if i < |Armings(es[..|es| - 1])| {
      PlacesBefore(es[..|es| - 1], i);
    }
  }

  lemma {:induction false} WokenIn(es: seq<Event>, i: nat)
    ensures Woken(es, i).Waiting? <==> Fire(i) !in es && Leave(i) !in es
    ensures Woken(es, i).Fired? ==> Fire(i) in es
  {
    if es != [] {
      WokenIn(es[..|es| - 1], i);
      assert es == es[..|es| - 1] + [es[|es| - 1]];
    }
  }

  /** A timer that e does not wake: e closes its channel if it is the first use of the session since. */
  lemma TimerCarried(es: seq<Event>, e: Event, i: nat, a: Arming, t: Timer, t': Timer)
    requires TimerIs(es, i, a, t) && a.place < |es| && e != Fire(i) && e != Leave(i)
    requires t' == if t.closed.None? && User(es, e) == Some(a.owner) then t.(closed := Some(Clock(es))) else t
    ensures TimerIs(es + [e], i, a, t')
  {
    Last(es, e);
  }

  lemma TimerWoken(es: seq<Event>, e: Event, i: nat, a: Arming, t: Timer)
    requires TimerIs(es, i, a, t) && a.place < |es| && (e == Fire(i) || e == Leave(i))
    ensures TimerIs(es + [e], i, a, t.(status := if e.Fire? then Fired(Clock(es)) else Quit))
  {
    Last(es, e);
    assert Opened(es + [e]) == Opened(es) && User(es, e).None?;
    assert FirstUse(es + [e], a.place, a.owner) == FirstUse(es, a.place, a.owner);
  }

  /** ts': ts after e, in so far as e uses a session. */
  ghost predicate UseCloses(es: seq<Event>, e: Event, ts: seq<Timer>, ts': seq<Timer>) {
    |ts'| == |ts| && forall i | 0 <= i < |ts| ::
      ts'[i] == if ts[i].closed.None? && User(es, e) == Some(ts[i].owner) then ts[i].(closed := Some(Clock(es))) else ts[i]
  }

  /** An event that wakes and arms no timer. */
  lemma TimersCarried(es: seq<Event>, e: Event, ts: seq<Timer>, ts': seq<Timer>)
    requires TimersAre(es, ts) && UseCloses(es, e, ts, ts') && !e.Fire? && !e.Leave? && !Arms(e)
    ensures TimersAre(es + [e], ts')
  {
    Last(es, e);
    forall i | 0 <= i < |ts| ensures TimerIs(es + [e], i, Armings(es)[i], ts'[i]) {
      PlacesBefore(es, i);
      TimerCarried(es, e, i, Armings(es)[i], ts[i], ts'[i]);
    }
  }

  /** One that arms one, for the session that it uses. */
  lemma TimersArmed(es: seq<Event>, e: Event, ts: seq<Timer>, ts': seq<Timer>, t: Timer)
    requires TimersAre(es, ts) && UseCloses(es, e, ts, ts') && Arms(e)
    requires t.owner == User(es, e).value < |Opened(es + [e])| && t.armed == Clock(es)
    requires t.timeout == Opened(es + [e])[t.owner].timeout && t.closed.None? && t.status.Waiting?
    ensures TimersAre(es + [e], ts' + [t])
  {
    Last(es, e);
    forall i | 0 <= i < |ts| ensures TimerIs(es + [e], i, Armings(es)[i], ts'[i]) {
      PlacesBefore(es, i);
      TimerCarried(es, e, i, Armings(es)[i], ts[i], ts'[i]);
    }
    WokenIn(es + [e], |ts|);
    assert TimerIs(es + [e], |ts|, Arming(|es|, t.owner, t.armed), t);
  }

  lemma TimersWoken(es: seq<Event>, e: Event, ts: seq<Timer>)
    requires TimersAre(es, ts) && (e.Fire? || e.Leave?) && e.i < |ts|
    ensures TimersAre(es + [e], ts[e.i := ts[e.i].(status := if e.Fire? then Fired(Clock(es)) else Quit)])
  {
    Last(es, e);
    var ts' := ts[e.i := ts[e.i].(status := if e.Fire? then Fired(Clock(es)) else Quit)];
    forall i | 0 <= i < |ts| ensures TimerIs(es + [e], i, Armings(es)[i], ts'[i]) {
      PlacesBefore(es, i);
      if i == e.i {
        TimerWoken(es, e, i, Armings(es)[i], ts[i]);
      } else {
        TimerCarried(es, e, i, Armings(es)[i], ts[i], ts[i]);
      }
    }
  }

  /** What closing the channel of o does to all of its timers. */
  lemma CloseOnceCloses(s: State, o: nat, es: seq<Event>, e: Event)
    requires Inv(s) && o < |s.objects| && User(es, e) == Some(o) && s.now == Clock(es)
    ensures HasTimer(s, o) && UseCloses(es, e, s.timers, CloseOnce(s, o).timers)
  {
  }

  /** Objects that e neither adds nor puts. */
  lemma ObjectsCarried(es: seq<Event>, e: Event, os: seq<Session>, os': seq<Session>)
    requires ObjectsAre(es, os) && !e.Open? && !e.Put? && |os'| == |os|
    requires forall o | 0 <= o < |os| :: os'[o].(timeoutCh := os[o].timeoutCh) == os[o]
    ensures ObjectsAre(es + [e], os')
  {
    Last(es, e);
  }

  lemma ObjectOpened(es: seq<Event>, e: Event, os: seq<Session>, x: Session)
    requires ObjectsAre(es, os) && e.Open? && x.id == e.id && x.timeout == e.timeout && !x.put
    ensures ObjectsAre(es + [e], os + [x])
  {
    Last(es, e);
  }

  lemma ObjectPut(es: seq<Event>, e: Event, os: seq<Session>)
    requires ObjectsAre(es, os) && e.Put? && e.o < |os|
    ensures ObjectsAre(es + [e], os[e.o := os[e.o].(put := true)])
  {
    Last(es, e);
  }

  lemma MapCarried(es: seq<Event>, e: Event, m: map<string, nat>)
    requires MapIs(es, m) && !e.Put? && !e.End?
    ensures MapIs(es + [e], m)
  {
    Last(es, e);
  }

  lemma MapPut(es: seq<Event>, e: Event, m: map<string, nat>, id: string)
    requires MapIs(es, m) && e.Put? && e.o < |Opened(es)| && Opened(es)[e.o].id == id
    ensures MapIs(es + [e], m[id := e.o])
  {
    Last(es, e);
  }

  lemma MapEnd(es: seq<Event>, e: Event, m: map<string, nat>)
    requires MapIs(es, m) && e.End?
    ensures MapIs(es + [e], m - {e.f.id})
  {
    Last(es, e);
  }

  lemma SentCarried(es: seq<Event>, e: Event, sent: set<nat>)
    requires SentIs(es, sent) && !e.Fire? && !e.Serve?
    ensures SentIs(es + [e], sent)
  {
  }

  lemma SentFired(es: seq<Event>, i: nat, sent: set<nat>)
    requires SentIs(es, sent) && Fire(i) !in es
    ensures SentIs(es + [Fire(i)], sent + {i})
  {
  }

  lemma SentServed(es: seq<Event>, i: nat, sent: set<nat>)
    requires SentIs(es, sent) && i in sent
    ensures SentIs(es + [Serve(i)], sent - {i})
  {
  }

  lemma ClockAndUses(es: seq<Event>, e: Event)
    ensures Clock(es + [e]) == Clock(es) + if e.Tick? then 1 else 0
    ensures Uses(es + [e]) == Uses(es) + if User(es, e).None? then [] else [Use(User(es, e).value, Clock(es), !e.End?)]
    ensures Pending(es + [e]) == Pending(es) + Got(es, e) - if e.End? then multiset{e.f} else multiset{}
  {
    Last(es, e);
  }

  // Each event keeps the state as told, part by part.

  lemma NoUse(es: seq<Event>, e: Event, ts: seq<Timer>)
    requires User(es, e).None?
    ensures UseCloses(es, e, ts, ts)
  {
  }

  lemma OpenTimers(es: seq<Event>, s: State, e: Event)
    requires s.now == Clock(es) && TimersAre(es, s.timers) && e.Open? && |s.objects| == |Opened(es)| && AllClosed(s.timers, |s.objects|)
    ensures TimersAre(es + [e], Next(s, e).value.timers)
  {
    Last(es, e);
    var t := Timer(|s.objects|, s.now, e.timeout, |s.past.uses| + 1, None, Waiting);
    assert Next(s, e).value.timers == s.timers + [t];
    TimersArmed(es, e, s.timers, s.timers, t);
  }

  lemma TouchArms(s: State, o: nat)
    requires HasTimer(s, o)
    ensures Next(s, Touch(o)).Some? && Next(s, Touch(o)).value.timers
         == CloseOnce(s, o).timers + [Timer(o, s.now, s.objects[o].timeout, |s.past.uses| + 1, None, Waiting)]
  {
  }

  lemma TouchTimers(es: seq<Event>, s: State, o: nat)
    requires Inv(s) && s.now == Clock(es) && TimersAre(es, s.timers) && o < |s.objects| == |Opened(es)|
    requires s.objects[o].timeout == Opened(es)[o].timeout
    ensures Next(s, Touch(o)).Some? && TimersAre(es + [Touch(o)], Next(s, Touch(o)).value.timers)
  {
    var e := Touch(o);
    Last(es, e);
    CloseOnceCloses(s, o, es, e);
    TouchArms(s, o);
    TimersArmed(es, e, s.timers, CloseOnce(s, o).timers, Timer(o, s.now, s.objects[o].timeout, |s.past.uses| + 1, None, Waiting));
  }

  lemma EndTimers(es: seq<Event>, s: State, f: Found)
    requires Inv(s) && s.now == Clock(es) && TimersAre(es, s.timers) && f.owner < |s.objects| && Next(s, End(f)).Some?
    ensures TimersAre(es + [End(f)], Next(s, End(f)).value.timers)
  {
    CloseOnceCloses(s, f.owner, es, End(f));
    TimersCarried(es, End(f), s.timers, CloseOnce(s, f.owner).timers);
  }

  lemma WakeTimers(es: seq<Event>, s: State, e: Event)
    requires s.now == Clock(es) && TimersAre(es, s.timers) && (e.Fire? || e.Leave?) && Next(s, e).Some?
    ensures TimersAre(es + [e], Next(s, e).value.timers)
  {
    TimersWoken(es, e, s.timers);
  }

  lemma TimersStep(es: seq<Event>, s: State, e: Event)
    requires Inv(s) && s.now == Clock(es) && TimersAre(es, s.timers) && ObjectsAre(es, s.objects) && Next(s, e).Some?
    ensures TimersAre(es + [e], Next(s, e).value.timers)
  {
    match e
    case Open(_, _) =>
      assert AllClosed(s.timers, |s.objects|);
      OpenTimers(es, s, e);
    case Touch(o) => TouchTimers(es, s, o);
    case End(f) => EndTimers(es, s, f);
    case Fire(_) => WakeTimers(es, s, e);
    case Leave(_) => WakeTimers(es, s, e);
    case _ =>
      NoUse(es, e, s.timers);
      TimersCarried(es, e, s.timers, s.timers);
  }

  lemma ObjectsStep(es: seq<Event>, s: State, e: Event)
    requires ObjectsAre(es, s.objects) && Next(s, e).Some?
    ensures ObjectsAre(es + [e], Next(s, e).value.objects)
  {
    match e
    case Open(id, timeout) =>
      var x := Session(id, timeout, |s.timers|, false);
      assert Next(s, e).value.objects == s.objects + [x];
      ObjectOpened(es, e, s.objects, x);
    case Put(_) => ObjectPut(es, e, s.objects);
    case Touch(o) => ObjectsCarried(es, e, s.objects, Next(s, e).value.objects);
    case _ => ObjectsCarried(es, e, s.objects, s.objects);
  }

  lemma MapStep(es: seq<Event>, s: State, e: Event)
    requires ObjectsAre(es, s.objects) && MapIs(es, s.sessions) && Next(s, e).Some?
    ensures MapIs(es + [e], Next(s, e).value.sessions)
  {
    match e
    case Put(o) => MapPut(es, e, s.sessions, s.objects[o].id);
    case End(_) => MapEnd(es, e, s.sessions);
    case _ => MapCarried(es, e, s.sessions);
  }

  lemma SentStep(es: seq<Event>, s: State, e: Event)
    requires TimersAre(es, s.timers) && SentIs(es, s.sent) && Next(s, e).Some?
    ensures SentIs(es + [e], Next(s, e).value.sent)
  {
    match e
    case Fire(i) =>
      assert TimerIs(es, i, Armings(es)[i], s.timers[i]);
      WokenIn(es, i);
      SentFired(es, i, s.sent);
    case Serve(i) => SentServed(es, i, s.sent);
    case _ => SentCarried(es, e, s.sent);
  }

  /** The DELETE that e lets past Get. */
  lemma GotStep(es: seq<Event>, s: State, e: Event)
    requires TimersAre(es, s.timers) && ObjectsAre(es, s.objects) && MapIs(es, s.sessions)
    requires Next(s, e).Some? && (e.Delete? || e.Serve?)
    ensures Next(s, e).value.found == s.found + Got(es, e)
  {
    var id := if e.Delete? then e.id else s.objects[s.timers[e.i].owner].id;
    if e.Serve? {
      assert TimerIs(es, e.i, Armings(es)[e.i], s.timers[e.i]);
    }
    assert Holder(es, id) == if id in s.sessions then Some(s.sessions[id]) else None;
  }

  lemma FoundElse(s: State, e: Event)
    requires Next(s, e).Some? && !e.Delete? && !e.Serve?
    ensures Next(s, e).value.found == s.found - if e.End? then multiset{e.f} else multiset{}
  {
  }

  lemma FoundStep(es: seq<Event>, s: State, e: Event)
    requires TimersAre(es, s.timers) && ObjectsAre(es, s.objects) && MapIs(es, s.sessions)
    requires s.found == Pending(es) && Next(s, e).Some?
    ensures Next(s, e).value.found == Pending(es + [e])
  {
    ClockAndUses(es, e);
    if e.Delete? || e.Serve? {
      GotStep(es, s, e);
    } else {
      FoundElse(s, e);
    }
  }

  /** What a step logs. */
  lemma Logged(s: State, e: Event)
    requires Next(s, e).Some?
    ensures Next(s, e).value.now == s.now + if e.Tick? then 1 else 0
    ensures Next(s, e).value.past.uses == s.past.uses
              + (if e.Open? then [Use(|s.objects|, s.now, true)]
                 else if e.Touch? then [Use(e.o, s.now, true)]
                 else if e.End? then [Use(e.f.owner, s.now, false)] else [])
  {
    match e
    case Touch(o) => assert CloseOnce(s, o).past.uses == s.past.uses;
    case End(f) => assert CloseOnce(s, f.owner).past.uses == s.past.uses;
    case _ =>
  }

  lemma LogStep(es: seq<Event>, s: State, e: Event)
    requires |s.objects| == |Opened(es)| && s.now == Clock(es) && s.past.uses == Uses(es) && Next(s, e).Some?
    ensures Next(s, e).value.now == Clock(es + [e]) && Next(s, e).value.past.uses == Uses(es + [e])
  {
    Logged(s, e);
    ClockAndUses(es, e);
  }

  lemma TallyThen(es: seq<Event>, e: Event)
    ensures var t, n := Tallied(es), Tallied(es + [e]);
            && n.releases == t.releases + (if e.End? then 1 else 0)
            && n.surplus == t.surplus + (if e.End? && Holder(es, e.f.id).None? then 1 else 0)
            && n.overwritten == t.overwritten
                 + if e.Put? && e.o < |Opened(es)| && Holder(es, Opened(es)[e.o].id).Some? then 1 else 0
  {
    Last(es, e);
  }

  /** What a step counts. */
  lemma Counted(s: State, e: Event)
    requires Next(s, e).Some?
    ensures var n := Next(s, e).value.past;
            && n.releases == s.past.releases + (if e.End? then 1 else 0)
            && n.surplus == s.past.surplus + (if e.End? && e.f.id !in s.sessions then 1 else 0)
            && n.overwritten == s.past.overwritten + (if e.Put? && s.objects[e.o].id in s.sessions then 1 else 0)
  {
    match e
    case Touch(o) => assert CloseOnce(s, o).past.(closes := s.past.closes) == s.past;
    case End(f) => assert CloseOnce(s, f.owner).past.(closes := s.past.closes) == s.past;
    case _ =>
  }

  lemma TallyStep(es: seq<Event>, s: State, e: Event)
    requires ObjectsAre(es, s.objects) && MapIs(es, s.sessions) && Next(s, e).Some?
    requires Tallies(s.past.releases, s.past.overwritten, s.past.surplus) == Tallied(es)
    ensures var n := Next(s, e).value.past; Tallies(n.releases, n.overwritten, n.surplus) == Tallied(es + [e])
  {
    Counted(s, e);
    TallyThen(es, e);
    if e.End? {
      assert Holder(es, e.f.id).Some? <==> e.f.id in s.sessions;
    } else if e.Put? {
      assert Holder(es, s.objects[e.o].id).Some? <==> s.objects[e.o].id in s.sessions;
    }
  }

  /** The whole state of every run is what the run tells. */
  lemma {:induction false} RunTells(es: seq<Event>)
    requires Run(INIT, es).Some?
    ensures Told(es, Run(INIT, es).value)
  {
    if es != [] {
      var before, e := es[..|es| - 1], es[|es| - 1];
      RunTells(before);
      InvRun(before);
      assert es == before + [e];
      var s := Run(INIT, before).value;
      LogStep(before, s, e);
      TimersStep(before, s, e);
      ObjectsStep(before, s, e);
      MapStep(before, s, e);
      SentStep(before, s, e);
      FoundStep(before, s, e);
      TallyStep(before, s, e);
    }
  }

  // What may happen next, and what was.

  /** When timer i is due. */
  function Due(es: seq<Event>, i: nat): nat
    requires i < |Armings(es)| && Armings(es)[i].owner < |Opened(es)|
  {
    Armings(es)[i].at + Opened(es)[Armings(es)[i].owner].timeout
  }

  /** Timer i was armed and not yet woken. */
  predicate Asleep(es: seq<Event>, i: nat) {
    i < |Armings(es)| && Armings(es)[i].owner < |Opened(es)| && Fire(i) !in es && Leave(i) !in es
  }

  /** When the channel of timer i was closed: its session was used. */
  function ClosedAt(es: seq<Event>, i: nat): Option<nat>
    requires i < |Armings(es)|
  {
    FirstUse(es, Armings(es)[i].place, Armings(es)[i].owner)
  }

  predicate Possible(es: seq<Event>, e: Event) {
    match e
    case Put(o) => o < |Opened(es)| && Put(o) !in es
    case Touch(o) => o < |Opened(es)|
    case Serve(i) => Fire(i) in es && Serve(i) !in es
    case End(f) => f in Pending(es)
    case Fire(i) => Asleep(es, i) && Due(es, i) <= Clock(es) && (ClosedAt(es, i).Some? ==> Due(es, i) <= ClosedAt(es, i).value)
    case Leave(i) => Asleep(es, i) && ClosedAt(es, i).Some?
    case _ => true
  }

  lemma AsleepTold(es: seq<Event>, s: State, i: nat)
    requires TimersAre(es, s.timers)
    ensures Asleep(es, i) <==> i < |s.timers| && s.timers[i].status.Waiting?
    ensures i < |s.timers| ==>
              Armings(es)[i].owner < |Opened(es)| && Due(es, i) == s.timers[i].Deadline() && ClosedAt(es, i) == s.timers[i].closed
  {
    if i < |s.timers| {
      assert TimerIs(es, i, Armings(es)[i], s.timers[i]);
      WokenIn(es, i);
    }
  }

  lemma WakePossible(es: seq<Event>, s: State, e: Event)
    requires TimersAre(es, s.timers) && s.now == Clock(es) && (e.Fire? || e.Leave?)
    ensures Next(s, e).Some? <==> Possible(es, e)
  {
    AsleepTold(es, s, e.i);
  }

  lemma ServePossible(es: seq<Event>, s: State, i: nat)
    requires Inv(s) && SentIs(es, s.sent)
    ensures Next(s, Serve(i)).Some? <==> Possible(es, Serve(i))
  {
    if i in s.sent {
      assert HasFired(s.timers, i);
    }
  }

  lemma PutPossible(es: seq<Event>, s: State, o: nat)
    requires ObjectsAre(es, s.objects)
    ensures Next(s, Put(o)).Some? <==> Possible(es, Put(o))
  {
    assert o < |s.objects| ==> (s.objects[o].put <==> Put(o) in es);
  }

  lemma TimerOfEach(s: State, o: nat)
    requires Inv(s)
    ensures HasTimer(s, o) <==> o < |s.objects|
  {
  }

  lemma FoundHasTimer(s: State, f: Found)
    requires Inv(s) && f in s.found
    ensures HasTimer(s, f.owner)
  {
    TimerOfEach(s, f.owner);
  }

  /** An event can come next exactly if the run so far allows it. */
  lemma PossibleExactly(es: seq<Event>, e: Event)
    requires Run(INIT, es).Some?
    ensures Next(Run(INIT, es).value, e).Some? <==> Possible(es, e)
  {
    RunTells(es);
    InvRun(es);
    var s := Run(INIT, es).value;
    match e
    case Fire(_) => WakePossible(es, s, e);
    case Leave(_) => WakePossible(es, s, e);
    case Serve(i) => ServePossible(es, s, i);
    case Put(o) => PutPossible(es, s, o);
    case Touch(o) => TimerOfEach(s, o);
    case End(f) =>
      if f in s.found {
        FoundHasTimer(s, f);
      }
    case _ =>
  }

  /** The event at place k uses session o. */
  predicate UsesAt(es: seq<Event>, k: int, o: nat) {
    0 <= k < |es| && User(es[..k], es[k]) == Some(o)
  }

  lemma {:induction false} FirstUseIsFirst(es: seq<Event>, place: nat, o: nat, k: nat)
    requires place < k && UsesAt(es, k, o)
    ensures FirstUse(es, place, o).Some? && FirstUse(es, place, o).value <= Clock(es[..k])
  {
    var before := es[..|es| - 1];
    if k < |es| - 1 {
      assert before[..k] == es[..k];
      FirstUseIsFirst(before, place, o, k);
    } else {
      FirstUseBefore(before, place, o);
    }
  }

  lemma {:induction false} FirstUseBefore(es: seq<Event>, place: nat, o: nat)
    ensures FirstUse(es, place, o).Some? ==> FirstUse(es, place, o).value <= Clock(es)
  {
    if |es| > place + 1 {
      FirstUseBefore(es[..|es| - 1], place, o);
    }
  }

  /** A timer that fires stays so. */
  lemma {:induction false} FiredStays(es: seq<Event>, i: nat, f: nat)
    requires Run(INIT, es).Some? && f < |es| && es[f] == Fire(i)
    ensures Woken(es, i) == Fired(Clock(es[..f]))
  {
    var before, e := es[..|es| - 1], es[|es| - 1];
    if f < |es| - 1 {
      assert before[..f] == es[..f];
      FiredStays(before, i, f);
      WokenIn(before, i);
      PossibleExactly(before, e);
    }
  }

  /**
   * A timer fires only at its deadline or later, and no event uses its session between its arming and
   * its deadline.
   */
  lemma FiresOnlyIdle(es: seq<Event>, i: nat, f: nat)
    requires Run(INIT, es).Some? && f < |es| && es[f] == Fire(i)
    ensures i < |Armings(es)| && Armings(es)[i].owner < |Opened(es)|
    ensures Due(es, i) <= Clock(es[..f])
    ensures forall k: nat | Armings(es)[i].place < k && UsesAt(es, k, Armings(es)[i].owner) :: Due(es, i) <= Clock(es[..k])
  {
    RunTells(es);
    InvRun(es);
    FiredStays(es, i, f);
    WokenIn(es, i);
    var s := Run(INIT, es).value;
    assert TimerIs(es, i, Armings(es)[i], s.timers[i]) && TimelyOne(s.now, s.timers[i]);
    forall k: nat | Armings(es)[i].place < k && UsesAt(es, k, Armings(es)[i].owner) ensures Due(es, i) <= Clock(es[..k]) {
      FirstUseIsFirst(es, Armings(es)[i].place, Armings(es)[i].owner, k);
    }
  }

  /** Where a timer was armed. */
  lemma {:induction false} ArmedThere(es: seq<Event>, i: nat)
    requires i < |Armings(es)|
    ensures var a := Armings(es)[i];
            UsesAt(es, a.place, a.owner) && Arms(es[a.place]) && a.at == Clock(es[..a.place])
  {
    var before := es[..|es| - 1];
    if i < |Armings(before)| {
      ArmedThere(before, i);
      var k := Armings(before)[i].place;
      assert before[..k] == es[..k];
    } else {
      assert es[..|before|] == before;
    }
  }

  lemma OpenArms(s: State, e: Event)
    requires e.Open?
    ensures Next(s, e).Some? && Next(s, e).value.timers
         == s.timers + [Timer(|s.objects|, s.now, e.timeout, |s.past.uses| + 1, None, Waiting)]
  {
  }

  /** The timer of session o that was armed last is its current one, and its only open one. */
  lemma LastIsCurrent(s: State, t: Timer)
    requires Inv(s) && s.timers != [] && s.timers[|s.timers| - 1] == t && t.closed.None?
    ensures var c, o := |s.timers| - 1, t.owner;
            && HasTimer(s, o) && s.objects[o].timeoutCh == c
            && forall i | 0 <= i < c && s.timers[i].owner == o :: s.timers[i].closed.Some?
  {
  }

  /** The timer that e arms in state s. */
  lemma Rearms(s: State, e: Event)
    requires Inv(s) && Arms(e) && (e.Touch? ==> e.o < |s.objects|)
    ensures var o := if e.Touch? then e.o else |s.objects|;
            var timeout := if e.Touch? then s.objects[o].timeout else e.timeout;
            && Next(s, e).Some?
            && Next(s, e).value.timers != []
            && var n := Next(s, e).value;
               n.timers[|n.timers| - 1] == Timer(o, s.now, timeout, |s.past.uses| + 1, None, Waiting)
  {
    if e.Touch? {
      CloseOnceKeeps(s, e.o);
      TouchArms(s, e.o);
    } else {
      OpenArms(s, e);
    }
  }

  /** t is the current timer of its session, armed last and alone with its channel open. */
  ghost predicate ArmedAlone(s: State, t: Timer) {
    && HasTimer(s, t.owner) && s.timers != []
    && s.objects[t.owner].timeoutCh == |s.timers| - 1 && s.timers[|s.timers| - 1] == t
    && forall i | 0 <= i < |s.timers| - 1 && s.timers[i].owner == t.owner :: s.timers[i].closed.Some?
  }

  lemma NextArmedAlone(s: State, e: Event)
    requires Inv(s) && Arms(e) && (e.Touch? ==> e.o < |s.objects|)
    ensures var o := if e.Touch? then e.o else |s.objects|;
            var timeout := if e.Touch? then s.objects[o].timeout else e.timeout;
            Next(s, e).Some? && ArmedAlone(Next(s, e).value, Timer(o, s.now, timeout, |s.past.uses| + 1, None, Waiting))
  {
    Rearms(s, e);
    InvStep(s, e);
    var n := Next(s, e).value;
    LastIsCurrent(n, n.timers[|n.timers| - 1]);
  }

  lemma BasicsTold(es: seq<Event>, o: nat)
    requires Run(INIT, es).Some?
    ensures var s := Run(INIT, es).value;
            && s.now == Clock(es) && s.past.uses == Uses(es) && |s.objects| == |Opened(es)|
            && (o < |s.objects| ==> s.objects[o].timeout == Opened(es)[o].timeout)
  {
    RunTells(es);
  }

  lemma RunThen(es: seq<Event>, e: Event, s: State)
    requires Run(INIT, es) == Some(s)
    ensures Run(INIT, es + [e]) == Next(s, e)
  {
    Last(es, e);
  }

  /** The timeout of the session that e uses. */
  function TimeoutOf(es: seq<Event>, e: Event): nat
    requires Arms(e) && Possible(es, e)
  {
    if e.Open? then e.timeout else Opened(es)[e.o].timeout
  }

  /**
   * After a request for a session, or its creation, the session's current timer is one that was armed
   * then, with the session's timeout, and is the only one whose channel is open.
   */
  lemma TouchRearms(es: seq<Event>, e: Event)
    requires Run(INIT, es).Some? && Arms(e) && Possible(es, e)
    ensures var s := Run(INIT, es + [e]);
            s.Some? && ArmedAlone(s.value, Timer(User(es, e).value, Clock(es), TimeoutOf(es, e), |Uses(es)| + 1, None, Waiting))
  {
    var s := Run(INIT, es).value;
    BasicsTold(es, User(es, e).value);
    InvRun(es);
    NextArmedAlone(s, e);
    RunThen(es, e, s);
  }

  /** The event at place k is the use u. */
  predicate IsUse(es: seq<Event>, k: int, u: Use) {
    UsesAt(es, k, u.owner) && u.at == Clock(es[..k]) && u.keeps == !es[k].End?
  }

  lemma IsUseBefore(es: seq<Event>, k: int, u: Use)
    requires 0 <= k < |es| - 1
    ensures IsUse(es, k, u) <==> IsUse(es[..|es| - 1], k, u)
  {
    assert es[..|es| - 1][..k] == es[..k];
  }

  lemma IsUseLast(es: seq<Event>, u: Use)
    requires es != []
    ensures u in Uses(es) <==> u in Uses(es[..|es| - 1]) || IsUse(es, |es| - 1, u)
  {
  }

  lemma {:induction false} UsesAtPlaces(es: seq<Event>, u: Use)
    ensures u in Uses(es) <==> exists k :: IsUse(es, k, u)
  {
    if es != [] {
      var before := es[..|es| - 1];
      UsesAtPlaces(before, u);
      IsUseLast(es, u);
      if k :| IsUse(before, k, u) {
        IsUseBefore(es, k, u);
      }
      if k :| IsUse(es, k, u) && k < |es| - 1 {
        IsUseBefore(es, k, u);
      }
    }
  }
}
