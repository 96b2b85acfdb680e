/** What the idle timers do for a hub over whole runs: releases, reaping, forgetting, and reaping too early. */
module TimerTheorems {
  import opened Wrappers
  import opened IdleTimers

  // Runs, one after the other.

  lemma RunAppend(s: State, es: seq<Event>, e: Event)
    requires Run(s, es).Some?
    ensures Run(s, es + [e]) == Next(Run(s, es).value, e)
  {
    assert (es + [e])[..|es|] == es;
  }

  lemma {:induction false} RunConcat(s: State, es: seq<Event>, fs: seq<Event>)
    requires Run(s, es).Some?
    ensures Run(s, es + fs) == Run(Run(s, es).value, fs)
  {
    if fs == [] {
      assert es + fs == es;
    } else {
      var n := |fs| - 1;
      RunConcat(s, es, fs[..n]);
      assert (es + fs)[..|es + fs| - 1] == es + fs[..n];
    }
  }

  function Ticks(n: nat): seq<Event> { seq(n, _ => Tick) }

  lemma {:induction false} RunTicks(s: State, n: nat)
    ensures Run(s, Ticks(n)) == Some(s.(now := s.now + n))
  {
    if n > 0 {
      assert Ticks(n)[..n - 1] == Ticks(n - 1);
      RunTicks(s, n - 1);
    }
  }

  // Releases.

  function Puts(es: seq<Event>): nat {
    if es == [] then 0 else Puts(es[..|es| - 1]) + if es[|es| - 1].Put? then 1 else 0
  }

  /** A DELETE under the lock finds its session still in the map. */
  predicate InTimeEnd(s: State, e: Event) { e.End? ==> e.f.id in s.sessions }

  /** So does every DELETE of the run. */
  ghost predicate InTimeEnds(s: State, es: seq<Event>) {
    es == [] ||
    var prefix := es[..|es| - 1];
    InTimeEnds(s, prefix) && (Run(s, prefix).Some? ==> InTimeEnd(Run(s, prefix).value, es[|es| - 1]))
  }

  /** Sessions put: in the map, overwritten there, or released; less the releases of nothing. */
  function Accounted(s: State): int {
    s.past.releases + |s.sessions| + s.past.overwritten - s.past.surplus
  }

  lemma PutAccounted(s: State, o: nat)
    requires o < |s.objects|
    ensures Accounted(PutSession(s, o)) == Accounted(s) + 1 && PutSession(s, o).past.surplus == s.past.surplus
  {
    var id := s.objects[o].id;
    assert s.sessions[id := o].Keys == s.sessions.Keys + {id};
  }

  lemma RemoveAccounted(s: State, f: Found)
    ensures Accounted(Remove(s, f)) == Accounted(s)
    ensures Remove(s, f).past.surplus == s.past.surplus + if f.id in s.sessions then 0 else 1
  {
    assert (s.sessions - {f.id}).Keys == s.sessions.Keys - {f.id};
  }

  lemma ElseAccounted(s: State, e: Event)
    requires Next(s, e).Some? && !e.Put? && !e.End?
    ensures Next(s, e).value.sessions == s.sessions
    ensures Next(s, e).value.past.(closes := s.past.closes, uses := s.past.uses) == s.past
  {
  }

  lemma AccountedStep(s: State, e: Event)
    requires Next(s, e).Some?
    ensures Accounted(Next(s, e).value) == Accounted(s) + if e.Put? then 1 else 0
    ensures Next(s, e).value.past.surplus == s.past.surplus + if InTimeEnd(s, e) then 0 else 1
  {
    if e.Put? {
      PutAccounted(s, e.o);
    } else if e.End? {
      var c := Record(CloseOnce(s, e.f.owner), e.f.owner, false);
      assert Accounted(c) == Accounted(s) && c.sessions == s.sessions && c.past.surplus == s.past.surplus;
      RemoveAccounted(c, e.f);
    } else {
      ElseAccounted(s, e);
    }
  }

  /**
   * In every run, however DELETEs of timers and clients interleave: a slot is released once
   * for each session that was put and is gone without having been overwritten, and once
   * more for each DELETE that came to the lock after its session was gone. The releases
   * stay within the Puts exactly if these are no more than the overwritten sessions, and
   * there are none exactly if every DELETE still found its session.
   */
  lemma {:induction false} ReleasesLaw(es: seq<Event>)
    requires Run(INIT, es).Some?
    ensures var s := Run(INIT, es).value;
            && s.past.releases + |s.sessions| == Puts(es) - s.past.overwritten + s.past.surplus
            && (s.past.releases + |s.sessions| <= Puts(es) <==> s.past.surplus <= s.past.overwritten)
            && (s.past.surplus == 0 <==> InTimeEnds(INIT, es))
  {
    if es != [] {
      ReleasesLaw(es[..|es| - 1]);
      AccountedStep(Run(INIT, es[..|es| - 1]).value, es[|es| - 1]);
    }
  }

  /** One more event of a run. */
  lemma Then(es: seq<Event>, s: State, e: Event) returns (es': seq<Event>, s': State)
    requires Run(INIT, es) == Some(s) && Next(s, e).Some?
    ensures Next(s, e) == Some(s') && Run(INIT, es') == Some(s')
    ensures Puts(es') == Puts(es) + if e.Put? then 1 else 0
  {
    es', s' := es + [e], Next(s, e).value;
    RunAppend(INIT, es, e);
    assert es'[..|es|] == es;
  }

  /** A session is opened. */
  lemma OneOpened(id: string, timeout: nat) returns (es: seq<Event>, s: State)
    ensures Run(INIT, es) == Some(s) && Puts(es) == 0
    ensures s == State(0, [Timer(0, 0, timeout, 1, None, Waiting)], [Session(id, timeout, 0, false)], map[], {}, multiset{},
                       Past([], [Use(0, 0, true)], 0, 0, 0))
  {
    es, s := Then([], INIT, Open(id, timeout));
    assert s.timers == [Timer(0, 0, timeout, 1, None, Waiting)] && s.objects == [Session(id, timeout, 0, false)];
    assert s.past.uses == [Use(0, 0, true)];
  }

  /** And put. */
  lemma OnePut(id: string, timeout: nat) returns (es: seq<Event>, s: State)
    ensures Run(INIT, es) == Some(s) && Puts(es) == 1
    ensures s == State(0, [Timer(0, 0, timeout, 1, None, Waiting)], [Session(id, timeout, 0, true)], map[id := 0], {}, multiset{},
                       Past([], [Use(0, 0, true)], 0, 0, 0))
  {
    es, s := OneOpened(id, timeout);
    es, s := Then(es, s, Put(0));
    assert s.objects == [Session(id, timeout, 0, true)] && s.sessions == map[id := 0];
  }

  /** Its timer fires at its deadline. */
  lemma OneFired(id: string) returns (es: seq<Event>, s: State)
    ensures Run(INIT, es) == Some(s) && Puts(es) == 1
    ensures s.sessions == map[id := 0] && s.sent == {0} && s.found == multiset{} && s.past.releases == 0
    ensures s.objects == [Session(id, 0, 0, true)] && |s.timers| == 1 && s.timers[0].owner == 0
  {
    es, s := OnePut(id, 0);
    es, s := Then(es, s, Fire(0));
  }

  /** Its DELETE and a client's both pass Get. */
  lemma BothFound(id: string) returns (es: seq<Event>, s: State)
    ensures Run(INIT, es) == Some(s) && Puts(es) == 1
    ensures s.sessions == map[id := 0] && s.past.releases == 0 && HasTimer(s, 0)
    ensures s.found == multiset{Found(id, 0, None), Found(id, 0, Some(0))}
  {
    es, s := OneFired(id);
    es, s := Then(es, s, Delete(id));
    es, s := Then(es, s, Serve(0));
  }

  lemma OneEnded(s: State, f: Found)
    requires HasTimer(s, f.owner) && f in s.found
    ensures Next(s, End(f)).Some?
    ensures var n := Next(s, End(f)).value;
            && n.sessions == s.sessions - {f.id} && n.found == s.found - multiset{f}
            && n.past.releases == s.past.releases + 1 && forall o :: HasTimer(n, o) == HasTimer(s, o)
  {
  }

  /** Then one session is released twice. */
  lemma TwoDeletesReleaseTwice(id: string) returns (es: seq<Event>)
    ensures Run(INIT, es).Some? && Puts(es) == 1 && Run(INIT, es).value.past.releases == 2
  {
    var s;
    es, s := BothFound(id);
    OneEnded(s, Found(id, 0, None));
    es, s := Then(es, s, End(Found(id, 0, None)));
    OneEnded(s, Found(id, 0, Some(0)));
    es, s := Then(es, s, End(Found(id, 0, Some(0))));
  }

  // Who will end a session.

  /** Timer i belongs to an object with this id. */
  predicate OfId(ts: seq<Timer>, os: seq<Session>, i: int, id: string) {
    0 <= i < |ts| && ts[i].owner < |os| && os[ts[i].owner].id == id
  }

  ghost predicate NoneArmed(ts: seq<Timer>, os: seq<Session>, id: string) {
    forall i | OfId(ts, os, i, id) :: !ts[i].Armed()
  }

  ghost predicate NoneMayFire(ts: seq<Timer>, os: seq<Session>, id: string) {
    forall i | OfId(ts, os, i, id) :: !ts[i].MayFire()
  }

  /** No DELETE of the id is on its way. */
  ghost predicate NoneSent(ts: seq<Timer>, os: seq<Session>, sent: set<nat>, id: string) {
    forall i | i in sent :: !OfId(ts, os, i, id)
  }

  /** Nor is one past Get. */
  ghost predicate NoneFound(found: multiset<Found>, id: string) {
    forall f | f in found :: f.id != id
  }

  ghost predicate NoDelete(s: State, id: string) {
    NoneSent(s.timers, s.objects, s.sent, id) && NoneFound(s.found, id)
  }

  /** Something is sure to come for the session if nobody uses it: an armed timer, or a DELETE. */
  ghost predicate Watched(s: State, id: string) {
    !(NoneArmed(s.timers, s.objects, id) && NoDelete(s, id))
  }

  /** Something may still come for the session: also a timer whose channel was closed too late. */
  ghost predicate Reapable(s: State, id: string) {
    !(NoneMayFire(s.timers, s.objects, id) && NoDelete(s, id))
  }

  /** Only time passes, timers fire and their DELETEs are served. */
  predicate Quiet(e: Event) { e.Tick? || e.Fire? || e.Serve? || e.End? }

  ghost predicate AllQuiet(es: seq<Event>) { forall e | e in es :: Quiet(e) }

  ghost predicate Reaps(s: State, es: seq<Event>, id: string) {
    AllQuiet(es) && Run(s, es).Some? && id !in Run(s, es).value.sessions
  }

  lemma ReapsLater(s: State, es: seq<Event>, fs: seq<Event>, id: string)
    requires AllQuiet(es) && Run(s, es).Some? && Reaps(Run(s, es).value, fs, id)
    ensures Reaps(s, es + fs, id)
  {
    RunConcat(s, es, fs);
  }

  lemma RunOne(s: State, e: Event)
    ensures Run(s, [e]) == Next(s, e)
  {
    assert [e][..0] == [];
  }

  lemma ReapFound(s: State, f: Found)
    requires Inv(s) && f in s.found
    ensures Reaps(s, [End(f)], f.id)
  {
    EndKeeps(s, f);
    RunOne(s, End(f));
  }

  lemma ReapSent(s: State, i: nat, id: string) returns (es: seq<Event>)
    requires Inv(s) && i in s.sent && OfId(s.timers, s.objects, i, id) && id in s.sessions
    ensures Reaps(s, es, id)
  {
    var f := Found(id, s.sessions[id], Some(i));
    InvStep(s, Serve(i));
    RunOne(s, Serve(i));
    ReapFound(Next(s, Serve(i)).value, f);
    ReapsLater(s, [Serve(i)], [End(f)], id);
    es := [Serve(i)] + [End(f)];
  }

  lemma ReapDue(s: State, i: nat, id: string) returns (es: seq<Event>)
    requires Inv(s) && OfId(s.timers, s.objects, i, id) && s.timers[i].MayFire() && s.timers[i].Deadline() <= s.now && id in s.sessions
    ensures Reaps(s, es, id)
  {
    InvStep(s, Fire(i));
    RunOne(s, Fire(i));
    var rest := ReapSent(Next(s, Fire(i)).value, i, id);
    ReapsLater(s, [Fire(i)], rest, id);
    es := [Fire(i)] + rest;
  }

  lemma ReapTimer(s: State, i: nat, id: string) returns (es: seq<Event>)
    requires Inv(s) && OfId(s.timers, s.objects, i, id) && s.timers[i].MayFire() && id in s.sessions
    ensures Reaps(s, es, id)
  {
    var n := if s.timers[i].Deadline() <= s.now then 0 else s.timers[i].Deadline() - s.now;
    RunTicks(s, n);
    InvFrom(s, Ticks(n));
    var rest := ReapDue(s.(now := s.now + n), i, id);
    ReapsLater(s, Ticks(n), rest, id);
    es := Ticks(n) + rest;
  }

  lemma Reap(s: State, id: string) returns (es: seq<Event>)
    requires Inv(s) && id in s.sessions && Reapable(s, id)
    ensures Reaps(s, es, id)
  {
    if !NoneFound(s.found, id) {
      var f :| f in s.found && f.id == id;
      ReapFound(s, f);
      es := [End(f)];
    } else if !NoneSent(s.timers, s.objects, s.sent, id) {
      var i :| i in s.sent && OfId(s.timers, s.objects, i, id);
      es := ReapSent(s, i, id);
    } else {
      var i :| OfId(s.timers, s.objects, i, id) && s.timers[i].MayFire();
      es := ReapTimer(s, i, id);
    }
  }

  /** A watched session that nobody uses is reaped by time, its timer and a DELETE alone. */
  lemma IdleSessionIsReaped(es: seq<Event>, id: string) returns (rest: seq<Event>)
    requires Run(INIT, es).Some?
    requires id in Run(INIT, es).value.sessions && Watched(Run(INIT, es).value, id)
    ensures Reaps(Run(INIT, es).value, rest, id)
  {
    InvRun(es);
    rest := Reap(Run(INIT, es).value, id);
  }

  // Who is forgotten.

  /** The event is no request for a session with this id, and no new session under it. */
  predicate Spares(s: State, e: Event, id: string) {
    match e
    case Open(x, _) => x != id
    case Put(o) => o < |s.objects| ==> s.objects[o].id != id
    case Touch(o) => o < |s.objects| ==> s.objects[o].id != id
    case Delete(x) => x != id
    case _ => true
  }

  ghost predicate AllSpare(s: State, es: seq<Event>, id: string) {
    es == [] ||
    var prefix := es[..|es| - 1];
    AllSpare(s, prefix, id) && (Run(s, prefix).Some? ==> Spares(Run(s, prefix).value, es[|es| - 1], id))
  }

  /** In the map, with nothing that may ever come for it. */
  ghost predicate Forgotten(s: State, id: string) {
    id in s.sessions && !Reapable(s, id)
  }

  /** A timer that changes, but not its owner, and not to one that may fire. */
  lemma SetSpares(ts: seq<Timer>, os: seq<Session>, i: nat, t: Timer, sent: set<nat>, id: string)
    requires i < |ts| && t.owner == ts[i].owner && (t.MayFire() ==> ts[i].MayFire())
    requires NoneMayFire(ts, os, id) && NoneSent(ts, os, sent, id)
    ensures NoneMayFire(ts[i := t], os, id) && NoneSent(ts[i := t], os, sent, id)
  {
    assert forall j :: OfId(ts[i := t], os, j, id) <==> OfId(ts, os, j, id);
  }

  /** Objects that change, but not their ids. */
  lemma ObjectsSpare(ts: seq<Timer>, os: seq<Session>, os': seq<Session>, sent: set<nat>, id: string)
    requires |os| <= |os'| && forall o | 0 <= o < |os| :: os'[o].id == os[o].id
    requires forall i | 0 <= i < |ts| :: ts[i].owner < |os|
    requires NoneMayFire(ts, os, id) && NoneSent(ts, os, sent, id)
    ensures NoneMayFire(ts, os', id) && NoneSent(ts, os', sent, id)
  {
    assert forall j :: OfId(ts, os', j, id) <==> OfId(ts, os, j, id);
  }

  /** A new timer of an object with another id. */
  lemma NewSpares(ts: seq<Timer>, os: seq<Session>, t: Timer, sent: set<nat>, id: string)
    requires t.owner < |os| && os[t.owner].id != id && forall i | i in sent :: i < |ts|
    requires NoneMayFire(ts, os, id) && NoneSent(ts, os, sent, id)
    ensures NoneMayFire(ts + [t], os, id) && NoneSent(ts + [t], os, sent, id)
  {
    assert forall j :: OfId(ts + [t], os, j, id) <==> OfId(ts, os, j, id);
  }

  lemma CloseSpares(s: State, o: nat, id: string)
    requires Inv(s) && Forgotten(s, id) && o < |s.objects|
    ensures HasTimer(s, o) && Forgotten(CloseOnce(s, o), id)
  {
    var i := s.objects[o].timeoutCh;
    if s.timers[i].closed.None? {
      SetSpares(s.timers, s.objects, i, s.timers[i].(closed := Some(s.now)), s.sent, id);
    }
  }

  lemma ArmSpares(s: State, o: nat, id: string)
    requires Inv(s) && Forgotten(s, id) && o < |s.objects| && s.objects[o].id != id
    ensures Forgotten(Arm(s, o), id)
  {
    var n := Arm(s, o);
    ObjectsSpare(s.timers, s.objects, n.objects, s.sent, id);
    NewSpares(s.timers, n.objects, n.timers[|s.timers|], s.sent, id);
  }

  lemma UseAndArmSpare(s: State, o: nat, id: string)
    requires Inv(s) && AllClosed(s.timers, o) && Forgotten(s, id) && o < |s.objects| && s.objects[o].id != id
    ensures Forgotten(Arm(Record(s, o, true), o), id)
  {
    RecordKeeps(s, o, true);
    ArmSpares(Record(s, o, true), o, id);
  }

  lemma TouchSpares(s: State, o: nat, id: string)
    requires Inv(s) && Forgotten(s, id) && o < |s.objects| && s.objects[o].id != id
    ensures Next(s, Touch(o)).Some? && Forgotten(Next(s, Touch(o)).value, id)
  {
    CloseOnceKeeps(s, o);
    CloseSpares(s, o, id);
    UseAndArmSpare(CloseOnce(s, o), o, id);
  }

  lemma OpenSpares(s: State, x: string, timeout: nat, id: string)
    requires Inv(s) && Forgotten(s, id) && x != id
    ensures Forgotten(Next(s, Open(x, timeout)).value, id)
  {
    var n := Next(s, Open(x, timeout)).value;
    ObjectsSpare(s.timers, s.objects, n.objects, s.sent, id);
    NewSpares(s.timers, n.objects, n.timers[|s.timers|], s.sent, id);
  }

  lemma PutSpares(s: State, o: nat, id: string)
    requires Inv(s) && Forgotten(s, id) && Next(s, Put(o)).Some? && s.objects[o].id != id
    ensures Forgotten(Next(s, Put(o)).value, id)
  {
    ObjectsSpare(s.timers, s.objects, Next(s, Put(o)).value.objects, s.sent, id);
  }

  lemma EndSpares(s: State, f: Found, id: string)
    requires Inv(s) && Forgotten(s, id) && f in s.found
    ensures f.id != id && Next(s, End(f)).Some? && Forgotten(Next(s, End(f)).value, id)
  {
    CloseSpares(s, f.owner, id);
  }

  lemma WakeSpares(s: State, e: Event, id: string)
    requires Forgotten(s, id) && (e.Fire? || e.Leave?) && Next(s, e).Some?
    ensures Forgotten(Next(s, e).value, id)
  {
    SetSpares(s.timers, s.objects, e.i, Next(s, e).value.timers[e.i], s.sent, id);
    var n := Next(s, e).value;
    assert OfId(n.timers, n.objects, e.i, id) <==> OfId(s.timers, s.objects, e.i, id);
  }

  lemma GetSpares(s: State, e: Event, id: string)
    requires Forgotten(s, id) && (e.Serve? || e.Delete?) && Spares(s, e, id) && Next(s, e).Some?
    ensures Forgotten(Next(s, e).value, id)
  {
    if e.Serve? {
      assert !OfId(s.timers, s.objects, e.i, id);
    }
  }

  /** A step that spares a forgotten session leaves it forgotten. */
  lemma SparedStep(s: State, e: Event, id: string)
    requires Inv(s) && Forgotten(s, id) && Spares(s, e, id) && Next(s, e).Some?
    ensures Forgotten(Next(s, e).value, id)
  {
    match e
    case Tick =>
    case Open(x, timeout) => OpenSpares(s, x, timeout, id);
    case Put(o) => PutSpares(s, o, id);
    case Touch(o) => TouchSpares(s, o, id);
    case Delete(x) => GetSpares(s, e, id);
    case Serve(i) => GetSpares(s, e, id);
    case End(f) => EndSpares(s, f, id);
    case Fire(i) => WakeSpares(s, e, id);
    case Leave(i) => WakeSpares(s, e, id);
  }

  /** Such a step does not change the session's entry in the map. */
  lemma SparedEntry(s: State, e: Event, id: string)
    requires Inv(s) && Forgotten(s, id) && Spares(s, e, id) && Next(s, e).Some?
    ensures id in Next(s, e).value.sessions && Next(s, e).value.sessions[id] == s.sessions[id]
  {
    SparedStep(s, e, id);
    if !e.Put? && !e.End? {
      ElseAccounted(s, e);
    }
  }

  /** A forgotten session stays in the map as it is, whatever else happens, until a request for it comes. */
  lemma {:induction false} ForgottenStays(s: State, es: seq<Event>, id: string)
    requires Inv(s) && Forgotten(s, id) && Run(s, es).Some? && AllSpare(s, es, id)
    ensures Forgotten(Run(s, es).value, id) && Run(s, es).value.sessions[id] == s.sessions[id]
  {
    if es != [] {
      var prefix := es[..|es| - 1];
      ForgottenStays(s, prefix, id);
      InvFrom(s, prefix);
      SparedStep(Run(s, prefix).value, es[|es| - 1], id);
      SparedEntry(Run(s, prefix).value, es[|es| - 1], id);
    }
  }

  lemma {:induction false} QuietSpares(s: State, es: seq<Event>, id: string)
    requires AllQuiet(es)
    ensures AllSpare(s, es, id)
  {
    if es != [] {
      QuietSpares(s, es[..|es| - 1], id);
      assert Quiet(es[|es| - 1]);
    }
  }

  /** A session can be reaped by time, timers and their DELETEs alone exactly if one of these may still come for it. */
  lemma ReapableExactly(es: seq<Event>, id: string)
    requires Run(INIT, es).Some? && id in Run(INIT, es).value.sessions
    ensures Reapable(Run(INIT, es).value, id) <==> exists rest :: Reaps(Run(INIT, es).value, rest, id)
  {
    InvRun(es);
    var s := Run(INIT, es).value;
    if Reapable(s, id) {
      var rest := Reap(s, id);
    } else {
      forall rest | AllQuiet(rest) && Run(s, rest).Some? ensures !Reaps(s, rest, id) {
        QuietSpares(s, rest, id);
        ForgottenStays(s, rest, id);
      }
    }
  }

  // No session is forgotten, if it is put in time.

  lemma SetWatched(ts: seq<Timer>, os: seq<Session>, i: nat, t: Timer, id: string)
    requires i < |ts| && t.owner == ts[i].owner && !NoneArmed(ts, os, id) && (ts[i].Armed() ==> t.Armed())
    ensures !NoneArmed(ts[i := t], os, id)
  {
    var j :| OfId(ts, os, j, id) && ts[j].Armed();
    assert OfId(ts[i := t], os, j, id) && ts[i := t][j].Armed();
  }

  lemma NewWatched(ts: seq<Timer>, os: seq<Session>, os': seq<Session>, t: Timer, sent: set<nat>, id: string)
    requires |os| <= |os'| && forall o | 0 <= o < |os| :: os'[o].id == os[o].id
    ensures !NoneArmed(ts, os, id) ==> !NoneArmed(ts + [t], os', id)
    ensures !NoneSent(ts, os, sent, id) ==> !NoneSent(ts + [t], os', sent, id)
  {
    assert forall j :: OfId(ts, os, j, id) ==> OfId(ts + [t], os', j, id) && (ts + [t])[j] == ts[j];
  }

  lemma SetSent(ts: seq<Timer>, os: seq<Session>, i: nat, t: Timer, sent: set<nat>, id: string)
    requires i < |ts| && t.owner == ts[i].owner
    ensures NoneSent(ts[i := t], os, sent, id) <==> NoneSent(ts, os, sent, id)
  {
    assert forall j :: OfId(ts[i := t], os, j, id) <==> OfId(ts, os, j, id);
  }

  /** Closing the channel of a session with another id. */
  lemma CloseWatched(s: State, o: nat, id: string)
    requires Inv(s) && Watched(s, id) && o < |s.objects| && s.objects[o].id != id
    ensures HasTimer(s, o) && Watched(CloseOnce(s, o), id)
  {
    var i := s.objects[o].timeoutCh;
    if s.timers[i].closed.None? {
      var t := s.timers[i].(closed := Some(s.now));
      SetSent(s.timers, s.objects, i, t, s.sent, id);
      if !NoneArmed(s.timers, s.objects, id) {
        var j :| OfId(s.timers, s.objects, j, id) && s.timers[j].Armed();
        assert j != i && OfId(s.timers[i := t], s.objects, j, id) && s.timers[i := t][j].Armed();
      }
    }
  }

  /** An armed timer of its own. */
  lemma ArmWatches(s: State, o: nat)
    requires o < |s.objects|
    ensures Watched(Arm(s, o), s.objects[o].id)
  {
    var n := Arm(s, o);
    assert OfId(n.timers, n.objects, |s.timers|, s.objects[o].id) && n.timers[|s.timers|].Armed();
  }

  lemma ArmWatched(s: State, o: nat, id: string)
    requires Watched(s, id) && o < |s.objects|
    ensures Watched(Arm(s, o), id)
  {
    var n := Arm(s, o);
    NewWatched(s.timers, s.objects, n.objects, n.timers[|s.timers|], s.sent, id);
  }

  lemma OpenWatched(s: State, x: string, timeout: nat, id: string)
    requires Watched(s, id)
    ensures Watched(Next(s, Open(x, timeout)).value, id)
  {
    var n := Next(s, Open(x, timeout)).value;
    NewWatched(s.timers, s.objects, n.objects, n.timers[|s.timers|], s.sent, id);
  }

  lemma TouchWatched(s: State, o: nat, id: string)
    requires Inv(s) && Watched(s, id) && o < |s.objects|
    ensures Watched(Next(s, Touch(o)).value, id)
  {
    var c := CloseOnce(s, o);
    if s.objects[o].id == id {
      ArmWatches(Record(c, o, true), o);
    } else {
      CloseWatched(s, o, id);
      ArmWatched(Record(c, o, true), o, id);
    }
  }

  lemma EndWatched(s: State, f: Found, id: string)
    requires Inv(s) && Watched(s, id) && f in s.found && f.id != id
    ensures Next(s, End(f)).Some? && Watched(Next(s, End(f)).value, id)
  {
    CloseWatched(s, f.owner, id);
    if !NoneFound(s.found, id) {
      var g :| g in s.found && g.id == id;
      assert g in s.found - multiset{f};
    }
  }

  lemma FireWatched(s: State, i: nat, id: string)
    requires Watched(s, id) && Next(s, Fire(i)).Some?
    ensures Watched(Next(s, Fire(i)).value, id)
  {
    var n := Next(s, Fire(i)).value;
    assert forall j :: OfId(n.timers, n.objects, j, id) <==> OfId(s.timers, s.objects, j, id);
    if !NoneSent(s.timers, s.objects, s.sent, id) {
      var j :| j in s.sent && OfId(s.timers, s.objects, j, id);
      assert j in n.sent;
    } else if !NoneArmed(s.timers, s.objects, id) {
      var j :| OfId(s.timers, s.objects, j, id) && s.timers[j].Armed();
      assert if j == i then j in n.sent else n.timers[j].Armed();
    }
  }

  lemma LeaveWatched(s: State, i: nat, id: string)
    requires Watched(s, id) && Next(s, Leave(i)).Some?
    ensures Watched(Next(s, Leave(i)).value, id)
  {
    var t := Next(s, Leave(i)).value.timers[i];
    SetSent(s.timers, s.objects, i, t, s.sent, id);
    if !NoneArmed(s.timers, s.objects, id) {
      SetWatched(s.timers, s.objects, i, t, id);
    }
  }

  lemma PutWatched(s: State, o: nat, id: string)
    requires Next(s, Put(o)).Some?
    ensures Watched(Next(s, Put(o)).value, id) <==> Watched(s, id)
  {
    var n := Next(s, Put(o)).value;
    assert forall j :: OfId(n.timers, n.objects, j, id) <==> OfId(s.timers, s.objects, j, id);
  }

  /** A DELETE that arrives for a session in the map is past Get then. */
  lemma GetWatched(s: State, e: Event, id: string)
    requires Watched(s, id) && id in s.sessions && (e.Serve? || e.Delete?) && Next(s, e).Some?
    ensures Watched(Next(s, e).value, id)
  {
    var n := Next(s, e).value;
    if !NoneFound(s.found, id) {
      var f :| f in s.found && f.id == id;
      assert f in n.found;
    } else if e.Serve? && OfId(s.timers, s.objects, e.i, id) {
      assert Found(id, s.sessions[id], Some(e.i)) in n.found;
    } else if !NoneSent(s.timers, s.objects, s.sent, id) {
      var j :| j in s.sent && OfId(s.timers, s.objects, j, id);
      assert j in n.sent;
    }
  }

  /** A watched session stays watched while it is in the map. */
  lemma WatchedStep(s: State, e: Event, id: string)
    requires Inv(s) && Watched(s, id) && Next(s, e).Some? && id in Next(s, e).value.sessions
    ensures Watched(Next(s, e).value, id)
  {
    match e
    case Tick =>
    case Open(x, timeout) => OpenWatched(s, x, timeout, id);
    case Put(o) => PutWatched(s, o, id);
    case Touch(o) => TouchWatched(s, o, id);
    case Delete(x) => GetWatched(s, e, id);
    case Serve(i) => GetWatched(s, e, id);
    case End(f) => EndWatched(s, f, id);
    case Fire(i) => FireWatched(s, i, id);
    case Leave(i) => LeaveWatched(s, i, id);
  }

  /** At some point of the run the id is not in the map. */
  ghost predicate Gone(s: State, es: seq<Event>, id: string) {
    exists n :: 0 <= n <= |es| && Run(s, es[..n]).Some? && id !in Run(s, es[..n]).value.sessions
  }

  /**
   * A watched session is sure to be removed: whatever happens, a run that ends with neither an
   * armed timer nor a DELETE for it has removed it on the way.
   */
  lemma {:induction false} NothingLeftMeansGone(s: State, es: seq<Event>, id: string)
    requires Inv(s) && Watched(s, id) && Run(s, es).Some?
    ensures Watched(Run(s, es).value, id) || Gone(s, es, id)
  {
    if es != [] {
      var prefix, end := es[..|es| - 1], Run(s, es).value;
      NothingLeftMeansGone(s, prefix, id);
      if Gone(s, prefix, id) {
        var n :| 0 <= n <= |prefix| && Run(s, prefix[..n]).Some? && id !in Run(s, prefix[..n]).value.sessions;
        assert es[..n] == prefix[..n];
      } else if id in end.sessions {
        InvFrom(s, prefix);
        WatchedStep(Run(s, prefix).value, es[|es| - 1], id);
      } else {
        assert es[..|es|] == es;
      }
    }
  }

  ghost predicate AllWatched(s: State) {
    forall id | id in s.sessions :: Watched(s, id)
  }

  /** A Put comes while the session's timer is armed, or its DELETE has not yet ended. */
  ghost predicate PutInTime(s: State, e: Event) {
    e.Put? && e.o < |s.objects| ==> Watched(s, s.objects[e.o].id)
  }

  /** So does every Put of the run. */
  ghost predicate PutsInTime(es: seq<Event>) {
    es == [] ||
    var prefix := es[..|es| - 1];
    PutsInTime(prefix) && (Run(INIT, prefix).Some? ==> PutInTime(Run(INIT, prefix).value, es[|es| - 1]))
  }

  lemma AllWatchedStep(s: State, e: Event)
    requires Inv(s) && AllWatched(s) && Next(s, e).Some?
    ensures AllWatched(Next(s, e).value) <==> PutInTime(s, e)
  {
    var n := Next(s, e).value;
    forall id | id in n.sessions && Watched(s, id) ensures Watched(n, id) {
      WatchedStep(s, e, id);
    }
    if e.Put? {
      var id := s.objects[e.o].id;
      PutWatched(s, e.o, id);
      assert id in n.sessions;
    } else if !e.End? {
      ElseAccounted(s, e);
    }
  }

  /** After every step of the run every session in the map is watched. */
  ghost predicate AlwaysWatched(es: seq<Event>) {
    es == [] ||
    (AlwaysWatched(es[..|es| - 1]) && (Run(INIT, es).Some? ==> AllWatched(Run(INIT, es).value)))
  }

  /** A run never leaves a session in the map unwatched exactly if its Puts are in time. */
  lemma {:induction false} NoSessionForgotten(es: seq<Event>)
    requires Run(INIT, es).Some?
    ensures AlwaysWatched(es) <==> PutsInTime(es)
    ensures PutsInTime(es) ==> AllWatched(Run(INIT, es).value)
  {
    if es != [] {
      var prefix := es[..|es| - 1];
      NoSessionForgotten(prefix);
      InvRun(prefix);
      if PutsInTime(prefix) {
        AllWatchedStep(Run(INIT, prefix).value, es[|es| - 1]);
      }
    }
  }

  /**
   * create arms the timer before it puts the session. If the timer fires and its DELETE is
   * served in between, the session is forgotten: no later step that spares it removes it.
   */
  lemma LatePutIsForgotten(id: string) returns (es: seq<Event>, s: State)
    ensures Run(INIT, es) == Some(s) && Forgotten(s, id)
    ensures forall rest | Run(s, rest).Some? && AllSpare(s, rest, id) :: id in Run(s, rest).value.sessions
  {
    es, s := OneOpened(id, 0);
    es, s := Then(es, s, Fire(0));
    es, s := Then(es, s, Serve(0));
    assert s.sent == {} && s.found == multiset{} && |s.timers| == 1 && s.timers[0].status.Fired?;
    es, s := Then(es, s, Put(0));
    assert id in s.sessions;
    InvRun(es);
    forall rest | Run(s, rest).Some? && AllSpare(s, rest, id) ensures id in Run(s, rest).value.sessions {
      ForgottenStays(s, rest, id);
    }
  }
}
