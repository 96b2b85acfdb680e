/** Why the one-DELETE hypothesis is there: proxy does not look again after taking the session's lock. */
module AdmissionRace {
  import opened Wrappers
  import opened Admission
  import opened AdmissionTheorems

  /** m is the state after some run of a queue of size 1, with the given shared part. */
  ghost predicate Reached(m: State, es: seq<Event>, c: Channels, sessions: map<string, nat>, n: nat) {
    Run(Init(1, false), es) == Some(m) && m.size == 1
    && m.shared.chan == c && m.shared.book.sessions == sessions && |m.threads| == n
  }

  lemma OneMore(m: State, es: seq<Event>, e: Event) returns (m': State, es': seq<Event>)
    requires Run(Init(1, false), es) == Some(m) && Next(m, e).Some?
    ensures Run(Init(1, false), es') == Some(m') && Next(m, e) == Some(m')
  {
    es', m' := es + [e], Next(m, e).value;
    assert es'[..|es|] == es;
  }

  /** A request in an empty queue of size 1 takes the token. */
  lemma OneToken() returns (m: State, es: seq<Event>)
    ensures Reached(m, es, Channels(1, 0, 0, 0, 1), map[], 1) && m.threads[0] == Protect(Holding)
  {
    m, es := OneMore(Init(1, false), [], Arrive(false));
    m, es := OneMore(m, es, Do(0, Advance));
    m, es := OneMore(m, es, Do(0, Advance));
  }

  /** It reaches create. */
  lemma OneRequest() returns (m: State, es: seq<Event>)
    ensures Reached(m, es, Channels(1, 0, 1, 0, 0), map[], 1) && m.threads[0] == Create(Creating)
  {
    m, es := OneToken();
    m, es := OneMore(m, es, Push);
    m, es := OneMore(m, es, Do(0, Advance));
    m, es := OneMore(m, es, Do(0, Advance));
  }

  /** Its service starts and session "a" is put. */
  lemma OneStored() returns (m: State, es: seq<Event>)
    ensures Reached(m, es, Channels(1, 0, 1, 0, 0), map["a" := 0], 1) && m.threads[0] == Create(Stored)
  {
    m, es := OneRequest();
    m, es := OneMore(m, es, Do(0, Start));
    m, es := OneMore(m, es, Do(0, Store("a")));
  }

  lemma OneSession() returns (m: State, es: seq<Event>)
    ensures Reached(m, es, Channels(1, 0, 0, 1, 0), map["a" := 0], 1) && m.threads[0] == Create(Served)
  {
    m, es := OneStored();
    m, es := OneMore(m, es, Do(0, Advance));
    m, es := OneMore(m, es, Do(0, Advance));
  }

  /** Two DELETEs of "a" both pass Get. */
  lemma TwoFound() returns (m: State, es: seq<Event>)
    ensures Reached(m, es, Channels(1, 0, 0, 1, 0), map["a" := 0], 3)
    ensures m.threads == [Create(Served), Delete(Found("a", 0)), Delete(Found("a", 0))]
  {
    m, es := OneSession();
    m, es := OneMore(m, es, ArriveDelete("a"));
    m, es := OneMore(m, es, ArriveDelete("a"));
    m, es := OneMore(m, es, Do(1, Advance));
    m, es := OneMore(m, es, Do(2, Advance));
  }

  /** The first takes the session's lock, removes and releases; only then does the second, and removes nothing. */
  lemma TwoRemoved() returns (m: State, es: seq<Event>)
    ensures Reached(m, es, Channels(0, 0, 0, 0, 0), map[], 3)
    ensures m.threads == [Create(Served), Delete(Released(0)), Delete(Removed(0))]
  {
    m, es := TwoFound();
    m, es := OneMore(m, es, Do(1, Advance));
    m, es := OneMore(m, es, Do(1, Advance));
    m, es := OneMore(m, es, Do(1, Advance));
    m, es := OneMore(m, es, Do(2, Advance));
  }

  /**
   * The second Release waits for a token that nobody has: but for new requests, only the
   * first DELETE can move, to run its cancel, and that does not help.
   */
  lemma RaceStrandsRelease() returns (m: State, es: seq<Event>)
    ensures Run(Init(1, false), es) == Some(m) && 2 < |m.threads| && AtReceive(m.threads[2])
    ensures forall e: Event | Next(m, e).Some? :: e.Arrive? || e.ArriveDelete? || e == Do(1, Advance)
    ensures Next(m, Do(1, Advance)).Some? && Next(Next(m, Do(1, Advance)).value, Do(2, Advance)).None?
  {
    m, es := TwoRemoved();
    forall e: Event | Next(m, e).Some? ensures e.Arrive? || e.ArriveDelete? || e == Do(1, Advance) {
      OnlyOneMoves(m, e);
    }
  }

  lemma OnlyOneMoves(m: State, e: Event)
    requires m.shared.chan == Channels(0, 0, 0, 0, 0) && Next(m, e).Some?
    requires m.threads == [Create(Served), Delete(Released(0)), Delete(Removed(0))]
    ensures e.Arrive? || e.ArriveDelete? || e == Do(1, Advance)
  {
  }

  /** A request comes later, and the second Release takes its token. */
  lemma TokenStolen() returns (m: State, es: seq<Event>)
    ensures Reached(m, es, Channels(0, 0, 0, 0, 0), map[], 4)
    ensures m.threads == [Create(Served), Delete(Released(0)), Delete(HalfReleased(0)), Protect(Got)]
  {
    m, es := TwoRemoved();
    m, es := OneMore(m, es, Arrive(false));
    m, es := OneMore(m, es, Do(3, Advance));
    m, es := OneMore(m, es, Do(2, Advance));
  }

  /** So another request comes in. */
  lemma TwoAdmitted() returns (m: State, es: seq<Event>)
    ensures Reached(m, es, Channels(1, 0, 0, 0, 0), map[], 5)
    ensures m.threads == [Create(Served), Delete(Released(0)), Delete(HalfReleased(0)), Protect(Got), Protect(Got)]
  {
    m, es := TokenStolen();
    m, es := OneMore(m, es, Arrive(false));
    m, es := OneMore(m, es, Do(4, Advance));
  }

  lemma BothTook(ts: seq<Thread>)
    requires ts == [Create(Served), Delete(Released(0)), Delete(HalfReleased(0)), Protect(Got), Protect(Got)]
    ensures {3, 4} <= Holders(ts) && !NoneTwice(ts, TookSlot)
  {
    assert OwnerAt(ts, 1) == OwnerAt(ts, 2) && TookSlot(ts[1]) && TookSlot(ts[2]);
    assert forall o | o in Owners(ts, TookSlot) :: o == 0;
  }

  /** So a queue of size 1 admits two requests at once: more hold a slot than there are tokens in limit. */
  lemma RaceAdmitsTwo() returns (m: State, es: seq<Event>)
    ensures Run(Init(1, false), es) == Some(m) && m.shared.chan.limit == m.size == 1
    ensures {3, 4} <= Holders(m.threads) && |Holders(m.threads)| > m.size
  {
    m, es := TwoAdmitted();
    BothTook(m.threads);
    HoldersLaw(1, false, es);
  }
}
