/** Safety and progress of admission over all runs, and what racing DELETEs take away from it. */
module AdmissionTheorems {
  import opened Wrappers
  import opened Tally
  import opened Admission
  import opened AdmissionLaws
  import opened AdmissionDiscipline

  predicate HoldsSlot(t: Thread) { W(t).limit == 1 }

  /** A DELETE that has taken its session's token out of limit. */
  predicate TookSlot(t: Thread) { t.Delete? && (t.delete.HalfReleased? || t.delete.Released? || t.delete.Deleted?) }

  predicate ServiceUp(t: Thread) {
    && t.Create?
    && (t.create.Started? || t.create.Panicked? || t.create.Stored? || t.create.HalfCreated? || t.create.Served?)
    && (t.create.Panicked? ==> t.create.service)
  }

  /** Holds a slot without a running service. */
  predicate SlotOnly(t: Thread) { HoldsSlot(t) && !ServiceUp(t) }

  /** A DELETE whose session is torn down and still has its token. */
  predicate AtRelease(t: Thread) { t.Delete? && t.delete.Removed? }

  /** Whose session thread u deletes; 0 if it is not a DELETE past Remove. */
  function OwnerAt(ts: seq<Thread>, u: nat): nat {
    if u < |ts| && PastRemove(ts[u]) then ts[u].delete.owner else 0
  }

  /** The sessions that the DELETEs at q are for. */
  ghost function Owners(ts: seq<Thread>, q: Thread -> bool): set<nat> {
    set u | u in Where(ts, q) :: OwnerAt(ts, u)
  }

  /** No two DELETEs at q are for the same session. */
  ghost predicate NoneTwice(ts: seq<Thread>, q: Thread -> bool) {
    forall u, v | 0 <= u < |ts| && 0 <= v < |ts| && q(ts[u]) && q(ts[v]) && OwnerAt(ts, u) == OwnerAt(ts, v) :: u == v
  }

  /** Slot holders: an admitted request until it settles, then its session until its Release. */
  ghost function Holders(ts: seq<Thread>): set<nat> { Where(ts, HoldsSlot) - Owners(ts, TookSlot) }

  /** Requests whose service was started and is not being torn down. */
  ghost function Running(ts: seq<Thread>): set<nat> { Where(ts, ServiceUp) - Owners(ts, PastRemove) }

  lemma OwnersSize(ts: seq<Thread>, q: Thread -> bool)
    ensures |Owners(ts, q)| <= Count(ts, q)
    ensures |Owners(ts, q)| == Count(ts, q) <==> NoneTwice(ts, q)
  {
    var f: nat -> nat := u => OwnerAt(ts, u);
    assert Owners(ts, q) == Image(Where(ts, q), f);
    ImageSize(Where(ts, q), f);
    WhereCount(ts, q);
    assert Injective(Where(ts, q), f) <==> NoneTwice(ts, q) by {
      assert forall u: nat :: f(u) == OwnerAt(ts, u);
      assert forall u: nat | u < |ts| && q(ts[u]) :: u in Where(ts, q);
      if Injective(Where(ts, q), f) {
        forall u, v | 0 <= u < |ts| && 0 <= v < |ts| && q(ts[u]) && q(ts[v]) && OwnerAt(ts, u) == OwnerAt(ts, v)
          ensures u == v
        {
          assert f(u) == f(v);
        }
      }
    }
  }

  lemma SubsetSize(a: set<nat>, b: set<nat>)
    requires b <= a
    ensures |a - b| == |a| - |b|
  {
    assert a == (a - b) + b;
  }

  /** Those at p whose session no DELETE at q is taking away. */
  lemma StandingSize(m: map<string, nat>, ts: seq<Thread>, p: Thread -> bool, q: Thread -> bool)
    requires Named(m, ts)
    requires forall t | q(t) :: PastRemove(t)
    requires forall t | IsSession(t) :: p(t)
    ensures |Where(ts, p) - Owners(ts, q)| == Count(ts, p) - |Owners(ts, q)|
  {
    forall o | o in Owners(ts, q) ensures o in Where(ts, p) {
      var u :| u in Where(ts, q) && OwnerAt(ts, u) == o;
      assert SessionAt(ts, ts[u].delete.owner);
    }
    SubsetSize(Where(ts, p), Owners(ts, q));
    WhereCount(ts, p);
  }

  /** A thread's token, and what it is for. */
  lemma HolderWeight(t: Thread)
    ensures W(t).limit == (if HoldsSlot(t) then 1 else 0) - (if TookSlot(t) then 1 else 0)
    ensures ServiceUp(t) ==> HoldsSlot(t)
    ensures PastRemove(t) <==> TookSlot(t) || AtRelease(t)
  {
  }

  lemma {:induction false} HolderWeights(ts: seq<Thread>)
    ensures Count(ts, HoldsSlot) - Count(ts, TookSlot) == Total(ts, W).limit
    ensures Count(ts, HoldsSlot) == Count(ts, ServiceUp) + Count(ts, SlotOnly)
    ensures Count(ts, PastRemove) == Count(ts, TookSlot) + Count(ts, AtRelease)
  {
    if ts != [] {
      HolderWeights(ts[..|ts| - 1]);
      HolderWeight(ts[|ts| - 1]);
    }
  }

  lemma HoldersCount(m: map<string, nat>, ts: seq<Thread>)
    requires Named(m, ts)
    ensures |Holders(ts)| == Total(ts, W).limit + Count(ts, TookSlot) - |Owners(ts, TookSlot)|
  {
    HolderWeights(ts);
    StandingSize(m, ts, HoldsSlot, TookSlot);
  }

  /**
   * How many hold a slot, in every state of every run: the tokens in limit, and one more for
   * each DELETE that took a token for a session whose token was already taken. So holders
   * stay within limit exactly if no two DELETEs took a token for the same session.
   */
  lemma HoldersLaw(size: nat, disabled: bool, es: seq<Event>)
    requires Run(Init(size, disabled), es).Some?
    ensures var s := Run(Init(size, disabled), es).value;
            var c, ts := s.shared.chan, s.threads;
            && |Holders(ts)| == c.limit + Count(ts, TookSlot) - |Owners(ts, TookSlot)|
            && (|Holders(ts)| <= c.limit <==> NoneTwice(ts, TookSlot))
  {
    ConservedRun(size, disabled, es);
    NamedRun(size, disabled, es);
    var s := Run(Init(size, disabled), es).value;
    HoldersCount(s.shared.book.sessions, s.threads);
    OwnersSize(s.threads, TookSlot);
  }

  /**
   * How many services run: limit has a token for each, for each slot without a service, and
   * for each session just removed, but one too few for each DELETE of a session that another
   * is deleting. So services stay within limit exactly if these are no more than the former.
   */
  lemma RunningLaw(size: nat, disabled: bool, es: seq<Event>)
    requires Run(Init(size, disabled), es).Some?
    ensures var s := Run(Init(size, disabled), es).value;
            var c, ts := s.shared.chan, s.threads;
            var twice := Count(ts, PastRemove) - |Owners(ts, PastRemove)|;
            && |Running(ts)| + Count(ts, SlotOnly) + Count(ts, AtRelease) == c.limit + twice
            && (|Running(ts)| <= c.limit <==> twice <= Count(ts, SlotOnly) + Count(ts, AtRelease))
            && (twice == 0 <==> NoneTwice(ts, PastRemove))
  {
    ConservedRun(size, disabled, es);
    NamedRun(size, disabled, es);
    var s := Run(Init(size, disabled), es).value;
    HolderWeights(s.threads);
    StandingSize(s.shared.book.sessions, s.threads, ServiceUp, PastRemove);
    OwnersSize(s.threads, PastRemove);
  }

  lemma OrderlyTakesOnce(s: State)
    requires Orderly(s)
    ensures NoneTwice(s.threads, TookSlot) && NoneTwice(s.threads, PastRemove)
  {
  }

  /**
   * The admission bound: in every state of every run in which DELETEs do not race, the
   * holders of a slot are exactly the tokens in limit, so never more than the size;
   * sessions.Len() and the running services obey the same bound. Ids may be reused.
   */
  lemma {:induction false} SlotBound(size: nat, disabled: bool, es: seq<Event>)
    requires Run(Init(size, disabled), es).Some? && OneDeletes(Init(size, disabled), es)
    ensures var s := Run(Init(size, disabled), es).value;
            && |s.shared.book.sessions| <= s.shared.chan.limit <= size
            && |Holders(s.threads)| == s.shared.chan.limit
            && |Running(s.threads)| <= s.shared.chan.limit
  {
    OrderlyRun(size, disabled, es);
    LenBound(size, disabled, es);
    HoldersLaw(size, disabled, es);
    RunningLaw(size, disabled, es);
    OrderlyTakesOnce(Run(Init(size, disabled), es).value);
    OwnersSize(Run(Init(size, disabled), es).value.threads, TookSlot);
  }

  // Progress: no receive is stuck.

  /** A thread at a receive of the queue, other than the select of a waiting request. */
  predicate AtReceive(t: Thread) {
    match t
    case Protect(p) => p.Cancelled? || p.Accepting?
    case Create(p) => p.Dropping? || p.HalfDropped? || p.Stored?
    case Delete(p) => p.Removed? || p.HalfReleased?
  }

  /** After the run es, in which t does not move, t can move. */
  ghost predicate Unblocks(s: State, es: seq<Event>, t: nat) {
    && (forall e | e in es :: e.Do? ==> e.t != t)
    && Run(s, es).Some? && Next(Run(s, es).value, Do(t, Advance)).Some?
  }

  lemma RunOne(s: State, e: Event)
    ensures Run(s, [e]) == Next(s, e)
  {
    assert [e][..0] == [];
  }

  lemma RunTwo(s: State, e: Event, e': Event)
    requires Next(s, e).Some?
    ensures Run(s, [e, e']) == Next(Next(s, e).value, e')
  {
    assert [e, e'][..1] == [e];
    RunOne(s, e);
  }

  /** Before the receive from limit, in Drop or in Release. */
  predicate BeforeLimitReceive(t: Thread) {
    (t.Create? && t.create.Dropping?) || (t.Delete? && t.delete.Removed?)
  }

  /**
   * In any state such a thread finds a token exactly if the Removes that removed nothing are
   * fewer than the sessions, overwritten ones included, and the tokens without a session.
   */
  lemma LimitReceiveExactly(s: State, t: nat)
    requires Conserved(s) && t < |s.threads| && BeforeLimitReceive(s.threads[t])
    ensures var b := s.shared.book;
            Next(s, Do(t, Advance)).Some? <==> b.surplus < |b.sessions| + b.overwritten + Count(s.threads, Sessionless)
  {
    ExactGaps(s);
  }

  /** So it does where every Remove removed something: sessions account for none of the others' tokens. */
  lemma LimitNeverBlocks(s: State, t: nat)
    requires Conserved(s) && s.shared.book.surplus == 0 && t < |s.threads| && BeforeLimitReceive(s.threads[t])
    ensures Next(s, Do(t, Advance)).Some?
  {
    LimitReceiveExactly(s, t);
    CountPositive(s.threads, t, Sessionless);
  }

  predicate BeforeUsedReceive(t: Thread) { t.Delete? && t.delete.HalfReleased? }

  lemma HalfCreatedSupplies(s: State, u: nat, t: nat)
    requires t < |s.threads| && BeforeUsedReceive(s.threads[t]) && s.shared.chan.used < MAX_INT32
    requires u < |s.threads| && s.threads[u] == Create(HalfCreated)
    ensures u != t && Next(s, Do(u, Advance)).Some? && Next(Next(s, Do(u, Advance)).value, Do(t, Advance)).Some?
  {
  }

  lemma HalfCreatedUnblocks(s: State, u: nat, t: nat)
    requires t < |s.threads| && BeforeUsedReceive(s.threads[t]) && s.shared.chan.used < MAX_INT32
    requires u < |s.threads| && s.threads[u] == Create(HalfCreated)
    ensures Unblocks(s, [Do(u, Advance)], t)
  {
    HalfCreatedSupplies(s, u, t);
    RunOne(s, Do(u, Advance));
  }

  lemma StoredSupplies(s: State, u: nat, t: nat)
    requires Conserved(s) && t < |s.threads| && BeforeUsedReceive(s.threads[t]) && s.shared.chan.used < MAX_INT32
    requires u < |s.threads| && s.threads[u] == Create(Stored)
    ensures Unblocks(s, [Do(u, Advance), Do(u, Advance)], t)
  {
    PendingNeverBlocks(s, u);
    var e := Do(u, Advance);
    RunTwo(s, e, e);
    HalfCreatedSupplies(Next(s, e).value, u, t);
  }

  lemma TokenUnblocks(s: State, t: nat)
    requires t < |s.threads| && BeforeUsedReceive(s.threads[t]) && s.shared.chan.used > 0
    ensures Unblocks(s, [], t)
  {
  }

  /** The Removes that removed nothing are fewer than the sessions, overwritten or being released ones included. */
  ghost predicate UsedSuffices(s: State) {
    s.shared.book.surplus < |s.shared.book.sessions| + s.shared.book.overwritten + Count(s.threads, BeforeReleased)
  }

  /** In any state there is a token in used, or a Create about to send one, exactly then. */
  lemma UsedExactly(s: State)
    requires Conserved(s)
    ensures s.shared.chan.used + Count(s.threads, BeforeUsed) > 0 <==> UsedSuffices(s)
  {
    ExactGaps(s);
  }

  lemma SomeUnfinishedCreate(s: State) returns (u: nat)
    requires Conserved(s) && UsedSuffices(s) && s.shared.chan.used == 0
    ensures u < |s.threads| && s.threads[u] in {Create(Stored), Create(HalfCreated)}
  {
    UsedExactly(s);
    u := CountWitness(s.threads, BeforeUsed);
  }

  /** A Release before the receive from used finds a token, or a half-done Create is one or two steps from sending it. */
  lemma UsedIsSupplied(s: State, t: nat) returns (es: seq<Event>)
    requires Conserved(s) && UsedSuffices(s) && t < |s.threads| && s.shared.chan.used < MAX_INT32
    requires BeforeUsedReceive(s.threads[t])
    ensures |es| <= 2 && Unblocks(s, es, t)
  {
    if s.shared.chan.used > 0 {
      TokenUnblocks(s, t);
      return [];
    }
    var u := SomeUnfinishedCreate(s);
    if s.threads[u] == Create(Stored) {
      StoredSupplies(s, u, t);
      return [Do(u, Advance), Do(u, Advance)];
    } else {
      HalfCreatedUnblocks(s, u, t);
      return [Do(u, Advance)];
    }
  }

  /**
   * In every state of a run without racing DELETEs, and with room in the three large channels, a thread at
   * a receive can move at once or after at most two steps of others.
   */
  lemma {:induction false} NoReceiveIsStuck(size: nat, disabled: bool, es: seq<Event>, t: nat) returns (help: seq<Event>)
    requires Run(Init(size, disabled), es).Some? && OneDeletes(Init(size, disabled), es)
    requires var s := Run(Init(size, disabled), es).value;
             && t < |s.threads| && AtReceive(s.threads[t])
             && s.shared.chan.queued < 0x7FFF_FFFF && s.shared.chan.used < 0x7FFF_FFFF
    ensures |help| <= 2 && Unblocks(Run(Init(size, disabled), es).value, help, t)
  {
    ConservedRun(size, disabled, es);
    OrderlyRun(size, disabled, es);
    var s := Run(Init(size, disabled), es).value;
    help := [];
    match s.threads[t]
    case Protect(_) =>
      QueuedIsSupplied(s, t);
      if Next(s, Do(t, Advance)).None? {
        RunOne(s, Push);
        help := [Push];
      }
    case Create(p) =>
      if p.Dropping? { LimitNeverBlocks(s, t); } else { PendingNeverBlocks(s, t); }
    case Delete(p) =>
      if p.Removed? {
        LimitNeverBlocks(s, t);
      } else {
        CountPositive(s.threads, t, BeforeReleased);
        help := UsedIsSupplied(s, t);
      }
  }

  // Teardown: the cancel of a started service.

  predicate IsDeletedOf(t: Thread, o: nat) { t.Delete? && t.delete.Deleted? && t.delete.owner == o }

  /** The DELETEs that have run the cancel of o's service. */
  ghost function DeletedOf(ts: seq<Thread>, o: nat): set<nat> { set u: nat | u < |ts| && IsDeletedOf(ts[u], o) }

  /** How often the cancel of the service that request o started has run. */
  ghost function CancelCalls(ts: seq<Thread>, o: nat): nat {
    |DeletedOf(ts, o)| + if o < |ts| && ts[o] == Create(Failed(true)) then 1 else 0
  }

  lemma AtMostOne(s: set<nat>)
    requires forall u, v | u in s && v in s :: u == v
    ensures |s| <= 1
  {
    if s != {} {
      var u :| u in s;
      assert s == {u};
    }
  }

  lemma Both(s: set<nat>, u: nat, v: nat)
    requires u in s && v in s && |s| <= 1
    ensures u == v
  {
    assert |s - {u}| == |s| - 1;
    assert s == {u} + (s - {u});
  }

  predicate IsDeleted(t: Thread) { t.Delete? && t.delete.Deleted? }

  /** If there is one, the service did not fail before, and it is not running. */
  lemma DeletedOnce(m: map<string, nat>, ts: seq<Thread>, o: nat)
    requires Named(m, ts)
    ensures DeletedOf(ts, o) != {} ==> CancelCalls(ts, o) == |DeletedOf(ts, o)| && o !in Running(ts)
  {
    if u :| u in DeletedOf(ts, o) {
      assert SessionAt(ts, ts[u].delete.owner);
      assert u in Where(ts, PastRemove) && OwnerAt(ts, u) == o;
    }
  }

  ghost predicate CancelledOnce(ts: seq<Thread>) { forall o: nat :: CancelCalls(ts, o) <= 1 }

  lemma SameSession(m: map<string, nat>, ts: seq<Thread>, u: nat, v: nat)
    requires Named(m, ts) && CancelledOnce(ts) && u < |ts| && v < |ts|
    requires IsDeleted(ts[u]) && IsDeleted(ts[v]) && OwnerAt(ts, u) == OwnerAt(ts, v)
    ensures u == v
  {
    var o := OwnerAt(ts, u);
    assert u in DeletedOf(ts, o) && v in DeletedOf(ts, o);
    DeletedOnce(m, ts, o);
    assert CancelCalls(ts, o) <= 1;
    Both(DeletedOf(ts, o), u, v);
  }

  lemma CancelsNamed(m: map<string, nat>, ts: seq<Thread>)
    requires Named(m, ts)
    ensures CancelledOnce(ts) <==> NoneTwice(ts, IsDeleted)
  {
    if NoneTwice(ts, IsDeleted) {
      forall o: nat ensures CancelCalls(ts, o) <= 1 {
        DeletedOnce(m, ts, o);
        AtMostOne(DeletedOf(ts, o));
      }
    }
    if CancelledOnce(ts) {
      forall u, v | 0 <= u < |ts| && 0 <= v < |ts| && IsDeleted(ts[u]) && IsDeleted(ts[v]) && OwnerAt(ts, u) == OwnerAt(ts, v)
        ensures u == v
      {
        SameSession(m, ts, u, v);
      }
    }
  }

  /**
   * In every run: no service is cancelled while it is running, and each at most once exactly if no
   * two DELETEs that are over were for the same session.
   */
  lemma CancelLaw(size: nat, disabled: bool, es: seq<Event>)
    requires Run(Init(size, disabled), es).Some?
    ensures var ts := Run(Init(size, disabled), es).value.threads;
            && (forall o: nat :: o in Running(ts) ==> CancelCalls(ts, o) == 0)
            && (CancelledOnce(ts) <==> NoneTwice(ts, IsDeleted))
  {
    NamedRun(size, disabled, es);
    var s := Run(Init(size, disabled), es).value;
    CancelsNamed(s.shared.book.sessions, s.threads);
    forall o: nat ensures o in Running(s.threads) ==> CancelCalls(s.threads, o) == 0 {
      DeletedOnce(s.shared.book.sessions, s.threads, o);
    }
  }

  /** In a run without racing DELETEs, at most once. */
  lemma {:induction false} CancelledAtMostOnce(size: nat, disabled: bool, es: seq<Event>, o: nat)
    requires Run(Init(size, disabled), es).Some? && OneDeletes(Init(size, disabled), es)
    ensures var ts := Run(Init(size, disabled), es).value.threads;
            CancelCalls(ts, o) <= 1 && (o in Running(ts) ==> CancelCalls(ts, o) == 0)
  {
    OrderlyRun(size, disabled, es);
    OrderlyTakesOnce(Run(Init(size, disabled), es).value);
    CancelLaw(size, disabled, es);
  }

  // Rest: what the counters and the ready flag say when nothing is in progress.

  predicate Finished(t: Thread) {
    match t
    case Protect(p) => p.Rejected? || p.Gone?
    case Create(p) => p.Failed? || p.Panicked? || p.Served?
    case Delete(p) => p.Deleted? || p.Unknown?
  }

  /** The next request would take a token without waiting. */
  ghost predicate Admits(s: State, noWait: bool) {
    var arrived := Next(s, Arrive(noWait)).value;
    var moved := Next(arrived, Do(|s.threads|, Advance));
    moved.Some? && moved.value.threads[|s.threads|] == Protect(Got)
  }

  ghost predicate AdmitsAtOnce(s: State) { Admits(s, false) && Admits(s, true) }

  lemma FinishedWeights(t: Thread)
    requires Finished(t)
    ensures Sessionless(t) <==> IsPanicked(t)
    ensures W(t).pending == (if IsPanicked(t) then 1 else 0) && W(t).queued == 0
    ensures !BeforeUsed(t) && !BeforeReleased(t)
  {
  }

  lemma {:induction false} PanickedCounts(ts: seq<Thread>)
    requires forall t | 0 <= t < |ts| :: Finished(ts[t])
    ensures Count(ts, Sessionless) == Count(ts, IsPanicked) == Total(ts, W).pending
    ensures Count(ts, BeforeUsed) == Count(ts, BeforeReleased) == 0
    ensures Total(ts, W).queued == 0
  {
    if ts != [] {
      PanickedCounts(ts[..|ts| - 1]);
      FinishedWeights(ts[|ts| - 1]);
    }
  }

  lemma AdmitsIffFree(s: State, noWait: bool)
    ensures Admits(s, noWait) <==> s.TokenFree()
  {
    assert Next(s, Arrive(noWait)).value.threads[|s.threads|] == Protect(Arrived(noWait));
  }

  ghost predicate AllFinished(s: State) {
    forall t | 0 <= t < |s.threads| :: Finished(s.threads[t])
  }

  /** What the counters read when every goroutine is finished. */
  ghost predicate AtRest(s: State) {
    var c, b, leaked := s.shared.chan, s.shared.book, Count(s.threads, IsPanicked);
    && c.used + b.surplus == |b.sessions| + b.overwritten
    && c.limit == c.used + leaked
    && c.pending == leaked && c.queued == 0 && c.pushers == 0
  }

  /** The counters are those of the session map: used and limit its size, and nothing pending or queued. */
  ghost predicate CountersAgree(s: State) {
    var c := s.shared.chan;
    |s.shared.book.sessions| == c.used == c.limit && c.pending == c.queued == 0
  }

  lemma RestReads(s: State)
    requires Conserved(s) && AllFinished(s)
    ensures AtRest(s)
  {
    ExactGaps(s);
    PanickedCounts(s.threads);
  }

  /**
   * When every goroutine of any run is finished, the counters agree with the map exactly if
   * no handler panicked, and as many sessions were overwritten as were released in vain. A
   * panicked handler keeps its token and its pending slot for ever, an overwritten session
   * its token and its place in used.
   */
  lemma {:induction false} QuiescentAgreement(size: nat, disabled: bool, es: seq<Event>)
    requires Run(Init(size, disabled), es).Some? && AllFinished(Run(Init(size, disabled), es).value)
    ensures var s := Run(Init(size, disabled), es).value;
            && AtRest(s)
            && (CountersAgree(s) <==> Count(s.threads, IsPanicked) == 0 && s.shared.book.overwritten == s.shared.book.surplus)
  {
    ConservedRun(size, disabled, es);
    RestReads(Run(Init(size, disabled), es).value);
  }

  /** With fresh ids and without racing DELETEs: exactly if no handler panicked. */
  lemma FreshQuiescence(size: nat, disabled: bool, es: seq<Event>)
    requires Run(Init(size, disabled), es).Some? && AllFinished(Run(Init(size, disabled), es).value)
    requires FreshIds(Init(size, disabled), es) && OneDeletes(Init(size, disabled), es)
    ensures var s := Run(Init(size, disabled), es).value; CountersAgree(s) <==> Count(s.threads, IsPanicked) == 0
  {
    OrderlyRun(size, disabled, es);
    OverwrittenRun(size, disabled, es);
    QuiescentAgreement(size, disabled, es);
  }

  /**
   * The ready flag then tells whether a request is admitted at once, exactly unless the slots
   * of panicked handlers and overwritten sessions fill the queue.
   */
  lemma ReadyIsRight(size: nat, disabled: bool, es: seq<Event>)
    requires Run(Init(size, disabled), es).Some? && AllFinished(Run(Init(size, disabled), es).value)
    requires OneDeletes(Init(size, disabled), es)
    ensures var s := Run(Init(size, disabled), es).value;
            var sessions, lost := |s.shared.book.sessions|, Count(s.threads, IsPanicked) + s.shared.book.overwritten;
            (s.Ready() <==> AdmitsAtOnce(s)) <==> (lost == 0 || sessions + lost < size)
  {
    ConservedRun(size, disabled, es);
    OrderlyRun(size, disabled, es);
    QuiescentAgreement(size, disabled, es);
    var s := Run(Init(size, disabled), es).value;
    AdmitsIffFree(s, false);
    AdmitsIffFree(s, true);
  }

  /** At any time, not only at rest: ready == false is right, unless some Remove has removed nothing. */
  lemma {:induction false} NotReadyMeansFull(size: nat, disabled: bool, es: seq<Event>)
    requires Run(Init(size, disabled), es).Some?
    ensures var s := Run(Init(size, disabled), es).value; !s.Ready() && s.TokenFree() ==> s.shared.book.surplus > 0
    ensures OneDeletes(Init(size, disabled), es) ==>
              var s := Run(Init(size, disabled), es).value; s.shared.book.surplus == 0 && (!s.Ready() ==> !s.TokenFree())
  {
    ConservedRun(size, disabled, es);
    LenBound(size, disabled, es);
    if OneDeletes(Init(size, disabled), es) {
      OrderlyRun(size, disabled, es);
    }
  }
}
