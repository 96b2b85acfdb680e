/** What every run of the admission queue keeps, whatever the sessions' ids and DELETEs are. */
module AdmissionLaws {
  import opened Wrappers
  import opened Tally
  import opened Admission

  /** What a thread has put into each channel and into the session map, less what it took. */
  datatype Weights = Weights(limit: int, pending: int, used: int, queued: int, sessions: int)

  const NOTHING := Weights(0, 0, 0, 0, 0)

  function W(t: Thread): Weights {
    match t
    case Protect(p) => WProtect(p)
    case Create(p) => WCreate(p)
    case Delete(p) => WDelete(p)
  }

  function WProtect(p: ProtectPc): Weights {
    match p
    case Got => Weights(1, 0, 0, 0, 0)
    case Waiting => Weights(0, 0, 0, 1, 0)
    case Cancelled => Weights(0, 0, 0, 1, 0)
    case Holding => Weights(1, 0, 0, 1, 0)
    case Accepting => Weights(1, 1, 0, 1, 0)
    case _ => NOTHING
  }

  function WCreate(p: CreatePc): Weights {
    match p
    case Creating => Weights(1, 1, 0, 0, 0)
    case Started => Weights(1, 1, 0, 0, 0)
    case Dropping(_) => Weights(1, 1, 0, 0, 0)
    case HalfDropped(_) => Weights(0, 1, 0, 0, 0)
    case Panicked(_) => Weights(1, 1, 0, 0, 0)
    case Stored => Weights(1, 1, 0, 0, 1)
    case HalfCreated => Weights(1, 0, 0, 0, 1)
    case Served => Weights(1, 0, 1, 0, 1)
    case _ => NOTHING
  }

  function WDelete(p: DeletePc): Weights {
    match p
    case Removed(_) => Weights(0, 0, 0, 0, -1)
    case HalfReleased(_) => Weights(-1, 0, 0, 0, -1)
    case Released(_) => Weights(-1, 0, -1, 0, -1)
    case Deleted(_) => Weights(-1, 0, -1, 0, -1)
    case _ => NOTHING
  }

  function Plus(a: Weights, b: Weights): Weights {
    Weights(a.limit + b.limit, a.pending + b.pending, a.used + b.used, a.queued + b.queued, a.sessions + b.sessions)
  }

  /** after is before, less p, plus q. */
  predicate Shifted(before: Weights, p: Weights, q: Weights, after: Weights) {
    && after.limit == before.limit - p.limit + q.limit
    && after.pending == before.pending - p.pending + q.pending
    && after.used == before.used - p.used + q.used
    && after.queued == before.queued - p.queued + q.queued
    && after.sessions == before.sessions - p.sessions + q.sessions
  }

  function Total<T>(ts: seq<T>, w: T -> Weights): Weights {
    if ts == [] then NOTHING else Plus(Total(ts[..|ts| - 1], w), w(ts[|ts| - 1]))
  }

  /** The lengths of the channels, pushers counted with queued, and of the session map. */
  function Lengths(s: Shared): Weights {
    var c, b := s.chan, s.book;
    Weights(c.limit, c.pending, c.used, c.queued + c.pushers, |b.sessions| - b.surplus + b.overwritten)
  }

  /** Each channel holds the tokens its threads have put there and not yet taken. */
  ghost predicate Conserved(s: State) {
    s.shared.chan.limit <= s.size && Lengths(s.shared) == Total(s.threads, W)
  }

  lemma {:induction false} MoveTotal<T>(ts: seq<T>, t: nat, p: T, w: T -> Weights)
    requires t < |ts|
    ensures Shifted(Total(ts, w), w(ts[t]), w(p), Total(ts[t := p], w))
  {
    var n := |ts| - 1;
    if t == n {
      assert ts[t := p][..n] == ts[..n];
    } else {
      assert ts[t := p][..n] == ts[..n][t := p];
      MoveTotal(ts[..n], t, p, w);
    }
  }

  lemma EnterTotal<T>(ts: seq<T>, p: T, w: T -> Weights)
    requires w(p) == NOTHING
    ensures Total(ts + [p], w) == Total(ts, w)
  {
    assert (ts + [p])[..|ts|] == ts;
  }

  lemma PutSize(m: map<string, nat>, id: string, t: nat)
    ensures |m[id := t]| == |m| + if id in m then 0 else 1
  {
    assert m[id := t].Keys == m.Keys + {id};
  }

  lemma RemoveSize(m: map<string, nat>, id: string)
    ensures |m - {id}| == |m| - if id in m then 1 else 0
  {
    assert (m - {id}).Keys == m.Keys - {id};
  }

  /** From h, with a thread at p, to h', with the thread at q: the lengths change as the weights. */
  ghost predicate Balanced(h: Shared, p: Thread, h': Shared, q: Thread) {
    Shifted(Lengths(h), W(p), W(q), Lengths(h'))
  }

  lemma ProtectBalanced(size: nat, disabled: bool, h: Shared, p: ProtectPc, act: Act)
    requires ProtectNext(size, disabled, h.chan, p, act).Some?
    ensures var (c, q) := ProtectNext(size, disabled, h.chan, p, act).value;
            Balanced(h, Protect(p), h.(chan := c), q) && (h.chan.limit <= size ==> c.limit <= size)
  {
  }

  lemma CreateBalanced(h: Shared, t: nat, p: CreatePc, act: Act)
    requires CreateNext(h, t, p, act).Some?
    ensures var (h', q) := CreateNext(h, t, p, act).value;
            Balanced(h, Create(p), h', Create(q)) && h'.chan.limit <= h.chan.limit
  {
    if act.Store? {
      PutSize(h.book.sessions, act.id, t);
    }
  }

  lemma DeleteBalanced(h: Shared, p: DeletePc)
    requires DeleteNext(h, p).Some?
    ensures var (h', q) := DeleteNext(h, p).value;
            Balanced(h, Delete(p), h', Delete(q)) && h'.chan.limit <= h.chan.limit
  {
    if p.Found? {
      RemoveSize(h.book.sessions, p.id);
    }
  }

  lemma ThreadBalanced(s: State, t: nat, act: Act)
    requires t < |s.threads| && ThreadNext(s, t, act).Some?
    ensures var (h, q) := ThreadNext(s, t, act).value;
            Balanced(s.shared, s.threads[t], h, q) && (s.shared.chan.limit <= s.size ==> h.chan.limit <= s.size)
  {
    match s.threads[t]
    case Protect(p) => ProtectBalanced(s.size, s.disabled, s.shared, p, act);
    case Create(p) => CreateBalanced(s.shared, t, p, act);
    case Delete(p) => DeleteBalanced(s.shared, p);
  }

  lemma ConservedStep(s: State, e: Event)
    requires Conserved(s) && Next(s, e).Some?
    ensures Conserved(Next(s, e).value)
    ensures Next(s, e).value.size == s.size
  {
    match e
    case Arrive(noWait) => EnterTotal(s.threads, Protect(Arrived(noWait)), W);
    case ArriveDelete(id) => EnterTotal(s.threads, Delete(Deleting(id)), W);
    case Push =>
    case Do(t, act) =>
      ThreadBalanced(s, t, act);
      MoveTotal(s.threads, t, ThreadNext(s, t, act).value.1, W);
  }

  lemma {:induction false} ConservedRun(size: nat, disabled: bool, es: seq<Event>)
    requires Run(Init(size, disabled), es).Some?
    ensures Conserved(Run(Init(size, disabled), es).value)
    ensures Run(Init(size, disabled), es).value.size == size
  {
    if es != [] {
      ConservedRun(size, disabled, es[..|es| - 1]);
      ConservedStep(Run(Init(size, disabled), es[..|es| - 1]).value, es[|es| - 1]);
    }
  }

  // The conservation law, with the half-finished operations counted one by one.

  predicate HoldsBeforePending(t: Thread) { t.Protect? && (t.protect.Got? || t.protect.Holding?) }
  predicate OwesQueued(t: Thread) {
    t.Protect? && (t.protect.Waiting? || t.protect.Cancelled? || t.protect.Holding? || t.protect.Accepting?)
  }
  predicate IsHalfDropped(t: Thread) { t.Create? && t.create.HalfDropped? }
  predicate IsHalfCreated(t: Thread) { t.Create? && t.create.HalfCreated? }
  predicate IsPanicked(t: Thread) { t.Create? && t.create.Panicked? }
  predicate IsHalfReleased(t: Thread) { t.Delete? && t.delete.HalfReleased? }

  lemma {:induction false} TotalBalances(ts: seq<Thread>)
    ensures Total(ts, W).limit + Count(ts, IsHalfDropped) + Count(ts, IsHalfReleased)
         == Count(ts, HoldsBeforePending) + Total(ts, W).pending + Count(ts, IsHalfCreated) + Total(ts, W).used
    ensures Total(ts, W).queued == Count(ts, OwesQueued)
  {
    if ts != [] {
      TotalBalances(ts[..|ts| - 1]);
    }
  }

  /**
   * In every state of every run: the tokens in limit, with those that half-done Drops and
   * Releases have already taken, are the tokens of requests not yet pending, in pending,
   * in the hands of half-done Creates, and in used; limit never exceeds the size.
   */
  lemma ConservationLaw(size: nat, disabled: bool, es: seq<Event>)
    requires Run(Init(size, disabled), es).Some?
    ensures var s := Run(Init(size, disabled), es).value;
            var c := s.shared.chan;
            && c.limit + Count(s.threads, IsHalfDropped) + Count(s.threads, IsHalfReleased)
               == Count(s.threads, HoldsBeforePending) + c.pending + Count(s.threads, IsHalfCreated) + c.used
            && c.limit <= size
            && c.queued + c.pushers == Count(s.threads, OwesQueued)
            && c.used + c.pending <= size + Count(s.threads, IsHalfDropped) + Count(s.threads, IsHalfReleased)
  {
    ConservedRun(size, disabled, es);
    var s := Run(Init(size, disabled), es).value;
    TotalBalances(s.threads);
  }

  // Receives that never wait for long, without any hypothesis.

  lemma {:induction false} PendingAtLeast(ts: seq<Thread>)
    ensures Total(ts, W).pending >= 0
    ensures forall t | 0 <= t < |ts| :: Total(ts, W).pending >= W(ts[t]).pending
  {
    if ts != [] {
      PendingAtLeast(ts[..|ts| - 1]);
    }
  }

  /** A thread at the receive from pending, in Drop or in Create, finds a token there. */
  lemma PendingNeverBlocks(s: State, t: nat)
    requires Conserved(s) && t < |s.threads|
    requires s.threads[t].Create? && (s.threads[t].create.HalfDropped? || s.threads[t].create.Stored?)
    ensures Next(s, Do(t, Advance)).Some?
  {
    PendingAtLeast(s.threads);
  }

  /**
   * A thread at the receive from queued finds a token, or some pusher is about to send
   * one; a cancelled waiter too. Only a full channel of 2^31-1 tokens could stop the pusher.
   */
  lemma QueuedIsSupplied(s: State, t: nat)
    requires Conserved(s) && t < |s.threads| && s.shared.chan.queued < MAX_INT32
    requires s.threads[t].Protect? && (s.threads[t].protect.Cancelled? || s.threads[t].protect.Accepting?)
    ensures Next(s, Do(t, Advance)).Some?
         || (Next(s, Push).Some? && Next(Next(s, Push).value, Do(t, Advance)).Some?)
  {
    TotalBalances(s.threads);
    CountPositive(s.threads, t, OwesQueued);
  }
}
