/**
 * Who owns which session: what every run keeps, and what runs keep in which DELETEs of one
 * session do not race.
 */
module AdmissionDiscipline {
  import opened Wrappers
  import opened Tally
  import opened Admission
  import opened AdmissionLaws

  /** create puts no session under the id of a live one. */
  ghost predicate FreshId(s: State, e: Event) {
    e.Do? && e.t < |s.threads| && s.threads[e.t] == Create(Started) && e.act.Store?
    ==> e.act.id !in s.shared.book.sessions
  }

  /** No DELETE passes sessions.Get while another for the same id is before sessions.Remove. */
  ghost predicate OneDelete(s: State, e: Event) {
    e.Do? && e.t < |s.threads| && s.threads[e.t].Delete? && s.threads[e.t].delete.Deleting?
    ==> forall u | 0 <= u < |s.threads| :: !AtFound(s.threads[u], s.threads[e.t].delete.id)
  }

  predicate AtFound(t: Thread, id: string) { IsFound(t) && t.delete.id == id }

  /** Every step of the run puts under a fresh id. */
  ghost predicate FreshIds(s: State, es: seq<Event>) {
    es == [] ||
    var prefix := es[..|es| - 1];
    FreshIds(s, prefix) && (Run(s, prefix).Some? ==> FreshId(Run(s, prefix).value, es[|es| - 1]))
  }

  /** DELETEs of one session do not race in the run. */
  ghost predicate OneDeletes(s: State, es: seq<Event>) {
    es == [] ||
    var prefix := es[..|es| - 1];
    OneDeletes(s, prefix) && (Run(s, prefix).Some? ==> OneDelete(Run(s, prefix).value, es[|es| - 1]))
  }

  // The exact identities, without hypotheses: surplus Removes and overwriting Puts are counted.

  /** Holds a token in limit with no session in the map behind it. */
  predicate Sessionless(t: Thread) {
    W(t).limit - W(t).sessions == 1
  }

  predicate BeforeUsed(t: Thread) { t.Create? && (t.create.Stored? || t.create.HalfCreated?) }
  predicate BeforeReleased(t: Thread) { t.Delete? && (t.delete.Removed? || t.delete.HalfReleased?) }

  lemma {:induction false} TotalSplits(ts: seq<Thread>)
    ensures Total(ts, W).limit == Total(ts, W).sessions + Count(ts, Sessionless)
    ensures Total(ts, W).used + Count(ts, BeforeUsed) == Total(ts, W).sessions + Count(ts, BeforeReleased)
  {
    if ts != [] {
      TotalSplits(ts[..|ts| - 1]);
    }
  }

  /** The gap between len(limit) and sessions.Len(), and between len(used) and sessions.Len(), in any run. */
  lemma ExactGaps(s: State)
    requires Conserved(s)
    ensures var c, b := s.shared.chan, s.shared.book;
            && c.limit + b.surplus == |b.sessions| + b.overwritten + Count(s.threads, Sessionless)
            && c.used + Count(s.threads, BeforeUsed) + b.surplus
               == |b.sessions| + b.overwritten + Count(s.threads, BeforeReleased)
  {
    TotalSplits(s.threads);
  }

  /**
   * Whatever the ids and DELETEs: sessions.Len() exceeds len(limit) by at most the Removes
   * that removed nothing, and exactly when these outnumber the overwritten sessions and the
   * tokens without a session.
   */
  lemma LenBound(size: nat, disabled: bool, es: seq<Event>)
    requires Run(Init(size, disabled), es).Some?
    ensures var s := Run(Init(size, disabled), es).value;
            var c, b := s.shared.chan, s.shared.book;
            && |b.sessions| <= c.limit + b.surplus <= size + b.surplus
            && (|b.sessions| > c.limit <==> b.surplus > b.overwritten + Count(s.threads, Sessionless))
  {
    ConservedRun(size, disabled, es);
    ExactGaps(Run(Init(size, disabled), es).value);
  }

  // Owners.

  predicate IsSession(t: Thread) { t.Create? && (t.create.Stored? || t.create.HalfCreated? || t.create.Served?) }

  predicate IsFound(t: Thread) { t.Delete? && t.delete.Found? }

  predicate PastRemove(t: Thread) {
    t.Delete? && (t.delete.Removed? || t.delete.HalfReleased? || t.delete.Released? || t.delete.Deleted?)
  }

  /** A DELETE that got a session from the map. */
  predicate PastGet(t: Thread) { IsFound(t) || PastRemove(t) }

  ghost predicate SessionAt(ts: seq<Thread>, o: nat) { o < |ts| && IsSession(ts[o]) }

  /** Whatever the map or a DELETE names as a session is one. */
  ghost predicate Named(m: map<string, nat>, ts: seq<Thread>) {
    && (forall id | id in m :: SessionAt(ts, m[id]))
    && (forall u | 0 <= u < |ts| && PastGet(ts[u]) :: SessionAt(ts, ts[u].delete.owner))
  }

  // What one step does to the map, and to the thread that makes it.

  lemma CreateShape(h: Shared, t: nat, p: CreatePc, act: Act)
    requires CreateNext(h, t, p, act).Some?
    ensures var (h', q) := CreateNext(h, t, p, act).value;
            || (p == Started && act.Store? && q == Stored && h'.book == Put(h.book, act.id, t))
            || (h'.book == h.book && (IsSession(Create(p)) ==> IsSession(Create(q))))
  {
  }

  lemma DeleteShape(h: Shared, p: DeletePc)
    requires DeleteNext(h, p).Some?
    ensures var (h', q) := DeleteNext(h, p).value;
            if p.Deleting? then
              h' == h && q == if p.id in h.book.sessions then Found(p.id, h.book.sessions[p.id]) else Unknown
            else if p.Found? then h'.book == Remove(h.book, p.id) && q == Removed(p.owner)
            else h'.book == h.book && PastRemove(Delete(p)) && PastRemove(Delete(q)) && q.owner == p.owner
  {
  }

  /** A thread's step binds at most its own session, and names only sessions. */
  lemma NamedMove(m: map<string, nat>, m': map<string, nat>, ts: seq<Thread>, t: nat, q: Thread)
    requires Named(m, ts) && t < |ts| && (IsSession(ts[t]) ==> IsSession(q))
    requires forall id | id in m' :: (id in m && m'[id] == m[id]) || (m'[id] == t && IsSession(q))
    requires PastGet(q) ==> SessionAt(ts, q.delete.owner)
    ensures Named(m', ts[t := q])
  {
    var ts' := ts[t := q];
    assert forall o: nat :: SessionAt(ts, o) ==> SessionAt(ts', o);
  }

  lemma NamedStep(s: State, e: Event)
    requires Named(s.shared.book.sessions, s.threads) && Next(s, e).Some?
    ensures Named(Next(s, e).value.shared.book.sessions, Next(s, e).value.threads)
  {
    var m := s.shared.book.sessions;
    if e.Do? {
      var (h, q) := ThreadNext(s, e.t, e.act).value;
      match s.threads[e.t] {
        case Protect(_) =>
        case Create(p) => CreateShape(s.shared, e.t, p, e.act);
        case Delete(p) => DeleteShape(s.shared, p);
      }
      NamedMove(m, h.book.sessions, s.threads, e.t, q);
    } else if !e.Push? {
      var ts' := Next(s, e).value.threads;
      assert forall o: nat :: SessionAt(s.threads, o) ==> SessionAt(ts', o);
    }
  }

  lemma {:induction false} NamedRun(size: nat, disabled: bool, es: seq<Event>)
    requires Run(Init(size, disabled), es).Some?
    ensures var s := Run(Init(size, disabled), es).value; Named(s.shared.book.sessions, s.threads)
  {
    if es != [] {
      NamedRun(size, disabled, es[..|es| - 1]);
      NamedStep(Run(Init(size, disabled), es[..|es| - 1]).value, es[|es| - 1]);
    }
  }

  // The history that the counters record.

  lemma OverwrittenStep(s: State, e: Event)
    requires Next(s, e).Some?
    ensures Next(s, e).value.shared.book.overwritten == s.shared.book.overwritten + if FreshId(s, e) then 0 else 1
  {
    if e.Do? {
      match s.threads[e.t] {
        case Protect(_) =>
        case Create(p) => CreateShape(s.shared, e.t, p, e.act);
        case Delete(p) => DeleteShape(s.shared, p);
      }
    }
  }

  /** No session was overwritten exactly if every id was fresh. */
  lemma {:induction false} OverwrittenRun(size: nat, disabled: bool, es: seq<Event>)
    requires Run(Init(size, disabled), es).Some?
    ensures Run(Init(size, disabled), es).value.shared.book.overwritten == 0 <==> FreshIds(Init(size, disabled), es)
  {
    if es != [] {
      OverwrittenRun(size, disabled, es[..|es| - 1]);
      OverwrittenStep(Run(Init(size, disabled), es[..|es| - 1]).value, es[|es| - 1]);
    }
  }

  // The invariant of runs in which DELETEs do not race. Ids may be reused.

  /** No session is in the map twice. */
  ghost predicate MapOwned(m: map<string, nat>) {
    forall id, id' | id in m && id' in m && m[id] == m[id'] :: id == id'
  }

  /** DELETEs between Get and Remove: distinct ids, all in the map, and an owner that no other id has. */
  ghost predicate FoundOwned(m: map<string, nat>, ts: seq<Thread>) {
    && (forall u | 0 <= u < |ts| && IsFound(ts[u]) :: ts[u].delete.id in m)
    && (forall u, id | 0 <= u < |ts| && IsFound(ts[u]) && id in m && m[id] == ts[u].delete.owner :: id == ts[u].delete.id)
    && (forall u, v | 0 <= u < |ts| && 0 <= v < |ts| && IsFound(ts[u]) && IsFound(ts[v])
                      && ts[u].delete.id == ts[v].delete.id :: u == v)
  }

  /** DELETEs past Get have distinct owners, after Remove no longer in the map. */
  ghost predicate RemovedOwned(m: map<string, nat>, ts: seq<Thread>) {
    && (forall u, id | 0 <= u < |ts| && PastRemove(ts[u]) && id in m :: m[id] != ts[u].delete.owner)
    && (forall u, v | 0 <= u < |ts| && 0 <= v < |ts| && PastGet(ts[u]) && PastGet(ts[v])
                      && ts[u].delete.owner == ts[v].delete.owner :: u == v)
  }

  ghost predicate Owned(m: map<string, nat>, ts: seq<Thread>) {
    Named(m, ts) && MapOwned(m) && FoundOwned(m, ts) && RemovedOwned(m, ts)
  }

  ghost predicate Orderly(s: State) {
    s.shared.book.surplus == 0 && Owned(s.shared.book.sessions, s.threads)
  }

  /** A move that leaves the map alone and takes no session, Found or removed owner away. */
  lemma OwnedQuiet(m: map<string, nat>, ts: seq<Thread>, t: nat, q: Thread)
    requires Owned(m, ts) && t < |ts|
    requires IsSession(ts[t]) ==> IsSession(q)
    requires !IsFound(q)
    requires PastRemove(q) ==> PastRemove(ts[t]) && q.delete.owner == ts[t].delete.owner
    ensures Owned(m, ts[t := q])
  {
    var ts' := ts[t := q];
    NamedMove(m, m, ts, t, q);
    assert forall u | 0 <= u < |ts| :: IsFound(ts'[u]) ==> ts'[u] == ts[u];
    assert forall u | 0 <= u < |ts| :: PastGet(ts'[u]) ==> PastGet(ts[u]) && ts'[u].delete.owner == ts[u].delete.owner;
  }

  lemma OwnedEnter(m: map<string, nat>, ts: seq<Thread>, q: Thread)
    requires Owned(m, ts) && !PastGet(q)
    ensures Owned(m, ts + [q])
  {
    var ts' := ts + [q];
    assert forall o: nat :: SessionAt(ts, o) ==> SessionAt(ts', o);
    assert forall u | 0 <= u < |ts'| && PastGet(ts'[u]) :: u < |ts| && ts'[u] == ts[u];
  }

  /** An id for a session that no id and no DELETE names yet. The id may be another session's. */
  lemma OwnedBind(m: map<string, nat>, ts: seq<Thread>, t: nat, id: string)
    requires Owned(m, ts) && SessionAt(ts, t)
    requires forall i | i in m :: m[i] != t
    requires forall u | 0 <= u < |ts| && PastGet(ts[u]) :: ts[u].delete.owner != t
    ensures Owned(m[id := t], ts)
  {
  }

  lemma OwnedPut(m: map<string, nat>, ts: seq<Thread>, t: nat, id: string)
    requires Owned(m, ts) && t < |ts| && ts[t] == Create(Started)
    ensures Owned(m[id := t], ts[t := Create(Stored)])
  {
    OwnedQuiet(m, ts, t, Create(Stored));
    assert !SessionAt(ts, t);
    OwnedBind(m, ts[t := Create(Stored)], t, id);
  }

  lemma OwnedGet(m: map<string, nat>, ts: seq<Thread>, t: nat, id: string)
    requires Owned(m, ts) && t < |ts| && ts[t] == Delete(Deleting(id)) && id in m
    requires forall u | 0 <= u < |ts| :: !AtFound(ts[u], id)
    ensures Owned(m, ts[t := Delete(Found(id, m[id]))])
  {
    NamedMove(m, m, ts, t, Delete(Found(id, m[id])));
    assert forall u | 0 <= u < |ts| && PastGet(ts[u]) :: ts[u].delete.owner != m[id];
  }

  lemma OwnedRemove(m: map<string, nat>, ts: seq<Thread>, t: nat)
    requires Owned(m, ts) && t < |ts| && IsFound(ts[t])
    ensures ts[t].delete.id in m
    ensures Owned(m - {ts[t].delete.id}, ts[t := Delete(Removed(ts[t].delete.owner))])
  {
    var id, q := ts[t].delete.id, Delete(Removed(ts[t].delete.owner));
    NamedMove(m, m - {id}, ts, t, q);
    RemoveKeepsFound(m, ts, t);
  }

  lemma RemoveKeepsFound(m: map<string, nat>, ts: seq<Thread>, t: nat)
    requires Owned(m, ts) && t < |ts| && IsFound(ts[t])
    ensures FoundOwned(m - {ts[t].delete.id}, ts[t := Delete(Removed(ts[t].delete.owner))])
  {
    var id := ts[t].delete.id;
    var ts' := ts[t := Delete(Removed(ts[t].delete.owner))];
    assert forall u | 0 <= u < |ts'| && IsFound(ts'[u]) :: ts'[u] == ts[u] && ts[u].delete.id != id;
  }

  lemma OrderlyThread(s: State, t: nat, act: Act)
    requires Orderly(s) && t < |s.threads| && OneDelete(s, Do(t, act)) && ThreadNext(s, t, act).Some?
    ensures Orderly(Next(s, Do(t, act)).value)
  {
    var (h, q) := ThreadNext(s, t, act).value;
    var m := s.shared.book.sessions;
    match s.threads[t]
    case Protect(p) =>
      OwnedQuiet(m, s.threads, t, q);
    case Create(p) =>
      CreateShape(s.shared, t, p, act);
      if p == Started && act.Store? {
        OwnedPut(m, s.threads, t, act.id);
      } else {
        OwnedQuiet(m, s.threads, t, q);
      }
    case Delete(p) =>
      DeleteShape(s.shared, p);
      if p.Found? {
        OwnedRemove(m, s.threads, t);
      } else if p.Deleting? && p.id in m {
        OwnedGet(m, s.threads, t, p.id);
      } else {
        OwnedQuiet(m, s.threads, t, q);
      }
  }

  lemma OrderlyStep(s: State, e: Event)
    requires Orderly(s) && OneDelete(s, e) && Next(s, e).Some?
    ensures Orderly(Next(s, e).value)
  {
    match e
    case Arrive(noWait) => OwnedEnter(s.shared.book.sessions, s.threads, Protect(Arrived(noWait)));
    case ArriveDelete(id) => OwnedEnter(s.shared.book.sessions, s.threads, Delete(Deleting(id)));
    case Push =>
    case Do(t, act) => OrderlyThread(s, t, act);
  }

  lemma {:induction false} OrderlyRun(size: nat, disabled: bool, es: seq<Event>)
    requires Run(Init(size, disabled), es).Some? && OneDeletes(Init(size, disabled), es)
    ensures Orderly(Run(Init(size, disabled), es).value)
  {
    if es != [] {
      OrderlyRun(size, disabled, es[..|es| - 1]);
      OrderlyStep(Run(Init(size, disabled), es[..|es| - 1]).value, es[|es| - 1]);
    }
  }
}
