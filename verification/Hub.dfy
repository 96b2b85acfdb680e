/**
 * The queue as four channel objects, and the hub around it, updated in place by goroutines
 * one atomic operation a call. A hub driven by any schedule goes where the transition
 * system goes, so everything proved about its runs holds of these objects.
 */
module Hub {
  import opened Wrappers
  import A = Admission
  import opened AdmissionLaws
  import opened AdmissionDiscipline
  import opened AdmissionTheorems

  /** A chan struct{}: its length says all. Not ok: the operation would wait. */
  class Channel {
    const capacity: nat
    var length: nat

    constructor (capacity: nat)
      ensures this.capacity == capacity && length == 0
    {
      this.capacity, length := capacity, 0;
    }

    method Send() returns (ok: bool)
      modifies this
      ensures ok <==> old(length) < capacity
      ensures length == old(length) + if ok then 1 else 0
    {
      ok := length < capacity;
      if ok {
        length := length + 1;
      }
    }

    method Receive() returns (ok: bool)
      modifies this
      ensures ok <==> old(length) > 0
      ensures length == old(length) - if ok then 1 else 0
    {
      ok := length > 0;
      if ok {
        length := length - 1;
      }
    }
  }

  class Queue {
    const disabled: bool
    const limit: Channel
    const queued: Channel
    const pending: Channel
    const used: Channel
    var pushers: nat

    constructor New(size: nat, disabled: bool)
      ensures Valid() && fresh(Parts()) && limit.capacity == size && this.disabled == disabled
      ensures Channels() == A.Channels(0, 0, 0, 0, 0)
    {
      this.disabled, pushers := disabled, 0;
      limit := new Channel(size);
      queued := new Channel(A.MAX_INT32);
      pending := new Channel(A.MAX_INT32);
      used := new Channel(A.MAX_INT32);
    }

    ghost function Parts(): set<object> { {this, limit, queued, pending, used} }

    /** Four different channels, three of them with room for all. */
    ghost predicate Valid() {
      && |{limit, queued, pending, used}| == 4
      && queued.capacity == pending.capacity == used.capacity == A.MAX_INT32
    }

    ghost function Channels(): A.Channels
      reads Parts()
    {
      A.Channels(limit.length, queued.length, pending.length, used.length, pushers)
    }

    /** The next operation of Protect for a goroutine at p; not ok if it waits. */
    method Protect(p: A.ProtectPc, act: A.Act) returns (ok: bool, q: A.Thread)
      requires Valid()
      modifies Parts()
      ensures match A.ProtectNext(limit.capacity, disabled, old(Channels()), p, act)
              case None => !ok && Channels() == old(Channels())
              case Some((c, q')) => ok && Channels() == c && q == q'
    {
      ok, q := false, A.Protect(p);
      if p.Waiting? && act == A.ClientGone {
        return true, A.Protect(A.Cancelled);
      }
      if act != A.Advance {
        return;
      }
      match p
      case Arrived(noWait) =>
        var got := limit.Send();
        return true, A.Protect(if got then A.Got else A.Full(noWait));
      case Full(noWait) =>
        if noWait || disabled {
          return true, A.Protect(A.Rejected);
        }
        pushers := pushers + 1;
        return true, A.Protect(A.Waiting);
      case Got =>
        pushers := pushers + 1;
        return true, A.Protect(A.Holding);
      case Waiting =>
        ok := limit.Send();
        q := A.Protect(A.Holding);
      case Cancelled =>
        ok := queued.Receive();
        q := A.Protect(A.Gone);
      case Holding =>
        ok := pending.Send();
        q := A.Protect(A.Accepting);
      case Accepting =>
        ok := queued.Receive();
        q := A.Create(A.Creating);
      case Rejected =>
      case Gone =>
    }

    /** The next operation of Drop or Create for a goroutine at p; not ok if it waits. */
    method Settle(p: A.CreatePc) returns (ok: bool, q: A.CreatePc)
      requires Valid()
      modifies Parts()
      ensures match A.SettleNext(old(Channels()), p)
              case None => !ok && Channels() == old(Channels())
              case Some((c, q')) => ok && Channels() == c && q == q'
    {
      ok, q := false, p;
      if p.Dropping? {
        ok := limit.Receive();
        q := A.HalfDropped(p.service);
      } else if p.HalfDropped? {
        ok := pending.Receive();
        q := A.Dropped(p.service);
      } else if p.Stored? {
        ok := pending.Receive();
        q := A.HalfCreated;
      } else if p.HalfCreated? {
        ok := used.Send();
        q := A.Served;
      }
    }

    /** The next operation of Release for a goroutine at p; not ok if it waits. */
    method Release(p: A.DeletePc) returns (ok: bool, q: A.DeletePc)
      requires Valid()
      modifies Parts()
      ensures match A.ReleaseNext(old(Channels()), p)
              case None => !ok && Channels() == old(Channels())
              case Some((c, q')) => ok && Channels() == c && q == q'
    {
      ok, q := false, p;
      if p.Removed? {
        ok := limit.Receive();
        q := A.HalfReleased(p.owner);
      } else if p.HalfReleased? {
        ok := used.Receive();
        q := A.Released(p.owner);
      }
    }

    /** Some pusher sends to queued. */
    method Push() returns (ok: bool)
      requires Valid()
      modifies Parts()
      ensures ok == (old(pushers) > 0 && old(queued.length) < A.MAX_INT32)
      ensures Channels() == if ok then old(Channels()).(pushers := old(pushers) - 1, queued := old(queued.length) + 1)
                            else old(Channels())
    {
      ok := pushers > 0;
      if ok {
        ok := queued.Send();
      }
      if ok {
        pushers := pushers - 1;
      }
    }
  }

  /** The queue, the session map and the goroutines that serve requests. */
  class Hub {
    const queue: Queue
    var sessions: map<string, nat>
    var threads: seq<A.Thread>
    ghost var overwritten: nat
    ghost var surplus: nat

    constructor (size: nat, disabled: bool)
      ensures fresh(queue.Parts()) && queue.Valid() && State() == A.Init(size, disabled)
    {
      queue := new Queue.New(size, disabled);
      sessions, threads, overwritten, surplus := map[], [], 0, 0;
    }

    ghost function Shared(): A.Shared
      reads this, queue.Parts()
    {
      A.Shared(queue.Channels(), A.Book(sessions, overwritten, surplus))
    }

    ghost function State(): A.State
      reads this, queue.Parts()
    {
      A.State(queue.limit.capacity, queue.disabled, Shared(), threads)
    }

    /** One operation of create. */
    method Create(t: nat, p: A.CreatePc, act: A.Act) returns (ok: bool, q: A.CreatePc)
      requires queue.Valid()
      modifies this, queue.Parts()
      ensures threads == old(threads)
      ensures match A.CreateNext(old(Shared()), t, p, act)
              case None => !ok && Shared() == old(Shared())
              case Some((h, q')) => ok && Shared() == h && q == q'
    {
      ok, q := true, p;
      if p.Creating? && act == A.Start {
        q := A.Started;
      } else if p.Creating? && act == A.Fail {
        q := A.Dropping(false);
      } else if p.Creating? && act == A.Panic {
        q := A.Panicked(false);
      } else if p.Started? && act == A.Fail {
        q := A.Dropping(true);
      } else if p.Started? && act == A.Panic {
        q := A.Panicked(true);
      } else if p.Started? && act.Store? {
        overwritten := overwritten + if act.id in sessions then 1 else 0;
        sessions := sessions[act.id := t];
        q := A.Stored;
      } else if p.Dropped? && act == A.Advance {
        q := A.Failed(p.service);
      } else if act == A.Advance {
        ok, q := queue.Settle(p);
      } else {
        ok := false;
      }
    }

    /** One operation of proxy on DELETE. */
    method Delete(p: A.DeletePc) returns (ok: bool, q: A.DeletePc)
      requires queue.Valid()
      modifies this, queue.Parts()
      ensures threads == old(threads)
      ensures match A.DeleteNext(old(Shared()), p)
              case None => !ok && Shared() == old(Shared())
              case Some((h, q')) => ok && Shared() == h && q == q'
    {
      ok, q := true, p;
      if p.Deleting? {
        q := if p.id in sessions then A.Found(p.id, sessions[p.id]) else A.Unknown;
      } else if p.Found? {
        surplus := surplus + if p.id in sessions then 0 else 1;
        sessions := sessions - {p.id};
        q := A.Removed(p.owner);
      } else if p.Released? {
        q := A.Deleted(p.owner);
      } else {
        ok, q := queue.Release(p);
      }
    }

    /** The goroutine or the environment named by e makes its next move, if it can. */
    method Step(e: A.Event) returns (ok: bool)
      requires queue.Valid()
      modifies this, queue.Parts()
      ensures match A.Next(old(State()), e)
              case None => !ok && State() == old(State())
              case Some(s) => ok && State() == s
    {
      match e
      case Arrive(noWait) =>
        threads := threads + [A.Protect(A.Arrived(noWait))];
        ok := true;
      case ArriveDelete(id) =>
        threads := threads + [A.Delete(A.Deleting(id))];
        ok := true;
      case Push =>
        ok := queue.Push();
      case Do(t, act) =>
        ok := false;
        if t < |threads| {
          ok := Move(t, act);
        }
    }

    method Move(t: nat, act: A.Act) returns (ok: bool)
      requires t < |threads|
      requires queue.Valid()
      modifies this, queue.Parts()
      ensures match A.ThreadNext(old(State()), t, act)
              case None => !ok && State() == old(State())
              case Some((h, q)) => ok && State() == old(State()).(shared := h, threads := old(threads)[t := q])
    {
      var q := threads[t];
      match threads[t] {
        case Protect(p) =>
          ok, q := queue.Protect(p, act);
        case Create(p) =>
          var c;
          ok, c := Create(t, p, act);
          q := A.Create(c);
        case Delete(p) =>
          ok := act == A.Advance;
          if ok {
            var d;
            ok, d := Delete(p);
            q := A.Delete(d);
          }
      }
      if ok {
        threads := threads[t := q];
      }
    }
  }

  /**
   * A hub driven by a schedule follows the transition system, to the end or to the first
   * event that would have to wait. It keeps the conservation law, and if DELETEs do not race
   * its session map stays within its tokens and its size.
   */
  method Drive(size: nat, disabled: bool, es: seq<A.Event>) returns (hub: Hub, n: nat)
    ensures fresh(hub) && n <= |es| && A.Run(A.Init(size, disabled), es[..n]) == Some(hub.State())
    ensures n < |es| ==> A.Next(hub.State(), es[n]).None?
    ensures Conserved(hub.State())
    ensures OneDeletes(A.Init(size, disabled), es[..n]) ==> |hub.sessions| <= hub.queue.limit.length <= size
  {
    hub := new Hub(size, disabled);
    ghost var init := A.Init(size, disabled);
    n := 0;
    while n < |es|
      invariant n <= |es| && fresh(hub) && fresh(hub.queue.Parts()) && hub.queue.Valid()
      invariant A.Run(init, es[..n]) == Some(hub.State())
    {
      assert es[..n + 1][..n] == es[..n];
      var ok := hub.Step(es[n]);
      if !ok {
        break;
      }
      n := n + 1;
    }
    ConservedRun(size, disabled, es[..n]);
    if OneDeletes(init, es[..n]) {
      SlotBound(size, disabled, es[..n]);
    }
  }
}
