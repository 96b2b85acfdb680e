/**
 * The admission queue and the session lifecycle as a small-step transition system.
 *
 * Every goroutine that touches the queue is a thread with a program counter. One step
 * is one channel operation, one access to the session map, or one decision of the
 * environment. A channel of empty structs is its length. Any thread may move next.
 */
module Admission {
  import opened Wrappers

  /** The capacity of the channels queued, pending and used. */
  const MAX_INT32: nat := 0x7FFF_FFFF

  /** Protect, before the handler is called. */
  datatype ProtectPc =
    | Arrived(noWait: bool) // before the send to limit that does not wait
    | Full(noWait: bool)    // limit was full
    | Rejected
    | Got                   // holds a token, its pusher is not yet spawned
    | Waiting               // selects between the client's context and limit
    | Cancelled             // the client left; still owes a receive from queued
    | Gone
    | Holding               // holds a token, before the send to pending
    | Accepting             // before the receive from queued

  /** create, the protected handler, and the queue's Drop and Create called from it. */
  datatype CreatePc =
    | Creating                   // no service yet
    | Started                    // the service runs, no session yet
    | Dropping(service: bool)    // Drop, before the receive from limit
    | HalfDropped(service: bool) // Drop, before the receive from pending
    | Dropped(service: bool)     // Drop is over; cancel is due if a service runs
    | Failed(service: bool)      // the service's cancel has run, if there was a service
    | Panicked(service: bool)    // the handler panicked: on the request, or on the upstream's reply
    | Stored                     // after sessions.Put; Create, before the receive from pending
    | HalfCreated                // Create, before the send to used
    | Served

  /** proxy on DELETE /session/<id>, and the queue's Release called from it. */
  datatype DeletePc =
    | Deleting(id: string)          // before sessions.Get
    | Found(id: string, owner: nat) // after sessions.Get, before sessions.Remove
    | Removed(owner: nat)           // Release, before the receive from limit
    | HalfReleased(owner: nat)      // Release, before the receive from used
    | Released(owner: nat)          // Release is over; sess.Cancel is due
    | Deleted(owner: nat)           // sess.Cancel has run
    | Unknown                       // the id was not in the map

  datatype Thread =
    | Protect(protect: ProtectPc)
    | Create(create: CreatePc)
    | Delete(delete: DeletePc)

  /** The lengths of the queue's channels; pushers have not yet sent to queued. */
  datatype Channels = Channels(limit: nat, queued: nat, pending: nat, used: nat, pushers: nat)

  /**
   * The session map; a session is named by the thread that created it. The other fields
   * record the past and decide nothing: Puts over a live id, and Removes that removed
   * nothing.
   */
  datatype Book = Book(sessions: map<string, nat>, overwritten: nat, surplus: nat)

  /** What the goroutines share. */
  datatype Shared = Shared(chan: Channels, book: Book)

  datatype State = State(size: nat, disabled: bool, shared: Shared, threads: seq<Thread>)
  {
    /** The flag reported by status, selenoid's limit being the size of the queue. */
    predicate Ready() { size > |shared.book.sessions| }

    /** A new request would take the first branch of Protect's select. */
    predicate TokenFree() { shared.chan.limit < size }
  }

  datatype Act =
    | Advance             // the next operation of the code
    | ClientGone          // the request's context is done
    | Start               // the service starts
    | Fail                // any failure that ends in queue.Drop
    | Panic
    | Store(id: string)   // the upstream gave a session with this id

  datatype Event =
    | Arrive(noWait: bool)
    | ArriveDelete(id: string)
    | Push                // some pusher sends to queued
    | Do(t: nat, act: Act)

  function Init(size: nat, disabled: bool): State {
    State(size, disabled, Shared(Channels(0, 0, 0, 0, 0), Book(map[], 0, 0)), [])
  }

  /** One operation of Protect. None: the operation is not enabled. */
  function ProtectNext(size: nat, disabled: bool, c: Channels, p: ProtectPc, act: Act): Option<(Channels, Thread)> {
    match p
    case Arrived(noWait) =>
      if act != Advance then None
      else if c.limit < size then Some((c.(limit := c.limit + 1), Protect(Got)))
      else Some((c, Protect(Full(noWait))))
    case Full(noWait) =>
      if act != Advance then None
      else if noWait || disabled then Some((c, Protect(Rejected)))
      else Some((c.(pushers := c.pushers + 1), Protect(Waiting)))
    case Got =>
      if act == Advance then Some((c.(pushers := c.pushers + 1), Protect(Holding))) else None
    case Waiting =>
      if act == ClientGone then Some((c, Protect(Cancelled)))
      else if act == Advance && c.limit < size then Some((c.(limit := c.limit + 1), Protect(Holding)))
      else None
    case Cancelled =>
      if act == Advance && c.queued > 0 then Some((c.(queued := c.queued - 1), Protect(Gone))) else None
    case Holding =>
      if act == Advance && c.pending < MAX_INT32
      then Some((c.(pending := c.pending + 1), Protect(Accepting))) else None
    case Accepting =>
      if act == Advance && c.queued > 0 then Some((c.(queued := c.queued - 1), Create(Creating))) else None
    case Rejected => None
    case Gone => None
  }

  /** One operation of create by thread t. */
  function CreateNext(s: Shared, t: nat, p: CreatePc, act: Act): Option<(Shared, CreatePc)> {
    match p
    case Creating =>
      if act == Start then Some((s, Started))
      else if act == Fail then Some((s, Dropping(false)))
      else if act == Panic then Some((s, Panicked(false)))
      else None
    case Started =>
      if act == Fail then Some((s, Dropping(true)))
      else if act == Panic then Some((s, Panicked(true)))
      else if act.Store? then Some((s.(book := Put(s.book, act.id, t)), Stored))
      else None
    case Dropped(service) => if act == Advance then Some((s, Failed(service))) else None
    case Failed(_) => None
    case Panicked(_) => None
    case Served => None
    case _ =>
      if act != Advance then None
      else match SettleNext(s.chan, p)
        case None => None
        case Some((c, q)) => Some((s.(chan := c), q))
  }

  /** One channel operation of the queue's Drop or Create. */
  function SettleNext(c: Channels, p: CreatePc): Option<(Channels, CreatePc)> {
    match p
    case Dropping(service) =>
      if c.limit > 0 then Some((c.(limit := c.limit - 1), HalfDropped(service))) else None
    case HalfDropped(service) =>
      if c.pending > 0 then Some((c.(pending := c.pending - 1), Dropped(service))) else None
    case Stored =>
      if c.pending > 0 then Some((c.(pending := c.pending - 1), HalfCreated)) else None
    case HalfCreated =>
      if c.used < MAX_INT32 then Some((c.(used := c.used + 1), Served)) else None
    case _ => None
  }

  /** One operation of proxy on DELETE. */
  function DeleteNext(s: Shared, p: DeletePc): Option<(Shared, DeletePc)> {
    match p
    case Deleting(id) =>
      Some((s, if id in s.book.sessions then Found(id, s.book.sessions[id]) else Unknown))
    case Found(id, owner) => Some((s.(book := Remove(s.book, id)), Removed(owner)))
    case Released(owner) => Some((s, Deleted(owner)))
    case Deleted(_) => None
    case Unknown => None
    case _ =>
      match ReleaseNext(s.chan, p)
      case None => None
      case Some((c, q)) => Some((s.(chan := c), q))
  }

  /** One channel operation of the queue's Release. */
  function ReleaseNext(c: Channels, p: DeletePc): Option<(Channels, DeletePc)> {
    match p
    case Removed(owner) =>
      if c.limit > 0 then Some((c.(limit := c.limit - 1), HalfReleased(owner))) else None
    case HalfReleased(owner) =>
      if c.used > 0 then Some((c.(used := c.used - 1), Released(owner))) else None
    case _ => None
  }

  function Put(b: Book, id: string, t: nat): Book {
    b.(sessions := b.sessions[id := t], overwritten := b.overwritten + if id in b.sessions then 1 else 0)
  }

  function Remove(b: Book, id: string): Book {
    b.(sessions := b.sessions - {id}, surplus := b.surplus + if id in b.sessions then 0 else 1)
  }

  /** One operation of thread t: what it leaves shared, and where the thread then is. */
  function ThreadNext(s: State, t: nat, act: Act): Option<(Shared, Thread)>
    requires t < |s.threads|
  {
    match s.threads[t]
    case Protect(p) =>
      (match ProtectNext(s.size, s.disabled, s.shared.chan, p, act)
       case None => None
       case Some((c, q)) => Some((s.shared.(chan := c), q)))
    case Create(p) =>
      (match CreateNext(s.shared, t, p, act)
       case None => None
       case Some((h, q)) => Some((h, Create(q))))
    case Delete(p) =>
      (match if act == Advance then DeleteNext(s.shared, p) else None
       case None => None
       case Some((h, q)) => Some((h, Delete(q))))
  }

  function Next(s: State, e: Event): Option<State> {
    match e
    case Arrive(noWait) => Some(s.(threads := s.threads + [Protect(Arrived(noWait))]))
    case ArriveDelete(id) => Some(s.(threads := s.threads + [Delete(Deleting(id))]))
    case Push =>
      var c := s.shared.chan;
      if c.pushers > 0 && c.queued < MAX_INT32
      then Some(s.(shared := s.shared.(chan := c.(pushers := c.pushers - 1, queued := c.queued + 1)))) else None
    case Do(t, act) =>
      if t >= |s.threads| then None
      else match ThreadNext(s, t, act)
        case None => None
        case Some((h, q)) => Some(s.(shared := h, threads := s.threads[t := q]))
  }

  /** The state after the run es; None if some event of it was not enabled. */
  function Run(s: State, es: seq<Event>): Option<State> {
    if es == [] then Some(s)
    else match Run(s, es[..|es| - 1])
      case None => None
      case Some(m) => Next(m, es[|es| - 1])
  }
}
