/** create from the first byte of the request to the settlement of its slot. */
module SessionCreation {
  import opened Wrappers
  import opened Fragments
  import opened Resolution
  import opened SessionAttempts
  import A = Admission

  /** What create does to the queue, the session map and the service, in order. */
  datatype Effect = Drop | Start | Cancel | Put(id: string) | Create

  /** Capabilities after merging: does their sessionTimeout parse, and does Find know their environment. */
  datatype Caps = Caps(timeoutOk: bool, resolution: string, videoSize: string, available: bool)

  /** One entry of firstMatch; null decodes to a nil pointer, which the merge dereferences. */
  datatype Candidate = Null | Entry(caps: Caps)

  /** How the answer to the successful attempt names the session. */
  datatype Naming =
    | Location(path: Option<string>) // None: the header does not parse as a URL
    | Unreadable
    | Unprocessable                  // processBody returns an error
    | Panics                         // processBody panics on a value that is not a string
    | Body(id: string)

  datatype Request = Request(
    readable: bool, parsable: bool, firstMatch: seq<Candidate>, plain: Caps,
    starts: bool, servicePath: string, requestPath: string, retryCount: int, upstream: (nat, string) -> Attempt,
    naming: Naming)
  {
    /** An absent firstMatch counts as one empty entry. */
    function Candidates(): (c: seq<Candidate>)
      ensures c != []
    {
      if firstMatch == [] then [Entry(plain)] else firstMatch
    }

    function Attempted(): Attempts { Try(servicePath, requestPath, 1, retryCount, upstream) }
  }

  datatype Ending = Served(id: string, base: string) | Dropped | Panicked

  /** The capability checks pass. */
  ghost predicate Sound(c: Caps) {
    c.timeoutOk && (c.resolution == "" || Full(c.resolution) || Short(c.resolution)) && (c.videoSize == "" || Short(c.videoSize))
  }

  /** The loop over firstMatch goes on after this entry. */
  ghost predicate Passed(c: Candidate) { c.Entry? && Sound(c.caps) && !c.caps.available }

  /** Entry k is the first at which the loop ends. */
  ghost predicate Decides(cs: seq<Candidate>, k: int) {
    0 <= k < |cs| && !Passed(cs[k]) && forall j | 0 <= j < k :: Passed(cs[j])
  }

  /** The entry that decides is sound and available. */
  ghost predicate Finds(cs: seq<Candidate>) {
    exists k :: Decides(cs, k) && cs[k].Entry? && Sound(cs[k].caps)
  }

  /** The entry that decides is null. */
  ghost predicate HitsNull(cs: seq<Candidate>) {
    exists k :: Decides(cs, k) && cs[k].Null?
  }

  /** id is what follows the last slash of path, or all of it. */
  ghost predicate LastSegment(path: string, id: string) {
    '/' !in id && (path == id || exists front :: path == front + "/" + id)
  }

  /** The answer names this session: after the last slash of the redirect, or in its body. */
  ghost predicate Names(n: Naming, id: string) {
    id != "" && match n
                case Location(Some(path)) => LastSegment(path, id)
                case Body(given) => given == id
                case _ => false
  }

  ghost predicate NamesOne(n: Naming) { exists id :: Names(n, id) }

  lemma LastAppend(a: seq<string>, x: string)
    requires a != []
    ensures Join(a + [x], '/') == Join(a, '/') + "/" + x
  {
    JoinAppend(a, [x], '/');
    assert Join(a, '/') + ['/'] + x == Join(a, '/') + "/" + x;
  }

  /** The last fragment is the last segment, and there is no other. */
  lemma LastFragment(path: string, id: string)
    ensures var f := Split(path, '/'); LastSegment(path, id) <==> f[|f| - 1] == id
  {
    var f := Split(path, '/');
    JoinSplit(path, '/');
    SplitHasNoSep(path, '/');
    if f[|f| - 1] == id {
      if |f| > 1 {
        assert f == f[..|f| - 1] + [id];
        LastAppend(f[..|f| - 1], id);
      }
    }
    if LastSegment(path, id) {
      SplitPrefix(id, "", '/');
      if path != id {
        var front :| path == front + "/" + id;
        assert path == front + ['/'] + id;
        SplitConcat(front, id, '/');
      }
    }
  }

  /** The request is read, but an entry of firstMatch is null. */
  ghost predicate NilEntry(q: Request) {
    q.readable && q.parsable && HitsNull(q.Candidates())
  }

  /** A service is started for the request. */
  ghost predicate Starts(q: Request) {
    q.readable && q.parsable && Finds(q.Candidates()) && q.starts
  }

  /** The service answers some attempt. */
  ghost predicate GotReply(q: Request) {
    Starts(q) && q.Attempted().outcome.Replied?
  }

  ghost predicate Succeeds(q: Request) {
    GotReply(q) && NamesOne(q.naming)
  }

  /** A nil pointer is dereferenced, or a type assertion on the answer fails. */
  ghost predicate Crashes(q: Request) {
    NilEntry(q) || (GotReply(q) && q.naming.Panics?)
  }

  /** What is done to the slot, the session map and the service, by how the request ends. */
  ghost predicate Settled(q: Request, log: seq<Effect>, ending: Ending) {
    && (ending.Served? <==> Succeeds(q)) && (ending.Panicked? <==> Crashes(q))
    && match ending
       case Served(id, base) =>
         log == [Start, Put(id), Create] && Names(q.naming, id) && base == q.Attempted().outcome.base
       case Dropped => log == if Starts(q) then [Start, Drop, Cancel] else [Drop]
       case Panicked => log == if Starts(q) then [Start] else []
  }

  lemma DecidesOnce(cs: seq<Candidate>, j: int, k: int)
    requires Decides(cs, j) && Decides(cs, k)
    ensures j == k
  {
  }

  /** Without a firstMatch the capabilities themselves decide; they are not null. */
  lemma AbsentFirstMatch(q: Request)
    requires q.firstMatch == []
    ensures Starts(q) <==> q.readable && q.parsable && Sound(q.plain) && q.plain.available && q.starts
    ensures !NilEntry(q)
  {
    if !Passed(Entry(q.plain)) {
      OnlyDecides(q.Candidates(), 0);
    }
  }

  /** With one its entries decide. */
  lemma GivenFirstMatch(q: Request, k: nat)
    requires k < |q.firstMatch| && !Passed(q.firstMatch[k]) && forall j | 0 <= j < k :: Passed(q.firstMatch[j])
    ensures Starts(q) <==> q.readable && q.parsable && q.starts && q.firstMatch[k].Entry? && Sound(q.firstMatch[k].caps)
    ensures NilEntry(q) <==> q.readable && q.parsable && q.firstMatch[k].Null?
  {
    OnlyDecides(q.firstMatch, k);
  }

  /** No service is started if no entry is available. */
  lemma NoneAvailable(q: Request)
    requires q.firstMatch != [] && forall j | 0 <= j < |q.firstMatch| :: Passed(q.firstMatch[j])
    ensures !Starts(q) && !NilEntry(q)
  {
  }

  /** An input that makes the handler panic: {"capabilities":{"firstMatch":[null]}}. */
  lemma NullEntryPanics(q: Request)
    requires q.readable && q.parsable && q.firstMatch == [Null]
    ensures Crashes(q) && !Starts(q)
  {
    OnlyDecides(q.Candidates(), 0);
  }

  /** The checks on one candidate, in the order create makes them. */
  method Check(c: Caps) returns (ok: bool)
    ensures ok <==> Sound(c)
  {
    ResolutionLaw(c.resolution);
    if !c.timeoutOk {
      return false;
    }
    var resolution := GetScreenResolution(c.resolution);
    if resolution.Err? {
      return false;
    }
    VideoSizeIsShort(c.resolution, c.videoSize);
    var video := GetVideoScreenSize(c.videoSize, resolution.value);
    return video.Ok?;
  }

  datatype Search = Starter | NoStarter | NilDereference

  /** The loop over firstMatch. */
  method FindStarter(cs: seq<Candidate>) returns (r: Search)
    ensures r == Starter <==> Finds(cs)
    ensures r == NilDereference <==> HitsNull(cs)
  {
    for i := 0 to |cs|
      invariant forall j | 0 <= j < i :: Passed(cs[j])
    {
      if cs[i].Null? {
        OnlyDecides(cs, i);
        return NilDereference;
      }
      var sound := Check(cs[i].caps);
      if !sound || cs[i].caps.available {
        OnlyDecides(cs, i);
        return if sound then Starter else NoStarter;
      }
    }
    return NoStarter;
  }

  lemma OnlyDecides(cs: seq<Candidate>, i: int)
    requires Decides(cs, i)
    ensures Finds(cs) <==> cs[i].Entry? && Sound(cs[i].caps)
    ensures HitsNull(cs) <==> cs[i].Null?
  {
    forall k | Decides(cs, k) ensures k == i {
      DecidesOnce(cs, i, k);
    }
  }

  /** create up to the answer; an ending if it does not get that far. */
  method Launch(q: Request) returns (log: seq<Effect>, ending: Option<Ending>, base: string)
    ensures ending.None? <==> GotReply(q)
    ensures ending == Some(Panicked) <==> NilEntry(q)
    ensures ending.None? ==> log == [Start] && base == q.Attempted().outcome.base
    ensures ending.Some? ==> !ending.value.Served?
    ensures ending == Some(Dropped) ==> log == if Starts(q) then [Start, Drop, Cancel] else [Drop]
    ensures ending == Some(Panicked) ==> log == []
  {
    base := "";
    if !q.readable {
      return [Drop], Some(Dropped), base;
    }
    if !q.parsable {
      return [Drop], Some(Dropped), base;
    }
    var search := FindStarter(q.Candidates());
    if search == NilDereference {
      return [], Some(Panicked), base;
    }
    if search == NoStarter {
      return [Drop], Some(Dropped), base;
    }
    if !q.starts {
      return [Drop], Some(Dropped), base;
    }
    log := [Start];
    var posted, outcome := AttemptSession(q.servicePath, q.requestPath, q.retryCount, q.upstream);
    if !outcome.Replied? {
      return log + [Drop, Cancel], Some(Dropped), base;
    }
    return log, None, outcome.base;
  }

  /** create from the answer on, with the service running. */
  method Conclude(naming: Naming, base: string) returns (log: seq<Effect>, ending: Ending)
    ensures ending.Served? <==> NamesOne(naming)
    ensures ending.Panicked? <==> naming.Panics?
    ensures ending.Served? ==> Names(naming, ending.id) && ending.base == base
    ensures log == if ending.Served? then [Put(ending.id), Create] else if ending.Dropped? then [Drop, Cancel] else []
  {
    var id := "";
    match naming {
      case Location(path) =>
        if path.Some? {
          var fragments := Split(path.value, '/');
          id := fragments[|fragments| - 1];
          forall any ensures LastSegment(path.value, any) <==> any == id {
            LastFragment(path.value, any);
          }
        }
      case Unreadable =>
        return [Drop, Cancel], Dropped;
      case Unprocessable =>
        return [Drop, Cancel], Dropped;
      case Panics =>
        return [], Panicked;
      case Body(given) =>
        id := given;
    }
    assert forall any :: Names(naming, any) <==> any != "" && any == id;
    if id == "" {
      return [Drop, Cancel], Dropped;
    }
    assert Names(naming, id);
    return [Put(id), Create], Served(id, base);
  }

  /**
   * Every path but the panicking ones settles the slot exactly once: by Drop, with the
   * service's cancel run once if the service was started, or by Put and then Create.
   */
  method CreateSession(q: Request) returns (log: seq<Effect>, ending: Ending)
    ensures Settled(q, log, ending)
  {
    var early, base;
    log, early, base := Launch(q);
    NilIsEarly(q);
    if early.Some? {
      return log, early.value;
    }
    var rest;
    rest, ending := Conclude(q.naming, base);
    log := log + rest;
  }

  /** With a null entry no service is started. */
  lemma NilIsEarly(q: Request)
    ensures NilEntry(q) ==> !Starts(q)
  {
    if NilEntry(q) {
      var cs := q.Candidates();
      var k :| Decides(cs, k) && cs[k].Null?;
      OnlyDecides(cs, k);
    }
  }

  // The same paths as steps of the admission model.

  function Acts(log: seq<Effect>, ending: Ending): seq<A.Act> {
    (if log != [] && log[0] == Start then [A.Start] else [])
    + match ending
      case Served(id, _) => [A.Store(id), A.Advance, A.Advance]
      case Dropped => [A.Fail, A.Advance, A.Advance, A.Advance]
      case Panicked => [A.Panic]
  }

  /** The acts taken one after another by thread t of the model, with nobody in between. */
  function Replay(h: A.Shared, t: nat, p: A.CreatePc, acts: seq<A.Act>): Option<(A.Shared, A.CreatePc)>
    decreases |acts|
  {
    if acts == [] then Some((h, p))
    else match A.CreateNext(h, t, p, acts[0])
      case None => None
      case Some((h', q)) => Replay(h', t, q, acts[1..])
  }

  /** A slot of the model before its handler runs: a token in limit and one in pending. */
  predicate Admitted(h: A.Shared) { h.chan.limit > 0 && h.chan.pending > 0 && h.chan.used < A.MAX_INT32 }

  lemma ReplayStep(h: A.Shared, t: nat, p: A.CreatePc, act: A.Act, rest: seq<A.Act>)
    requires A.CreateNext(h, t, p, act).Some?
    ensures var (h', q) := A.CreateNext(h, t, p, act).value;
            Replay(h, t, p, [act] + rest) == Replay(h', t, q, rest)
  {
    assert ([act] + rest)[1..] == rest;
  }

  /** Dropping gives both tokens back and changes nothing else. */
  lemma ReplayDrop(h: A.Shared, t: nat, service: bool)
    requires Admitted(h)
    ensures Replay(h, t, if service then A.Started else A.Creating, [A.Fail, A.Advance, A.Advance, A.Advance])
         == Some((h.(chan := h.chan.(limit := h.chan.limit - 1, pending := h.chan.pending - 1)), A.Failed(service)))
  {
    var p := if service then A.Started else A.Creating;
    var h1 := h.(chan := h.chan.(limit := h.chan.limit - 1));
    var h2 := h1.(chan := h1.chan.(pending := h1.chan.pending - 1));
    ReplayStep(h, t, p, A.Fail, [A.Advance, A.Advance, A.Advance]);
    assert [A.Fail] + [A.Advance, A.Advance, A.Advance] == [A.Fail, A.Advance, A.Advance, A.Advance];
    ReplayStep(h, t, A.Dropping(service), A.Advance, [A.Advance, A.Advance]);
    assert [A.Advance] + [A.Advance, A.Advance] == [A.Advance, A.Advance, A.Advance];
    ReplayStep(h1, t, A.HalfDropped(service), A.Advance, [A.Advance]);
    assert [A.Advance] + [A.Advance] == [A.Advance, A.Advance];
    ReplayStep(h2, t, A.Dropped(service), A.Advance, []);
    assert [A.Advance] + [] == [A.Advance];
  }

  /** Serving moves the pending token to used and puts the session; the token in limit stays. */
  lemma ReplayServe(h: A.Shared, t: nat, id: string)
    requires Admitted(h)
    ensures Replay(h, t, A.Started, [A.Store(id), A.Advance, A.Advance])
         == Some((A.Shared(h.chan.(pending := h.chan.pending - 1, used := h.chan.used + 1), A.Put(h.book, id, t)), A.Served))
  {
    var h1 := h.(book := A.Put(h.book, id, t));
    var h2 := h1.(chan := h1.chan.(pending := h1.chan.pending - 1));
    ReplayStep(h, t, A.Started, A.Store(id), [A.Advance, A.Advance]);
    assert [A.Store(id)] + [A.Advance, A.Advance] == [A.Store(id), A.Advance, A.Advance];
    ReplayStep(h1, t, A.Stored, A.Advance, [A.Advance]);
    assert [A.Advance] + [A.Advance] == [A.Advance, A.Advance];
    ReplayStep(h2, t, A.HalfCreated, A.Advance, []);
    assert [A.Advance] + [] == [A.Advance];
  }

  /** The model's account of the slot, after the acts that log stands for. */
  ghost predicate Replayed(h: A.Shared, t: nat, log: seq<Effect>, ending: Ending) {
    var end := Replay(h, t, A.Creating, Acts(log, ending));
    end.Some? &&
    match ending
    case Served(id, _) =>
      end.value.1 == A.Served && end.value.0.chan.limit == h.chan.limit && end.value.0.book == A.Put(h.book, id, t)
    case Dropped => end.value.1 == A.Failed(log == [Start, Drop, Cancel]) && end.value.0.chan.limit == h.chan.limit - 1
    case Panicked => end.value.1 == A.Panicked(log == [Start]) && end.value.0 == h
  }

  /** create's whole path is a run of its thread in the model, with the model's account of the slot. */
  method CreateInModel(q: Request, h: A.Shared, t: nat) returns (log: seq<Effect>, ending: Ending)
    requires Admitted(h)
    ensures Settled(q, log, ending) && Replayed(h, t, log, ending)
  {
    log, ending := CreateSession(q);
    SettledReplays(q, h, t, log, ending);
  }

  lemma SettledReplays(q: Request, h: A.Shared, t: nat, log: seq<Effect>, ending: Ending)
    requires Admitted(h) && Settled(q, log, ending)
    ensures Replayed(h, t, log, ending)
  {
    var acts := Acts(log, ending);
    var started := log != [] && log[0] == Start;
    if started {
      assert acts == [A.Start] + acts[1..];
      ReplayStep(h, t, A.Creating, A.Start, acts[1..]);
    }
    match ending {
      case Served(id, _) =>
        assert acts[1..] == [A.Store(id), A.Advance, A.Advance];
        ReplayServe(h, t, id);
      case Dropped =>
        ReplayDrop(h, t, started);
        if started {
          assert acts[1..] == [A.Fail, A.Advance, A.Advance, A.Advance];
        } else {
          assert acts == [A.Fail, A.Advance, A.Advance, A.Advance];
        }
      case Panicked =>
        assert (if started then acts[1..] else acts) == [A.Panic] + [];
        ReplayStep(h, t, if started then A.Started else A.Creating, A.Panic, []);
    }
  }
}
