/** The loop in create that asks the started service for a session. */
module SessionAttempts {
  import opened Wrappers
  import opened Fragments

  /** What attempt n, posted to a path, comes to. */
  datatype Attempt =
    | TimedOut          // newSessionAttemptTimeout passed
    | Cancelled         // the client disconnected
    | Refused           // the HTTP client returned an error
    | Reply(status: nat)

  datatype Outcome =
    | GaveUp            // retry count exceeded
    | Disconnected
    | Failed
    | Replied(status: nat, base: string) // base: the path of the service's URL at the end

  const FALLBACK := "/wd/hub"
  const NOT_FOUND := 404

  /** The paths posted to, and the outcome. */
  datatype Attempts = Attempts(posted: seq<string>, outcome: Outcome)

  /** The base path of the next attempt, if there is one after attempt i came to r. */
  function Again(r: Attempt, base: string, i: nat, retryCount: int): Option<string> {
    if r.TimedOut? && i < retryCount then Some(base)
    else if r == Reply(NOT_FOUND) && base == "" then Some(FALLBACK)
    else None
  }

  function Final(r: Attempt, base: string): Outcome {
    match r
    case TimedOut => GaveUp
    case Cancelled => Disconnected
    case Refused => Failed
    case Reply(status) => Replied(status, base)
  }

  /** r.URL.Path keeps what each attempt made of it: path is the one the last attempt posted to. */
  function Try(base: string, path: string, i: nat, retryCount: int, upstream: (nat, string) -> Attempt): (a: Attempts)
    ensures a.posted != []
    decreases if base == "" then 1 else 0, if i < retryCount then retryCount - i else 0
  {
    var next := PathJoin(base, path);
    var r := upstream(i, next);
    match Again(r, base, i, retryCount)
    case None => Attempts([next], Final(r, base))
    case Some(base') => After([next], Try(base', next, i + 1, retryCount, upstream))
  }

  function After(done: seq<string>, a: Attempts): Attempts { Attempts(done + a.posted, a.outcome) }

  lemma TryAgain(done: seq<string>, base: string, path: string, i: nat, retryCount: int, upstream: (nat, string) -> Attempt)
    ensures var next := PathJoin(base, path);
            match Again(upstream(i, next), base, i, retryCount)
            case None =>
              After(done, Try(base, path, i, retryCount, upstream)) == Attempts(done + [next], Final(upstream(i, next), base))
            case Some(base') =>
              After(done, Try(base, path, i, retryCount, upstream))
              == After(done + [next], Try(base', next, i + 1, retryCount, upstream))
  {
    var next := PathJoin(base, path);
    var r := Again(upstream(i, next), base, i, retryCount);
    if r.Some? {
      var rest := Try(r.value, next, i + 1, retryCount, upstream).posted;
      assert done + ([next] + rest) == (done + [next]) + rest;
    }
  }

  function Max(a: int, b: int): int { if a < b then b else a }

  /** The loop, with its counter, its URL and the request's path updated as it goes. */
  method AttemptSession(basePath: string, requestPath: string, retryCount: int, upstream: (nat, string) -> Attempt)
    returns (posted: seq<string>, outcome: Outcome)
    ensures Attempts(posted, outcome) == Try(basePath, requestPath, 1, retryCount, upstream)
    ensures 1 <= |posted| <= Max(retryCount, 1) + (if basePath == "" then 1 else 0)
  {
    var base, path, i := basePath, requestPath, 1;
    posted := [];
    while true
      invariant 1 <= i == |posted| + 1 <= Max(retryCount, 1) + (if basePath == "" && base != "" then 1 else 0)
      invariant basePath != "" ==> base == basePath
      invariant Try(basePath, requestPath, 1, retryCount, upstream)
             == After(posted, Try(base, path, i, retryCount, upstream))
      decreases if base == "" then 1 else 0, if i < retryCount then retryCount - i else 0
    {
      TryAgain(posted, base, path, i, retryCount, upstream);
      path := PathJoin(base, path);
      posted := posted + [path];
      match upstream(i, path) {
        case TimedOut =>
          if i >= retryCount {
            return posted, GaveUp;
          }
        case Cancelled =>
          return posted, Disconnected;
        case Refused =>
          return posted, Failed;
        case Reply(status) =>
          if status != NOT_FOUND || base != "" {
            return posted, Replied(status, base);
          }
          base := FALLBACK;
      }
      i := i + 1;
    }
  }

  /** The path before the last attempt. */
  function Before(a: Attempts, path: string): string {
    if |a.posted| <= 1 then path else a.posted[|a.posted| - 2]
  }

  /**
   * The last attempt, of those from counter i and path on, was answered with the final
   * status, and posted under the base that the URL then has.
   */
  ghost predicate Succeeded(a: Attempts, path: string, i: nat, upstream: (nat, string) -> Attempt) {
    && a.outcome.Replied? && a.posted != []
    && var last := |a.posted| - 1;
    && a.posted[last] == PathJoin(a.outcome.base, Before(a, path))
    && upstream(i + last, a.posted[last]) == Reply(a.outcome.status)
    && (a.outcome.status == NOT_FOUND ==> a.outcome.base != "")
  }

  lemma SucceededLater(a: Attempts, next: string, path: string, i: nat, upstream: (nat, string) -> Attempt)
    requires Succeeded(a, next, i + 1, upstream)
    ensures Succeeded(After([next], a), path, i, upstream)
  {
    var b, last := After([next], a), |a.posted| - 1;
    assert b.posted[last + 1] == a.posted[last];
    assert Before(b, path) == Before(a, next);
  }

  /** On success the URL's path is the base of the attempt that succeeded, which posted under it. */
  lemma {:induction false} SuccessCarriesBase(base: string, path: string, i: nat, retryCount: int, upstream: (nat, string) -> Attempt)
    requires Try(base, path, i, retryCount, upstream).outcome.Replied?
    ensures Succeeded(Try(base, path, i, retryCount, upstream), path, i, upstream)
    ensures Try(base, path, i, retryCount, upstream).outcome.base in {base, FALLBACK}
    decreases if base == "" then 1 else 0, if i < retryCount then retryCount - i else 0
  {
    var next := PathJoin(base, path);
    var again := Again(upstream(i, next), base, i, retryCount);
    if again.Some? {
      SuccessCarriesBase(again.value, next, i + 1, retryCount, upstream);
      SucceededLater(Try(again.value, next, i + 1, retryCount, upstream), next, path, i, upstream);
    }
  }

  // The whole course of the attempts.

  /** What attempt k of these came to; i is the counter of the first. */
  function Came(posted: seq<string>, k: int, i: nat, upstream: (nat, string) -> Attempt): Attempt
    requires 0 <= k < |posted|
  {
    upstream(i + k, posted[k])
  }

  predicate NotFoundAt(posted: seq<string>, k: int, i: nat, upstream: (nat, string) -> Attempt) {
    0 <= k < |posted| && Came(posted, k, i, upstream) == Reply(404)
  }

  /** The base path of attempt k: an earlier one may have been answered 404. */
  ghost function BaseAt(posted: seq<string>, k: int, base: string, i: nat, upstream: (nat, string) -> Attempt): string {
    if exists j :: j < k && NotFoundAt(posted, j, i, upstream) then "/wd/hub" else base
  }

  /** There is another attempt after one that came to r: it timed out and retries are left, or was not found without a base path. */
  predicate GoesOn(r: Attempt, base: string, n: nat, retryCount: int) {
    (r.TimedOut? && n < retryCount) || (r == Reply(404) && base == "")
  }

  /** Each attempt posts under its base path to what the one before posted to, and is the last exactly if none is to follow. */
  ghost predicate Attempted(posted: seq<string>, base: string, path: string, i: nat, retryCount: int,
                            upstream: (nat, string) -> Attempt)
  {
    forall k | 0 <= k < |posted| :: AttemptAt(posted, k, base, path, i, retryCount, upstream)
  }

  ghost predicate AttemptAt(posted: seq<string>, k: int, base: string, path: string, i: nat, retryCount: int,
                            upstream: (nat, string) -> Attempt)
    requires 0 <= k < |posted|
  {
    var here := BaseAt(posted, k, base, i, upstream);
    && posted[k] == PathJoin(here, if k == 0 then path else posted[k - 1])
    && (k < |posted| - 1 <==> GoesOn(Came(posted, k, i, upstream), here, i + k, retryCount))
  }

  /** How the attempts end: as the last of them. */
  ghost predicate EndsAs(outcome: Outcome, last: Attempt, base: string) {
    match last
    case TimedOut => outcome == GaveUp
    case Cancelled => outcome == Disconnected
    case Refused => outcome == Failed
    case Reply(status) => outcome == Replied(status, base)
  }

  ghost predicate Course(a: Attempts, base: string, path: string, i: nat, retryCount: int, upstream: (nat, string) -> Attempt) {
    && a.posted != [] && Attempted(a.posted, base, path, i, retryCount, upstream)
    && var n := |a.posted| - 1;
       EndsAs(a.outcome, Came(a.posted, n, i, upstream), BaseAt(a.posted, n, base, i, upstream))
  }

  /** One attempt before the others; later: the base path of the next one. */
  lemma BaseLater(first: string, rest: seq<string>, k: int, base: string, i: nat, upstream: (nat, string) -> Attempt)
    requires 1 <= k <= |rest| + 1
    ensures var later := if upstream(i, first) == Reply(404) then "/wd/hub" else base;
            BaseAt([first] + rest, k, base, i, upstream) == BaseAt(rest, k - 1, later, i + 1, upstream)
  {
    var posted, n := [first] + rest, i + 1;
    assert NotFoundAt(posted, 0, i, upstream) <==> upstream(i, first) == Reply(404);
    if j :| j < k - 1 && NotFoundAt(rest, j, n, upstream) {
      assert NotFoundAt(posted, j + 1, i, upstream);
    }
    if j :| j < k && NotFoundAt(posted, j, i, upstream) && j > 0 {
      assert NotFoundAt(rest, j - 1, n, upstream);
    }
  }

  lemma AttemptLater(first: string, rest: seq<string>, k: int, base: string, later: string, path: string, i: nat, retryCount: int,
                     upstream: (nat, string) -> Attempt)
    requires 1 <= k <= |rest| && later == if upstream(i, first) == Reply(404) then "/wd/hub" else base
    requires AttemptAt(rest, k - 1, later, first, i + 1, retryCount, upstream)
    ensures AttemptAt([first] + rest, k, base, path, i, retryCount, upstream)
  {
    BaseLater(first, rest, k, base, i, upstream);
    var posted := [first] + rest;
    assert posted[k] == rest[k - 1] && posted[k - 1] == if k == 1 then first else rest[k - 2];
    assert Came(posted, k, i, upstream) == Came(rest, k - 1, i + 1, upstream);
  }

  lemma NoneBefore(posted: seq<string>, base: string, i: nat, upstream: (nat, string) -> Attempt)
    ensures BaseAt(posted, 0, base, i, upstream) == base
  {
  }

  lemma CourseLater(a: Attempts, base: string, later: string, path: string, i: nat, retryCount: int,
                    upstream: (nat, string) -> Attempt)
    requires var next := PathJoin(base, path);
             && later == (if upstream(i, next) == Reply(404) then "/wd/hub" else base)
             && GoesOn(upstream(i, next), base, i, retryCount)
             && Course(a, later, next, i + 1, retryCount, upstream)
    ensures Course(After([PathJoin(base, path)], a), base, path, i, retryCount, upstream)
  {
    var next := PathJoin(base, path);
    var posted := [next] + a.posted;
    NoneBefore(posted, base, i, upstream);
    forall k | 0 <= k < |posted| ensures AttemptAt(posted, k, base, path, i, retryCount, upstream) {
      if k > 0 {
        AttemptLater(next, a.posted, k, base, later, path, i, retryCount, upstream);
      }
    }
    BaseLater(next, a.posted, |a.posted|, base, i, upstream);
    assert Came(posted, |a.posted|, i, upstream) == Came(a.posted, |a.posted| - 1, i + 1, upstream);
  }

  /**
   * The attempts, from the first to the last, for any upstream: what each posts to, when there is another,
   * and what they come to.
   */
  lemma {:induction false} CourseOfAttempts(base: string, path: string, i: nat, retryCount: int, upstream: (nat, string) -> Attempt)
    ensures Course(Try(base, path, i, retryCount, upstream), base, path, i, retryCount, upstream)
    decreases if base == "" then 1 else 0, if i < retryCount then retryCount - i else 0
  {
    var next := PathJoin(base, path);
    var again := Again(upstream(i, next), base, i, retryCount);
    if again.Some? {
      CourseOfAttempts(again.value, next, i + 1, retryCount, upstream);
      CourseLater(Try(again.value, next, i + 1, retryCount, upstream), base, again.value, path, i, retryCount, upstream);
    } else {
      NoneBefore([next], base, i, upstream);
      assert Came([next], 0, i, upstream) == upstream(i, next);
    }
  }

  // Where the attempts post to.

  function Times(segs: seq<string>, n: nat): seq<string> {
    if n == 0 then [] else segs + Times(segs, n - 1)
  }

  lemma {:induction false} PlainTimes(segs: seq<string>, n: nat)
    requires Plain(segs)
    ensures Plain(Times(segs, n))
  {
    if n > 0 {
      PlainTimes(segs, n - 1);
    }
  }

  lemma PathJoinPlain(base: seq<string>, path: seq<string>)
    requires Plain(base) && Plain(path) && path != []
    ensures PathJoin(if base == [] then "" else Rooted(base), Rooted(path)) == Rooted(base + path)
  {
    if base == [] {
      CleanRooted(path);
      assert base + path == path;
    } else {
      PathJoinRooted(base, path);
    }
  }

  ghost predicate Accumulated(posted: seq<string>, base: seq<string>, path: seq<string>, done: nat) {
    forall k | 0 <= k < |posted| :: posted[k] == Rooted(Times(base, done + k + 1) + path)
  }

  lemma AccumulatedLater(rest: seq<string>, base: seq<string>, path: seq<string>, done: nat)
    requires Accumulated(rest, base, path, done + 1)
    ensures Accumulated([Rooted(Times(base, done + 1) + path)] + rest, base, path, done)
  {
    var posted := [Rooted(Times(base, done + 1) + path)] + rest;
    forall k | 1 <= k < |posted| ensures posted[k] == Rooted(Times(base, done + k + 1) + path) {
      assert rest[k - 1] == Rooted(Times(base, (done + 1) + (k - 1) + 1) + path);
    }
  }

  lemma TimesStep(base: seq<string>, path: seq<string>, done: nat)
    ensures base + (Times(base, done) + path) == Times(base, done + 1) + path
  {
  }

  lemma OnceMore(base: seq<string>, path: seq<string>, done: nat)
    requires Plain(base) && base != [] && Plain(path) && path != []
    ensures PathJoin(Rooted(base), Rooted(Times(base, done) + path)) == Rooted(Times(base, done + 1) + path)
  {
    var here := Times(base, done) + path;
    PlainTimes(base, done);
    TimesStep(base, path, done);
    PathJoinRooted(base, here);
  }

  lemma PostedStep(base: string, path: string, next: string, i: nat, retryCount: int, upstream: (nat, string) -> Attempt)
    requires base != "" && PathJoin(base, path) == next
    ensures Try(base, path, i, retryCount, upstream).posted
         == if upstream(i, next).TimedOut? && i < retryCount then [next] + Try(base, next, i + 1, retryCount, upstream).posted
            else [next]
  {
  }

  /**
   * A service whose URL has a path is posted to under that path once more on each attempt:
   * attempt k (from 0) posts to base^(k+1) and the request's path.
   */
  lemma {:induction false} BaseAccumulates(base: seq<string>, path: seq<string>, done: nat, i: nat, retryCount: int,
                                           upstream: (nat, string) -> Attempt)
    requires Plain(base) && base != [] && Plain(path) && path != []
    ensures Accumulated(Try(Rooted(base), Rooted(Times(base, done) + path), i, retryCount, upstream).posted, base, path, done)
    decreases if i < retryCount then retryCount - i else 0
  {
    var next := Rooted(Times(base, done + 1) + path);
    OnceMore(base, path, done);
    PostedStep(Rooted(base), Rooted(Times(base, done) + path), next, i, retryCount, upstream);
    if upstream(i, next).TimedOut? && i < retryCount {
      BaseAccumulates(base, path, done + 1, i + 1, retryCount, upstream);
      AccumulatedLater(Try(Rooted(base), next, i + 1, retryCount, upstream).posted, base, path, done);
    }
  }

  const HUB: seq<string> := ["wd", "hub"]

  lemma HubIsFallback()
    ensures Rooted(HUB) == FALLBACK && Plain(HUB)
  {
    assert HUB[1..] == ["hub"];
    assert Join(HUB, '/') == "wd" + ['/'] + "hub";
  }

  /** Attempts 0 to j - 1 post to the path itself, and attempt k from j on to /wd/hub^(k - j + 1) and the path. */
  ghost predicate HubFrom(posted: seq<string>, path: seq<string>, j: nat) {
    && 1 <= j <= |posted|
    && (forall k | 0 <= k < j :: posted[k] == Rooted(path))
    && Accumulated(posted[j..], HUB, path, 0)
  }

  lemma HubLater(rest: seq<string>, path: seq<string>, j: nat)
    requires HubFrom(rest, path, j)
    ensures HubFrom([Rooted(path)] + rest, path, j + 1)
  {
    assert ([Rooted(path)] + rest)[j + 1..] == rest[j..];
  }

  lemma HubFirst(rest: seq<string>, path: seq<string>)
    requires Accumulated(rest, HUB, path, 0)
    ensures HubFrom([Rooted(path)] + rest, path, 1)
  {
    assert ([Rooted(path)] + rest)[1..] == rest;
  }

  lemma HubNever(path: seq<string>)
    ensures HubFrom([Rooted(path)], path, 1)
  {
  }

  /** After the 404. */
  lemma HubAfter(path: seq<string>, i: nat, retryCount: int, upstream: (nat, string) -> Attempt)
    requires Plain(path) && path != []
    ensures Accumulated(Try(FALLBACK, Rooted(path), i, retryCount, upstream).posted, HUB, path, 0)
  {
    HubIsFallback();
    assert Times(HUB, 0) + path == path;
    BaseAccumulates(HUB, path, 0, i, retryCount, upstream);
  }

  /** One attempt without a base. */
  lemma PostedBare(path: string, i: nat, retryCount: int, upstream: (nat, string) -> Attempt)
    requires PathJoin("", path) == path
    ensures Try("", path, i, retryCount, upstream).posted
         == if upstream(i, path).TimedOut? && i < retryCount then [path] + Try("", path, i + 1, retryCount, upstream).posted
            else if upstream(i, path) == Reply(NOT_FOUND) then [path] + Try(FALLBACK, path, i + 1, retryCount, upstream).posted
            else [path]
  {
  }

  /** The attempts from counter i on; it is attempt j - 1 that is answered 404, if one is. */
  ghost predicate FallsBack(path: seq<string>, i: nat, retryCount: int, upstream: (nat, string) -> Attempt, j: nat) {
    var posted := Try("", Rooted(path), i, retryCount, upstream).posted;
    HubFrom(posted, path, j) && (j < |posted| ==> upstream(i + j - 1, Rooted(path)) == Reply(NOT_FOUND))
  }

  lemma FallsBackLater(path: seq<string>, i: nat, retryCount: int, upstream: (nat, string) -> Attempt, j: nat)
    requires Plain(path) && path != [] && upstream(i, Rooted(path)).TimedOut? && i < retryCount
    requires FallsBack(path, i + 1, retryCount, upstream, j)
    ensures FallsBack(path, i, retryCount, upstream, j + 1)
  {
    CleanRooted(path);
    PostedBare(Rooted(path), i, retryCount, upstream);
    HubLater(Try("", Rooted(path), i + 1, retryCount, upstream).posted, path, j);
  }

  lemma FallsBackNow(path: seq<string>, i: nat, retryCount: int, upstream: (nat, string) -> Attempt)
    requires Plain(path) && path != [] && !(upstream(i, Rooted(path)).TimedOut? && i < retryCount)
    ensures FallsBack(path, i, retryCount, upstream, 1)
  {
    var next := Rooted(path);
    CleanRooted(path);
    PostedBare(next, i, retryCount, upstream);
    if upstream(i, next) == Reply(NOT_FOUND) {
      HubAfter(path, i + 1, retryCount, upstream);
      HubFirst(Try(FALLBACK, next, i + 1, retryCount, upstream).posted, path);
    } else {
      HubNever(path);
    }
  }

  /**
   * A service whose URL has no path is posted to under the request's path until it answers 404,
   * and from then on under /wd/hub once more on each attempt.
   */
  lemma {:induction false} HubAccumulates(path: seq<string>, i: nat, retryCount: int, upstream: (nat, string) -> Attempt)
    returns (j: nat)
    requires Plain(path) && path != []
    ensures FallsBack(path, i, retryCount, upstream, j)
    decreases if i < retryCount then retryCount - i else 0
  {
    if upstream(i, Rooted(path)).TimedOut? && i < retryCount {
      j := HubAccumulates(path, i + 1, retryCount, upstream);
      FallsBackLater(path, i, retryCount, upstream, j);
      j := j + 1;
    } else {
      FallsBackNow(path, i, retryCount, upstream);
      j := 1;
    }
  }

  /** After a first 404 there is one more attempt. */
  lemma HubOnce(path: seq<string>, retryCount: int, upstream: (nat, string) -> Attempt)
    requires Plain(path) && path != [] && retryCount <= 1
    ensures Try(FALLBACK, Rooted(path), 2, retryCount, upstream).posted == [Rooted(HUB + path)]
  {
    HubIsFallback();
    PathJoinRooted(HUB, path);
    PostedStep(FALLBACK, Rooted(path), Rooted(HUB + path), 2, retryCount, upstream);
  }

  /**
   * With the default retry count of one every attempt posts to the base it was made under,
   * joined once with the request's path; for a service without a path the first attempt
   * posts to the request's path and the second, after a 404, to the same under /wd/hub.
   */
  lemma OneRetryJoinsOnce(base: seq<string>, path: seq<string>, retryCount: int, upstream: (nat, string) -> Attempt)
    requires Plain(base) && Plain(path) && path != [] && retryCount <= 1
    ensures var a := Try(if base == [] then "" else Rooted(base), Rooted(path), 1, retryCount, upstream);
            && a.posted[0] == Rooted(base + path)
            && (|a.posted| == 1 || (base == [] && a.posted == [Rooted(path), Rooted(HUB + path)]))
  {
    PathJoinPlain(base, path);
    if base == [] {
      assert [] + path == path;
      PostedBare(Rooted(path), 1, retryCount, upstream);
      HubOnce(path, retryCount, upstream);
    }
  }
}
