/** Counting the elements of a sequence that satisfy a predicate. */
module Tally {

  function Count<T>(ts: seq<T>, p: T -> bool): (n: nat)
    ensures n <= |ts|
  {
    if ts == [] then 0 else Count(ts[..|ts| - 1], p) + (if p(ts[|ts| - 1]) then 1 else 0)
  }

  lemma {:induction false} CountPositive<T>(ts: seq<T>, i: nat, p: T -> bool)
    requires i < |ts| && p(ts[i])
    ensures Count(ts, p) >= 1
  {
    if i < |ts| - 1 {
      CountPositive(ts[..|ts| - 1], i, p);
    }
  }

  lemma {:induction false} CountWitness<T>(ts: seq<T>, p: T -> bool) returns (i: nat)
    requires Count(ts, p) >= 1
    ensures i < |ts| && p(ts[i])
  {
    var n := |ts| - 1;
    if p(ts[n]) {
      i := n;
    } else {
      i := CountWitness(ts[..n], p);
    }
  }

  /** The indices of the elements that satisfy p. */
  ghost function Where<T(!new)>(ts: seq<T>, p: T -> bool): set<nat> {
    set t: nat | t < |ts| && p(ts[t])
  }

  lemma {:induction false} WhereCount<T(!new)>(ts: seq<T>, p: T -> bool)
    ensures |Where(ts, p)| == Count(ts, p)
  {
    if ts != [] {
      var n := |ts| - 1;
      WhereCount(ts[..n], p);
      assert Where(ts, p) == Where(ts[..n], p) + if p(ts[n]) then {n} else {};
    }
  }

  /** What the elements of s refer to by f. */
  ghost function Image(s: set<nat>, f: nat -> nat): set<nat> {
    set u | u in s :: f(u)
  }

  ghost predicate Injective(s: set<nat>, f: nat -> nat) {
    forall u, v | u in s && v in s && f(u) == f(v) :: u == v
  }

  /** References are to as many elements as there are, unless two agree. */
  lemma {:induction false} ImageSize(s: set<nat>, f: nat -> nat)
    ensures |Image(s, f)| <= |s|
    ensures |Image(s, f)| == |s| <==> Injective(s, f)
  {
    if s == {} {
      assert Image(s, f) == {};
    } else {
      var u :| u in s;
      var rest := s - {u};
      ImageSize(rest, f);
      assert s == rest + {u};
      assert Image(s, f) == Image(rest, f) + {f(u)};
      if f(u) in Image(rest, f) {
        assert Image(s, f) == Image(rest, f);
      } else {
        assert Injective(s, f) <==> Injective(rest, f);
      }
    }
  }
}
