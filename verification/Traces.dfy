/**
  Sequences of states that a run passes through, for claims about every intermediate state.
 */
module Traces {

  // `t` goes on from `t0` through states that all pass the test.
  ghost predicate Through<T(!new)>(t0: seq<T>, t: seq<T>, test: T -> bool)
    decreases |t|
  {
    t == t0 || (|t0| < |t| && test(t[|t| - 1]) && Through(t0, t[..|t| - 1], test))
  }

  lemma {:induction false} ThroughGrows<T(!new)>(t0: seq<T>, t: seq<T>, test: T -> bool)
    requires Through(t0, t, test)
    ensures t0 <= t && forall i :: |t0| <= i < |t| ==> test(t[i])
    decreases |t|
  {
    if t != t0 {
      ThroughGrows(t0, t[..|t| - 1], test);
    }
  }

  lemma ThroughStep<T(!new)>(t0: seq<T>, t: seq<T>, state: T, test: T -> bool)
    requires Through(t0, t, test) && test(state)
    ensures Through(t0, t + [state], test)
  {
    ThroughGrows(t0, t, test);
    assert (t + [state])[..|t|] == t;
  }

  lemma {:induction false} ThroughChain<T(!new)>(t0: seq<T>, t1: seq<T>, t2: seq<T>, p: T -> bool, q: T -> bool, r: T -> bool)
    requires Through(t0, t1, p) && Through(t1, t2, q)
    requires forall s: T :: p(s) || q(s) ==> r(s)
    ensures Through(t0, t2, r)
    decreases |t2|, |t1|
  {
    if t2 != t1 {
      ThroughGrows(t0, t1, p);
      ThroughChain(t0, t1, t2[..|t2| - 1], p, q, r);
    } else if t1 != t0 {
      ThroughChain(t0, t1[..|t1| - 1], t1[..|t1| - 1], p, q, r);
    }
  }

  lemma {:induction false} ThroughSplit<T(!new)>(t0: seq<T>, t1: seq<T>, t2: seq<T>, test: T -> bool)
    requires Through(t0, t2, test) && t0 <= t1 <= t2
    ensures Through(t0, t1, test) && Through(t1, t2, test)
    decreases |t2|
  {
    if |t1| < |t2| {
      ThroughGrows(t0, t2, test);
      assert t2 != t0;
      ThroughSplit(t0, t1, t2[..|t2| - 1], test);
    } else {
      assert t1 == t2;
    }
  }

  lemma ThroughWeaken<T(!new)>(t0: seq<T>, t: seq<T>, p: T -> bool, q: T -> bool)
    requires Through(t0, t, p) && forall s: T :: p(s) ==> q(s)
    ensures Through(t0, t, q)
  {
    ThroughChain(t0, t0, t, p, p, q);
  }
}
