/** A whole walk, when nothing comes in between: pruning repeated until the next node is the tail or
    holds its message. */
module Walks {
  import opened Chains
  import opened SoundGraph

  ghost predicate CanWalk(next: Links, a: nat) {
    Grounded(next) && a < |next| && a != TAIL
  }

  /** The graph after a walk from `a`. */
  ghost function Walked(next: Links, live: set<nat>, a: nat): (walked: Links)
    requires CanWalk(next, a)
    ensures |walked| == |next| && CanWalk(walked, a)
    ensures walked[a] == TAIL || walked[a] in live
    decreases Dist(next, a)
  {
    if next[a] == TAIL || next[a] in live then next else
      WalkStep(next, live, a);
      Walked(Prune(next, a, a in live), live, a)
  }

  /** An iteration keeps everything a walk relies on, and brings the walker one node nearer to the
      tail: this is why a walk ends. */
  lemma WalkStep(next: Links, live: set<nat>, a: nat)
    requires CanWalk(next, a) && next[a] != TAIL && next[a] !in live
    ensures CanWalk(Prune(next, a, a in live), a)
    ensures Dist(Prune(next, a, a in live), a) == Dist(next, a) - 1
  {
    var pruned := Prune(next, a, a in live);
    PruneGrounded(next, a, a in live);
    PruneApart(next, a);
    var c := next[next[a]];
    NotBehindItself(next, a);
    NotBehindItself(next, next[a]);
    OnStep(next, next[a], a);
    SameDistBehind(next, a, a in live, c);
    DistStep(pruned, a);
  }

  /** A walk from `a` that has got as far as `next` will end with the graph `goal`. */
  ghost predicate Towards(next: Links, live: set<nat>, a: nat, goal: Links) {
    CanWalk(next, a) && Walked(next, live, a) == goal
  }

  lemma TowardsStep(next: Links, live: set<nat>, a: nat, goal: Links)
    requires Towards(next, live, a, goal) && next[a] != TAIL && next[a] !in live
    ensures Towards(Prune(next, a, a in live), live, a, goal)
    ensures Dist(Prune(next, a, a in live), a) < Dist(next, a)
    ensures a != next[a]
  {
    WalkStep(next, live, a);
    PruneApart(next, a);
  }

  lemma SameDistBehind(next: Links, a: nat, back: bool, x: nat)
    requires CanPrune(next, a) && x < |next| && !On(next, x, a) && !On(next, x, next[a])
    ensures Grounded(Prune(next, a, back)) && Dist(Prune(next, a, back), x) == Dist(next, x)
    decreases Dist(next, x)
  {
    PruneGrounded(next, a, back);
    if x == TAIL {
      assert Falls(next, x, 0) && Falls(Prune(next, a, back), x, 0);
      FallsOnce(next, x, 0, Dist(next, x));
      FallsOnce(Prune(next, a, back), x, 0, Dist(Prune(next, a, back), x));
    } else {
      OnStep(next, x, a);
      OnStep(next, x, next[a]);
      DistStep(next, x);
      SameDistBehind(next, a, back, next[x]);
      DistStep(Prune(next, a, back), x);
    }
  }

  /** A walk keeps the order of the chains, like each of its iterations. */
  lemma {:induction false} WalkSound(next: Links, live: set<nat>, a: nat)
    requires CanWalk(next, a) && Sound(next, live)
    ensures Sound(Walked(next, live, a), live)
    decreases Dist(next, a)
  {
    if next[a] != TAIL && next[a] !in live {
      WalkStep(next, live, a);
      PruneSound(next, live, a, a in live);
      WalkSound(Prune(next, a, a in live), live, a);
    }
  }

  /** The first live message behind `a`, or the tail. */
  ghost function First(next: Links, live: set<nat>, a: nat): (first: nat)
    requires CanWalk(next, a)
    ensures first < |next|
  {
    var pending := Pending(next, next[a], live);
    if pending == [] then TAIL else
      assert pending[0] in pending;
      pending[0]
  }

  /** There is no first live message exactly when nothing on the chain is live. */
  lemma NoFirst(next: Links, live: set<nat>, a: nat)
    requires CanWalk(next, a)
    ensures First(next, live, a) == TAIL <==> forall y | On(next, next[a], y) :: y !in live
  {
    hide Keep, Chain;
    var pending := Pending(next, next[a], live);
    if pending != [] {
      assert pending[0] in pending;
    }
  }

  lemma {:induction false} WalkGoesToFirst(next: Links, live: set<nat>, a: nat)
    requires CanWalk(next, a)
    ensures Walked(next, live, a)[a] == First(next, live, a)
    decreases Dist(next, a)
  {
    hide Pending, Keep, Chain, Dist;
    var b := next[a];
    PendingStep(next, b, live);
    if b != TAIL && b !in live {
      WalkStep(next, live, a);
      WalkGoesToFirst(Prune(next, a, a in live), live, a);
      NothingLiveBetween(next, a, live);
      PruneApart(next, a);
      PruneKeepsRest(next, a, a in live, next[b], live);
    }
  }

  /** A walk ends at the first live message on the chain as it was, and at the tail exactly when the
      chain behind `a` is all claimed. */
  lemma WalkEndsAtFirst(next: Links, live: set<nat>, a: nat)
    requires CanWalk(next, a)
    ensures Walked(next, live, a)[a] == First(next, live, a)
    ensures Walked(next, live, a)[a] == TAIL <==> forall y | On(next, next[a], y) :: y !in live
  {
    hide Walked, First, On;
    WalkGoesToFirst(next, live, a);
    NoFirst(next, live, a);
  }

  /** The nodes a walk skips: those on the chain of `a`, behind it, before the node it ends at. */
  ghost predicate Skipped(next: Links, live: set<nat>, a: nat, x: nat)
    requires CanWalk(next, a)
  {
    On(next, next[a], x) && !On(next, First(next, live, a), x)
  }

  /** Exactly what a walk writes: its own field, and the fields of the nodes it skips if it still
      holds its message.  Every other field is left alone. */
  lemma {:induction false} WalkWrites(next: Links, live: set<nat>, a: nat, x: nat)
    requires CanWalk(next, a) && x < |next|
    ensures Walked(next, live, a)[x] ==
            if x == a then First(next, live, a)
            else if Skipped(next, live, a, x) && a in live then a
            else next[x]
    decreases Dist(next, a)
  {
    WalkEndsAtFirst(next, live, a);
    var b := next[a];
    OnStep(next, b, x);
    OnStep(next, TAIL, x);
    PendingStep(next, b, live);
    NotBehindItself(next, a);
    if b == TAIL || b in live {
      assert First(next, live, a) == b;
    } else {
      var pruned := Prune(next, a, a in live);
      WalkStep(next, live, a);
      WalkWrites(pruned, live, a, x);
      FirstKept(next, live, a);
      SkippedStep(next, live, a, x);
    }
  }

  lemma FirstKept(next: Links, live: set<nat>, a: nat)
    requires CanWalk(next, a) && next[a] != TAIL && next[a] !in live
    ensures CanWalk(Prune(next, a, a in live), a)
    ensures First(Prune(next, a, a in live), live, a) == First(next, live, a)
  {
    WalkStep(next, live, a);
    NothingLiveBetween(next, a, live);
    PruneApart(next, a);
    PruneKeepsRest(next, a, a in live, next[next[a]], live);
  }

  lemma FirstIsBehind(next: Links, live: set<nat>, a: nat)
    requires CanWalk(next, a)
    ensures First(next, live, a) == TAIL || On(next, next[a], First(next, live, a))
  {
  }

  lemma SkippedStep(next: Links, live: set<nat>, a: nat, x: nat)
    requires CanWalk(next, a) && next[a] != TAIL && next[a] !in live && x < |next|
    ensures CanWalk(Prune(next, a, a in live), a)
    ensures Skipped(next, live, a, x) <==> x == next[a] || Skipped(Prune(next, a, a in live), live, a, x)
    ensures !Skipped(Prune(next, a, a in live), live, a, next[a])
  {
    var back, b := a in live, next[a];
    var c, first := next[b], First(next, live, a);
    WalkStep(next, live, a);
    FirstKept(next, live, a);
    PruneApart(next, a);
    NothingLiveBetween(next, a, live);
    OnStep(next, b, x);
    OnStep(next, b, first);
    FirstIsBehind(next, live, a);
    assert first == TAIL || (On(next, c, first) && first in live);
    forall y: nat ensures On(Prune(next, a, back), c, y) <==> On(next, c, y) {
      PruneOn(next, a, back, c, y);
    }
    assert !On(next, first, a) && !On(next, first, b) by {
      if first != TAIL && On(next, first, a) {
        OnTrans(next, c, first, a);
      }
      if first != TAIL && On(next, first, b) {
        OnTrans(next, c, first, b);
      }
      OnStep(next, TAIL, a);
      OnStep(next, TAIL, b);
    }
    PruneOn(next, a, back, first, x);
  }

  /** A walk leaves one end exactly when it does not both skip something without pointing it back
      and end at the tail. */
  lemma {:induction false} WalkSingleEnded(next: Links, live: set<nat>, a: nat)
    requires CanWalk(next, a) && SingleEnded(next)
    ensures SingleEnded(Walked(next, live, a)) <==>
            a in live || next[a] == TAIL || First(next, live, a) != TAIL
  {
    WalkEndsAtFirst(next, live, a);
    if a in live {
      WalkKeepsOneEnd(next, live, a);
    } else {
      forall x: nat | x < |next| ensures Walked(next, live, a)[x] == if x == a then First(next, live, a) else next[x] {
        WalkWrites(next, live, a, x);
      }
      var walked := Walked(next, live, a);
      if next[a] != TAIL && First(next, live, a) == TAIL {
        var e := End(next, a);
        assert walked[a] == TAIL && walked[e] == TAIL && e != a;
      } else {
        assert forall x: nat | x < |next| :: walked[x] == TAIL <==> next[x] == TAIL;
      }
    }
  }

  lemma {:induction false} WalkKeepsOneEnd(next: Links, live: set<nat>, a: nat)
    requires CanWalk(next, a) && SingleEnded(next) && a in live
    ensures SingleEnded(Walked(next, live, a))
    decreases Dist(next, a)
  {
    if next[a] != TAIL && next[a] !in live {
      WalkStep(next, live, a);
      PruneSingleEnded(next, a, true);
      WalkKeepsOneEnd(Prune(next, a, true), live, a);
    }
  }
}
