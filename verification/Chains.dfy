/** The `next` graph of the linked message queue, on its own.

    Nodes are numbered: `TAIL` and `ROOT` are the two sentinels, every message gets the next free
    number when it is pushed, so the numbers of the messages are their push order.  A graph is the
    sequence of all `next` fields.  The tail's field is `None` in the program; here it is written
    as the tail itself, which keeps the sequence total.

    Three rewrites are all the program ever does to this graph: `Prune` (one iteration of the
    pruning loop, in its two forms) and `Append` (the last step of a push). */
module Chains {
  const TAIL: nat := 0
  const ROOT: nat := 1

  type Links = seq<nat>

  // ---------- Walking a graph ----------

  /** `x` reaches the tail in exactly `k` hops. */
  ghost predicate Falls(next: Links, x: nat, k: nat)
    decreases k
  {
    && x < |next|
    && if k == 0 then x == TAIL else x != TAIL && Falls(next, next[x], k - 1)
  }

  ghost predicate ReachesTail(next: Links, x: nat) {
    exists k: nat :: Falls(next, x, k)
  }

  /** Every field points at a node, and every node reaches the tail: there is no cycle. */
  ghost predicate Grounded(next: Links) {
    && |next| > ROOT
    && next[TAIL] == TAIL
    && (forall x | 0 <= x < |next| :: next[x] < |next|)
    && (forall x: nat | x < |next| :: ReachesTail(next, x))
  }

  lemma {:induction false} FallsOnce(next: Links, x: nat, j: nat, k: nat)
    requires Falls(next, x, j) && Falls(next, x, k)
    ensures j == k
    decreases j
  {
    if j > 0 && k > 0 {
      FallsOnce(next, next[x], j - 1, k - 1);
    }
  }

  /** How far a node is from the tail. */
  ghost function Dist(next: Links, x: nat): (k: nat)
    requires Grounded(next) && x < |next|
    ensures Falls(next, x, k)
  {
    assert ReachesTail(next, x);
    var k: nat :| Falls(next, x, k);
    k
  }

  lemma DistStep(next: Links, x: nat)
    requires Grounded(next) && x < |next| && x != TAIL
    ensures Dist(next, x) == Dist(next, next[x]) + 1
  {
    FallsOnce(next, next[x], Dist(next, x) - 1, Dist(next, next[x]));
  }

  /** The nodes from `x` on, following `next`, without the tail. */
  ghost function Chain(next: Links, x: nat): (chain: seq<nat>)
    requires Grounded(next) && x < |next|
    ensures TAIL !in chain
    ensures x != TAIL ==> |chain| > 0 && chain[0] == x
    ensures forall y | y in chain :: y < |next|
    decreases Dist(next, x)
  {
    if x == TAIL then [] else
      DistStep(next, x);
      [x] + Chain(next, next[x])
  }

  ghost predicate On(next: Links, x: nat, y: nat)
    requires Grounded(next) && x < |next|
  {
    y in Chain(next, x)
  }

  lemma OnStep(next: Links, x: nat, y: nat)
    requires Grounded(next) && x < |next|
    ensures On(next, x, y) <==> x != TAIL && (x == y || On(next, next[x], y))
  {
    if x != TAIL {
      DistStep(next, x);
      assert Chain(next, x) == [x] + Chain(next, next[x]);
    }
  }

  lemma {:induction false} OnDist(next: Links, x: nat, y: nat)
    requires Grounded(next) && x < |next| && On(next, x, y)
    ensures y < |next| && y != TAIL && x != TAIL
    ensures Dist(next, y) <= Dist(next, x)
    ensures Dist(next, y) == Dist(next, x) ==> x == y
    decreases Dist(next, x)
  {
    OnStep(next, x, y);
    DistStep(next, x);
    if x != y {
      OnDist(next, next[x], y);
    }
  }

  lemma {:induction false} OnTrans(next: Links, x: nat, y: nat, z: nat)
    requires Grounded(next) && x < |next| && y < |next| && On(next, x, y) && On(next, y, z)
    ensures On(next, x, z)
    decreases Dist(next, x)
  {
    OnStep(next, x, y);
    OnStep(next, x, z);
    if x != y {
      DistStep(next, x);
      OnTrans(next, next[x], y, z);
    }
  }

  /** There are no two nodes that reach each other. */
  lemma OnAntisymmetric(next: Links, x: nat, y: nat)
    requires Grounded(next) && x < |next| && y < |next|
    requires On(next, x, y) && On(next, y, x)
    ensures x == y
  {
    OnDist(next, x, y);
    OnDist(next, y, x);
  }

  /** A node is not on the chain that starts behind it. */
  lemma NotBehindItself(next: Links, x: nat)
    requires Grounded(next) && x < |next| && x != TAIL
    ensures !On(next, next[x], x)
  {
    DistStep(next, x);
    if On(next, next[x], x) {
      OnDist(next, next[x], x);
    }
  }

  /** The node at the end of a chain: the one that points at the tail. */
  ghost function End(next: Links, x: nat): (e: nat)
    requires Grounded(next) && x < |next| && x != TAIL
    ensures On(next, x, e) && e < |next| && e != TAIL && next[e] == TAIL
    decreases Dist(next, x)
  {
    DistStep(next, x);
    OnStep(next, x, x);
    if next[x] == TAIL then x else
      var e := End(next, next[x]);
      OnStep(next, x, e);
      e
  }

  /** On one chain only the end points at the tail. */
  lemma {:induction false} EndOnly(next: Links, x: nat, y: nat)
    requires Grounded(next) && x < |next| && On(next, x, y) && y < |next| && next[y] == TAIL
    ensures x != TAIL && y == End(next, x)
    decreases Dist(next, x)
  {
    OnStep(next, x, y);
    DistStep(next, x);
    if x == y {
    } else {
      EndOnly(next, next[x], y);
    }
  }

  // ---------- Pruning ----------

  /** One iteration of the pruning loop at `a`: the node behind `a` is taken out.  When `a` still
      holds its message (`back`), the node taken out is pointed back at `a`. */
  function Prune(next: Links, a: nat, back: bool): (pruned: Links)
    requires a < |next| && next[a] < |next|
    ensures |pruned| == |next|
  {
    var b := next[a];
    var skipped := next[a := next[b]];
    if back then skipped[b := a] else skipped
  }

  ghost predicate CanPrune(next: Links, a: nat) {
    && Grounded(next)
    && a < |next| && a != TAIL
    && next[a] != TAIL
  }

  lemma PruneApart(next: Links, a: nat)
    requires CanPrune(next, a)
    ensures a != next[a] && next[a] != next[next[a]] && a != next[next[a]]
    ensures Dist(next, a) == Dist(next, next[next[a]]) + 2
  {
    DistStep(next, a);
    DistStep(next, next[a]);
  }

  lemma {:induction false} PruneFalls(next: Links, a: nat, back: bool, x: nat)
    requires CanPrune(next, a) && x < |next|
    ensures ReachesTail(Prune(next, a, back), x)
    decreases Dist(next, x)
  {
    var pruned := Prune(next, a, back);
    var b := next[a];
    PruneApart(next, a);
    if x == TAIL {
      assert Falls(pruned, x, 0);
    } else if x == a || (x == b && back) {
      DistStep(next, x);
      PruneFalls(next, a, back, next[b]);
      var k: nat :| Falls(pruned, next[b], k);
      assert Falls(pruned, a, k + 1);
      assert x == b ==> Falls(pruned, b, k + 2);
    } else {
      DistStep(next, x);
      PruneFalls(next, a, back, next[x]);
      var k: nat :| Falls(pruned, next[x], k);
      assert Falls(pruned, x, k + 1);
    }
  }

  /** Pruning never builds a cycle, in either form and at any node. */
  lemma PruneGrounded(next: Links, a: nat, back: bool)
    requires CanPrune(next, a)
    ensures Grounded(Prune(next, a, back))
  {
    PruneApart(next, a);
    var pruned := Prune(next, a, back);
    forall x: nat | x < |next| ensures ReachesTail(pruned, x) {
      PruneFalls(next, a, back, x);
    }
    assert forall x | 0 <= x < |next| :: pruned[x] < |next|;
  }

  /** Exactly how pruning changes who is on whose chain. */
  lemma {:induction false} PruneOn(next: Links, a: nat, back: bool, x: nat, y: nat)
    requires CanPrune(next, a) && x < |next|
    ensures Grounded(Prune(next, a, back))
    ensures On(Prune(next, a, back), x, y) <==>
            || (On(next, x, y) && !(y == next[a] && On(next, x, a)))
            || (back && y == a && On(next, x, next[a]))
    decreases Dist(next, x)
  {
    PruneGrounded(next, a, back);
    PruneApart(next, a);
    var pruned := Prune(next, a, back);
    var b := next[a];
    var c := next[b];
    OnStep(next, x, y);
    OnStep(next, x, a);
    OnStep(next, x, b);
    OnStep(pruned, x, y);
    if x == TAIL {
    } else if x == a || (x == b && back) {
      DistStep(next, x);
      NotBehindItself(next, a);
      NotBehindItself(next, b);
      OnStep(next, a, y);
      OnStep(next, b, y);
      OnStep(next, b, a);
      OnStep(pruned, a, y);
      PruneOn(next, a, back, c, y);
    } else {
      DistStep(next, x);
      if x == b {
        NotBehindItself(next, a);
        OnStep(next, b, a);
      }
      PruneOn(next, a, back, next[x], y);
    }
  }

  // ---------- Appending ----------

  /** The end of a push: the new node, the largest number, goes behind `p`. */
  function Append(next: Links, p: nat): (linked: Links)
    requires p < |next|
    ensures |linked| == |next| + 1
  {
    next[p := |next|] + [TAIL]
  }

  ghost predicate CanAppend(next: Links, p: nat) {
    && Grounded(next)
    && p < |next| && p != TAIL
    && next[p] == TAIL
  }

  lemma {:induction false} AppendFalls(next: Links, p: nat, x: nat)
    requires CanAppend(next, p) && x < |next|
    ensures ReachesTail(Append(next, p), x)
    decreases Dist(next, x)
  {
    var linked := Append(next, p);
    var n := |next|;
    if x == TAIL {
      assert Falls(linked, x, 0);
    } else if x == p {
      assert Falls(linked, TAIL, 0);
      assert Falls(linked, n, 1);
      assert Falls(linked, x, 2);
    } else {
      DistStep(next, x);
      AppendFalls(next, p, next[x]);
      var k: nat :| Falls(linked, next[x], k);
      assert Falls(linked, x, k + 1);
    }
  }

  lemma AppendGrounded(next: Links, p: nat)
    requires CanAppend(next, p)
    ensures Grounded(Append(next, p))
  {
    var linked := Append(next, p);
    forall x: nat | x < |linked| ensures ReachesTail(linked, x) {
      if x == |next| {
        assert Falls(linked, TAIL, 0);
        assert Falls(linked, x, 1);
      } else {
        AppendFalls(next, p, x);
      }
    }
  }

  /** A push adds the new message to exactly the chains that pass through the insertion point. */
  lemma {:induction false} AppendOn(next: Links, p: nat, x: nat, y: nat)
    requires CanAppend(next, p) && x <= |next|
    ensures Grounded(Append(next, p))
    ensures On(Append(next, p), x, y) <==>
            if x == |next| then y == |next|
            else On(next, x, y) || (y == |next| && On(next, x, p))
    decreases if x == |next| then 0 else Dist(next, x) + 1
  {
    AppendGrounded(next, p);
    var linked := Append(next, p);
    OnStep(linked, x, y);
    if x == |next| {
    } else {
      OnStep(next, x, y);
      OnStep(next, x, p);
      if x == p {
        assert next[x] == TAIL;
        AppendOn(next, p, |next|, y);
      } else if x != TAIL {
        DistStep(next, x);
        AppendOn(next, p, next[x], y);
      }
    }
  }

  // ---------- What a chain still holds ----------

  /** `x` is met before `rest`, if it is live. */
  ghost function Meet(x: nat, live: set<nat>, rest: seq<nat>): (met: seq<nat>)
    ensures forall y :: y in met <==> y in rest || (y == x && x in live)
  {
    if x in live then [x] + rest else rest
  }

  /** The nodes of a chain that are live, in chain order. */
  ghost function Keep(chain: seq<nat>, live: set<nat>): (kept: seq<nat>)
    ensures forall y :: y in kept <==> y in chain && y in live
  {
    if chain == [] then [] else Meet(chain[0], live, Keep(chain[1..], live))
  }

  /** The live messages that can still be reached from `x`, in the order they will be met. */
  ghost function Pending(next: Links, x: nat, live: set<nat>): (pending: seq<nat>)
    requires Grounded(next) && x < |next|
  {
    Keep(Chain(next, x), live)
  }

  lemma PendingStep(next: Links, x: nat, live: set<nat>)
    requires Grounded(next) && x < |next|
    ensures Pending(next, x, live) == if x == TAIL then [] else Meet(x, live, Pending(next, next[x], live))
  {
    if x != TAIL {
      DistStep(next, x);
      assert Chain(next, x)[1..] == Chain(next, next[x]);
    }
  }

  /** One step of `Pending` in a pruned graph, at a node that pruning leaves alone. */
  lemma PrunedPendingStep(next: Links, a: nat, back: bool, x: nat, live: set<nat>)
    requires CanPrune(next, a) && x < |next| && x != a && (x == next[a] ==> !back) && x != TAIL
    ensures Grounded(Prune(next, a, back))
    ensures Pending(Prune(next, a, back), x, live) == Meet(x, live, Pending(Prune(next, a, back), next[x], live))
    ensures Pending(next, x, live) == Meet(x, live, Pending(next, next[x], live))
  {
    PruneGrounded(next, a, back);
    PendingStep(Prune(next, a, back), x, live);
    PendingStep(next, x, live);
  }

  /** Behind the pruned node nothing changes: neither the pruner nor the pruned node is there. */
  lemma PruneKeepsRest(next: Links, a: nat, back: bool, x: nat, live: set<nat>)
    requires CanPrune(next, a) && x < |next| && !On(next, x, a) && !On(next, x, next[a])
    ensures Grounded(Prune(next, a, back))
    ensures Pending(Prune(next, a, back), x, live) == Pending(next, x, live)
    decreases Dist(next, x)
  {
    PruneGrounded(next, a, back);
    if x == TAIL {
      PendingStep(next, x, live);
      PendingStep(Prune(next, a, back), x, live);
    } else {
      OnStep(next, x, a);
      OnStep(next, x, next[a]);
      DistStep(next, x);
      PruneKeepsRest(next, a, back, next[x], live);
      PrunedPendingStep(next, a, back, x, live);
    }
  }

  lemma NothingLiveBetween(next: Links, a: nat, live: set<nat>)
    requires CanPrune(next, a) && next[a] !in live
    ensures Pending(next, next[a], live) == Pending(next, next[next[a]], live)
    ensures Pending(next, a, live) == Meet(a, live, Pending(next, next[next[a]], live))
    ensures !On(next, next[next[a]], a) && !On(next, next[next[a]], next[a])
  {
    NotBehindItself(next, a);
    NotBehindItself(next, next[a]);
    OnStep(next, next[a], a);
    PendingStep(next, a, live);
    PendingStep(next, next[a], live);
  }

  /** What the pruner itself can reach is not changed by what it prunes. */
  lemma PruneKeepsOwn(next: Links, a: nat, back: bool, live: set<nat>)
    requires CanPrune(next, a) && next[a] !in live
    ensures Grounded(Prune(next, a, back))
    ensures Pending(Prune(next, a, back), a, live) == Pending(next, a, live)
  {
    PruneGrounded(next, a, back);
    PruneApart(next, a);
    NothingLiveBetween(next, a, live);
    PruneKeepsRest(next, a, back, next[next[a]], live);
    PendingStep(Prune(next, a, back), a, live);
  }

  lemma {:induction false} PruneKeepsPassing(next: Links, a: nat, back: bool, x: nat, live: set<nat>)
    requires CanPrune(next, a) && x < |next| && next[a] !in live
    requires On(next, x, a) || !On(next, x, next[a]) || !back
    ensures Grounded(Prune(next, a, back))
    ensures Pending(Prune(next, a, back), x, live) == Pending(next, x, live)
    decreases Dist(next, x)
  {
    PruneGrounded(next, a, back);
    OnStep(next, x, a);
    OnStep(next, x, next[a]);
    if x == a {
      PruneKeepsOwn(next, a, back, live);
    } else if x == TAIL {
      PendingStep(next, x, live);
      PendingStep(Prune(next, a, back), x, live);
    } else {
      NotBehindItself(next, a);
      DistStep(next, x);
      PruneKeepsPassing(next, a, back, next[x], live);
      PrunedPendingStep(next, a, back, x, live);
    }
  }

  /** `longer` is `shorter` with `a` put in at one place. */
  ghost predicate PutIn(shorter: seq<nat>, a: nat, longer: seq<nat>) {
    exists i :: 0 <= i <= |shorter| && longer == shorter[..i] + [a] + shorter[i..]
  }

  lemma PutInBehind(x: nat, live: set<nat>, shorter: seq<nat>, a: nat, longer: seq<nat>)
    requires PutIn(shorter, a, longer)
    ensures PutIn(Meet(x, live, shorter), a, Meet(x, live, longer))
  {
    var i :| 0 <= i <= |shorter| && longer == shorter[..i] + [a] + shorter[i..];
    if x in live {
      var met := [x] + shorter;
      assert [x] + longer == met[..i + 1] + [a] + met[i + 1..];
    }
  }

  /** From the pruned node, the pruner is met first. */
  lemma PrunedMeetsPruner(next: Links, a: nat, live: set<nat>)
    requires CanPrune(next, a) && next[a] !in live && a in live
    ensures Grounded(Prune(next, a, true))
    ensures PutIn(Pending(next, next[a], live), a, Pending(Prune(next, a, true), next[a], live))
  {
    PruneGrounded(next, a, true);
    PruneApart(next, a);
    PruneKeepsOwn(next, a, true, live);
    NothingLiveBetween(next, a, live);
    PendingStep(Prune(next, a, true), next[a], live);
    var rest := Pending(next, next[a], live);
    assert [a] + rest == rest[..0] + [a] + rest[0..];
  }

  lemma {:induction false} PruneRevisits(next: Links, a: nat, x: nat, live: set<nat>)
    requires CanPrune(next, a) && x < |next| && next[a] !in live && a in live
    requires On(next, x, next[a]) && !On(next, x, a)
    ensures Grounded(Prune(next, a, true))
    ensures PutIn(Pending(next, x, live), a, Pending(Prune(next, a, true), x, live))
    decreases Dist(next, x)
  {
    PruneGrounded(next, a, true);
    if x == next[a] {
      PrunedMeetsPruner(next, a, live);
    } else {
      OnStep(next, x, a);
      OnStep(next, x, next[a]);
      DistStep(next, x);
      PruneRevisits(next, a, next[x], live);
      PrunedPendingStep(next, a, true, x, live);
      PutInBehind(x, live, Pending(next, next[x], live), a, Pending(Prune(next, a, true), next[x], live));
    }
  }

  /** Pruning loses nothing: of what could be reached from any node before, all of it can be
      reached after, in the same order.  The one possible difference is that the pruner's own node
      is met once more, on the chains that ran into the pruned node without passing the pruner. */
  lemma PruneKeepsPending(next: Links, a: nat, back: bool, x: nat, live: set<nat>)
    requires CanPrune(next, a) && x < |next|
    requires next[a] !in live
    requires back ==> a in live
    ensures Grounded(Prune(next, a, back))
    ensures if back && On(next, x, next[a]) && !On(next, x, a)
            then PutIn(Pending(next, x, live), a, Pending(Prune(next, a, back), x, live))
            else Pending(Prune(next, a, back), x, live) == Pending(next, x, live)
  {
    if back && On(next, x, next[a]) && !On(next, x, a) {
      PruneRevisits(next, a, x, live);
    } else {
      PruneKeepsPassing(next, a, back, x, live);
    }
  }

  /** The insertion point itself gains the new message. */
  lemma AppendPendingHere(next: Links, p: nat, live: set<nat>)
    requires CanAppend(next, p)
    ensures Grounded(Append(next, p))
    ensures Pending(Append(next, p), p, live + {|next|}) == Pending(next, p, live) + [|next|]
  {
    var linked := Append(next, p);
    var more := live + {|next|};
    AppendGrounded(next, p);
    PendingStep(linked, |next|, more);
    PendingStep(linked, TAIL, more);
    PendingStep(linked, p, more);
    PendingStep(next, p, live);
    PendingStep(next, TAIL, live);
  }

  /** One step of `Pending` in a linked graph, at an older node. */
  lemma AppendPendingStep(next: Links, p: nat, x: nat, live: set<nat>)
    requires CanAppend(next, p) && x < |next| && x != p && x != TAIL
    ensures Grounded(Append(next, p))
    ensures Pending(Append(next, p), x, live + {|next|}) ==
            Meet(x, live, Pending(Append(next, p), next[x], live + {|next|}))
    ensures Pending(next, x, live) == Meet(x, live, Pending(next, next[x], live))
  {
    AppendGrounded(next, p);
    PendingStep(Append(next, p), x, live + {|next|});
    PendingStep(next, x, live);
  }

  lemma MeetBefore(x: nat, live: set<nat>, rest: seq<nat>, more: seq<nat>)
    ensures Meet(x, live, rest + more) == Meet(x, live, rest) + more
  {
    assert [x] + (rest + more) == ([x] + rest) + more;
  }

  /** A push adds its message at the end of what can be reached, and only where it can be reached. */
  lemma {:induction false} AppendPending(next: Links, p: nat, x: nat, live: set<nat>)
    requires CanAppend(next, p) && x < |next|
    ensures Grounded(Append(next, p))
    ensures Pending(Append(next, p), x, live + {|next|}) ==
            Pending(next, x, live) + (if On(next, x, p) then [|next|] else [])
    decreases Dist(next, x)
  {
    AppendGrounded(next, p);
    OnStep(next, x, p);
    if x == p {
      AppendPendingHere(next, p, live);
    } else if x == TAIL {
      PendingStep(next, x, live);
      PendingStep(Append(next, p), x, live + {|next|});
    } else {
      DistStep(next, x);
      AppendPending(next, p, next[x], live);
      AppendPendingStep(next, p, x, live);
      MeetBefore(x, live, Pending(next, next[x], live), if On(next, x, p) then [|next|] else []);
    }
  }
}
