/** What every interleaving keeps true of the `next` graph, as a property of the graph and of the
    set `live` of messages that still hold their payload.  The three rewrites and the loss of a
    payload are each shown to keep it. */
module SoundGraph {
  import opened Chains

  /** From the root and from every live message, the chain meets nodes in push order. */
  ghost predicate Ordered(next: Links, live: set<nat>)
    requires Grounded(next)
  {
    forall x: nat, y: nat :: x < |next| && (x == ROOT || x in live) && On(next, x, y) ==>
      y < |next| && (next[y] == TAIL || next[y] > y)
  }

  /** A chain that meets the chain of a newer live message in any node passes that message. */
  ghost predicate Joined(next: Links, live: set<nat>)
    requires Grounded(next)
  {
    forall x: nat, p: nat, y: nat :: x < p < |next| && p in live && On(next, x, y) && On(next, p, y) ==>
      On(next, x, p)
  }

  ghost predicate Sound(next: Links, live: set<nat>) {
    && Grounded(next)
    && (forall x | 0 <= x < |next| :: next[x] != ROOT)
    && (forall p | p in live :: ROOT < p < |next|)
    && Ordered(next, live)
    && Joined(next, live)
  }

  lemma SoundStart()
    ensures Sound([TAIL, TAIL], {})
  {
    var next := [TAIL, TAIL];
    assert Falls(next, TAIL, 0) && Falls(next, ROOT, 1);
    forall x: nat | x < |next| ensures ReachesTail(next, x) {
    }
    forall x: nat, y: nat | x < |next| && On(next, x, y) ensures y == ROOT {
      OnStep(next, x, y);
      OnStep(next, TAIL, y);
    }
  }

  /** The root is at the head of every chain it is on. */
  lemma {:induction false} RootOnlyFirst(next: Links, x: nat)
    requires Grounded(next) && x < |next| && (forall x | 0 <= x < |next| :: next[x] != ROOT)
    requires On(next, x, ROOT)
    ensures x == ROOT
    decreases Dist(next, x)
  {
    OnStep(next, x, ROOT);
    if x != ROOT {
      DistStep(next, x);
      RootOnlyFirst(next, next[x]);
    }
  }

  /** Only the pruner's own chain can hold the pruned node, among the chains that matter. */
  lemma PrunedOnlyBehindPruner(next: Links, live: set<nat>, a: nat, x: nat)
    requires Sound(next, live) && CanPrune(next, a) && next[a] !in live
    requires a in live && x < |next| && (x == ROOT || x in live) && On(next, x, next[a])
    ensures On(next, x, a)
  {
    var b := next[a];
    NotBehindItself(next, a);
    OnStep(next, a, b);
    OnStep(next, b, b);
    OnStep(next, a, a);
    if x < a {
      assert On(next, x, a);
    } else if a < x {
      assert On(next, a, x);
      OnStep(next, a, x);
      OnAntisymmetric(next, x, b);
    }
  }

  lemma PruneOrdered(next: Links, live: set<nat>, a: nat, back: bool)
    requires Sound(next, live) && CanPrune(next, a) && next[a] !in live && (back ==> a in live)
    ensures Grounded(Prune(next, a, back))
    ensures Ordered(Prune(next, a, back), live)
  {
    PruneGrounded(next, a, back);
    PruneApart(next, a);
    var pruned := Prune(next, a, back);
    var b := next[a];
    forall x: nat, y: nat | x < |next| && (x == ROOT || x in live) && On(pruned, x, y)
      ensures y < |next| && (pruned[y] == TAIL || pruned[y] > y)
    {
      PruneOn(next, a, back, x, y);
      OnStep(next, a, b);
      OnStep(next, b, b);
      if back && On(next, x, b) {
        PrunedOnlyBehindPruner(next, live, a, x);
      }
      assert On(next, x, y);
      if y == a {
        OnTrans(next, x, a, b);
        assert b > a && (next[b] == TAIL || next[b] > b);
      }
    }
  }

  lemma PruneJoined(next: Links, live: set<nat>, a: nat, back: bool)
    requires Sound(next, live) && CanPrune(next, a) && next[a] !in live && (back ==> a in live)
    ensures Grounded(Prune(next, a, back))
    ensures Joined(Prune(next, a, back), live)
  {
    PruneGrounded(next, a, back);
    PruneApart(next, a);
    var pruned := Prune(next, a, back);
    var b := next[a];
    forall x: nat, p: nat, y: nat | x < p < |next| && p in live && On(pruned, x, y) && On(pruned, p, y)
      ensures On(pruned, x, p)
    {
      PruneOn(next, a, back, x, y);
      PruneOn(next, a, back, p, y);
      PruneOn(next, a, back, x, p);
      OnStep(next, a, b);
      OnStep(next, b, b);
      OnStep(next, a, a);
      if back && On(next, p, b) {
        PrunedOnlyBehindPruner(next, live, a, p);
      }
      assert On(next, p, y);
      if !On(next, x, y) {
        // y is the pruner, met again through the pruned node.
        assert back && y == a && On(next, x, b);
        OnTrans(next, p, a, b);
        assert On(next, x, p);
      }
    }
  }

  lemma PruneSound(next: Links, live: set<nat>, a: nat, back: bool)
    requires Sound(next, live) && CanPrune(next, a) && next[a] !in live && (back ==> a in live)
    ensures Sound(Prune(next, a, back), live)
  {
    PruneOrdered(next, live, a, back);
    PruneJoined(next, live, a, back);
    if back {
      assert a != ROOT;
    }
    assert forall x | 0 <= x < |next| :: Prune(next, a, back)[x] != ROOT;
  }

  /** Pruning brings no newer message onto any chain: all it can bring back is an older one. */
  lemma PruneBringsNothingNewer(next: Links, live: set<nat>, a: nat, back: bool, u: nat, m: nat)
    requires Sound(next, live) && CanPrune(next, a)
    requires u < m < |next| && m in live
    ensures Grounded(Prune(next, a, back))
    ensures On(Prune(next, a, back), u, m) ==> On(next, u, m)
  {
    PruneOn(next, a, back, u, m);
    OnStep(next, a, next[a]);
    OnStep(next, next[a], next[a]);
    if On(next, u, next[a]) && m == a {
      // Both chains meet in the pruned node, so the newer one was on the other's chain already.
      assert On(next, u, a);
    }
  }

  lemma AppendSound(next: Links, live: set<nat>, p: nat)
    requires Sound(next, live) && CanAppend(next, p)
    ensures Sound(Append(next, p), live + {|next|})
  {
    AppendGrounded(next, p);
    var linked := Append(next, p);
    var n := |next|;
    forall x: nat, y: nat | x < |linked| && (x == ROOT || x in live + {n}) && On(linked, x, y)
      ensures y < |linked| && (linked[y] == TAIL || linked[y] > y)
    {
      AppendOn(next, p, x, y);
    }
    forall x: nat, q: nat, y: nat | x < q < |linked| && q in live + {n} && On(linked, x, y) && On(linked, q, y)
      ensures On(linked, x, q)
    {
      AppendOn(next, p, x, y);
      AppendOn(next, p, q, y);
      AppendOn(next, p, x, q);
    }
  }

  /** Taking a payload changes no chain. */
  lemma ClaimSound(next: Links, live: set<nat>, fewer: set<nat>)
    requires Sound(next, live) && fewer <= live
    ensures Sound(next, fewer)
  {
  }

  /** The chain of the root, and of every live message, is strictly increasing in push order. */
  lemma ChainSorted(next: Links, live: set<nat>, x: nat, i: nat, j: nat)
    requires Sound(next, live) && x < |next| && (x == ROOT || x in live)
    requires i < j < |Chain(next, x)|
    ensures Chain(next, x)[i] < Chain(next, x)[j]
  {
    ChainSuffix(next, x, i);
    ChainSuffix(next, x, j);
    ChainSuffix(next, x, j - 1);
    var u, v := Chain(next, x)[j - 1], Chain(next, x)[j];
    assert On(next, x, u);
    assert u < v;
    if i < j - 1 {
      ChainSorted(next, live, x, i, j - 1);
    }
  }

  lemma {:induction false} ChainSuffix(next: Links, x: nat, i: nat)
    requires Grounded(next) && x < |next| && i < |Chain(next, x)|
    ensures Chain(next, x)[i] < |next|
    ensures i + 1 < |Chain(next, x)| ==> next[Chain(next, x)[i]] == Chain(next, x)[i + 1]
    ensures i + 1 == |Chain(next, x)| ==> next[Chain(next, x)[i]] == TAIL
    decreases i
  {
    DistStep(next, x);
    if i > 0 {
      ChainSuffix(next, next[x], i - 1);
    }
  }

  /** A live message is never before what it is reached from, seen from a live message or the root. */
  lemma OnIsNewer(next: Links, live: set<nat>, x: nat, y: nat)
    requires Sound(next, live) && x < |next| && (x == ROOT || x in live) && On(next, x, y)
    ensures x <= y
  {
    var i :| 0 <= i < |Chain(next, x)| && Chain(next, x)[i] == y;
    if i > 0 {
      ChainSorted(next, live, x, 0, i);
    }
  }

  // ---------- Going back ----------

  /** Who has come from `x` to an older node will not meet, from there, anything between the two: a
      chain that goes back does so only to nodes from which it goes on past where it came from. */
  ghost predicate Jumps(next: Links)
    requires Grounded(next)
  {
    forall x: nat, y: nat, z: nat {:trigger On(next, x, y), On(next, y, z)} ::
      x < |next| && y < z <= x && On(next, x, y) ==> !On(next, y, z)
  }

  lemma JumpsStart()
    ensures Grounded([TAIL, TAIL]) && Jumps([TAIL, TAIL])
  {
    SoundStart();
    var next := [TAIL, TAIL];
    forall x: nat, y: nat | x < |next| && On(next, x, y) ensures y == x {
      OnStep(next, x, y);
      OnStep(next, TAIL, y);
    }
  }

  lemma PruneJumps(next: Links, live: set<nat>, a: nat, back: bool)
    requires Sound(next, live) && CanPrune(next, a) && next[a] !in live && (back ==> a in live) && Jumps(next)
    ensures Grounded(Prune(next, a, back))
    ensures Jumps(Prune(next, a, back))
  {
    PruneGrounded(next, a, back);
    var pruned := Prune(next, a, back);
    forall x: nat, y: nat, z: nat | x < |next| && y < z <= x && On(pruned, x, y) ensures !On(pruned, y, z) {
      PruneKeepsJump(next, live, a, back, x, y, z);
    }
  }

  lemma PruneKeepsJump(next: Links, live: set<nat>, a: nat, back: bool, x: nat, y: nat, z: nat)
    requires Sound(next, live) && CanPrune(next, a) && next[a] !in live && (back ==> a in live) && Jumps(next)
    requires Grounded(Prune(next, a, back))
    requires y < z <= x < |next| && On(Prune(next, a, back), x, y)
    ensures !On(Prune(next, a, back), y, z)
  {
    hide Prune;
    var b := next[a];
    PruneOn(next, a, back, x, y);
    PruneOn(next, a, back, y, z);
    OnStep(next, a, a);
    OnStep(next, a, b);
    OnStep(next, b, b);
    OnStep(next, a, z);
    // Only the pruner can be new on a chain.  If it is `z`, it was there already, being newer; if it is
    // `y`, everything behind the pruned node is newer than that.
    if !On(next, x, y) {
      BehindIsNewer(next, live, a, b, z);
    }
  }

  /** On the chain of a live message, what is behind a node is newer than it. */
  lemma {:induction false} BehindIsNewer(next: Links, live: set<nat>, x: nat, y: nat, z: nat)
    requires Sound(next, live) && x < |next| && (x == ROOT || x in live)
    requires y < |next| && On(next, x, y)
    ensures On(next, y, z) ==> y <= z
    decreases Dist(next, y)
  {
    OnStep(next, y, z);
    OnStep(next, TAIL, z);
    if y != TAIL && next[y] != TAIL {
      OnStep(next, next[y], next[y]);
      OnStep(next, y, next[y]);
      OnTrans(next, x, y, next[y]);
      DistStep(next, y);
      BehindIsNewer(next, live, x, next[y], z);
    }
  }

  lemma AppendJumps(next: Links, p: nat)
    requires CanAppend(next, p) && Jumps(next)
    ensures Grounded(Append(next, p)) && Jumps(Append(next, p))
  {
    AppendGrounded(next, p);
    var linked := Append(next, p);
    forall x: nat, y: nat, z: nat | x < |linked| && y < z <= x && On(linked, x, y) ensures !On(linked, y, z) {
      AppendOn(next, p, x, y);
      AppendOn(next, p, y, z);
    }
  }

  // ---------- One end ----------

  /** Exactly one node points at the tail (that one does follows from groundedness). */
  ghost predicate SingleEnded(next: Links) {
    forall x, y :: 0 < x < |next| && 0 < y < |next| && next[x] == TAIL && next[y] == TAIL ==> x == y
  }

  lemma EndsAgree(next: Links, x: nat, y: nat)
    requires Grounded(next) && SingleEnded(next) && 0 < x < |next| && 0 < y < |next|
    ensures End(next, x) == End(next, y)
  {
  }

  /** With one end, every chain holds every newer live message: nothing can be skipped. */
  lemma AllNewerReachable(next: Links, live: set<nat>, x: nat, p: nat)
    requires Sound(next, live) && SingleEnded(next) && 0 < x < p < |next| && p in live
    ensures On(next, x, p)
  {
    EndsAgree(next, x, p);
    assert On(next, x, End(next, x)) && On(next, p, End(next, x));
  }

  /** A push reaches every chain exactly when there is one end. */
  lemma PushReachesAll(next: Links, p: nat)
    requires CanAppend(next, p)
    ensures Grounded(Append(next, p))
    ensures SingleEnded(next) <==> forall x: nat | 0 < x < |next| :: On(Append(next, p), x, |next|)
  {
    AppendGrounded(next, p);
    if SingleEnded(next) {
      forall x: nat | 0 < x < |next| ensures On(Append(next, p), x, |next|) {
        AppendOn(next, p, x, |next|);
        EndsAgree(next, x, p);
        OnStep(next, p, p);
        EndOnly(next, p, p);
      }
    } else {
      var x, y :| 0 < x < |next| && 0 < y < |next| && next[x] == TAIL && next[y] == TAIL && x != y;
      var z := if x == p then y else x;
      AppendOn(next, p, z, |next|);
      OnStep(next, z, p);
      OnStep(next, TAIL, p);
      if On(next, z, |next|) {
        OnDist(next, z, |next|);
      }
      assert !On(Append(next, p), z, |next|);
    }
  }

  /** Pruning leaves one end exactly when it does not take out the end without pointing it back. */
  lemma PruneSingleEnded(next: Links, a: nat, back: bool)
    requires CanPrune(next, a) && SingleEnded(next)
    ensures SingleEnded(Prune(next, a, back)) <==> back || next[next[a]] != TAIL
  {
    PruneApart(next, a);
    var pruned := Prune(next, a, back);
    if !back && next[next[a]] == TAIL {
      assert pruned[a] == TAIL && pruned[next[a]] == TAIL;
    }
  }

  lemma AppendSingleEnded(next: Links, p: nat)
    requires CanAppend(next, p) && SingleEnded(next)
    ensures SingleEnded(Append(next, p))
  {
  }

  /** A graph that has forked never has one end again. */
  lemma PruneStaysForked(next: Links, a: nat, back: bool)
    requires CanPrune(next, a) && !SingleEnded(next)
    ensures !SingleEnded(Prune(next, a, back))
  {
    var x, y :| 0 < x < |next| && 0 < y < |next| && next[x] == TAIL && next[y] == TAIL && x != y;
    PruneApart(next, a);
    var pruned := Prune(next, a, back);
    var u := if x == next[a] then a else x;
    var v := if y == next[a] then a else y;
    assert pruned[u] == TAIL && pruned[v] == TAIL;
  }

  lemma AppendStaysForked(next: Links, p: nat)
    requires CanAppend(next, p) && !SingleEnded(next)
    ensures !SingleEnded(Append(next, p))
  {
    var x, y :| 0 < x < |next| && 0 < y < |next| && next[x] == TAIL && next[y] == TAIL && x != y;
    var linked := Append(next, p);
    var u := if x == p then |next| else x;
    var v := if y == p then |next| else y;
    assert linked[u] == TAIL && linked[v] == TAIL;
  }

  /** Two chains that end in different nodes do so for good. */
  lemma PruneEndsApart(next: Links, a: nat, back: bool, x: nat, y: nat)
    requires CanPrune(next, a) && 0 < x < |next| && 0 < y < |next| && End(next, x) != End(next, y)
    ensures Grounded(Prune(next, a, back))
    ensures End(Prune(next, a, back), x) != End(Prune(next, a, back), y)
  {
    PruneGrounded(next, a, back);
    var e, f := End(Prune(next, a, back), x), End(Prune(next, a, back), y);
    if e == f {
      EndBeforePrune(next, a, back, x);
      EndBeforePrune(next, a, back, y);
    }
  }

  /** Where a chain ended before a pruning, from where it ends after. */
  lemma EndBeforePrune(next: Links, a: nat, back: bool, x: nat)
    requires CanPrune(next, a) && 0 < x < |next|
    ensures Grounded(Prune(next, a, back))
    ensures var e := End(Prune(next, a, back), x); End(next, x) == if e == a then next[a] else e
  {
    PruneGrounded(next, a, back);
    PruneApart(next, a);
    var b, e := next[a], End(Prune(next, a, back), x);
    PruneOn(next, a, back, x, e);
    OnStep(next, a, b);
    OnStep(next, b, b);
    if e == a {
      if On(next, x, a) {
        OnTrans(next, x, a, b);
      }
      EndOnly(next, x, b);
    } else {
      EndOnly(next, x, e);
    }
  }

  lemma AppendEnds(next: Links, p: nat, x: nat)
    requires CanAppend(next, p) && 0 < x < |next|
    ensures Grounded(Append(next, p))
    ensures End(Append(next, p), x) == if End(next, x) == p then |next| else End(next, x)
  {
    AppendGrounded(next, p);
    var e := End(Append(next, p), x);
    AppendOn(next, p, x, e);
    if e == |next| {
      EndOnly(next, x, p);
    } else {
      EndOnly(next, x, e);
    }
  }

  /** What is behind a node ends where the node does. */
  lemma OnSameEnd(next: Links, x: nat, y: nat)
    requires Grounded(next) && 0 < x < |next|
    ensures On(next, x, y) ==> 0 < y < |next| && End(next, y) == End(next, x)
  {
    if On(next, x, y) {
      OnDist(next, x, y);
      OnTrans(next, x, y, End(next, y));
      EndOnly(next, x, End(next, y));
    }
  }
}
