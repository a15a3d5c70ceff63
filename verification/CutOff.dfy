/** What follows from a fork: a consumer whose chain ends elsewhere than pushes go is cut off for good. */
module CutOff {
  import opened Chains
  import opened SoundGraph
  import opened QueueMachine
  import opened QueueRuns
  import opened SingleEnd
  import opened Delivery

  // ---------- One end ----------

  /** A step never undoes a fork. */
  lemma StaysForked(s: State, e: Event)
    requires Inv(s) && Enabled(s, e) && !SingleEnded(s.next)
    ensures !SingleEnded(Apply(s, e).next)
  {
    hide SingleEnded, Apply, ConsumerInv, Locked, Ordered, Joined;
    StepRewrites(s, e);
    if Prunes(s, e) {
      PruneStaysForked(s.next, s.consumers[e.c].cursor, !At(s, e.c).claimed);
    } else if Inserts(s, e) {
      AppendStaysForked(s.next, s.pusher.at);
    }
  }

  ghost predicate ForkAt(ss: seq<State>, es: seq<Event>, k: nat) {
    k < |es| < |ss| && InRange(ss[k]) && Forks(ss[k], es[k])
  }

  /** A state of a run has one end exactly when no step before it was a fork. */
  lemma {:induction false} SingleEndedExactlyWhen(ss: seq<State>, es: seq<Event>, i: nat)
    requires IsRun(ss, es) && i < |ss|
    ensures SingleEnded(ss[i].next) <==> forall k: nat | k < i :: !ForkAt(ss, es, k)
    decreases i
  {
    hide SingleEnded, Apply, Inv, Forks;
    if i == 0 {
      assert SingleEnded(INITIAL.next) by {
        OneEndAtStart();
      }
    } else {
      SingleEndedExactlyWhen(ss, es, i - 1);
      RunInv(ss, es, i - 1);
      RunStep(ss, es, i - 1);
      assert ForkAt(ss, es, i - 1) <==> Forks(ss[i - 1], es[i - 1]);
      if SingleEnded(ss[i - 1].next) {
        StaysSingleEnded(ss[i - 1], es[i - 1]);
      } else {
        StaysForked(ss[i - 1], es[i - 1]);
      }
    }
  }

  lemma OneEndAtStart()
    ensures SingleEnded(INITIAL.next)
  {
  }

  // ---------- Cut off ----------

  /** A push that is about to be linked will be on the chain of `x` exactly when that chain ends where the
      push is linked. */
  lemma SeesThePush(s: State, x: nat)
    requires Inv(s) && Enabled(s, Hop) && s.next[s.pusher.at] == TAIL && 0 < x < |s.next|
    ensures Inv(Apply(s, Hop))
    ensures On(Apply(s, Hop).next, x, |s.next|) <==> End(s.next, x) == s.pusher.at
  {
    StepKeepsInv(s, Hop);
    AppendOn(s.next, s.pusher.at, x, |s.next|);
    if On(s.next, x, s.pusher.at) {
      EndOnly(s.next, x, s.pusher.at);
    }
  }

  /** The chain of `u` ends neither where the last push went nor where one on its way is going, nor where
      any message from number `n` on leads. */
  ghost predicate Apart(s: State, u: nat, n: nat)
    requires GraphInv(s) && 0 < u < |s.next| && n > 0
  {
    && End(s.next, u) != End(s.next, s.last)
    && (s.pusher.Chasing? ==> End(s.next, u) != End(s.next, s.pusher.at))
    && (forall m | n <= m < |s.next| :: End(s.next, u) != End(s.next, m))
  }

  lemma ApartIsOutOfReach(s: State, u: nat, n: nat, m: nat)
    requires GraphInv(s) && 0 < u < |s.next| && n > 0 && Apart(s, u, n)
    ensures On(s.next, u, m) ==> m < n
  {
    OnSameEnd(s.next, u, m);
  }

  lemma PruneKeepsApart(s: State, e: Event, u: nat, n: nat)
    requires Inv(s) && Enabled(s, e) && Prunes(s, e)
    requires 0 < u < |s.next| && n > 0 && Apart(s, u, n)
    ensures GraphInv(Apply(s, e)) && u < |Apply(s, e).next| && Apart(Apply(s, e), u, n)
  {
    StepKeepsInv(s, e);
    StepRewrites(s, e);
    var t, a, back := Apply(s, e), s.consumers[e.c].cursor, !At(s, e.c).claimed;
    assert t.last == s.last && t.pusher == s.pusher;
    hide Apply, ConsumerInv, Locked, Ordered, Joined;
    forall x: nat | 0 < x < |s.next| && End(s.next, u) != End(s.next, x) ensures End(t.next, u) != End(t.next, x) {
      PruneEndsApart(s.next, a, back, u, x);
    }
  }

  lemma InsertKeepsApart(s: State, u: nat, n: nat)
    requires Inv(s) && Enabled(s, Hop) && Inserts(s, Hop)
    requires 0 < u < |s.next| && n > 0 && Apart(s, u, n)
    ensures GraphInv(Apply(s, Hop)) && u < |Apply(s, Hop).next| && Apart(Apply(s, Hop), u, n)
  {
    StepKeepsInv(s, Hop);
    StepRewrites(s, Hop);
    var t, p := Apply(s, Hop), s.pusher.at;
    assert t.last == |s.next| && t.pusher.Linked?;
    hide Apply, ConsumerInv, Locked, Ordered, Joined;
    OnStep(s.next, p, p);
    EndOnly(s.next, p, p);
    AppendEnds(s.next, p, u);
    OnStep(t.next, |s.next|, |s.next|);
    EndOnly(t.next, |s.next|, |s.next|);
    forall m: nat | n <= m < |s.next| ensures End(t.next, u) != End(t.next, m) {
      AppendEnds(s.next, p, m);
    }
  }

  lemma OtherStepsKeepApart(s: State, e: Event, u: nat, n: nat)
    requires Inv(s) && Enabled(s, e) && !Prunes(s, e) && !Inserts(s, e)
    requires 0 < u < |s.next| && n > 0 && Apart(s, u, n)
    ensures GraphInv(Apply(s, e)) && u < |Apply(s, e).next| && Apart(Apply(s, e), u, n)
  {
    StepKeepsInv(s, e);
    StepRewrites(s, e);
    if e.Hop? {
      var at := s.pusher.at;
      OnStep(s.next, at, at);
      OnStep(s.next, at, s.next[at]);
      OnStep(s.next, s.next[at], s.next[at]);
      OnSameEnd(s.next, at, s.next[at]);
    }
    hide ConsumerInv, Locked, Ordered, Joined;
  }

  lemma StepKeepsApart(s: State, e: Event, u: nat, n: nat)
    requires Inv(s) && Enabled(s, e)
    requires 0 < u < |s.next| && n > 0 && Apart(s, u, n)
    ensures Inv(Apply(s, e)) && u < |Apply(s, e).next| && Apart(Apply(s, e), u, n)
  {
    StepKeepsInv(s, e);
    hide Apply, Apart, ConsumerInv, Locked, Sound;
    if Prunes(s, e) {
      PruneKeepsApart(s, e, u, n);
    } else if Inserts(s, e) {
      InsertKeepsApart(s, u, n);
    } else {
      OtherStepsKeepApart(s, e, u, n);
    }
  }

  /** `c` stands where no message from number `n` on can be reached, and was handed none of them. */
  ghost predicate IsCutOff(s: State, c: ConsumerId, n: nat) {
    && Inv(s) && c in s.consumers && n > 0
    && Apart(s, s.consumers[c].cursor, n)
    && forall m | m in s.consumers[c].handed :: m < n
  }

  lemma StepKeepsCutOff(s: State, e: Event, c: ConsumerId, n: nat)
    requires InRange(s) && Enabled(s, e) && IsCutOff(s, c, n)
    ensures IsCutOff(Apply(s, e), c, n)
  {
    var a := s.consumers[c].cursor;
    StepKeepsApart(s, e, a, n);
    if e == Advance(c) && Finds(s, c) {
      var b, t := At(s, c).probe, Apply(s, e);
      assert ConsumerInv(s, c);
      OnStep(s.next, a, b);
      OnStep(s.next, b, b);
      ApartIsOutOfReach(s, a, n, b);
      OnSameEnd(s.next, a, b);
      assert t.next == s.next;
    } else {
      OtherStepsHandNothing(s, e, c);
    }
  }

  /** Cut off for good: if the chain of a consumer ends elsewhere than that of `last`, and no push is on
      its way to its end, it never reaches and is never handed any message pushed from then on. */
  lemma CutOffForGood(ss: seq<State>, es: seq<Event>, i: nat, j: nat, c: ConsumerId)
    requires IsRun(ss, es) && i <= j < |ss| && GraphInv(ss[i]) && c in ss[i].consumers
    requires End(ss[i].next, ss[i].consumers[c].cursor) != End(ss[i].next, ss[i].last)
    requires ss[i].pusher.Chasing? ==>
               End(ss[i].next, ss[i].consumers[c].cursor) != End(ss[i].next, ss[i].pusher.at)
    ensures GraphInv(ss[j]) && c in ss[j].consumers
    ensures forall m | |ss[i].next| <= m ::
              m !in ss[j].consumers[c].handed && !On(ss[j].next, ss[j].consumers[c].cursor, m)
  {
    RunInv(ss, es, i);
    var n := |ss[i].next|;
    assert ConsumerInv(ss[i], c);
    assert IsCutOff(ss[i], c, n);
    CutOffStays(ss, es, i, j, c, n);
    forall m: nat | n <= m ensures !On(ss[j].next, ss[j].consumers[c].cursor, m) {
      ApartIsOutOfReach(ss[j], ss[j].consumers[c].cursor, n, m);
    }
  }

  lemma CutOffStays(ss: seq<State>, es: seq<Event>, i: nat, j: nat, c: ConsumerId, n: nat)
    requires IsRun(ss, es) && i <= j < |ss| && IsCutOff(ss[i], c, n)
    ensures IsCutOff(ss[j], c, n)
  {
    hide IsCutOff, Apply, Enabled;
    for k := i to j
      invariant IsCutOff(ss[k], c, n)
    {
      assert StepAt(ss, es, k);
      StepKeepsCutOff(ss[k], es[k], c, n);
    }
  }
}
