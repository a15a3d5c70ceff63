/** When a consumer is handed a message it was handed before. */
module Revisits {
  import opened Chains
  import opened SoundGraph
  import opened QueueMachine
  import opened QueueRuns
  import opened SingleEnd
  import opened Delivery

  /** Of the messages `c` was handed, those newer than the one it stands on are out of its reach. */
  ghost predicate NoneAhead(s: State, c: ConsumerId)
    requires GraphInv(s) && c in s.consumers
  {
    forall m | m in s.consumers[c].handed && m in Live(s) && m > s.consumers[c].cursor ::
      !On(s.next, s.consumers[c].cursor, m)
  }

  /** From a reachable state on, no chain goes back only to come past where it was, and nobody has a
      message ahead that it was handed already. */
  ghost predicate Onward(s: State)
    requires GraphInv(s)
  {
    Jumps(s.next) && forall c | c in s.consumers :: NoneAhead(s, c)
  }

  lemma StepKeepsJumps(s: State, e: Event)
    requires Inv(s) && Enabled(s, e) && Jumps(s.next)
    ensures Inv(Apply(s, e)) && Jumps(Apply(s, e).next)
  {
    hide Jumps, Apply, Ordered, Joined, ConsumerInv, Locked;
    StepKeepsInv(s, e);
    StepRewrites(s, e);
    if Prunes(s, e) {
      PruneJumps(s.next, Live(s), s.consumers[e.c].cursor, !At(s, e.c).claimed);
    } else if Inserts(s, e) {
      AppendJumps(s.next, s.pusher.at);
    }
  }

  /** No step of anybody brings a message that `c` was handed back ahead of it. */
  lemma OtherStepsKeepNoneAhead(s: State, e: Event, c: ConsumerId)
    requires Inv(s) && Enabled(s, e) && c in s.consumers && NoneAhead(s, c)
    requires !(e == Advance(c) && Finds(s, c))
    ensures Inv(Apply(s, e)) && c in Apply(s, e).consumers && NoneAhead(Apply(s, e), c)
  {
    StepKeepsInv(s, e);
    StepRewrites(s, e);
    OtherStepsHandNothing(s, e, c);
    assert ConsumerInv(s, c);
    hide Apply, ConsumerInv, Locked, Ordered, Joined;
    var t, u := Apply(s, e), s.consumers[c].cursor;
    forall m | m in t.consumers[c].handed && m in Live(t) && m > u ensures !On(t.next, u, m) {
      if Prunes(s, e) {
        PruneBringsNothingNewer(s.next, Live(s), s.consumers[e.c].cursor, !At(s, e.c).claimed, u, m);
      } else if Inserts(s, e) {
        AppendOn(s.next, s.pusher.at, u, m);
      }
    }
  }

  /** From the message found, nothing newer that was handed before can be reached: not what was newer than
      the old place either, being out of reach from there, nor what lies between, unless the chain went
      back only to come past it. */
  lemma FindKeepsNoneAhead(s: State, c: ConsumerId)
    requires Inv(s) && Finds(s, c) && NoneAhead(s, c) && Jumps(s.next)
    ensures Inv(Iterate(s, c)) && c in Iterate(s, c).consumers && NoneAhead(Iterate(s, c), c)
  {
    StepKeepsInv(s, Advance(c));
    assert ConsumerInv(s, c);
    var a, b, t := s.consumers[c].cursor, At(s, c).probe, Iterate(s, c);
    assert t.next == s.next && Live(t) == Live(s);
    OnStep(s.next, a, b);
    OnStep(s.next, b, b);
    hide Ordered, Joined, ConsumerInv, Locked;
    forall m | m in t.consumers[c].handed && m in Live(t) && m > b ensures !On(t.next, b, m) {
      OnStep(s.next, a, m);
    }
  }

  lemma StepKeepsOnward(s: State, e: Event)
    requires Inv(s) && Enabled(s, e) && Onward(s)
    ensures Inv(Apply(s, e)) && Onward(Apply(s, e))
  {
    StepKeepsJumps(s, e);
    var t := Apply(s, e);
    forall c | c in t.consumers ensures NoneAhead(t, c) {
      if c !in s.consumers {
        assert e == Create(c);
      } else if e == Advance(c) && Finds(s, c) {
        FindKeepsNoneAhead(s, c);
      } else {
        OtherStepsKeepNoneAhead(s, e, c);
      }
    }
  }

  lemma RunOnward(ss: seq<State>, es: seq<Event>, i: nat)
    requires IsRun(ss, es) && i < |ss|
    ensures Inv(ss[i]) && Onward(ss[i])
  {
    InvStart();
    JumpsStart();
    assert Onward(INITIAL);
    hide Inv, Onward, Apply, Enabled;
    for k := 0 to i
      invariant Inv(ss[k]) && Onward(ss[k])
    {
      RunInv(ss, es, k);
      assert StepAt(ss, es, k);
      StepKeepsOnward(ss[k], es[k]);
    }
  }

  // ---------- Once ----------

  /** In every run: a message that is handed to a consumer for a second time is older than the one the
      consumer stands on. */
  lemma AgainOnlyOlder(ss: seq<State>, es: seq<Event>, i: nat, c: ConsumerId)
    requires IsRun(ss, es) && i < |ss| && InRange(ss[i]) && Finds(ss[i], c)
    ensures var Consumer(cursor, phase, handed) := ss[i].consumers[c];
            phase.probe in handed ==> phase.probe < cursor
  {
    RunOnward(ss, es, i);
    var s := ss[i];
    assert ConsumerInv(s, c);
    assert NoneAhead(s, c);
    var a, b := s.consumers[c].cursor, At(s, c).probe;
    OnStep(s.next, a, b);
    OnStep(s.next, b, b);
    NotBehindItself(s.next, a);
  }

  /** Visited once and in order: in every run, from the root or from a message that is still unclaimed, the
      message returned is newer than the one stood on and was not handed to this consumer before. */
  lemma OnceAndInOrderUnlessClaimed(ss: seq<State>, es: seq<Event>, i: nat, c: ConsumerId)
    requires IsRun(ss, es) && i < |ss| && InRange(ss[i]) && Finds(ss[i], c)
    requires ss[i].consumers[c].cursor == ROOT || ss[i].consumers[c].cursor in Live(ss[i])
    ensures At(ss[i], c).probe > ss[i].consumers[c].cursor
    ensures At(ss[i], c).probe !in ss[i].consumers[c].handed
  {
    RunInv(ss, es, i);
    InOrderUnlessClaimed(ss[i], c);
    AgainOnlyOlder(ss, es, i, c);
  }

  /** Exactly when a message comes again: in every run, from wherever the consumer stands, what is returned was
      handed to it before if and only if it is older than the message stood on. */
  lemma AgainExactlyWhenOlder(ss: seq<State>, es: seq<Event>, i: nat, c: ConsumerId)
    requires IsRun(ss, es) && i < |ss| && InRange(ss[i]) && Finds(ss[i], c)
    ensures var Consumer(cursor, phase, handed) := ss[i].consumers[c];
            phase.probe in handed <==> phase.probe < cursor
  {
    AgainOnlyOlder(ss, es, i, c);
    NothingMissedOnItsEnd(ss, es, i, c);
    var s := ss[i];
    assert ConsumerInv(s, c);
    var a, b := s.consumers[c].cursor, At(s, c).probe;
    OnStep(s.next, a, b);
    OnStep(s.next, b, b);
    OnSameEnd(s.next, a, b);
  }

  /** In step `k`, `c` is handed a message while it stands on a claimed one. */
  ghost predicate FindsFromClaimed(ss: seq<State>, es: seq<Event>, k: nat, c: ConsumerId) {
    && k < |es| < |ss| && InRange(ss[k]) && es[k] == Advance(c) && Finds(ss[k], c)
    && ss[k].consumers[c].cursor != ROOT && ss[k].consumers[c].cursor !in Live(ss[k])
  }

  lemma StepKeepsSorted(ss: seq<State>, es: seq<Event>, k: nat, c: ConsumerId)
    requires IsRun(ss, es) && k < |es| && !FindsFromClaimed(ss, es, k, c) && Sorted(HandedTo(ss[k], c))
    ensures Sorted(HandedTo(ss[k + 1], c))
  {
    RunStep(ss, es, k);
    RunInv(ss, es, k);
    var s, e := ss[k], es[k];
    if c in s.consumers {
      assert ConsumerInv(s, c);
      if e == Advance(c) && Finds(s, c) {
        InOrderUnlessClaimed(s, c);
      } else {
        OtherStepsHandNothing(s, e, c);
      }
    }
  }

  /** A consumer that was never handed a message while it stood on a claimed one was handed its messages
      once each and in push order. */
  lemma OnceEachInOrder(ss: seq<State>, es: seq<Event>, i: nat, c: ConsumerId)
    requires IsRun(ss, es) && i < |ss|
    requires forall k: nat | k < i :: !FindsFromClaimed(ss, es, k, c)
    ensures Sorted(HandedTo(ss[i], c))
  {
    RunShape(ss, es, 0);
    hide Sorted, HandedTo, FindsFromClaimed;
    assert HandedTo(ss[0], c) == [] by {
      assert ss[0] == INITIAL;
    }
    assert Sorted([]);
    for k := 0 to i
      invariant Sorted(HandedTo(ss[k], c))
    {
      StepKeepsSorted(ss, es, k, c);
    }
  }
}
