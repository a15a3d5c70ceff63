/** What a consumer is handed, over whole runs. */
module Delivery {
  import opened Chains
  import opened SoundGraph
  import opened QueueMachine
  import opened QueueRuns
  import opened SingleEnd

  /** The walk of `c` is about to end: in a message, or at the tail. */
  predicate Finds(s: State, c: ConsumerId)
    requires InRange(s)
  {
    c in s.consumers && At(s, c).Walking? && s.payload[At(s, c).probe].Some? && Enabled(s, Advance(c))
  }

  predicate FindsNothing(s: State, c: ConsumerId)
    requires InRange(s)
  {
    c in s.consumers && At(s, c).Walking? && At(s, c).probe == TAIL
  }

  // ---------- Order ----------

  /** From the root or from a message that is still unclaimed, the message returned is newer than the
      one stood on. */
  lemma InOrderUnlessClaimed(s: State, c: ConsumerId)
    requires Inv(s) && Finds(s, c)
    requires s.consumers[c].cursor == ROOT || s.consumers[c].cursor in Live(s)
    ensures At(s, c).probe > s.consumers[c].cursor
  {
    assert ConsumerInv(s, c);
    OnStep(s.next, s.consumers[c].cursor, s.consumers[c].cursor);
  }

  /** From wherever it stands, the message returned is newer exactly when no older unclaimed message
      can be reached. */
  lemma InOrderExactlyWhen(s: State, c: ConsumerId)
    requires Inv(s) && Finds(s, c)
    ensures var a := s.consumers[c].cursor;
            At(s, c).probe > a <==> forall m | m in Live(s) && On(s.next, a, m) :: m >= a
  {
    assert ConsumerInv(s, c);
    var a, b := s.consumers[c].cursor, At(s, c).probe;
    OnStep(s.next, a, b);
    OnStep(s.next, b, b);
    DistStep(s.next, a);
    if b > a {
      forall m | m in Live(s) && On(s.next, a, m) ensures m >= a {
        OnStep(s.next, a, m);
        if m != a {
          OnIsNewer(s.next, Live(s), b, m);
        }
      }
    }
  }

  // ---------- Nothing is missed ----------

  /** No other step hands out anything or moves a consumer. */
  lemma OtherStepsHandNothing(s: State, e: Event, c: ConsumerId)
    requires Shape(s) && Enabled(s, e) && c in s.consumers
    requires !(e == Advance(c) && Finds(s, c))
    ensures c in Apply(s, e).consumers
    ensures Apply(s, e).consumers[c].cursor == s.consumers[c].cursor
    ensures Apply(s, e).consumers[c].handed == s.consumers[c].handed
  {
  }

  /** What lies behind `cursor` without being among `handed` is claimed, or on a chain that ends elsewhere
      than the one of `cursor`. */
  ghost predicate NothingMissedBehind(next: Links, live: set<nat>, cursor: nat, handed: seq<nat>)
    requires Sound(next, live) && 0 < cursor < |next|
  {
    forall m | m in live && m <= cursor && End(next, m) == End(next, cursor) :: m in handed
  }

  ghost predicate NothingMissed(s: State, c: ConsumerId)
    requires GraphInv(s) && c in s.consumers && 0 < s.consumers[c].cursor < |s.next|
  {
    NothingMissedBehind(s.next, Live(s), s.consumers[c].cursor, s.consumers[c].handed)
  }

  lemma SameEndJoins(next: Links, live: set<nat>, x: nat, p: nat)
    requires Sound(next, live) && 0 < x < p < |next| && p in live && End(next, x) == End(next, p)
    ensures On(next, x, p)
  {
    assert On(next, x, End(next, x)) && On(next, p, End(next, p));
  }

  /** With the same end, nothing unclaimed lies between the place left and the message found. */
  lemma NothingBetween(next: Links, live: set<nat>, a: nat, m: nat)
    requires Sound(next, live) && 0 < a < |next| && next[a] in live
    requires m in live && a < m && End(next, m) == End(next, a)
    ensures next[a] <= m
  {
    SameEndJoins(next, live, a, m);
    OnStep(next, a, m);
    OnIsNewer(next, live, next[a], m);
  }

  /** The next node ends where the node does. */
  lemma NextEnds(next: Links, a: nat)
    requires Grounded(next) && 0 < a < |next| && next[a] != TAIL
    ensures next[a] < |next| && End(next, next[a]) == End(next, a)
  {
    OnStep(next, a, next[a]);
    OnStep(next, next[a], next[a]);
    OnSameEnd(next, a, next[a]);
  }

  lemma NoneMissedByMoving(next: Links, live: set<nat>, a: nat, handed: seq<nat>, m: nat)
    requires Sound(next, live) && 0 < a < |next| && next[a] in live && NothingMissedBehind(next, live, a, handed)
    requires m in live && m < next[a] < |next| && End(next, m) == End(next, next[a])
    ensures m in handed
  {
    NextEnds(next, a);
    if a < m {
      NothingBetween(next, live, a, m);
    }
  }

  lemma FoundIsHanded(next: Links, live: set<nat>, a: nat, handed: seq<nat>)
    requires Sound(next, live) && 0 < a < |next| && next[a] in live && NothingMissedBehind(next, live, a, handed)
    ensures next[a] < |next| && NothingMissedBehind(next, live, next[a], handed + [next[a]])
  {
    var b := next[a];
    assert b in handed + [b];
    forall m | m in live && m < b && End(next, m) == End(next, b) ensures m in handed + [b] {
      NoneMissedByMoving(next, live, a, handed, m);
    }
  }

  /** What finding a message amounts to. */
  lemma FindMoves(s: State, c: ConsumerId)
    requires Inv(s) && Finds(s, c)
    ensures var a, t := s.consumers[c].cursor, Iterate(s, c);
            && s.next[a] == At(s, c).probe && s.next[a] in Live(s)
            && t.next == s.next && Live(t) == Live(s) && c in t.consumers
            && t.consumers[c].cursor == s.next[a] && t.consumers[c].handed == s.consumers[c].handed + [s.next[a]]
    ensures Apply(s, Advance(c)) == Iterate(s, c)
  {
    assert ConsumerInv(s, c);
  }

  lemma FindKeepsNothingMissed(s: State, c: ConsumerId)
    requires Inv(s) && Finds(s, c) && NothingMissed(s, c)
    ensures Inv(Iterate(s, c)) && c in Iterate(s, c).consumers && NothingMissed(Iterate(s, c), c)
  {
    hide ConsumerInv, Locked, Sound, Iterate, Apply, NothingMissedBehind;
    StepKeepsInv(s, Advance(c));
    FindMoves(s, c);
    FoundIsHanded(s.next, Live(s), s.consumers[c].cursor, s.consumers[c].handed);
  }

  /** No step makes two chains end in the same node. */
  lemma StepKeepsEndsApart(s: State, e: Event, x: nat, y: nat)
    requires Inv(s) && Enabled(s, e) && 0 < x < |s.next| && 0 < y < |s.next|
    ensures Inv(Apply(s, e)) && x < |Apply(s, e).next| && y < |Apply(s, e).next|
    ensures End(Apply(s, e).next, x) == End(Apply(s, e).next, y) ==> End(s.next, x) == End(s.next, y)
  {
    StepKeepsInv(s, e);
    StepRewrites(s, e);
    hide Apply, ConsumerInv, Locked, Ordered, Joined;
    if Prunes(s, e) {
      var a, back := s.consumers[e.c].cursor, !At(s, e.c).claimed;
      EndBeforePrune(s.next, a, back, x);
      EndBeforePrune(s.next, a, back, y);
    } else if Inserts(s, e) {
      AppendEnds(s.next, s.pusher.at, x);
      AppendEnds(s.next, s.pusher.at, y);
    }
  }

  lemma OtherStepsKeepNothingMissed(s: State, e: Event, c: ConsumerId)
    requires Inv(s) && Enabled(s, e) && c in s.consumers && NothingMissed(s, c)
    requires !(e == Advance(c) && Finds(s, c))
    ensures Inv(Apply(s, e)) && c in Apply(s, e).consumers && NothingMissed(Apply(s, e), c)
  {
    OtherStepsHandNothing(s, e, c);
    StepKeepsInv(s, e);
    StepKeepsSent(s, e);
    var t, u := Apply(s, e), s.consumers[c].cursor;
    hide Apply, ConsumerInv, Locked, Sound;
    forall m | m in Live(t) && m <= u && End(t.next, m) == End(t.next, u) ensures m in t.consumers[c].handed {
      StepKeepsEndsApart(s, e, m, u);
    }
  }

  /** In every run: no consumer ever passes an unclaimed message that it was not handed, wherever it walks
      from and whatever the others do, unless the chain of the message ends elsewhere than its own. */
  lemma {:induction false} NothingMissedOnItsEnd(ss: seq<State>, es: seq<Event>, i: nat, c: ConsumerId)
    requires IsRun(ss, es) && i < |ss| && c in ss[i].consumers
    ensures Inv(ss[i]) && NothingMissed(ss[i], c)
    decreases i
  {
    RunInv(ss, es, i);
    if i > 0 {
      RunInv(ss, es, i - 1);
      RunStep(ss, es, i - 1);
      hide NothingMissed, Apply, Inv;
      var s, e := ss[i - 1], es[i - 1];
      if c !in s.consumers {
        NewcomerMissesNothing(s, e, c);
      } else {
        NothingMissedOnItsEnd(ss, es, i - 1, c);
        if e == Advance(c) && Finds(s, c) {
          FindMoves(s, c);
          FindKeepsNothingMissed(s, c);
        } else {
          OtherStepsKeepNothingMissed(s, e, c);
        }
      }
    }
  }

  lemma NewcomerMissesNothing(s: State, e: Event, c: ConsumerId)
    requires Inv(s) && Enabled(s, e) && c !in s.consumers && c in Apply(s, e).consumers
    ensures Inv(Apply(s, e)) && NothingMissed(Apply(s, e), c)
  {
    StepKeepsInv(s, e);
    assert Apply(s, e).consumers[c].cursor == ROOT;
    hide Apply, ConsumerInv, Locked, Ordered, Joined;
  }

  /** In a run without a fork no consumer ever passes an unclaimed message it was not handed. */
  lemma NobodyMissesAnything(ss: seq<State>, es: seq<Event>, i: nat, c: ConsumerId, m: nat)
    requires NeverForks(ss, es) && i < |ss| && c in ss[i].consumers
    requires m in Live(ss[i]) && m <= ss[i].consumers[c].cursor
    ensures m in ss[i].consumers[c].handed
  {
    RunSingleEnded(ss, es, i);
    NothingMissedOnItsEnd(ss, es, i, c);
    EndsAgree(ss[i].next, m, ss[i].consumers[c].cursor);
  }

  /** In every run: when a call comes back empty, every message still unclaimed whose chain ends where the
      caller's does has been handed to the caller. */
  lemma EmptyMeansAllOnItsEnd(ss: seq<State>, es: seq<Event>, i: nat, c: ConsumerId, m: nat)
    requires IsRun(ss, es) && i < |ss|
    requires InRange(ss[i]) && FindsNothing(ss[i], c) && m in Live(ss[i])
    ensures GraphInv(ss[i])
    ensures End(ss[i].next, m) == End(ss[i].next, ss[i].consumers[c].cursor) ==> m in ss[i].consumers[c].handed
  {
    NothingMissedOnItsEnd(ss, es, i, c);
    var s := ss[i];
    assert ConsumerInv(s, c);
    var a := s.consumers[c].cursor;
    if a < m && End(s.next, m) == End(s.next, a) {
      SameEndJoins(s.next, Live(s), a, m);
      OnStep(s.next, a, m);
      OnStep(s.next, TAIL, m);
    }
  }

  /** So in a run without a fork, when a call comes back empty, every message still unclaimed has been handed
      to the caller. */
  lemma EmptyMeansAllHanded(ss: seq<State>, es: seq<Event>, i: nat, c: ConsumerId, m: nat)
    requires NeverForks(ss, es) && i < |ss|
    requires InRange(ss[i]) && FindsNothing(ss[i], c) && m in Live(ss[i])
    ensures m in ss[i].consumers[c].handed
  {
    RunSingleEnded(ss, es, i);
    EmptyMeansAllOnItsEnd(ss, es, i, c, m);
    EndsAgree(ss[i].next, m, ss[i].consumers[c].cursor);
  }

  /** No lost wakeup: in every run, while a consumer is parked and no notification has come since it took its
      ticket, every unclaimed message on its chain was handed to it, or is linked and not yet announced. */
  lemma NothingWaitsUnannounced(ss: seq<State>, es: seq<Event>, i: nat, c: ConsumerId, m: nat)
    requires IsRun(ss, es) && i < |ss|
    requires c in ss[i].consumers && At(ss[i], c).Parked? && !(At(ss[i], c).ticket < ss[i].notified)
    requires m in Live(ss[i])
    ensures GraphInv(ss[i]) && ss[i].consumers[c].cursor < |ss[i].next|
    ensures On(ss[i].next, ss[i].consumers[c].cursor, m) ==>
              m in ss[i].consumers[c].handed || ss[i].pusher == Linked(m)
  {
    NothingMissedOnItsEnd(ss, es, i, c);
    var s := ss[i];
    OnSameEnd(s.next, s.consumers[c].cursor, m);
    if s.consumers[c].cursor < m && s.pusher != Linked(m) {
      NoLostWakeup(ss, es, i, c, m);
    }
  }

  // ---------- A single consumer ----------

  /** The messages from the first one on, `k` of them. */
  function FirstMessages(k: nat): (ms: seq<nat>)
    ensures |ms| == k
    ensures forall j | 0 <= j < k :: ms[j] == ROOT + 1 + j
  {
    seq(k, j => ROOT + 1 + j)
  }

  /** The list has never been pruned. */
  ghost predicate Straight(next: Links) {
    forall x :: 0 < x < |next| ==> next[x] == if x + 1 < |next| then x + 1 else TAIL
  }

  /** Nothing is claimed that the one consumer has not been handed, so nothing is ever pruned. */
  ghost predicate OnlyOne(s: State, c: ConsumerId) {
    && Shape(s)
    && s.consumers.Keys <= {c}
    && Straight(s.next)
    && s.last == |s.next| - 1
    && (s.pusher.Chasing? ==> s.pusher.at == s.last)
    && (var cursor := if c in s.consumers then s.consumers[c].cursor else ROOT;
        && (forall m: nat | cursor < m < |s.next| :: s.payload[m].Some?)
        && (c in s.consumers ==> s.consumers[c].handed == FirstMessages((cursor - 1) as nat)))
    && (c in s.consumers && At(s, c).Walking? ==> At(s, c).probe == s.next[s.consumers[c].cursor])
  }

  lemma AdvanceKeepsOnlyOne(s: State, c: ConsumerId)
    requires OnlyOne(s, c) && Enabled(s, Advance(c)) && Shape(Iterate(s, c))
    ensures OnlyOne(Iterate(s, c), c)
  {
    var t := Iterate(s, c);
    var a, b := s.consumers[c].cursor, At(s, c).probe;
    if b == TAIL {
      assert t.next == s.next;
    } else {
      assert b == a + 1 && s.payload[b].Some?;
      assert t.next == s.next;
      assert t.consumers[c].handed == FirstMessages(a);
    }
  }

  lemma SettleKeepsOnlyOne(s: State, c: ConsumerId, phase: Phase)
    requires OnlyOne(s, c) && c in s.consumers && (phase.Walking? ==> phase.probe == s.next[s.consumers[c].cursor])
    requires Shape(Become(Settle(s, c), c, phase))
    ensures OnlyOne(Become(Settle(s, c), c, phase), c)
  {
  }

  lemma ClaimKeepsOnlyOne(s: State, c: ConsumerId, m: nat)
    requires OnlyOne(s, c) && Enabled(s, Claim(m)) && Shape(Apply(s, Claim(m)))
    ensures OnlyOne(Apply(s, Claim(m)), c)
  {
    assert m in s.consumers[c].handed;
    assert m <= s.consumers[c].cursor;
  }

  lemma HopKeepsOnlyOne(s: State, c: ConsumerId)
    requires OnlyOne(s, c) && Enabled(s, Hop) && Shape(Apply(s, Hop))
    ensures OnlyOne(Apply(s, Hop), c)
  {
  }

  lemma OthersKeepOnlyOne(s: State, c: ConsumerId, e: Event)
    requires OnlyOne(s, c) && Enabled(s, e) && (e.Create? ==> e.c == c) && Shape(Apply(s, e))
    requires !e.Advance? && !e.Start? && !e.Detach? && !e.Claim? && !e.Hop?
    ensures OnlyOne(Apply(s, e), c)
  {
    var t := Apply(s, e);
    assert Live(t) == Live(s);
    if e.Create? {
      assert t.consumers[c].handed == FirstMessages(0);
    }
  }

  lemma StepKeepsOnlyOne(s: State, e: Event, c: ConsumerId)
    requires OnlyOne(s, c) && Enabled(s, e) && (e.Create? ==> e.c == c) && Shape(Apply(s, e))
    ensures OnlyOne(Apply(s, e), c)
  {
    match e {
      case Advance(d) => AdvanceKeepsOnlyOne(s, c);
      case Start(d) => SettleKeepsOnlyOne(s, c, At(Apply(s, e), c));
      case Detach(d) => SettleKeepsOnlyOne(s, c, Detached);
      case Claim(m) => ClaimKeepsOnlyOne(s, c, m);
      case Hop => HopKeepsOnlyOne(s, c);
      case _ => OthersKeepOnlyOne(s, c, e);
    }
  }

  lemma {:induction false} RunOnlyOne(ss: seq<State>, es: seq<Event>, i: nat, c: ConsumerId)
    requires IsRun(ss, es) && i < |ss| && (forall k | 0 <= k < |es| && es[k].Create? :: es[k].c == c)
    ensures OnlyOne(ss[i], c)
  {
    RunShape(ss, es, i);
    if i > 0 {
      RunStep(ss, es, i - 1);
      RunOnlyOne(ss, es, i - 1, c);
      StepKeepsOnlyOne(ss[i - 1], es[i - 1], c);
    }
  }

  /** With one consumer ever, with no side condition: it is handed every message exactly once and
      in push order, and a call comes back empty only when it has been handed all of them. */
  lemma OneConsumerGetsAll(ss: seq<State>, es: seq<Event>, i: nat, c: ConsumerId)
    requires IsRun(ss, es) && (forall k | 0 <= k < |es| && es[k].Create? :: es[k].c == c)
    requires i < |ss| && c in ss[i].consumers
    ensures ss[i].consumers[c].handed == FirstMessages(|ss[i].consumers[c].handed|)
    ensures |ss[i].consumers[c].handed| <= |ss[i].sent|
    ensures InRange(ss[i]) && (FindsNothing(ss[i], c) ==> |ss[i].consumers[c].handed| == |ss[i].sent|)
  {
    RunOnlyOne(ss, es, i, c);
  }
}
