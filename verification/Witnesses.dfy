/** Short runs: two that show where the queue does less than its comments say, one of a consumer that waits,
    and one of a message that is dropped with its last consumer. */
module Witnesses {
  import opened Bytes
  import opened Chains
  import opened Options
  import opened QueueMachine
  import opened QueueRuns
  import opened Delivery

  ghost predicate Reachable(t: State) {
    exists ss, es :: IsRun(ss, es) && ss[|es|] == t
  }

  lemma ReachStart()
    ensures Reachable(INITIAL)
  {
    var ss: seq<State>, es: seq<Event> := [INITIAL], [];
    assert IsRun(ss, es) && ss[|es|] == INITIAL;
  }

  lemma ReachStep(s: State, e: Event, t: State)
    requires Reachable(s) && StepOf(s, e, t)
    ensures Reachable(t)
  {
    var ss, es :| IsRun(ss, es) && ss[|es|] == s;
    forall i: nat | i < |es| + 1 ensures StepAt(ss + [t], es + [e], i) {
      assert i < |es| ==> StepAt(ss, es, i);
    }
    assert IsRun(ss + [t], es + [e]);
  }

  ghost predicate AllIdle(s: State) {
    forall c | c in s.consumers :: At(s, c).Idle?
  }

  /** A whole push, when `last` still points at the tail. */
  function Pushed(s: State, message: Payload): State
    requires InRange(s)
  {
    s.(sent := s.sent + [message],
       next := Append(s.next, s.last),
       payload := s.payload + [Some(message)],
       targets := s.targets + [Some(s.active)],
       last := |s.next|,
       notified := s.notified + 1)
  }

  lemma ReachPush(s: State, message: Payload)
    requires Reachable(s) && InRange(s) && AllIdle(s) && s.pusher == Quiet && s.next[s.last] == TAIL
    ensures Reachable(Pushed(s, message))
  {
    var s1 := Apply(s, BeginPush(message));
    ReachStep(s, BeginPush(message), s1);
    var s2 := Apply(s1, Hop);
    ReachStep(s1, Hop, s2);
    ReachStep(s2, Notify, Pushed(s, message));
  }

  /** `c` is in the pruning loop and everybody else is between calls. */
  function Alone(s: State, c: ConsumerId, claimed: bool, probe: nat): State
    requires c in s.consumers
  {
    Become(s, c, Walking(claimed, probe, None))
  }

  lemma ReachAlone(s: State, c: ConsumerId)
    requires Reachable(s) && InRange(s) && AllIdle(s) && c in s.consumers
    ensures InRange(Settle(s, c))
    ensures var a := s.consumers[c].cursor;
            Reachable(Alone(Settle(s, c), c, Settle(s, c).payload[a].None?, s.next[a]))
  {
    ReachStep(s, Start(c), Apply(s, Start(c)));
  }

  lemma ReachIterated(s: State, c: ConsumerId, claimed: bool, probe: nat)
    requires InRange(s) && AllIdle(s) && c in s.consumers && probe < |s.next| && probe != s.consumers[c].cursor
    requires Reachable(Alone(s, c, claimed, probe))
    ensures InRange(Alone(s, c, claimed, probe)) && Reachable(Iterate(Alone(s, c, claimed, probe), c))
  {
    var w := Alone(s, c, claimed, probe);
    ReachStep(w, Advance(c), Iterate(w, c));
  }

  /** A call that finds a message at once. */
  function Handed(s: State, c: ConsumerId): State
    requires InRange(s) && c in s.consumers
  {
    var b := s.next[s.consumers[c].cursor];
    var t := Settle(s, c);
    t.(consumers := s.consumers[c := Consumer(b, Idle, s.consumers[c].handed + [b])])
  }

  lemma ReachHanded(s: State, c: ConsumerId)
    requires Reachable(s) && InRange(s) && AllIdle(s) && c in s.consumers
    requires var b := s.next[s.consumers[c].cursor];
             b != s.consumers[c].cursor && b != TAIL && s.payload[b].Some?
    ensures Reachable(Handed(s, c))
  {
    var a := s.consumers[c].cursor;
    var b := s.next[a];
    var t := Settle(s, c);
    ReachAlone(s, c);
    ReachIterated(t, c, t.payload[a].None?, b);
    assert t.payload[b] == s.payload[b];
    assert s.next[a := b] == s.next;
  }

  /** A call that takes out one claimed message and then comes to the tail. */
  function PrunedToTail(s: State, c: ConsumerId): State
    requires InRange(s) && c in s.consumers
  {
    var t := Settle(s, c);
    var a := s.consumers[c].cursor;
    t.(next := Prune(s.next, a, t.payload[a].Some?))
  }

  ghost predicate CanPruneToTail(s: State, c: ConsumerId) {
    && InRange(s) && AllIdle(s) && c in s.consumers
    && var a := s.consumers[c].cursor;
    && s.next[a] != a && s.next[a] != TAIL && s.payload[s.next[a]].None?
    && s.next[s.next[a]] == TAIL
  }

  lemma PruneThenTail(s: State, c: ConsumerId)
    requires CanPruneToTail(s, c)
    ensures var t := PrunedToTail(s, c);
            var a := s.consumers[c].cursor;
            var claimed := t.payload[a].None?;
            && InRange(Alone(Settle(s, c), c, claimed, s.next[a]))
            && Iterate(Alone(Settle(s, c), c, claimed, s.next[a]), c) == Alone(t, c, claimed, TAIL)
            && InRange(t) && t.next[a] == TAIL
  {
  }

  lemma TailThenIdle(s: State, c: ConsumerId, claimed: bool)
    requires InRange(s) && c in s.consumers && At(s, c).Idle? && s.next[s.consumers[c].cursor] == TAIL
    ensures InRange(Alone(s, c, claimed, TAIL)) && Iterate(Alone(s, c, claimed, TAIL), c) == s
  {
    var t := Iterate(Alone(s, c, claimed, TAIL), c);
    assert t.next == s.next;
    assert t.consumers == s.consumers;
  }

  lemma ReachPrunedToTail(s: State, c: ConsumerId)
    requires Reachable(s) && CanPruneToTail(s, c)
    ensures Reachable(PrunedToTail(s, c))
  {
    var t := PrunedToTail(s, c);
    var a := s.consumers[c].cursor;
    var claimed := t.payload[a].None?;
    ReachAlone(s, c);
    ReachIterated(Settle(s, c), c, claimed, s.next[a]);
    PruneThenTail(s, c);
    ReachIterated(t, c, claimed, TAIL);
    TailThenIdle(t, c, claimed);
  }

  lemma ReachClaim(s: State, c: ConsumerId, m: nat)
    requires Reachable(s) && InRange(s) && AllIdle(s) && c in s.consumers && m in s.consumers[c].handed
    requires m < |s.payload|
    ensures Reachable(s.(payload := s.payload[m := None]))
  {
    ReachStep(s, Claim(m), s.(payload := s.payload[m := None]));
  }

  const A: Payload := [97]
  const B: Payload := [98]
  const NEW := Consumer(ROOT, Idle, [])

  function TwoConsumers(): State {
    INITIAL.(active := {1, 2}, consumers := map[1 := NEW, 2 := NEW])
  }

  function ThreeConsumers(): State {
    INITIAL.(active := {1, 2, 3}, consumers := map[1 := NEW, 2 := NEW, 3 := NEW])
  }

  lemma ConsumersReachable()
    ensures Reachable(TwoConsumers()) && Reachable(ThreeConsumers())
  {
    ReachStart();
    var one := INITIAL.(active := {1}, consumers := map[1 := NEW]);
    ReachStep(INITIAL, Create(1), one);
    assert Alive(one, 1);
    ReachStep(one, Create(2), TwoConsumers());
    assert Alive(TwoConsumers(), 1) && Alive(TwoConsumers(), 2);
    ReachStep(TwoConsumers(), Create(3), ThreeConsumers());
  }

  /** One message was pushed; consumer 1 took and claimed it while consumer 2 was at the root. */
  function Skippable(): State {
    State([A], [TAIL, 2, TAIL], [None, None, None], [None, None, Some({1, 2})], 2, Quiet, 1, {1, 2},
          map[1 := Consumer(2, Idle, [2]), 2 := NEW])
  }

  function OnePushed(): State {
    TwoConsumers().(sent := [A], next := [TAIL, 2, TAIL], payload := [None, None, Some(A)],
                    targets := [None, None, Some({1, 2})], last := 2, notified := 1)
  }

  /** A consumer at the root is handed the first message, if that is what the root points at. */
  lemma HandedFirst(s: State, c: ConsumerId)
    requires InRange(s) && c in s.consumers && s.consumers[c] == NEW && s.next[ROOT] == 2 && s.targets[ROOT].None?
    ensures Handed(s, c) == s.(consumers := s.consumers[c := Consumer(2, Idle, [2])])
  {
    assert NEW.handed + [2] == [2];
  }

  lemma OnePushedReachable()
    ensures Reachable(OnePushed())
  {
    ConsumersReachable();
    ReachPush(TwoConsumers(), A);
    assert Pushed(TwoConsumers(), A) == OnePushed();
  }

  lemma SkippableReachable()
    ensures Reachable(Skippable())
  {
    OnePushedReachable();
    ReachHanded(OnePushed(), 1);
    HandedFirst(OnePushed(), 1);
    var s := OnePushed().(consumers := OnePushed().consumers[1 := Consumer(2, Idle, [2])]);
    ReachClaim(s, 1, 2);
    assert s.(payload := s.payload[2 := None]) == Skippable();
  }

  /** Consumer 2 has skipped the claimed message, and the next push went behind the skipped one. */
  function Lost(): State {
    State([A, B], [TAIL, TAIL, 3, TAIL], [None, None, None, Some(B)], [None, None, Some({1, 2}), Some({1, 2})],
          3, Quiet, 2, {1, 2}, map[1 := Consumer(2, Idle, [2]), 2 := NEW])
  }

  lemma LostReachable()
    ensures Reachable(Lost())
  {
    SkippableReachable();
    ReachPrunedToTail(Skippable(), 2);
    var s := PrunedToTail(Skippable(), 2);
    assert s.next == [TAIL, TAIL, TAIL];
    ReachPush(s, B);
    assert Pushed(s, B) == Lost();
  }

  /** Lost insertion point: consumer 2 skips the claimed message from the root, so that the root and
      the skipped message both point at the tail.  The next push goes behind the skipped one, and
      consumer 2 finds nothing although an unclaimed message was pushed and it was handed none.  Its
      chain ends elsewhere than that of `last`, which makes it cut off for good. */
  lemma APushCanBeLost() returns (s: State)
    ensures Reachable(s) && InRange(s)
    ensures s.pusher == Quiet && 3 in Live(s) && FindsNothing(s, 2) && s.consumers[2].handed == []
    ensures Grounded(s.next) && End(s.next, s.consumers[2].cursor) != End(s.next, s.last)
  {
    LostReachable();
    s := Apply(Lost(), Start(2));
    ReachStep(Lost(), Start(2), s);
    ReachableGrounded(s);
    OnStep(s.next, ROOT, ROOT);
    EndOnly(s.next, ROOT, ROOT);
    OnStep(s.next, 3, 3);
    EndOnly(s.next, 3, 3);
  }

  lemma ReachableGrounded(s: State)
    requires Reachable(s)
    ensures Grounded(s.next)
  {
    var ss, es :| IsRun(ss, es) && ss[|es|] == s;
    RunInv(ss, es, |es|);
  }

  /** Three consumers; consumer 1 was handed both messages and has claimed the second, consumer 2 was
      handed the first, consumer 3 is still at the root. */
  function Ahead(): State {
    State([A, B], [TAIL, 2, 3, TAIL], [None, None, Some(A), None],
          [None, None, Some({2, 3}), Some({1, 2, 3})], 3, Quiet, 2, {1, 2, 3},
          map[1 := Consumer(3, Idle, [2, 3]), 2 := Consumer(2, Idle, [2]), 3 := NEW])
  }

  function BothPushed(): State {
    ThreeConsumers().(sent := [A, B], next := [TAIL, 2, 3, TAIL], payload := [None, None, Some(A), Some(B)],
                      targets := [None, None, Some({1, 2, 3}), Some({1, 2, 3})], last := 3, notified := 2)
  }

  lemma BothPushedReachable()
    ensures Reachable(BothPushed())
  {
    ConsumersReachable();
    ReachPush(ThreeConsumers(), A);
    var s := Pushed(ThreeConsumers(), A);
    assert s.next == [TAIL, 2, TAIL];
    ReachPush(s, B);
    assert Pushed(s, B) == BothPushed();
  }

  function FirstTaken(): State {
    BothPushed().(consumers := map[1 := Consumer(2, Idle, [2]), 2 := NEW, 3 := NEW])
  }

  function BothTaken(): State {
    BothPushed().(targets := [None, None, Some({2, 3}), Some({1, 2, 3})],
                  consumers := map[1 := Consumer(3, Idle, [2, 3]), 2 := NEW, 3 := NEW])
  }

  lemma FirstTakenReachable()
    ensures Reachable(FirstTaken())
  {
    BothPushedReachable();
    ReachHanded(BothPushed(), 1);
    HandedFirst(BothPushed(), 1);
    assert Handed(BothPushed(), 1) == FirstTaken();
  }

  lemma SecondHanded()
    ensures Handed(FirstTaken(), 1) == BothTaken()
  {
    assert Alive(FirstTaken(), 2);
    assert {1, 2, 3} - {1} == {2, 3};
    assert [2] + [3] == [2, 3];
  }

  lemma BothTakenReachable()
    ensures Reachable(BothTaken())
  {
    FirstTakenReachable();
    ReachHanded(FirstTaken(), 1);
    SecondHanded();
  }

  lemma AheadReachable()
    ensures Reachable(Ahead())
  {
    BothTakenReachable();
    ReachClaim(BothTaken(), 1, 3);
    var s := BothTaken().(payload := [None, None, Some(A), None]);
    assert BothTaken().(payload := BothTaken().payload[3 := None]) == s;
    ReachHanded(s, 2);
    HandedFirst(s, 2);
    assert Handed(s, 2) == Ahead();
  }

  /** Consumer 2 has pruned the message that consumer 1 stands on, and pointed it back. */
  function PointedBack(): State {
    Ahead().(next := [TAIL, 2, TAIL, 2], targets := [None, None, Some({3}), Some({1, 2, 3})])
  }

  /** Rewind: consumer 1 is handed the first message a second time, after a newer one. */
  lemma AMessageCanComeTwice() returns (s: State)
    ensures Reachable(s)
    ensures 1 in s.consumers && s.consumers[1].handed == [2, 3, 2]
  {
    AheadReachable();
    ReachPrunedToTail(Ahead(), 2);
    assert Alive(Ahead(), 3);
    assert {2, 3} - {2} == {3};
    assert PrunedToTail(Ahead(), 2) == PointedBack();
    ReachHanded(PointedBack(), 1);
    s := Handed(PointedBack(), 1);
  }

  // ---------- A consumer that waits ----------

  /** The steps `es` lead to `s`. */
  ghost predicate LeadTo(es: seq<Event>, s: State) {
    exists ss :: IsRun(ss, es) && ss[|es|] == s
  }

  lemma LeadStart()
    ensures LeadTo([], INITIAL)
  {
    var ss: seq<State>, es: seq<Event> := [INITIAL], [];
    assert IsRun(ss, es) && ss[|es|] == INITIAL;
  }

  lemma LeadStep(es: seq<Event>, s: State, e: Event, t: State)
    requires LeadTo(es, s) && StepOf(s, e, t)
    ensures LeadTo(es + [e], t)
  {
    hide StepOf;
    var ss :| IsRun(ss, es) && ss[|es|] == s;
    forall i: nat | i < |es| + 1 ensures StepAt(ss + [t], es + [e], i) {
      assert i < |es| ==> StepAt(ss, es, i);
    }
    assert IsRun(ss + [t], es + [e]);
  }

  /** One consumer at the root, in this phase. */
  function OneAt(phase: Phase): State {
    INITIAL.(active := {1}, consumers := map[1 := Consumer(ROOT, phase, [])])
  }

  /** The same, one message pushed. */
  function PushedFor(phase: Phase, notified: nat): State {
    OneAt(phase).(sent := [A], next := [TAIL, 2, TAIL], payload := [None, None, Some(A)],
                  targets := [None, None, Some({1})], last := 2, notified := notified)
  }

  /** Consumer 1 at the root goes from one phase to another. */
  lemma OneBecomes(from: Phase, to: Phase, notified: nat)
    ensures Become(OneAt(from), 1, to) == OneAt(to)
    ensures Become(PushedFor(from, notified), 1, to) == PushedFor(to, notified)
    ensures OneAt(from).(next := INITIAL.next[ROOT := TAIL]) == OneAt(from)
  {
    var one, other := Consumer(ROOT, from, []), Consumer(ROOT, to, []);
    assert map[1 := one][1 := other] == map[1 := other];
    assert INITIAL.next[ROOT := TAIL] == INITIAL.next;
  }

  lemma OneConsumer()
    ensures LeadTo([Create(1)], OneAt(Idle))
  {
    hide LeadTo;
    LeadStart();
    assert Apply(INITIAL, Create(1)).active == {1};
    assert Apply(INITIAL, Create(1)).consumers == map[1 := Consumer(ROOT, Idle, [])];
    LeadStep([], INITIAL, Create(1), OneAt(Idle));
    assert [] + [Create(1)] == [Create(1)];
  }

  lemma OneParks() returns (es: seq<Event>)
    ensures es == [Create(1)] + [TakeTicket(1)] + [Start(1)] + [Advance(1)]
    ensures LeadTo(es, OneAt(Parked(0)))
  {
    hide LeadTo;
    OneConsumer();
    OneBecomes(Idle, Ready(0), 0);
    LeadStep([Create(1)], OneAt(Idle), TakeTicket(1), OneAt(Ready(0)));
    es := [Create(1)] + [TakeTicket(1)];
    OneBecomes(Ready(0), Walking(true, TAIL, Some(0)), 0);
    LeadStep(es, OneAt(Ready(0)), Start(1), OneAt(Walking(true, TAIL, Some(0))));
    es := es + [Start(1)];
    OneBecomes(Walking(true, TAIL, Some(0)), Parked(0), 0);
    LeadStep(es, OneAt(Walking(true, TAIL, Some(0))), Advance(1), OneAt(Parked(0)));
    es := es + [Advance(1)];
  }

  lemma PushComes(es: seq<Event>, phase: Phase) returns (more: seq<Event>)
    requires LeadTo(es, OneAt(phase)) && !phase.Walking?
    ensures more == es + [BeginPush(A)] + [Hop] + [Notify]
    ensures LeadTo(more, PushedFor(phase, 1))
  {
    hide LeadTo;
    var s := OneAt(phase);
    var chasing, linked := s.(pusher := Chasing(ROOT, A, {1})), PushedFor(phase, 0).(pusher := Linked(2));
    LeadStep(es, s, BeginPush(A), chasing);
    more := es + [BeginPush(A)];
    assert [] + [A] == [A];
    assert Append(chasing.next, ROOT) == linked.next;
    LeadStep(more, chasing, Hop, linked);
    more := more + [Hop];
    LeadStep(more, linked, Notify, PushedFor(phase, 1));
    more := more + [Notify];
  }

  /** Consumer 1 has been handed the one message. */
  function OneHanded(notified: nat): State {
    PushedFor(Idle, notified).(consumers := map[1 := Consumer(2, Idle, [2])])
  }

  /** From a call that has begun to the message in hand. */
  lemma MessageInHand(es: seq<Event>, phase: Phase, promise: Option<nat>) returns (more: seq<Event>)
    requires LeadTo(es, PushedFor(phase, 1))
    requires if promise.Some? then phase == Ready(promise.value) else phase == Idle
    ensures more == es + [Start(1)] + [Advance(1)] && LeadTo(more, OneHanded(1))
  {
    hide LeadTo;
    var walking := Walking(true, 2, promise);
    OneBecomes(phase, walking, 1);
    LeadStep(es, PushedFor(phase, 1), Start(1), PushedFor(walking, 1));
    more := es + [Start(1)];
    var s := PushedFor(walking, 1);
    assert s.next[ROOT := 2] == s.next;
    assert [] + [2] == [2];
    assert s.consumers[1 := Consumer(2, Idle, [2])] == OneHanded(1).consumers;
    LeadStep(more, s, Advance(1), OneHanded(1));
    more := more + [Advance(1)];
  }

  /** A consumer finds nothing and waits; a message is pushed, and it is woken and handed the message. */
  lemma AWaiterIsWoken() returns (before: seq<Event>, after: seq<Event>, s: State)
    ensures LeadTo(before, s) && s.consumers.Keys == {1} && At(s, 1).Parked? && s.sent == []
    ensures after == before + [BeginPush(A)] + [Hop] + [Notify] + [Wake(1)] + [Start(1)] + [Advance(1)]
    ensures LeadTo(after, OneHanded(1))
  {
    hide LeadTo;
    before := OneParks();
    s := OneAt(Parked(0));
    after := PushComes(before, Parked(0));
    OneBecomes(Parked(0), Ready(1), 1);
    LeadStep(after, PushedFor(Parked(0), 1), Wake(1), PushedFor(Ready(1), 1));
    after := after + [Wake(1)];
    after := MessageInHand(after, Ready(1), Some(1));
  }

  // ---------- A message dropped with its consumer ----------

  /** The only consumer is handed a message, does not claim it and is dropped: the message goes with it. */
  lemma AMessageIsDropped() returns (es: seq<Event>, s: State)
    ensures LeadTo(es, s) && (forall m :: Claim(m) !in es)
    ensures s.sent == [A] && Live(s) == {} && s.consumers == map[1 := Consumer(2, Detached, [2])]
  {
    hide LeadTo;
    OneConsumer();
    es := PushComes([Create(1)], Idle);
    es := MessageInHand(es, Idle, None);
    var off := OneHanded(1).(active := {}, consumers := map[1 := Consumer(2, Unregistered, [2])]);
    assert OneHanded(1).active - {1} == {};
    assert OneHanded(1).consumers[1 := Consumer(2, Unregistered, [2])] == off.consumers;
    LeadStep(es, OneHanded(1), Unregister(1), off);
    es := es + [Unregister(1)];
    s := off.(payload := [None, None, None], targets := [None, None, Some({})],
              consumers := map[1 := Consumer(2, Detached, [2])]);
    assert off.consumers[1 := Consumer(2, Detached, [2])] == s.consumers;
    assert {1} - {1} == {};
    LeadStep(es, off, Detach(1), s);
    es := es + [Detach(1)];
  }
}
