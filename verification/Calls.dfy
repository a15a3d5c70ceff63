/** What a call does, told from where its consumer is before and after each step of a run, and from the
    steps that were made. */
module Calls {
  import opened Chains
  import opened SoundGraph
  import opened QueueMachine
  import opened QueueRuns
  import opened SingleEnd
  import opened Delivery

  // ---------- How a call goes ----------

  /** In `next`, from taking the first ticket to returning. */
  predicate InNext(s: State, c: ConsumerId) {
    c in s.consumers &&
    match At(s, c)
    case Ready(_) => true
    case Parked(_) => true
    case Walking(_, _, promise) => promise.Some?
    case _ => false
  }

  /** The step is one that `c` makes. */
  predicate IsOf(e: Event, c: ConsumerId) {
    match e
    case Create(d) => c == d
    case TakeTicket(d) => c == d
    case Start(d) => c == d
    case Advance(d) => c == d
    case Wake(d) => c == d
    case Cancel(d) => c == d
    case Unregister(d) => c == d
    case Detach(d) => c == d
    case Die(d) => c == d
    case _ => false
  }

  /** Nobody else moves a consumer, hands it anything, or wakes it. */
  lemma OthersLeaveAlone(ss: seq<State>, es: seq<Event>, i: nat, c: ConsumerId)
    requires IsRun(ss, es) && i < |es| && !IsOf(es[i], c)
    ensures c in ss[i].consumers <==> c in ss[i + 1].consumers
    ensures c in ss[i].consumers ==> ss[i + 1].consumers[c] == ss[i].consumers[c]
  {
    RunStep(ss, es, i);
  }

  /** In step `i`, a walk of `c` is over. */
  ghost predicate CallEnds(ss: seq<State>, es: seq<Event>, i: nat, c: ConsumerId) {
    i < |es| < |ss| && Walks(ss[i], c) && !Walks(ss[i + 1], c)
  }

  /** The walk of a call begins with `Start`, from between calls or with a ticket in hand, and nowhere else. */
  lemma CallBegins(ss: seq<State>, es: seq<Event>, i: nat, c: ConsumerId)
    requires IsRun(ss, es) && i < |es| && !Walks(ss[i], c) && Walks(ss[i + 1], c)
    ensures es[i] == Start(c) && c in ss[i].consumers
    ensures At(ss[i], c).Idle? || At(ss[i], c).Ready?
    ensures InNext(ss[i + 1], c) <==> At(ss[i], c).Ready?
    ensures ss[i + 1].consumers[c].cursor == ss[i].consumers[c].cursor
    ensures ss[i + 1].consumers[c].handed == ss[i].consumers[c].handed
  {
    RunStep(ss, es, i);
  }

  /** How a walk ends.  Either it has handed out one message, on which the consumer now stands, and the call is
      over.  Or it has handed out nothing and moved nowhere, and then every unclaimed message whose chain ends
      where the consumer's does was handed to it before; a plain call is over, `next` waits. */
  lemma CallEndsExactly(ss: seq<State>, es: seq<Event>, i: nat, c: ConsumerId)
    requires IsRun(ss, es) && CallEnds(ss, es, i, c)
    ensures c in ss[i].consumers && c in ss[i + 1].consumers
    ensures GraphInv(ss[i]) && ss[i].consumers[c].cursor < |ss[i].next| && GraphInv(ss[i + 1])
    ensures var before, after := ss[i].consumers[c], ss[i + 1].consumers[c];
            if after.handed == before.handed then
              && 0 < after.cursor == before.cursor < |ss[i + 1].next|
              && (if InNext(ss[i], c) then after.phase.Parked? else after.phase == Idle)
              && forall m | m in Live(ss[i + 1]) && End(ss[i + 1].next, m) == End(ss[i + 1].next, after.cursor) ::
                   m in after.handed
            else
              && after.handed == before.handed + [after.cursor] && after.cursor in Live(ss[i])
              && On(ss[i].next, before.cursor, after.cursor)
              && after.phase == Idle
  {
    RunStep(ss, es, i);
    RunInv(ss, es, i);
    RunInv(ss, es, i + 1);
    WalkEnds(ss[i], es[i], c);
    hide Apply, ConsumerInv, Locked, Sound;
    if HandedTo(ss[i + 1], c) == HandedTo(ss[i], c) {
      EmptyAtTail(ss, es, i, c);
    }
  }

  /** The step that ends a walk, and what it leaves. */
  lemma WalkEnds(s: State, e: Event, c: ConsumerId)
    requires Inv(s) && Enabled(s, e) && Walks(s, c) && !Walks(Apply(s, e), c)
    ensures c in Apply(s, e).consumers && Apply(s, e).next == s.next && Live(Apply(s, e)) == Live(s)
    ensures var before, after := s.consumers[c], Apply(s, e).consumers[c];
            if after.handed == before.handed then
              && FindsNothing(s, c) && after.cursor == before.cursor
              && (if InNext(s, c) then after.phase.Parked? else after.phase == Idle)
            else
              && after.handed == before.handed + [after.cursor] && after.cursor in Live(s)
              && On(s.next, before.cursor, after.cursor)
              && after.phase == Idle
  {
    assert e == Advance(c);
    assert ConsumerInv(s, c);
    var a, b, t := s.consumers[c].cursor, At(s, c).probe, Apply(s, e);
    assert t.next == s.next && Live(t) == Live(s);
    OnStep(s.next, a, b);
    OnStep(s.next, b, b);
    hide ConsumerInv, Locked, Sound;
  }

  lemma EmptyAtTail(ss: seq<State>, es: seq<Event>, i: nat, c: ConsumerId)
    requires IsRun(ss, es) && i < |ss| && InRange(ss[i]) && FindsNothing(ss[i], c)
    ensures GraphInv(ss[i])
    ensures forall m | m in Live(ss[i]) && End(ss[i].next, m) == End(ss[i].next, ss[i].consumers[c].cursor) ::
              m in ss[i].consumers[c].handed
  {
    RunInv(ss, es, i);
    forall m | m in Live(ss[i]) && End(ss[i].next, m) == End(ss[i].next, ss[i].consumers[c].cursor)
      ensures m in ss[i].consumers[c].handed
    {
      EmptyMeansAllOnItsEnd(ss, es, i, c, m);
    }
  }

  /** Without a fork: a call that comes back empty, or goes to wait, leaves no unclaimed message that was not
      handed to the caller. */
  lemma EmptyWithoutFork(ss: seq<State>, es: seq<Event>, i: nat, c: ConsumerId, m: nat)
    requires NeverForks(ss, es) && CallEnds(ss, es, i, c) && HandedTo(ss[i + 1], c) == HandedTo(ss[i], c)
    requires m in Live(ss[i + 1])
    ensures m in HandedTo(ss[i + 1], c)
  {
    CallEndsExactly(ss, es, i, c);
    RunSingleEnded(ss, es, i + 1);
    EndsAgree(ss[i + 1].next, m, ss[i + 1].consumers[c].cursor);
  }

  /** With one consumer ever: a call that comes back empty has been preceded by all messages there are. */
  lemma EmptyForTheOnlyOne(ss: seq<State>, es: seq<Event>, i: nat, c: ConsumerId)
    requires IsRun(ss, es) && (forall k | 0 <= k < |es| && es[k].Create? :: es[k].c == c)
    requires CallEnds(ss, es, i, c) && HandedTo(ss[i + 1], c) == HandedTo(ss[i], c)
    ensures HandedTo(ss[i + 1], c) == FirstMessages(|ss[i + 1].sent|)
  {
    RunStep(ss, es, i);
    RunInv(ss, es, i);
    assert ConsumerInv(ss[i], c);
    assert es[i] == Advance(c);
    OneConsumerGetsAll(ss, es, i, c);
  }

  // ---------- Waiting ----------

  /** `next` begins with taking a ticket, and nothing else does: a plain call never waits. */
  lemma NextBegins(ss: seq<State>, es: seq<Event>, i: nat, c: ConsumerId)
    requires IsRun(ss, es) && i < |es| && !InNext(ss[i], c) && InNext(ss[i + 1], c)
    ensures es[i] == TakeTicket(c) && c in ss[i].consumers && At(ss[i], c) == Idle
  {
    RunStep(ss, es, i);
  }

  /** `next` ends exactly when it has handed out a message, on which the consumer then stands, or when it is
      cancelled while it waits. */
  lemma NextEnds(ss: seq<State>, es: seq<Event>, i: nat, c: ConsumerId)
    requires IsRun(ss, es) && i < |es| && InNext(ss[i], c)
    ensures c in ss[i + 1].consumers
    ensures var before, after := ss[i].consumers[c], ss[i + 1].consumers[c];
            && (!InNext(ss[i + 1], c) <==>
                  es[i] == Cancel(c) || (CallEnds(ss, es, i, c) && after.handed == before.handed + [after.cursor]))
            && (!InNext(ss[i + 1], c) ==> after.phase == Idle)
            && (es[i] == Cancel(c) ==> before.phase.Parked? && after == before.(phase := Idle))
  {
    RunStep(ss, es, i);
  }

  /** In step `k`, `c` takes a ticket. */
  ghost predicate TakesTicket(ss: seq<State>, es: seq<Event>, k: nat, c: ConsumerId) {
    k < |es| < |ss| && (es[k] == TakeTicket(c) || es[k] == Wake(c))
  }

  /** `c` is in `next` in state `i`, with the ticket it took in step `k`. */
  ghost predicate HasTicketOf(ss: seq<State>, es: seq<Event>, k: nat, i: nat, c: ConsumerId) {
    && TakesTicket(ss, es, k, c) && k < i < |ss|
    && (forall j | k < j <= i :: InNext(ss[j], c))
    && (forall j | k < j < i :: !TakesTicket(ss, es, j, c))
  }

  ghost predicate NotifiedBetween(es: seq<Event>, from: nat, to: nat) {
    exists j :: from <= j < to <= |es| && es[j] == Notify
  }

  function TicketOf(phase: Phase): nat {
    match phase
    case Ready(ticket) => ticket
    case Parked(ticket) => ticket
    case Walking(_, _, promise) => if promise.Some? then promise.value else 0
    case _ => 0
  }

  /** One step of somebody who keeps a ticket. */
  lemma TicketStep(ss: seq<State>, es: seq<Event>, i: nat, c: ConsumerId)
    requires IsRun(ss, es) && i < |es| && InNext(ss[i + 1], c)
    ensures c in ss[i].consumers
    ensures TakesTicket(ss, es, i, c) ==>
              TicketOf(At(ss[i + 1], c)) == ss[i].notified == ss[i + 1].notified && es[i] != Notify
    ensures !TakesTicket(ss, es, i, c) ==>
              InNext(ss[i], c) && TicketOf(At(ss[i + 1], c)) == TicketOf(At(ss[i], c))
    ensures ss[i + 1].notified == ss[i].notified + if es[i] == Notify then 1 else 0
  {
    RunStep(ss, es, i);
  }

  lemma NotifiedStep(es: seq<Event>, from: nat, to: nat)
    requires from <= to < |es|
    ensures NotifiedBetween(es, from, to + 1) <==> NotifiedBetween(es, from, to) || es[to] == Notify
  {
    if es[to] == Notify {
      assert from <= to < to + 1;
    }
    if NotifiedBetween(es, from, to) {
      var j :| from <= j < to && es[j] == Notify;
      assert j < to + 1;
    }
  }

  lemma {:induction false} TicketIsGood(ss: seq<State>, es: seq<Event>, k: nat, i: nat, c: ConsumerId)
    requires IsRun(ss, es) && HasTicketOf(ss, es, k, i, c)
    ensures c in ss[i].consumers && TicketOf(At(ss[i], c)) <= ss[i].notified
    ensures TicketOf(At(ss[i], c)) < ss[i].notified <==> NotifiedBetween(es, k + 1, i)
    decreases i
  {
    assert InNext(ss[i], c);
    TicketStep(ss, es, i - 1, c);
    if k + 1 < i {
      hide InNext, TicketOf;
      TicketIsGood(ss, es, k, i - 1, c);
      NotifiedStep(es, k + 1, i - 1);
    }
  }

  /** A consumer that waits can wake up exactly when somebody has notified since it took its ticket: it neither
      sleeps through a push nor wakes for nothing. */
  lemma WokenExactlyWhen(ss: seq<State>, es: seq<Event>, k: nat, i: nat, c: ConsumerId)
    requires IsRun(ss, es) && HasTicketOf(ss, es, k, i, c) && At(ss[i], c).Parked?
    ensures InRange(ss[i])
    ensures Enabled(ss[i], Wake(c)) <==> NotifiedBetween(es, k + 1, i)
  {
    RunShape(ss, es, i);
    TicketIsGood(ss, es, k, i, c);
  }

  /** Whoever has woken up is in `next` with a new ticket, and about to try again from where it stood. */
  lemma WakingTriesAgain(ss: seq<State>, es: seq<Event>, i: nat, c: ConsumerId)
    requires IsRun(ss, es) && i < |es| && es[i] == Wake(c)
    ensures c in ss[i].consumers && At(ss[i], c).Parked?
    ensures c in ss[i + 1].consumers && At(ss[i + 1], c).Ready? && HasTicketOf(ss, es, i, i + 1, c)
    ensures ss[i + 1].consumers[c].cursor == ss[i].consumers[c].cursor
    ensures ss[i + 1].consumers[c].handed == ss[i].consumers[c].handed
  {
    RunStep(ss, es, i);
  }

  // ---------- Pushing and claiming ----------

  /** A push begins at the newest node there is, whatever has become of it, takes no step of anybody else to go
      on, and is over only when the waiters have been notified. */
  lemma HowAPushGoes(ss: seq<State>, es: seq<Event>, i: nat)
    requires IsRun(ss, es) && i < |es|
    ensures ss[i].last == |ss[i].next| - 1
    ensures match es[i]
            case BeginPush(message) =>
              ss[i].pusher == Quiet && ss[i + 1].pusher == Chasing(|ss[i].next| - 1, message, ss[i].active)
            case Hop => ss[i].pusher.Chasing? && (ss[i + 1].pusher == Linked(|ss[i].next|) || ss[i + 1].pusher.Chasing?)
            case Notify => ss[i].pusher == Linked(|ss[i].next| - 1) && ss[i + 1].pusher == Quiet
            case _ => ss[i + 1].pusher == ss[i].pusher
  {
    LastIsNewest(ss, es, i);
    RunStep(ss, es, i);
  }

  lemma {:induction false} LastIsNewest(ss: seq<State>, es: seq<Event>, i: nat)
    requires IsRun(ss, es) && i < |ss|
    ensures ss[i].last == |ss[i].next| - 1
    decreases i
  {
    if i > 0 {
      LastIsNewest(ss, es, i - 1);
      RunStep(ss, es, i - 1);
    }
  }

  /** A claim takes the message it is made on, and nothing else changes. */
  lemma ClaimTakes(ss: seq<State>, es: seq<Event>, i: nat, m: nat)
    requires IsRun(ss, es) && i < |es| && es[i] == Claim(m)
    ensures Live(ss[i + 1]) == Live(ss[i]) - {m}
    ensures ss[i + 1] == ss[i].(payload := ss[i + 1].payload)
  {
    RunStep(ss, es, i);
  }
}
