/** Three short runs of the receiver: one that gets stuck after an error, and two in which a frame that the
    gateway holds is passed over. */
module WaitWitnesses {
  import opened Options
  import opened WaitBit

  /** The steps `es` lead to `s`. */
  ghost predicate LeadTo(es: seq<Event>, s: State) {
    exists ss :: IsRun(ss, es) && ss[|es|] == s
  }

  lemma LeadStart(replays: bool)
    ensures LeadTo([], Initial(replays))
  {
    var ss, es: seq<Event> := [Initial(replays)], [];
    assert IsRun(ss, es) && ss[|es|] == Initial(replays);
  }

  lemma LeadStep(es: seq<Event>, s: State, e: Event)
    requires LeadTo(es, s) && Enabled(s, e)
    ensures LeadTo(es + [e], Apply(s, e))
  {
    var ss :| IsRun(ss, es) && ss[|es|] == s;
    var t := Apply(s, e);
    hide Apply, Enabled;
    forall i: nat | i < |es| + 1 ensures StepAt(ss + [t], es + [e], i) {
      assert i < |es| ==> StepAt(ss, es, i);
    }
    assert IsRun(ss + [t], es + [e]);
  }

  /** A channel that one thing goes through. */
  lemma InAndOut<T>(x: T)
    ensures [] + [x] == [x] && [x][1..] == []
  {
  }

  // ---------- After an error ----------

  /** A wait that has begun, with the request taken by the actor. */
  function Waited(replays: bool): State {
    Initial(replays).(bit := true, task := Receiving, actor := Waiting)
  }

  function WaitSteps(): seq<Event> {
    [BeginWait] + [SetBit] + [TakeRequest]
  }

  lemma WaitBegins(replays: bool)
    ensures LeadTo(WaitSteps(), Waited(replays))
  {
    hide LeadTo;
    InAndOut(WaitStream);
    InAndOut(BeginWait);
    LeadStart(replays);
    var s := Initial(replays);
    LeadStep([], s, BeginWait);
    s := s.(task := Setting, requests := [WaitStream]);
    LeadStep([BeginWait], s, SetBit);
    s := s.(task := Receiving, bit := true);
    LeadStep([BeginWait] + [SetBit], s, TakeRequest);
  }

  /** That the receiver gets stuck: a wait that ends with an error, and the next one. */
  lemma AWaitCanHang(replays: bool) returns (es: seq<Event>, s: State)
    ensures LeadTo(es, s) && Stuck(s) && s.replays == replays
  {
    hide LeadTo;
    InAndOut(Failed);
    WaitBegins(replays);
    es, s := WaitSteps(), Waited(replays);
    LeadStep(es, s, WaitReturns(Failed));
    es, s := es + [WaitReturns(Failed)], s.(actor := Responding(Failed));
    LeadStep(es, s, Respond);
    es, s := es + [Respond], s.(actor := Listening, responses := [Failed]);
    LeadStep(es, s, PopResponse);
    es, s := es + [PopResponse], s.(task := Clearing(Failed, FromWait), responses := []);
    LeadStep(es, s, HandleResponse);
    es, s := es + [HandleResponse], s.(task := Resting, failed := true);
    LeadStep(es, s, BeginWait);
    es, s := es + [BeginWait], s.(task := Receiving);
  }

  // ---------- A frame passed over ----------

  /** A wait was given up, and then a frame came. */
  function GivenUp(replays: bool): State {
    Initial(replays).(bit := true, actor := Waiting, inbox := 1)
  }

  lemma WaitGivenUp(replays: bool)
    ensures LeadTo(WaitSteps() + [GiveUp] + [Arrive], GivenUp(replays))
  {
    hide LeadTo;
    WaitBegins(replays);
    LeadStep(WaitSteps(), Waited(replays), GiveUp);
    LeadStep(WaitSteps() + [GiveUp], Waited(replays).(task := Resting), Arrive);
  }

  /** That an attempt says there is nothing although the gateway holds a frame: a wait was given up, and
      the mesh comes first and is blocked, so the gateway is never asked. */
  lemma AFrameCanBeHidden(replays: bool) returns (es: seq<Event>, s: State)
    ensures LeadTo(es, s) && s.replays == replays
    ensures AskGateway !in es && s.task == Looking(0) && s.inbox > 0
  {
    hide LeadTo;
    WaitGivenUp(replays);
    es, s := WaitSteps() + [GiveUp] + [Arrive], GivenUp(replays);
    LeadStep(es, s, BeginTry(false));
    es, s := es + [BeginTry(false)], s.(task := Draining(FromTry), current := Iox2);
    LeadStep(es, s, EndDrain);
    es, s := es + [EndDrain], s.(task := Looking(2));
    LeadStep(es, s, Look);
    es, s := es + [Look], s.(task := Looking(1));
    LeadStep(es, s, Look);
    es, s := es + [Look], s.(task := Looking(0));
  }

  /** A first attempt that asks both backings and finds nothing. */
  lemma AttemptFindsNothing() returns (es: seq<Event>)
    ensures LeadTo(es, Initial(false).(current := Iox2))
  {
    hide LeadTo;
    InAndOut(TryRecvStream);
    LeadStart(false);
    var s := Initial(false);
    es := [];
    LeadStep(es, s, BeginTry(false));
    es, s := es + [BeginTry(false)], s.(task := Draining(FromTry), current := Iox2);
    LeadStep(es, s, EndDrain);
    es, s := es + [EndDrain], s.(task := Looking(2));
    LeadStep(es, s, Look);
    es, s := es + [Look], s.(task := Asking(1));
    LeadStep(es, s, Ask);
    es, s := es + [Ask], s.(task := Awaiting(1), requests := [TryRecvStream]);
    LeadStep(es, s, TakeRequest);
    es, s := es + [TakeRequest], s.(actor := Trying, requests := []);
    LeadStep(es, s, AnswerTry(true));
    es, s := es + [AnswerTry(true)], s.(actor := Listening, answer := Some(true));
    LeadStep(es, s, GetAnswer);
    es, s := es + [GetAnswer], s.(task := Looking(1), current := WsGateway, answer := None);
    LeadStep(es, s, AskGateway);
    es, s := es + [AskGateway], s.(task := Looking(0), current := Iox2);
    LeadStep(es, s, Look);
    es, s := es + [Look], s.(task := Resting);
  }

  /** That a frame wakes nobody: it comes between an attempt that found nothing and the wait that follows
      it.  What is left is that the mesh responds, which only something outside can bring about. */
  lemma AFrameCanGoUnnoticed() returns (es: seq<Event>, s: State)
    ensures LeadTo(es, s) && Parked(s) && s.inbox > 0 && s.actor.Waiting? && s.requests == []
  {
    hide LeadTo;
    InAndOut(WaitStream);
    es := AttemptFindsNothing();
    s := Initial(false).(current := Iox2);
    LeadStep(es, s, Arrive);
    es, s := es + [Arrive], s.(inbox := 1);
    LeadStep(es, s, BeginWait);
    es, s := es + [BeginWait], s.(task := Setting, requests := [WaitStream]);
    LeadStep(es, s, SetBit);
    es, s := es + [SetBit], s.(task := Receiving, bit := true);
    LeadStep(es, s, TakeRequest);
    es, s := es + [TakeRequest], s.(actor := Waiting, requests := []);
  }
}
