/** How an attempt and a wait of the receiver begin, go on and end, told from the steps made. */
module WaitAttempts {
  import opened Options
  import opened WaitBit

  /** How often step `e` was made from step `start` on and before step `end`. */
  function Times(es: seq<Event>, start: nat, end: nat, e: Event): (n: nat)
    requires start <= end <= |es|
    decreases end
  {
    if start == end then 0 else Times(es, start, end - 1, e) + One(es[end - 1] == e)
  }

  // ---------- An attempt ----------

  /** An attempt begins with `BeginTry`, between calls, and with a backing chosen to be asked first. */
  lemma AttemptBegins(ss: seq<State>, es: seq<Event>, i: nat)
    requires IsRun(ss, es) && i < |es| && !InTry(ss[i].task)
    ensures InTry(ss[i + 1].task) <==> es[i].BeginTry?
    ensures es[i].BeginTry? ==>
              && ss[i].task == Resting && ss[i + 1].task == Draining(FromTry)
              && ss[i + 1].current == if MeshFirst(ss[i].current, es[i].timeUp) then Iox2 else WsGateway
  {
    RunStep(ss, es, i);
  }

  /** In step `i` the receiver comes upon something: an error, an answer of the mesh that is not empty, or a
      frame. */
  ghost predicate ComesUpon(ss: seq<State>, es: seq<Event>, i: nat) {
    && i < |es| < |ss|
    && match es[i]
       case HandleResponse => ss[i].task.Clearing? && ss[i].task.response == Failed
       case GetAnswer => ss[i].answer == Some(false)
       case AskGateway => ss[i].inbox > 0
       case _ => false
  }

  /** An attempt ends when it comes upon something, or when no round is left, and in no other step. */
  lemma AttemptEndsExactly(ss: seq<State>, es: seq<Event>, i: nat)
    requires IsRun(ss, es) && i < |es| && InTry(ss[i].task)
    ensures !InTry(ss[i + 1].task) <==> ComesUpon(ss, es, i) || (es[i] == Look && ss[i].task == Looking(0))
    ensures !InTry(ss[i + 1].task) ==> ss[i + 1].task == Resting && ss[i + 1].current == ss[i].current
  {
    RunStep(ss, es, i);
  }

  /** Who has been asked how often when an attempt that began with `first` is in state `s`. */
  predicate Progress(s: State, first: Backing, asks: nat, looks: nat) {
    match s.task
    case Draining(_) => s.current == first && asks == looks == 0
    case Clearing(_, _) => s.current == first && asks == looks == 0
    case Looking(left) =>
      if left == 0 then asks == One(!s.bit) && looks == One(first == WsGateway || !s.bit)
      else if left == 1 then
        if first == WsGateway then s.current == Iox2 && asks == 0 && looks == 1
        else s.current == (if s.bit then Iox2 else WsGateway) && asks == One(!s.bit) && looks == 0
      else left == 2 && s.current == first && asks == looks == 0
    case Asking(left) => MeshesTurn(s, first, left, looks) && asks == 0
    case Awaiting(left) => MeshesTurn(s, first, left, looks) && asks == 1
    case _ => true
  }

  /** The mesh has its turn, in the first round or the second. */
  predicate MeshesTurn(s: State, first: Backing, left: nat, looks: nat) {
    !s.bit && s.current == Iox2 && left == One(first == Iox2) && looks == One(first == WsGateway)
  }

  lemma StepProgresses(s: State, e: Event, first: Backing, asks: nat, looks: nat)
    requires first != Unset && InTry(s.task) && Progress(s, first, asks, looks)
    requires Enabled(s, e) && InTry(Apply(s, e).task)
    ensures Progress(Apply(s, e), first, asks + One(e == Ask), looks + One(e == AskGateway))
  {
  }

  /** An attempt began in step `k` and is still on in state `i`. */
  ghost predicate TriesSince(ss: seq<State>, es: seq<Event>, k: nat, i: nat) {
    k < i < |ss| == |es| + 1 && es[k].BeginTry? && forall j | k < j <= i :: InTry(ss[j].task)
  }

  /** The backing that an attempt begun in step `k` asks first. */
  function FirstOf(ss: seq<State>, es: seq<Event>, k: nat): Backing
    requires k < |es| < |ss| && es[k].BeginTry?
  {
    if MeshFirst(ss[k].current, es[k].timeUp) then Iox2 else WsGateway
  }

  lemma {:induction false} AttemptGoesOn(ss: seq<State>, es: seq<Event>, k: nat, i: nat)
    requires IsRun(ss, es) && TriesSince(ss, es, k, i)
    ensures Progress(ss[i], FirstOf(ss, es, k), Times(es, k + 1, i, Ask), Times(es, k + 1, i, AskGateway))
    decreases i
  {
    hide Progress, Apply, Enabled, StepAt;
    if i == k + 1 {
      RunStep(ss, es, k);
      BegunWith(ss[k], es[k]);
    } else {
      AttemptGoesOn(ss, es, k, i - 1);
      RunStep(ss, es, i - 1);
      assert InTry(ss[i].task);
      StepProgresses(ss[i - 1], es[i - 1], FirstOf(ss, es, k), Times(es, k + 1, i - 1, Ask), Times(es, k + 1, i - 1, AskGateway));
    }
  }

  lemma BegunWith(s: State, e: Event)
    requires Enabled(s, e) && e.BeginTry?
    ensures Progress(Apply(s, e), if MeshFirst(s.current, e.timeUp) then Iox2 else WsGateway, 0, 0)
  {
  }

  /** No backing is asked twice in one attempt. */
  lemma AskedAtMostOnce(ss: seq<State>, es: seq<Event>, k: nat, i: nat)
    requires IsRun(ss, es) && TriesSince(ss, es, k, i)
    ensures Times(es, k + 1, i, Ask) <= 1 && Times(es, k + 1, i, AskGateway) <= 1
  {
    AttemptGoesOn(ss, es, k, i);
  }

  /** An attempt that comes upon nothing has asked the mesh, unless it is blocked, and the gateway, unless the
      mesh comes first and is blocked. */
  lemma NothingOnlyAfterAsking(ss: seq<State>, es: seq<Event>, k: nat, i: nat)
    requires IsRun(ss, es) && TriesSince(ss, es, k, i) && i < |es| && es[i] == Look && ss[i].task == Looking(0)
    ensures Times(es, k + 1, i, Ask) == One(!ss[i].bit)
    ensures Times(es, k + 1, i, AskGateway) == One(FirstOf(ss, es, k) == WsGateway || !ss[i].bit)
  {
    AttemptGoesOn(ss, es, k, i);
  }

  // ---------- A wait ----------

  predicate InWait(task: Task) {
    match task
    case Setting => true
    case Receiving => true
    case Clearing(_, caller) => caller == FromWait
    case Draining(caller) => caller == FromWait
    case _ => false
  }

  /** A wait sends a request exactly when none is outstanding, as far as the bit tells. */
  lemma WaitBegins(ss: seq<State>, es: seq<Event>, i: nat)
    requires IsRun(ss, es) && i < |es| && !InWait(ss[i].task)
    ensures InWait(ss[i + 1].task) <==> es[i] == BeginWait
    ensures es[i] == BeginWait ==>
              && ss[i].task == Resting
              && ss[i + 1].requests == ss[i].requests + (if ss[i].bit then [] else [WaitStream])
              && ss[i + 1].task == (if ss[i].bit then Receiving else Setting)
  {
    RunStep(ss, es, i);
  }

  /** A wait ends when it is given up, when the gateway has something for it, when a response turns out to be an
      error, or when there are no more responses after one; and in no other step. */
  lemma WaitEndsExactly(ss: seq<State>, es: seq<Event>, i: nat)
    requires IsRun(ss, es) && i < |es| && InWait(ss[i].task)
    ensures !InWait(ss[i + 1].task) <==>
              || es[i] == GiveUp
              || (es[i] == GatewayWakes && ss[i].noticed)
              || (es[i] == HandleResponse && ss[i].task == Clearing(Failed, FromWait))
              || (es[i] == EndDrain && ss[i].responses == [])
    ensures !InWait(ss[i + 1].task) ==> ss[i + 1].task == Resting
    ensures ss[i + 1].current == ss[i].current
    ensures es[i] == EndDrain ==> !ss[i].bit
  {
    RunStep(ss, es, i);
    if es[i] == EndDrain {
      DrainsCleared(ss, es, i);
    }
  }

  /** A wait that looks for more responses has handled one, which cleared the bit. */
  lemma {:induction false} DrainsCleared(ss: seq<State>, es: seq<Event>, i: nat)
    requires IsRun(ss, es) && i < |ss| && ss[i].task == Draining(FromWait)
    ensures !ss[i].bit
    decreases i
  {
    RunStep(ss, es, i - 1);
    if ss[i - 1].task == Draining(FromWait) {
      DrainsCleared(ss, es, i - 1);
    }
  }

  // ---------- What comes back ----------

  /** What the actor answers is what the receiver reads: the answer at hand is that of the last attempt the actor
      made. */
  lemma {:induction false} AnswerIsTheLast(ss: seq<State>, es: seq<Event>, i: nat) returns (j: nat)
    requires IsRun(ss, es) && i < |ss| && ss[i].answer.Some?
    ensures j < i && es[j] == AnswerTry(ss[i].answer.value) && forall k | j < k < i :: !es[k].AnswerTry?
    decreases i
  {
    RunStep(ss, es, i - 1);
    j := i - 1;
    if !es[i - 1].AnswerTry? {
      j := AnswerIsTheLast(ss, es, i - 1);
    }
  }

  /** The response is in the receiver's hand, in the channel, or about to be sent. */
  predicate OnItsWay(s: State, response: Response) {
    || (s.task.Clearing? && s.task.response == response)
    || response in s.responses
    || (s.actor.Responding? && s.actor.response == response)
  }

  lemma WayStep(s: State, e: Event, response: Response)
    requires Outstanding(s) <= 1 && Enabled(s, e) && OnItsWay(Apply(s, e), response)
    ensures if e.WaitReturns? then response == e.response else OnItsWay(s, response)
  {
    hide Count;
  }

  /** And so of a wait: what is on its way to the receiver is how the actor's last wait ended. */
  lemma {:induction false} ResponseIsTheLast(ss: seq<State>, es: seq<Event>, i: nat, response: Response) returns (j: nat)
    requires IsRun(ss, es) && i < |ss| && OnItsWay(ss[i], response)
    ensures j < i && es[j] == WaitReturns(response) && forall k | j < k < i :: !es[k].WaitReturns?
    decreases i
  {
    assert i > 0;
    RunStep(ss, es, i - 1);
    RunInv(ss, es, i - 1);
    assert Outstanding(ss[i - 1]) <= 1;
    hide Inv, Apply, Enabled, OnItsWay, Outstanding;
    WayStep(ss[i - 1], es[i - 1], response);
    j := i - 1;
    if !es[i - 1].WaitReturns? {
      j := ResponseIsTheLast(ss, es, i - 1, response);
    }
  }

  /** Frames that attempts came upon before step `n`. */
  function FramesTaken(ss: seq<State>, es: seq<Event>, n: nat): nat
    requires n <= |es| < |ss|
    decreases n
  {
    if n == 0 then 0 else FramesTaken(ss, es, n - 1) + One(es[n - 1] == AskGateway && ss[n - 1].inbox > 0)
  }

  /** Every frame that came is still there or was taken by one attempt. */
  lemma {:induction false} FramesAreKept(ss: seq<State>, es: seq<Event>, i: nat)
    requires IsRun(ss, es) && i < |ss|
    ensures ss[i].inbox + FramesTaken(ss, es, i) == Times(es, 0, i, Arrive)
    decreases i
  {
    if i > 0 {
      FramesAreKept(ss, es, i - 1);
      RunStep(ss, es, i - 1);
    }
  }

  /** After a close everything but the gateway is as it was at first: the close ends an error for good, and the
      next attempt asks the mesh. */
  lemma CloseBeginsAnew(ss: seq<State>, es: seq<Event>, i: nat)
    requires IsRun(ss, es) && i < |es| && es[i] == FinishClose
    ensures ss[i + 1] == ss[0].(replays := ss[i].replays, inbox := ss[i].inbox)
    ensures !Stuck(ss[i + 1]) && MeshFirst(ss[i + 1].current, false) && MeshFirst(ss[i + 1].current, true)
  {
    RunStep(ss, es, i);
  }
}
