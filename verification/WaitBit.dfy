/** The wait bit of the mesh backing: one receiver task, which asks for messages and waits for them, and
    the actor thread that does both on its behalf, interleaved at every channel operation and every
    access to the bit.  The websocket gateway is the other thing the receiver asks and waits for; its
    frames come from outside. */
module WaitBit {
  import opened Options

  /** The capacity of the request channel, of the response channel and of the gateway's inbox. */
  const CAPACITY: nat := 100

  datatype Request = TryRecvStream | WaitStream | Close | Other

  datatype Response = Returned | Failed

  datatype Actor =
    | Listening
    | Trying                                   // in `try_recv_stream`, which does not block
    | Waiting                                  // in `wait_stream`, until something outside happens
    | Responding(response: Response)           // sending on the response channel
    | Exited

  datatype Backing = Iox2 | WsGateway | Unset

  datatype Caller = FromTry | FromWait

  datatype Task =
    | Resting                                  // between calls
    | Draining(caller: Caller)                 // about to look at the response channel
    | Clearing(response: Response, caller: Caller) // response in hand, bit not yet cleared
    | Looking(left: nat)                       // about to read the bit of the current backing
    | Asking(left: nat)                        // has read it clear, about to send the request
    | Awaiting(left: nat)                      // blocked on the answer
    | Setting                                  // wait request sent, bit not yet set; write lock held
    | Receiving                                // waiting on the response channel and for the gateway
    | Joining                                  // closing, waiting for the actor to exit

  /** `failed`: an error was received since the last close.  It is history, the program does not keep it.
      `answer`: what is in the one-place channel the receiver awaits, `Some(true)` for out of accessible.
      `inbox`: how many frames the gateway holds.  `noticed`: the gateway has something for the subscriber
      that the receiver waits with.  A wait subscribes afresh; `replays` says whether the channel gives
      such a subscriber what it still holds, or only what comes later, which is up to the library. */
  datatype State = State(
    bit: bool,
    failed: bool,
    current: Backing,
    task: Task,
    requests: seq<Request>,
    actor: Actor,
    responses: seq<Response>,
    answer: Option<bool>,
    inbox: nat,
    noticed: bool,
    replays: bool)

  function Initial(replays: bool): State {
    State(false, false, Unset, Resting, [], Listening, [], None, 0, false, replays)
  }

  datatype Event =
    // the receiver task
    | BeginTry(timeUp: bool)
    | BeginWait
    | BeginClose
    | PopResponse
    | HandleResponse
    | EndDrain
    | Look
    | AskGateway
    | Ask
    | GetAnswer
    | SetBit
    | GatewayWakes
    | GiveUp
    | FinishClose
    // anyone
    | SendOther
    | Arrive
    // the actor
    | TakeRequest
    | AnswerTry(empty: bool)
    | WaitReturns(response: Response)
    | Respond

  predicate IsActors(e: Event) {
    e.TakeRequest? || e.AnswerTry? || e.WaitReturns? || e.Respond?
  }

  predicate Enabled(s: State, e: Event) {
    match e
    case BeginTry(_) => s.task.Resting?
    case BeginWait => s.task.Resting? && (s.bit || |s.requests| < CAPACITY)
    case BeginClose => s.task.Resting? && |s.requests| < CAPACITY
    case PopResponse => (s.task.Draining? || s.task.Receiving?) && s.responses != []
    case HandleResponse => s.task.Clearing?
    case EndDrain => s.task.Draining? && s.responses == []
    case Look => s.task.Looking? && (s.task.left == 0 || s.current == Iox2)
    case AskGateway => s.task.Looking? && s.task.left > 0 && s.current == WsGateway
    case Ask => s.task.Asking? && |s.requests| < CAPACITY
    case GetAnswer => s.task.Awaiting? && s.answer.Some?
    case SetBit => s.task.Setting?
    case GatewayWakes => s.task.Receiving? && s.noticed
    case GiveUp => s.task.Receiving?
    case FinishClose => s.task.Joining? && s.actor.Exited?
    case SendOther => |s.requests| < CAPACITY
    case Arrive => s.inbox < CAPACITY
    case TakeRequest => s.actor.Listening? && s.requests != []
    case AnswerTry(_) => s.actor.Trying?
    case WaitReturns(_) => s.actor.Waiting?
    case Respond => s.actor.Responding? && |s.responses| < CAPACITY
  }

  function Rotated(current: Backing): Backing {
    if current == Iox2 then WsGateway else Iox2
  }

  /** An attempt that begins now asks the mesh before the gateway. */
  predicate MeshFirst(current: Backing, timeUp: bool) {
    match current
    case Unset => true
    case Iox2 => !timeUp
    case WsGateway => timeUp
  }

  function Obey(request: Request): Actor {
    match request
    case TryRecvStream => Trying
    case WaitStream => Waiting
    case Close => Exited
    case Other => Listening
  }

  /** Waiting begins, with a new subscription to the gateway. */
  function Subscribed(s: State): State {
    s.(task := Receiving, bit := true, noticed := s.replays && s.inbox > 0)
  }

  /** Waiting ends, and with it the subscription. */
  function Leave(s: State, task: Task): State {
    s.(task := task, noticed := false)
  }

  function Apply(s: State, e: Event): State
    requires Enabled(s, e)
  {
    match e
    case BeginTry(timeUp) =>
      s.(task := Draining(FromTry), current := if s.current == Unset || timeUp then Rotated(s.current) else s.current)
    case BeginWait =>
      if s.bit then Subscribed(s)
      else s.(task := Setting, requests := s.requests + [WaitStream])
    case BeginClose => s.(task := Joining, requests := s.requests + [Close])
    case PopResponse =>
      Leave(s, Clearing(s.responses[0], if s.task.Receiving? then FromWait else s.task.caller))
        .(responses := s.responses[1..])
    case HandleResponse =>
      if s.task.response == Failed then s.(task := Resting, failed := true)
      else s.(task := Draining(s.task.caller), bit := false)
    case EndDrain => s.(task := if s.task.caller == FromTry then Looking(2) else Resting)
    case Look =>
      if s.task.left == 0 then s.(task := Resting)
      else if s.bit then s.(task := Looking(s.task.left - 1))
      else s.(task := Asking(s.task.left - 1))
    case AskGateway =>
      if s.inbox == 0 then s.(task := Looking(s.task.left - 1), current := Rotated(s.current))
      else s.(task := Resting, inbox := s.inbox - 1)
    case Ask => s.(task := Awaiting(s.task.left), requests := s.requests + [TryRecvStream])
    case GetAnswer =>
      if s.answer.value then s.(task := Looking(s.task.left), current := Rotated(s.current), answer := None)
      else s.(task := Resting, answer := None)
    case SetBit => Subscribed(s)
    case GatewayWakes => Leave(s, Resting)
    case GiveUp => Leave(s, Resting)
    case FinishClose => Initial(s.replays).(inbox := s.inbox)
    case SendOther => s.(requests := s.requests + [Other])
    case Arrive => s.(inbox := s.inbox + 1, noticed := s.task.Receiving?)
    case TakeRequest => s.(actor := Obey(s.requests[0]), requests := s.requests[1..])
    case AnswerTry(empty) => s.(actor := Listening, answer := Some(empty))
    case WaitReturns(response) => s.(actor := Responding(response))
    case Respond => s.(actor := Listening, responses := s.responses + [s.actor.response])
  }

  // ---------- Counting ----------

  function One(b: bool): nat {
    if b then 1 else 0
  }

  function Count(requests: seq<Request>, kind: Request): (n: nat)
  {
    if requests == [] then 0 else One(requests[0] == kind) + Count(requests[1..], kind)
  }

  lemma {:induction false} CountAppend(requests: seq<Request>, request: Request, kind: Request)
    ensures Count(requests + [request], kind) == Count(requests, kind) + One(request == kind)
  {
    if requests != [] {
      CountAppend(requests[1..], request, kind);
      assert (requests + [request])[1..] == requests[1..] + [request];
    }
  }

  /** Wait requests queued, running, or not yet acknowledged by the receiver. */
  function Outstanding(s: State): nat {
    Count(s.requests, WaitStream) + One(s.actor.Waiting?) + One(s.actor.Responding?) + |s.responses| + One(s.task.Clearing?)
  }

  /** Requests for a message queued, running, or answered but not yet read. */
  function Asked(s: State): nat {
    Count(s.requests, TryRecvStream) + One(s.actor.Trying?) + One(s.answer.Some?)
  }

  function Closing(s: State): nat {
    Count(s.requests, Close) + One(s.actor.Exited?)
  }

  /** In `try_recv_stream`, where some backing is current. */
  predicate InTry(task: Task) {
    match task
    case Draining(caller) => caller == FromTry
    case Clearing(_, caller) => caller == FromTry
    case Looking(_) => true
    case Asking(_) => true
    case Awaiting(_) => true
    case _ => false
  }

  ghost predicate Inv(s: State) {
    && Outstanding(s) <= 1
    && (s.bit || s.task.Setting? <==> Outstanding(s) == 1 || s.failed)
    && (s.failed ==> s.bit && Outstanding(s) == 0)
    && (s.task.Setting? || s.task.Asking? || s.task.Awaiting? ==> !s.bit)
    && (s.task.Receiving? ==> s.bit)
    && Asked(s) == One(s.task.Awaiting?)
    && Closing(s) == One(s.task.Joining?)
    && |s.requests| <= CAPACITY
    && (InTry(s.task) ==> s.current != Unset)
    && (s.noticed ==> s.task.Receiving? && s.inbox > 0)
    && (s.task.Receiving? && s.replays && s.inbox > 0 ==> s.noticed)
  }

  /** Sending a request. */
  lemma Counted(requests: seq<Request>, request: Request)
    ensures forall kind :: Count(requests + [request], kind) == Count(requests, kind) + One(request == kind)
  {
    forall kind ensures Count(requests + [request], kind) == Count(requests, kind) + One(request == kind) {
      CountAppend(requests, request, kind);
    }
  }

  lemma QuietInv(s: State)
    requires s == Initial(s.replays).(inbox := s.inbox)
    ensures Inv(s)
  {
  }

  lemma InvStart(replays: bool)
    ensures Inv(Initial(replays))
  {
    QuietInv(Initial(replays));
    hide Inv;
  }

  lemma ActorKeepsInv(s: State, e: Event)
    requires Inv(s) && Enabled(s, e) && IsActors(e)
    ensures Inv(Apply(s, e))
  {
  }

  predicate Sends(e: Event) {
    e.BeginWait? || e.BeginClose? || e.Ask? || e.SendOther?
  }

  lemma SendingKeepsInv(s: State, e: Event)
    requires Inv(s) && Enabled(s, e) && Sends(e)
    ensures Inv(Apply(s, e))
  {
    match e {
      case BeginWait => Counted(s.requests, WaitStream);
      case BeginClose => Counted(s.requests, Close);
      case Ask => Counted(s.requests, TryRecvStream);
      case SendOther => Counted(s.requests, Other);
    }
  }

  /** Steps of the receiver that put an end to a wait, or to everything. */
  predicate Ends(e: Event) {
    e.PopResponse? || e.HandleResponse? || e.GatewayWakes? || e.GiveUp? || e.FinishClose?
  }

  lemma EndingKeepsInv(s: State, e: Event)
    requires Inv(s) && Enabled(s, e) && Ends(e)
    ensures Inv(Apply(s, e))
  {
    if e == FinishClose {
      QuietInv(Apply(s, e));
    }
  }

  lemma OthersKeepInv(s: State, e: Event)
    requires Inv(s) && Enabled(s, e) && !IsActors(e) && !Sends(e) && !Ends(e)
    ensures Inv(Apply(s, e))
  {
  }

  lemma StepKeepsInv(s: State, e: Event)
    requires Inv(s) && Enabled(s, e)
    ensures Inv(Apply(s, e))
  {
    hide Inv, Apply, Enabled;
    if IsActors(e) {
      ActorKeepsInv(s, e);
    } else if Sends(e) {
      SendingKeepsInv(s, e);
    } else if Ends(e) {
      EndingKeepsInv(s, e);
    } else {
      OthersKeepInv(s, e);
    }
  }

  // ---------- Runs ----------

  ghost predicate IsRun(ss: seq<State>, es: seq<Event>) {
    && |ss| == |es| + 1
    && ss[0] == Initial(ss[0].replays)
    && forall i: nat {:trigger StepAt(ss, es, i)} :: i < |es| ==> StepAt(ss, es, i)
  }

  ghost predicate StepAt(ss: seq<State>, es: seq<Event>, i: nat) {
    i < |es| < |ss| && Enabled(ss[i], es[i]) && ss[i + 1] == Apply(ss[i], es[i])
  }

  lemma RunStep(ss: seq<State>, es: seq<Event>, i: nat)
    requires IsRun(ss, es) && i < |es|
    ensures Enabled(ss[i], es[i]) && ss[i + 1] == Apply(ss[i], es[i])
  {
    assert StepAt(ss, es, i);
  }

  lemma {:induction false} RunInv(ss: seq<State>, es: seq<Event>, i: nat)
    requires IsRun(ss, es) && i < |ss|
    ensures Inv(ss[i])
    decreases i
  {
    hide Inv, Apply, Enabled, StepAt, Initial;
    if i == 0 {
      InvStart(ss[0].replays);
    } else {
      RunInv(ss, es, i - 1);
      RunStep(ss, es, i - 1);
      StepKeepsInv(ss[i - 1], es[i - 1]);
    }
  }

  /** In every interleaving: a wait request that is queued, running or unacknowledged means the bit is
      set, except in the moment between sending the request and setting the bit, when the receiver holds
      the write lock.  The bit is set without one exactly after an error has been received. */
  lemma BitTellsOutstanding(ss: seq<State>, es: seq<Event>, i: nat)
    requires IsRun(ss, es) && i < |ss|
    ensures Outstanding(ss[i]) <= 1
    ensures !ss[i].task.Setting? ==> (ss[i].bit <==> Outstanding(ss[i]) == 1 || ss[i].failed)
    ensures !(Outstanding(ss[i]) == 1 && ss[i].failed)
  {
    RunInv(ss, es, i);
  }

  /** The response channel never fills, so that the actor never blocks in sending on it. */
  lemma ResponsesNeverFill(ss: seq<State>, es: seq<Event>, i: nat)
    requires IsRun(ss, es) && i < |ss|
    ensures |ss[i].responses| <= 1
    ensures ss[i].actor.Responding? ==> ss[i].responses == [] && Enabled(ss[i], Respond)
  {
    RunInv(ss, es, i);
  }

  lemma CountIn(requests: seq<Request>, k: nat, kind: Request)
    requires k < |requests| && requests[k] == kind
    ensures Count(requests, kind) > 0
  {
    if k > 0 {
      CountIn(requests[1..], k - 1, kind);
    }
  }

  /** A request for a message is never queued while a wait request is queued, running or unacknowledged. */
  lemma NeverBehindAWait(ss: seq<State>, es: seq<Event>, i: nat)
    requires IsRun(ss, es) && i < |ss|
    requires ss[i].task.Asking? || ss[i].task.Awaiting? || TryRecvStream in ss[i].requests
    ensures WaitStream !in ss[i].requests
    ensures !ss[i].actor.Waiting? && !ss[i].actor.Responding? && ss[i].responses == []
  {
    RunInv(ss, es, i);
    var requests := ss[i].requests;
    if TryRecvStream in requests {
      var k :| 0 <= k < |requests| && requests[k] == TryRecvStream;
      CountIn(requests, k, TryRecvStream);
    }
    if WaitStream in requests {
      var k :| 0 <= k < |requests| && requests[k] == WaitStream;
      CountIn(requests, k, WaitStream);
    }
  }

  // ---------- An answer is always on its way ----------

  function Position(requests: seq<Request>, kind: Request): (k: nat)
    ensures k <= |requests|
    ensures k < |requests| ==> requests[k] == kind
  {
    if requests == [] || requests[0] == kind then 0 else 1 + Position(requests[1..], kind)
  }

  /** How many more steps of the actor the answer takes. */
  function StepsToAnswer(s: State): nat {
    if s.answer.Some? then 0
    else if s.actor.Trying? then 1
    else Position(s.requests, TryRecvStream) + 2
  }

  lemma {:induction false} PositionKept(requests: seq<Request>, request: Request, kind: Request)
    requires Count(requests, kind) > 0
    ensures Position(requests + [request], kind) == Position(requests, kind) < |requests|
  {
    if requests[0] != kind {
      PositionKept(requests[1..], request, kind);
      assert (requests + [request])[1..] == requests[1..] + [request];
    }
  }

  /** While the receiver awaits an answer, the actor can step without anything outside happening, each of
      its steps brings the answer nearer, and nobody else's step delays it. */
  lemma AnswerNearer(s: State, e: Event)
    requires Inv(s) && Enabled(s, e) && s.task.Awaiting? && s.answer == None
    ensures IsActors(e) ==> !e.WaitReturns? && StepsToAnswer(Apply(s, e)) < StepsToAnswer(s)
    ensures !IsActors(e) ==> (e == SendOther || e == Arrive) && StepsToAnswer(Apply(s, e)) == StepsToAnswer(s)
    ensures Enabled(s, TakeRequest) || Enabled(s, AnswerTry(true))
  {
    if !s.actor.Trying? {
      PositionKept(s.requests, Other, TryRecvStream);
    }
  }

  function ActorSteps(es: seq<Event>): nat {
    if es == [] then 0 else ActorSteps(es[..|es| - 1]) + One(IsActors(es[|es| - 1]))
  }

  /** A request for a message is answered before the actor has made as many steps as there were requests
      queued ahead of it, and two more: the call does not block on anything outside. */
  lemma {:induction false} TriesAreAnswered(ss: seq<State>, es: seq<Event>, i: nat, j: nat)
    requires IsRun(ss, es) && i <= j < |ss|
    requires forall k | i <= k < j :: ss[k].task.Awaiting? && ss[k].answer == None
    ensures ActorSteps(es[i..j]) + StepsToAnswer(ss[j]) <= StepsToAnswer(ss[i])
    decreases j
  {
    hide Apply, Enabled, StepsToAnswer, Inv;
    if i < j {
      TriesAreAnswered(ss, es, i, j - 1);
      RunInv(ss, es, j - 1);
      assert StepAt(ss, es, j - 1);
      AnswerNearer(ss[j - 1], es[j - 1]);
      assert es[i..j][..j - i - 1] == es[i..j - 1];
    } else {
      assert es[i..j] == [];
    }
  }

  // ---------- When the receiver is stuck ----------

  /** The receiver waits for a response that no request will bring, and the gateway has nothing for it. */
  predicate Stuck(s: State) {
    s.task.Receiving? && s.failed && s.requests == [] && !s.noticed
  }

  predicate Moves(s: State, e: Event) {
    Enabled(s, e) && !e.GiveUp? && !e.SendOther? && !e.Arrive?
  }

  /** The next step of the receiver, or the step of the actor it waits for. */
  function NextStep(s: State): Event {
    match s.task
    case Resting => BeginTry(false)
    case Draining(_) => if s.responses == [] then EndDrain else PopResponse
    case Clearing(_, _) => HandleResponse
    case Looking(left) => if left > 0 && s.current == WsGateway then AskGateway else Look
    case Setting => SetBit
    case Receiving => if s.noticed then GatewayWakes else if s.responses != [] then PopResponse else ActorsStep(s)
    case Asking(_) => if |s.requests| < CAPACITY then Ask else ActorsStep(s)
    case Awaiting(_) => if s.answer.Some? then GetAnswer else ActorsStep(s)
    case Joining => if s.actor.Exited? then FinishClose else ActorsStep(s)
  }

  function ActorsStep(s: State): Event {
    match s.actor
    case Listening => TakeRequest
    case Trying => AnswerTry(true)
    case Waiting => WaitReturns(Returned)
    case Responding(_) => Respond
    case Exited => TakeRequest
  }

  /** Somebody can always move, other than by giving up or by sending something new, except exactly when the
      receiver waits after an error: then the bit is set for a request that is long gone, and no other is
      sent. */
  lemma StuckExactlyAfterError(ss: seq<State>, es: seq<Event>, i: nat)
    requires IsRun(ss, es) && i < |ss|
    ensures (exists e :: Moves(ss[i], e)) <==> !Stuck(ss[i])
  {
    RunInv(ss, es, i);
    var s := ss[i];
    if !Stuck(s) {
      assert Moves(s, NextStep(s));
    } else {
      forall e ensures !Moves(s, e) {
      }
    }
  }

  /** An error is final until the next close: the bit stays set, no wait request is sent and the mesh is
      not asked for messages. */
  lemma FailureIsFinal(ss: seq<State>, es: seq<Event>, i: nat, j: nat)
    requires IsRun(ss, es) && i <= j < |ss| && ss[i].failed
    requires forall k | i <= k < j :: es[k] != FinishClose
    ensures ss[j].failed && ss[j].bit && Outstanding(ss[j]) == 0 && Asked(ss[j]) == 0
  {
    for k := i to j
      invariant ss[k].failed
    {
      assert StepAt(ss, es, k);
    }
    RunInv(ss, es, j);
  }

  // ---------- What the receiver notices of the gateway ----------

  /** A wait begins in step `k` and is still on in state `i`. */
  ghost predicate WaitsSince(ss: seq<State>, k: nat, i: nat) {
    k < i < |ss| && !ss[k].task.Receiving? && forall j | k < j <= i :: ss[j].task.Receiving?
  }

  ghost predicate ArrivedBetween(es: seq<Event>, from: nat, to: nat) {
    exists j :: from <= j < to <= |es| && es[j] == Arrive
  }

  /** A step into a wait, or within one. */
  lemma NoticedStep(s: State, e: Event)
    requires Enabled(s, e) && Apply(s, e).task.Receiving?
    ensures var t := Apply(s, e);
            && t.replays == s.replays
            && (t.inbox > 0 <==> s.inbox > 0 || e == Arrive)
            && (t.noticed <==> if s.task.Receiving? then s.noticed || e == Arrive else s.replays && s.inbox > 0)
            && (!s.task.Receiving? ==> e != Arrive)
  {
    match e {
      case BeginWait =>
      case SetBit =>
      case Arrive =>
      case _ =>
    }
  }

  lemma {:induction false} NoticedSince(ss: seq<State>, es: seq<Event>, k: nat, i: nat)
    requires IsRun(ss, es) && WaitsSince(ss, k, i)
    ensures ss[i].replays == ss[k].replays
    ensures ss[i].noticed <==> (ss[k].replays && ss[k].inbox > 0) || ArrivedBetween(es, k + 1, i)
    ensures ss[i].inbox > 0 <==> ss[k].inbox > 0 || ArrivedBetween(es, k + 1, i)
    decreases i
  {
    assert |ss| == |es| + 1;
    hide IsRun, StepAt, Apply, Enabled;
    RunStep(ss, es, i - 1);
    assert ss[i].task.Receiving?;
    NoticedStep(ss[i - 1], es[i - 1]);
    if k + 1 < i {
      NoticedSince(ss, es, k, i - 1);
      ArrivedStep(es, k + 1, i - 1);
    }
  }

  lemma ArrivedStep(es: seq<Event>, from: nat, to: nat)
    requires from <= to < |es|
    ensures ArrivedBetween(es, from, to + 1) <==> ArrivedBetween(es, from, to) || es[to] == Arrive
  {
    if es[to] == Arrive {
      assert from <= to < to + 1;
    }
    if ArrivedBetween(es, from, to) {
      var j :| from <= j < to && es[j] == Arrive;
      assert j < to + 1;
    }
  }

  /** The receiver waits, and nothing that it waits for is there. */
  predicate Parked(s: State) {
    s.task.Receiving? && s.responses == [] && !s.noticed
  }

  /** A frame that the gateway holds leaves the receiver parked exactly when it was there before the wait
      began, no other has come since, the channel does not give a new subscriber what it holds, and the
      mesh has not responded. */
  lemma FrameUnnoticedExactlyWhen(ss: seq<State>, es: seq<Event>, k: nat, i: nat)
    requires IsRun(ss, es) && WaitsSince(ss, k, i)
    ensures Parked(ss[i]) && ss[i].inbox > 0 <==>
            ss[k].inbox > 0 && !ArrivedBetween(es, k + 1, i) && !ss[k].replays && ss[i].responses == []
  {
    NoticedSince(ss, es, k, i);
  }
}
