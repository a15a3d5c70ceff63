/** The gateway as the receiver works it: one attempt after the other, each of them some steps of
    `RelayRuns`, with frames, pages of other senders and wait responses coming in between. */
module RelayAttempts {
  import opened Bytes
  import opened Pages
  import opened Receiver
  import opened Reassembly
  import WaitBit
  import opened Relay
  import opened RelayRuns
  import opened ExactlyOnce

  // ---------- Reachable states of the relay ----------

  ghost predicate Reached(senders: Senders, r: Relayed, shouldCollect: ShouldCollect) {
    exists rs, es :: IsRun(senders, rs, es, shouldCollect) && rs[|es|] == r
  }

  lemma ReachStart(senders: Senders, shouldCollect: ShouldCollect)
    requires Genuine(senders)
    ensures Reached(senders, SILENCE, shouldCollect)
  {
    var rs, es: seq<Event> := [SILENCE], [];
    assert IsRun(senders, rs, es, shouldCollect) && rs[|es|] == SILENCE;
  }

  lemma ReachStep(senders: Senders, r: Relayed, e: Event, shouldCollect: ShouldCollect)
    requires Genuine(senders) && Reached(senders, r, shouldCollect) && Enabled(senders, r, e)
    ensures Reached(senders, Apply(senders, r, e, shouldCollect), shouldCollect)
  {
    hide Enabled, Apply, Genuine;
    var rs, es :| IsRun(senders, rs, es, shouldCollect) && rs[|es|] == r;
    var s := Apply(senders, r, e, shouldCollect);
    forall i: nat | i < |es| + 1 ensures StepAt(senders, rs + [s], es + [e], shouldCollect, i) {
      assert i < |es| ==> StepAt(senders, rs, es, shouldCollect, i);
    }
    assert IsRun(senders, rs + [s], es + [e], shouldCollect);
  }

  lemma ReachedInv(senders: Senders, r: Relayed, shouldCollect: ShouldCollect)
    requires Reached(senders, r, shouldCollect)
    ensures Genuine(senders) && MeshInv(senders, r, shouldCollect) && InboxInv(senders, r)
  {
    var rs, es :| IsRun(senders, rs, es, shouldCollect) && rs[|es|] == r;
    RunInv(senders, rs, es, shouldCollect, |es|);
  }

  lemma ReachedGenuine(senders: Senders, r: Relayed, shouldCollect: ShouldCollect)
    requires Reached(senders, r, shouldCollect)
    ensures Genuine(senders)
  {
  }

  /** `r` with the pages that are on their way sent. */
  ghost function Flushed(senders: Senders, r: Relayed): Relayed
    requires Stream(senders, r.pending)
  {
    r.(hub := r.hub.(pages := r.hub.pages + PagesFor(senders, r.pending)), stream := r.stream + r.pending, pending := [])
  }

  /** The next page, and the rest. */
  lemma NextPending(senders: Senders, pending: seq<Sent>)
    requires Stream(senders, pending) && pending != []
    ensures FromSenders(senders, pending[0]) && Stream(senders, pending[1..])
    ensures PagesFor(senders, pending) == [PageOf(senders, pending[0])] + PagesFor(senders, pending[1..])
  {
    hide PageOf;
  }

  lemma Regroup<T>(a: seq<T>, b: seq<T>, c: seq<T>)
    ensures (a + b) + c == a + (b + c)
  {
  }

  lemma FlushStep(senders: Senders, r: Relayed, shouldCollect: ShouldCollect)
    requires Genuine(senders) && Stream(senders, r.pending) && r.pending != []
    ensures Enabled(senders, r, SendNext)
    ensures var s := Apply(senders, r, SendNext, shouldCollect);
            Stream(senders, s.pending) && Flushed(senders, s) == Flushed(senders, r)
  {
    NextPending(senders, r.pending);
    hide PagesFor, PageOf, Stream, Genuine, FromSenders;
    Regroup(r.hub.pages, [PageOf(senders, r.pending[0])], PagesFor(senders, r.pending[1..]));
    Regroup(r.stream, [r.pending[0]], r.pending[1..]);
    assert r.pending == [r.pending[0]] + r.pending[1..];
  }

  lemma {:induction false} ReachFlushed(senders: Senders, r: Relayed, shouldCollect: ShouldCollect)
    requires Reached(senders, r, shouldCollect) && Genuine(senders) && Stream(senders, r.pending)
    ensures Reached(senders, Flushed(senders, r), shouldCollect)
    decreases |r.pending|
  {
    hide Reached, Stream, Genuine;
    if r.pending == [] {
      assert Flushed(senders, r) == r by {
        NothingToFlush(senders, r);
      }
    } else {
      FlushStep(senders, r, shouldCollect);
      ReachStep(senders, r, SendNext, shouldCollect);
      ReachFlushed(senders, Apply(senders, r, SendNext, shouldCollect), shouldCollect);
    }
  }

  lemma NothingToFlush(senders: Senders, r: Relayed)
    requires Stream(senders, r.pending) && r.pending == []
    ensures Flushed(senders, r) == r
  {
    assert r.stream + [] == r.stream;
    assert r.hub.pages + PagesFor(senders, []) == r.hub.pages;
  }

  // ---------- One attempt ----------

  /** The first frame, if the mesh takes it, is relayed under an id of its own. */
  ghost predicate IdFits(senders: Senders, hub: Hub, id: nat) {
    hub.inbox != [] && Relayable(hub.inbox[0]) ==> SentUnder(senders, Unframe(hub.inbox[0]), id)
  }

  /** The pages of the frame that was taken from the inbox, if one was. */
  ghost function RelayedIn(before: Hub, id: nat, after: Hub): seq<Sent> {
    if |after.inbox| < |before.inbox| && Relayable(before.inbox[0]) then SentAs(Unframe(before.inbox[0]), id) else []
  }

  /** Of the relay, what an attempt that begins in `r` and ends in `s` changes besides the hub. */
  ghost predicate Relays(r: Relayed, id: nat, s: Relayed) {
    s.arrived == r.arrived && s.others == r.others && s.stream == r.stream + RelayedIn(r.hub, id, s.hub)
  }

  ghost predicate BetweenAttempts(senders: Senders, r: Relayed, shouldCollect: ShouldCollect) {
    Reached(senders, r, shouldCollect) && r.pending == []
  }

  /** Backing, bit and responses can be anything: none of them is looked at by what follows. */
  lemma ReachControlled(senders: Senders, r: Relayed, shouldCollect: ShouldCollect, hub: Hub)
    requires BetweenAttempts(senders, r, shouldCollect) && SameTraffic(hub, r.hub)
    ensures BetweenAttempts(senders, r.(hub := hub), shouldCollect)
  {
    hide Reached, Genuine;
    ReachedGenuine(senders, r, shouldCollect);
    var e := Control(hub.current, hub.bit, hub.responses);
    ReachStep(senders, r, e, shouldCollect);
    assert Apply(senders, r, e, shouldCollect) == r.(hub := hub);
  }

  /** Asking the mesh is one step, or none if there is nothing. */
  lemma MeshTurnIsStep(senders: Senders, r: Relayed, shouldCollect: ShouldCollect) returns (s: Relayed)
    requires BetweenAttempts(senders, r, shouldCollect)
    ensures BetweenAttempts(senders, s, shouldCollect)
    ensures s.hub == FromMesh(r.hub, shouldCollect).hub && s.hub.inbox == r.hub.inbox
    ensures s.arrived == r.arrived && s.stream == r.stream && s.others == r.others
    ensures FromMesh(r.hub, shouldCollect).result != Crashed
  {
    ReachedInv(senders, r, shouldCollect);
    hide Reached, Genuine, Receive, Stream, PagesFor, TableAfter, Echoes, InboxInv, PageOf;
    if r.hub.pages == [] {
      s := r;
    } else {
      ReachStep(senders, r, TakePage, shouldCollect);
      s := Apply(senders, r, TakePage, shouldCollect);
      NextPage(senders, r.stream, r.taken);
      StreamTurn(senders, r.stream, shouldCollect, r.taken);
    }
  }

  lemma FlushedTurn(senders: Senders, r: Relayed, shouldCollect: ShouldCollect, id: nat)
    requires Genuine(senders) && Enabled(senders, r, TakeFrame(id))
    ensures var taken := Apply(senders, r, TakeFrame(id), shouldCollect);
            && Stream(senders, taken.pending)
            && Flushed(senders, taken).hub == FromGateway(r.hub, id).hub
            && Relays(r, id, Flushed(senders, taken))
  {
    SentAsPages(senders, Unframe(r.hub.inbox[0]), id);
    hide Genuine, Stream, PagesFor, PagesOf, SentAs, Unframe, IsWhole, IsFragmented, SentUnder;
  }

  /** Asking the gateway is one step and one for each page, or none if there is nothing. */
  lemma GatewayTurnIsSteps(senders: Senders, r: Relayed, shouldCollect: ShouldCollect, id: nat) returns (s: Relayed)
    requires BetweenAttempts(senders, r, shouldCollect) && IdFits(senders, r.hub, id)
    requires FromGateway(r.hub, id).result != Panicked
    ensures BetweenAttempts(senders, s, shouldCollect)
    ensures s.hub == FromGateway(r.hub, id).hub && Relays(r, id, s)
  {
    hide Reached, Genuine, Stream, PagesFor, PagesOf, SentUnder, Relayable, Apply;
    ReachedGenuine(senders, r, shouldCollect);
    if r.hub.inbox == [] {
      s := r;
    } else {
      ReachStep(senders, r, TakeFrame(id), shouldCollect);
      FlushedTurn(senders, r, shouldCollect, id);
      var taken := Apply(senders, r, TakeFrame(id), shouldCollect);
      ReachFlushed(senders, taken, shouldCollect);
      s := Flushed(senders, taken);
    }
  }

  /** Every attempt that does not end in a panic is some steps of the relay, or none, whatever pages other
      senders have put on the mesh before; and the actor survives it. */
  lemma AttemptIsSteps(senders: Senders, r: Relayed, timeUp: bool, shouldCollect: ShouldCollect, id: nat)
    returns (s: Relayed)
    requires BetweenAttempts(senders, r, shouldCollect) && IdFits(senders, r.hub, id)
    requires TryRecv(r.hub, timeUp, shouldCollect, id).result != Panicked
    ensures BetweenAttempts(senders, s, shouldCollect)
    ensures s.hub == TryRecv(r.hub, timeUp, shouldCollect, id).hub && Relays(r, id, s)
    ensures TryRecv(r.hub, timeUp, shouldCollect, id).result != Crashed
  {
    hide BetweenAttempts, FromMesh, FromGateway, Drained, TryBackings, Relayable, SentUnder;
    var start := r.hub.(current := if r.hub.current == WaitBit.Unset || timeUp then WaitBit.Rotated(r.hub.current) else r.hub.current);
    DrainedKeeps(start);
    var drained := Drained(start);
    ReachControlled(senders, r, shouldCollect, drained.hub);
    s := r.(hub := drained.hub);
    if drained.result != Failure {
      s := BackingsAreSteps(senders, s, shouldCollect, id);
    }
  }

  lemma BackingsAreSteps(senders: Senders, r: Relayed, shouldCollect: ShouldCollect, id: nat) returns (s: Relayed)
    requires BetweenAttempts(senders, r, shouldCollect) && IdFits(senders, r.hub, id) && r.hub.current != WaitBit.Unset
    requires TryBackings(r.hub, shouldCollect, id, 2).result != Panicked
    ensures BetweenAttempts(senders, s, shouldCollect)
    ensures s.hub == TryBackings(r.hub, shouldCollect, id, 2).hub && Relays(r, id, s)
    ensures TryBackings(r.hub, shouldCollect, id, 2).result != Crashed
  {
    hide BetweenAttempts, FromMesh, FromGateway, TryBackings, Relayable, SentUnder;
    OneMoveAnAttempt(r.hub, shouldCollect, id);
    var turn := TryBackings(r.hub, shouldCollect, id, 2);
    var mesh, gateway := r.hub.(current := WaitBit.Iox2), r.hub.(current := WaitBit.WsGateway);
    if turn.result == OutOfAccessible {
      ReachControlled(senders, r, shouldCollect, turn.hub);
      s := r.(hub := turn.hub);
    } else if turn == FromMesh(mesh, shouldCollect) {
      ReachControlled(senders, r, shouldCollect, mesh);
      s := MeshTurnIsStep(senders, r.(hub := mesh), shouldCollect);
    } else {
      ReachControlled(senders, r, shouldCollect, gateway);
      GatewayIsEmpty(gateway, id);
      s := GatewayTurnIsSteps(senders, r.(hub := gateway), shouldCollect, id);
    }
  }

  // ---------- One attempt after the other ----------

  datatype Move =
    | Comes(frame: Payload)                        // from the websocket
    | Sends(sent: Sent)                            // somebody else, over the mesh
    | Signals(bit: bool, responses: seq<WaitBit.Response>) // whatever waiting does between two attempts
    | Attempt(timeUp: bool, id: nat)

  ghost predicate CanMove(senders: Senders, hub: Hub, m: Move, shouldCollect: ShouldCollect)
    requires Genuine(senders)
  {
    match m
    case Comes(_) => true
    case Sends(sent) => FromSenders(senders, sent)
    case Signals(_, _) => true
    case Attempt(timeUp, id) => IdFits(senders, hub, id) && TryRecv(hub, timeUp, shouldCollect, id).result != Panicked
  }

  ghost function Moved(senders: Senders, hub: Hub, m: Move, shouldCollect: ShouldCollect): Hub
    requires Genuine(senders) && CanMove(senders, hub, m, shouldCollect)
  {
    match m
    case Comes(frame) => hub.(inbox := hub.inbox + [frame])
    case Sends(sent) => hub.(pages := hub.pages + [PageOf(senders, sent)])
    case Signals(bit, responses) => hub.(bit := bit, responses := responses)
    case Attempt(timeUp, id) => TryRecv(hub, timeUp, shouldCollect, id).hub
  }

  ghost predicate IsCourse(senders: Senders, hs: seq<Hub>, ms: seq<Move>, shouldCollect: ShouldCollect) {
    && Genuine(senders)
    && |hs| == |ms| + 1
    && hs[0] == QUIET
    && forall i: nat {:trigger MoveAt(senders, hs, ms, shouldCollect, i)} ::
         i < |ms| ==> MoveAt(senders, hs, ms, shouldCollect, i)
  }

  ghost predicate MoveAt(senders: Senders, hs: seq<Hub>, ms: seq<Move>, shouldCollect: ShouldCollect, i: nat)
    requires Genuine(senders)
  {
    && i < |ms| < |hs|
    && CanMove(senders, hs[i], ms[i], shouldCollect) && hs[i + 1] == Moved(senders, hs[i], ms[i], shouldCollect)
  }

  /** The frames that came in these moves. */
  function Frames(ms: seq<Move>): (frames: seq<Payload>) {
    if ms == [] then []
    else
      var last := ms[|ms| - 1];
      Frames(ms[..|ms| - 1]) + if last.Comes? then [last.frame] else []
  }

  /** The pages that others sent in these moves. */
  function PagesOfOthers(ms: seq<Move>): (sent: seq<Sent>) {
    if ms == [] then []
    else
      var last := ms[|ms| - 1];
      PagesOfOthers(ms[..|ms| - 1]) + if last.Sends? then [last.sent] else []
  }

  /** The pages that one move puts on the mesh. */
  ghost function SentIn(before: Hub, m: Move, after: Hub): seq<Sent> {
    match m
    case Sends(sent) => [sent]
    case Attempt(_, id) => RelayedIn(before, id, after)
    case _ => []
  }

  /** All pages that were on the mesh in the first `n` moves. */
  ghost function StreamOf(hs: seq<Hub>, ms: seq<Move>, n: nat): seq<Sent>
    requires n <= |ms| < |hs|
    decreases n
  {
    if n == 0 then [] else StreamOf(hs, ms, n - 1) + SentIn(hs[n - 1], ms[n - 1], hs[n])
  }

  lemma {:induction false} FrameCame(ms: seq<Move>, j: nat)
    requires j < |ms| && ms[j].Comes?
    ensures ms[j].frame in Frames(ms)
    decreases |ms|
  {
    if j < |ms| - 1 {
      FrameCame(ms[..|ms| - 1], j);
    }
  }

  lemma MoveIsSteps(senders: Senders, r: Relayed, m: Move, shouldCollect: ShouldCollect) returns (s: Relayed)
    requires Genuine(senders) && BetweenAttempts(senders, r, shouldCollect) && CanMove(senders, r.hub, m, shouldCollect)
    ensures BetweenAttempts(senders, s, shouldCollect)
    ensures s.hub == Moved(senders, r.hub, m, shouldCollect)
    ensures s.arrived == r.arrived + if m.Comes? then [m.frame] else []
    ensures s.others == r.others + if m.Sends? then [m.sent] else []
    ensures s.stream == r.stream + SentIn(r.hub, m, s.hub)
  {
    hide Reached, Genuine, TryRecv, IdFits, RelayedIn;
    match m {
      case Comes(frame) =>
        ReachStep(senders, r, Arrive(frame), shouldCollect);
        s := Apply(senders, r, Arrive(frame), shouldCollect);
      case Sends(sent) =>
        ReachStep(senders, r, OtherSends(sent), shouldCollect);
        s := Apply(senders, r, OtherSends(sent), shouldCollect);
      case Signals(bit, responses) =>
        ReachControlled(senders, r, shouldCollect, r.hub.(bit := bit, responses := responses));
        s := r.(hub := r.hub.(bit := bit, responses := responses));
      case Attempt(timeUp, id) =>
        s := AttemptIsSteps(senders, r, timeUp, shouldCollect, id);
    }
  }

  /** Simulation: however the attempts fall, the receiver is where a run of the relay is, in which the same
      frames came and the same pages were on the mesh. */
  lemma {:induction false} CourseIsRun(senders: Senders, hs: seq<Hub>, ms: seq<Move>, shouldCollect: ShouldCollect, i: nat)
    returns (r: Relayed)
    requires IsCourse(senders, hs, ms, shouldCollect) && i < |hs|
    ensures BetweenAttempts(senders, r, shouldCollect)
    ensures r.hub == hs[i] && r.arrived == Frames(ms[..i])
    ensures r.stream == StreamOf(hs, ms, i) && r.others == PagesOfOthers(ms[..i])
    decreases i
  {
    hide Reached, CanMove, Moved, SentIn;
    if i == 0 {
      ReachStart(senders, shouldCollect);
      r := SILENCE;
    } else {
      var before := CourseIsRun(senders, hs, ms, shouldCollect, i - 1);
      assert MoveAt(senders, hs, ms, shouldCollect, i - 1);
      r := MoveIsSteps(senders, before, ms[i - 1], shouldCollect);
      assert ms[..i][..i - 1] == ms[..i - 1];
    }
  }

  /** So of the receiver itself: when its inbox and the mesh are empty after some attempts, every wanted frame
      that came before has been broadcast again, byte for byte. */
  lemma AttemptsBringFramesBack(senders: Senders, hs: seq<Hub>, ms: seq<Move>, shouldCollect: ShouldCollect, i: nat, j: nat)
    requires IsCourse(senders, hs, ms, shouldCollect) && j < i < |hs| && ms[j].Comes?
    requires hs[i].inbox == [] && hs[i].pages == []
    ensures Relayable(ms[j].frame)
    ensures shouldCollect(Header(Unframe(ms[j].frame))) ==> ms[j].frame in hs[i].outbox
  {
    var r := CourseIsRun(senders, hs, ms, shouldCollect, i);
    FrameCame(ms[..i], j);
    var k :| 0 <= k < |r.arrived| && r.arrived[k] == ms[j].frame;
    var rs, es :| IsRun(senders, rs, es, shouldCollect) && rs[|es|] == r;
    EveryFrameComesBack(senders, rs, es, shouldCollect, |es|, k);
  }

  /** And exactly as often: if no page of a fragmented message was on the mesh twice, what has been broadcast is
      every wanted frame as often as it came, and every message of others that was wanted and complete. */
  lemma AttemptsBringFramesBackAsOften(senders: Senders, hs: seq<Hub>, ms: seq<Move>, shouldCollect: ShouldCollect, i: nat)
    requires IsCourse(senders, hs, ms, shouldCollect) && i < |hs|
    requires hs[i].inbox == [] && hs[i].pages == []
    requires NoRepeats(StreamOf(hs, ms, i))
    ensures Stream(senders, PagesOfOthers(ms[..i]))
    ensures multiset(hs[i].outbox) ==
            Wanted(Frames(ms[..i]), shouldCollect) +
            AllDue(senders, StreamOf(hs, ms, i), PagesOfOthers(ms[..i]), shouldCollect)
  {
    hide IsCourse, AllDue, Wanted, NoRepeats, StreamOf, Frames, PagesOfOthers;
    var r := CourseIsRun(senders, hs, ms, shouldCollect, i);
    var rs, es :| IsRun(senders, rs, es, shouldCollect) && rs[|es|] == r;
    EveryFrameExactlyAsOften(senders, rs, es, shouldCollect, |es|);
  }
}
