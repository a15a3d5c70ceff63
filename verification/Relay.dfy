/** The gateway between websocket frames and the mesh: a frame is the payload followed by its header size. */
module Relay {
  import opened Bytes
  import opened Pages
  import opened Receiver
  import opened WaitBit

  // ---------- Frames ----------

  function Frame(m: Message): (frame: Payload) {
    m.payload + ToLe(m.headerSize, 8)
  }

  function Unframe(frame: Payload): (m: Message)
    requires |frame| >= 8
  {
    Message(frame[..|frame| - 8], FromLe(frame[|frame| - 8..]))
  }

  /** What was framed is found again, as long as the header size fits 64 bits. */
  lemma FrameRoundTrip(m: Message)
    ensures |Frame(m)| >= 8
    ensures Unframe(Frame(m)) == m <==> m.headerSize < U64
  {
    var frame := Frame(m);
    assert frame[..|frame| - 8] == m.payload && frame[|frame| - 8..] == ToLe(m.headerSize, 8);
    Widths();
    LeRoundTrip(m.headerSize, 8);
  }

  /** Framing again gives the frame, byte for byte. */
  lemma UnframeRoundTrip(frame: Payload)
    requires |frame| >= 8
    ensures Frame(Unframe(frame)) == frame
  {
    LeOnto(frame[|frame| - 8..]);
  }

  /** The mesh takes the payload of the frame: anything else makes the relay panic. */
  predicate Relayable(frame: Payload) {
    |frame| >= 8 && var m := Unframe(frame); IsWhole(m) || IsFragmented(m)
  }

  // ---------- One attempt ----------

  /** `pages` are on the mesh and not yet received, `inbox` and `outbox` are what came from the websocket
      and what was broadcast to it. */
  datatype Hub = Hub(
    table: Table,
    pages: seq<Page>,
    inbox: seq<Payload>,
    outbox: seq<Payload>,
    current: Backing,
    bit: bool,
    responses: seq<Response>)

  datatype Result =
    | NewCompleted(m: Message)
    | PotentiallyAvailable
    | OutOfAccessible
    | Failure          // a wait ended with an error
    | Crashed          // the actor thread is gone
    | Panicked

  datatype Turn = Turn(hub: Hub, result: Result)

  /** Asking the mesh: what is received is also broadcast. */
  function FromMesh(hub: Hub, shouldCollect: ShouldCollect): Turn {
    if hub.pages == [] then Turn(hub, OutOfAccessible)
    else
      var received := Receive(hub.table, hub.pages[0], shouldCollect);
      var after := hub.(table := received.table, pages := hub.pages[1..]);
      match received.outcome
      case Panic => Turn(hub, Crashed)
      case Nothing => Turn(after, PotentiallyAvailable)
      case Completed(payload, headerSize) =>
        var m := Message(payload, headerSize);
        Turn(after.(outbox := hub.outbox + [Frame(m)]), NewCompleted(m))
  }

  /** Asking the gateway: what is received goes to the mesh. */
  function FromGateway(hub: Hub, identification: nat): Turn {
    if hub.inbox == [] then Turn(hub, OutOfAccessible)
    else
      var frame := hub.inbox[0];
      if !Relayable(frame) then Turn(hub, Panicked)
      else Turn(hub.(inbox := hub.inbox[1..], pages := hub.pages + PagesOf(Unframe(frame), identification)),
                PotentiallyAvailable)
  }

  /** The loop over the backings, with `left` rounds to go. */
  function TryBackings(hub: Hub, shouldCollect: ShouldCollect, identification: nat, left: nat): Turn
    decreases left
  {
    if left == 0 then Turn(hub, OutOfAccessible)
    else if hub.current == Iox2 && hub.bit then TryBackings(hub, shouldCollect, identification, left - 1)
    else
      var turn := if hub.current == Iox2 then FromMesh(hub, shouldCollect) else FromGateway(hub, identification);
      if turn.result != OutOfAccessible then turn
      else TryBackings(turn.hub.(current := Rotated(hub.current)), shouldCollect, identification, left - 1)
  }

  /** Handling the wait responses at hand, up to the first error. */
  function Drained(hub: Hub): (turn: Turn)
    decreases |hub.responses|
  {
    if hub.responses == [] then Turn(hub, OutOfAccessible)
    else if hub.responses[0] == Failed then Turn(hub.(responses := hub.responses[1..]), Failure)
    else Drained(hub.(responses := hub.responses[1..], bit := false))
  }

  function TryRecv(hub: Hub, timeUp: bool, shouldCollect: ShouldCollect, identification: nat): Turn {
    var drained := Drained(hub.(current := if hub.current == Unset || timeUp then Rotated(hub.current) else hub.current));
    if drained.result == Failure then drained else TryBackings(drained.hub, shouldCollect, identification, 2)
  }

  predicate SameTraffic(a: Hub, b: Hub) {
    a.table == b.table && a.pages == b.pages && a.inbox == b.inbox && a.outbox == b.outbox
  }

  lemma {:induction false} DrainedKeeps(hub: Hub)
    ensures SameTraffic(Drained(hub).hub, hub) && Drained(hub).hub.current == hub.current
    ensures Drained(hub).result == Failure <==> Failed in hub.responses
    ensures Failed !in hub.responses ==> Drained(hub).hub.bit == (hub.bit && hub.responses == []) && Drained(hub).result == OutOfAccessible
    decreases |hub.responses|
  {
    if hub.responses != [] && hub.responses[0] != Failed {
      DrainedKeeps(hub.(responses := hub.responses[1..], bit := false));
    }
  }

  /** There is nothing, or the actor or the caller does not survive it. */
  predicate MovesNothing(result: Result) {
    result == OutOfAccessible || result == Crashed || result == Panicked
  }

  lemma MeshIsEmpty(hub: Hub, shouldCollect: ShouldCollect)
    ensures var turn := FromMesh(hub, shouldCollect);
            && (turn.result == OutOfAccessible <==> hub.pages == [])
            && turn.result != Failure && turn.result != Panicked
            && (MovesNothing(turn.result) ==> turn.hub == hub)
            && (!MovesNothing(turn.result) ==> |turn.hub.pages| < |hub.pages|)
  {
    hide Receive, Frame;
  }

  lemma GatewayIsEmpty(hub: Hub, identification: nat)
    ensures var turn := FromGateway(hub, identification);
            && (turn.result == OutOfAccessible <==> hub.inbox == [])
            && turn.result != Failure && turn.result != Crashed
            && (MovesNothing(turn.result) ==> turn.hub == hub)
            && (!MovesNothing(turn.result) ==> |turn.hub.inbox| < |hub.inbox|)
  {
    hide Relayable, PagesOf;
  }

  /** One attempt moves one page from the mesh, unblocked, or one frame from the gateway, or nothing.  It
      moves nothing exactly when it answers that there is nothing, or somebody dies of it.  It answers that
      there is nothing when every backing has nothing, but also when the mesh comes first and is blocked,
      whatever the gateway has. */
  lemma OneMoveAnAttempt(hub: Hub, shouldCollect: ShouldCollect, identification: nat)
    requires hub.current != Unset
    ensures var turn := TryBackings(hub, shouldCollect, identification, 2);
            && (SameTraffic(turn.hub, hub) <==> MovesNothing(turn.result))
            && (turn.result == OutOfAccessible ||
                (turn == FromMesh(hub.(current := Iox2), shouldCollect) && !hub.bit) ||
                turn == FromGateway(hub.(current := WsGateway), identification))
    ensures TryBackings(hub, shouldCollect, identification, 2).result == OutOfAccessible <==>
            if hub.current == Iox2 then hub.bit || (hub.pages == [] && hub.inbox == [])
            else hub.inbox == [] && (hub.bit || hub.pages == [])
  {
    hide FromMesh, FromGateway;
    MeshIsEmpty(hub.(current := Iox2), shouldCollect);
    GatewayIsEmpty(hub.(current := WsGateway), identification);
    if hub.current == Iox2 {
      assert hub == hub.(current := Iox2);
      assert TryBackings(hub.(current := WsGateway), shouldCollect, identification, 0).result == OutOfAccessible;
    } else {
      assert hub == hub.(current := WsGateway);
      assert TryBackings(hub.(current := Iox2), shouldCollect, identification, 0).result == OutOfAccessible;
    }
  }

  // ---------- An attempt, told from what is there before it ----------

  /** Handling responses takes them all, or up to the first error. */
  lemma {:induction false} DrainedLeaves(hub: Hub) returns (n: nat)
    ensures n <= |hub.responses| && forall k | 0 <= k < n :: hub.responses[k] != Failed
    ensures Failed !in hub.responses ==>
              n == |hub.responses| && Drained(hub).hub == hub.(responses := [], bit := hub.bit && n == 0)
    ensures Failed in hub.responses ==>
              && n < |hub.responses| && hub.responses[n] == Failed
              && Drained(hub).hub == hub.(responses := hub.responses[n + 1..], bit := hub.bit && n == 0)
    decreases |hub.responses|
  {
    n := 0;
    if hub.responses != [] && hub.responses[0] != Failed {
      n := DrainedLeaves(hub.(responses := hub.responses[1..], bit := false));
      n := n + 1;
    }
  }

  /** An attempt fails exactly when an error is among the responses, and then nothing else happens. */
  lemma FailsExactlyWhen(hub: Hub, timeUp: bool, shouldCollect: ShouldCollect, identification: nat)
    ensures var turn := TryRecv(hub, timeUp, shouldCollect, identification);
            && (turn.result == Failure <==> Failed in hub.responses)
            && (turn.result == Failure ==>
                  SameTraffic(turn.hub, hub) && turn.hub.current == if MeshFirst(hub.current, timeUp) then Iox2 else WsGateway)
  {
    hide FromMesh, FromGateway, TryBackings;
    var start := hub.(current := if MeshFirst(hub.current, timeUp) then Iox2 else WsGateway);
    DrainedKeeps(start);
    if Failed !in hub.responses {
      OneMoveAnAttempt(Drained(start).hub, shouldCollect, identification);
      MeshIsEmpty(Drained(start).hub.(current := Iox2), shouldCollect);
      GatewayIsEmpty(Drained(start).hub.(current := WsGateway), identification);
    }
  }

  /** Who is asked otherwise.  The mesh answers if it has a page, is not blocked, and comes first or the gateway
      has nothing; the gateway answers if it has a frame, and comes first or the mesh was asked and has nothing;
      else nobody does.  The mesh is blocked exactly when the bit is set and no response has come to clear it. */
  lemma WhoAnswers(hub: Hub, timeUp: bool, shouldCollect: ShouldCollect, identification: nat)
    requires Failed !in hub.responses
    ensures var first, blocked := MeshFirst(hub.current, timeUp), hub.bit && hub.responses == [];
            var mesh := hub.(current := Iox2, bit := blocked, responses := []);
            TryRecv(hub, timeUp, shouldCollect, identification) ==
              if !blocked && hub.pages != [] && (first || hub.inbox == []) then
                FromMesh(mesh, shouldCollect)
              else if hub.inbox != [] && (!first || (!blocked && hub.pages == [])) then
                FromGateway(mesh.(current := WsGateway), identification)
              else
                Turn(mesh.(current := if first || blocked then Iox2 else WsGateway), OutOfAccessible)
  {
    hide FromMesh, FromGateway;
    var first, blocked := MeshFirst(hub.current, timeUp), hub.bit && hub.responses == [];
    var start := hub.(current := if first then Iox2 else WsGateway);
    DrainedKeeps(start);
    var n := DrainedLeaves(start);
    var mesh := hub.(current := Iox2, bit := blocked, responses := []);
    MeshIsEmpty(mesh, shouldCollect);
    GatewayIsEmpty(mesh.(current := WsGateway), identification);
    assert mesh.(current := WsGateway).(current := Iox2) == mesh;
    assert Drained(start).hub == if first then mesh else mesh.(current := WsGateway);
    TwoRounds(mesh, shouldCollect, identification);
  }

  /** The two rounds, from either backing. */
  lemma TwoRounds(mesh: Hub, shouldCollect: ShouldCollect, identification: nat)
    requires mesh.current == Iox2
    ensures TryBackings(mesh, shouldCollect, identification, 2) ==
            if mesh.bit then Turn(mesh, OutOfAccessible)
            else if mesh.pages != [] then FromMesh(mesh, shouldCollect)
            else if mesh.inbox != [] then FromGateway(mesh.(current := WsGateway), identification)
            else Turn(mesh, OutOfAccessible)
    ensures TryBackings(mesh.(current := WsGateway), shouldCollect, identification, 2) ==
            if mesh.inbox != [] then FromGateway(mesh.(current := WsGateway), identification)
            else if !mesh.bit && mesh.pages != [] then FromMesh(mesh, shouldCollect)
            else Turn(mesh.(current := if mesh.bit then Iox2 else WsGateway), OutOfAccessible)
  {
    hide FromMesh, FromGateway;
    var gateway := mesh.(current := WsGateway);
    MeshIsEmpty(mesh, shouldCollect);
    GatewayIsEmpty(gateway, identification);
    assert gateway.(current := Iox2) == mesh;
    assert TryBackings(mesh, shouldCollect, identification, 0) == Turn(mesh, OutOfAccessible);
    assert TryBackings(gateway, shouldCollect, identification, 0) == Turn(gateway, OutOfAccessible);
    assert TryBackings(mesh, shouldCollect, identification, 1) ==
           if mesh.bit then Turn(mesh, OutOfAccessible)
           else if mesh.pages != [] then FromMesh(mesh, shouldCollect) else Turn(gateway, OutOfAccessible);
    assert TryBackings(gateway, shouldCollect, identification, 1) ==
           if mesh.inbox != [] then FromGateway(gateway, identification) else Turn(mesh, OutOfAccessible);
  }

  /** What does not survive: the caller, exactly when the gateway answers with a frame that is shorter than its
      header size field, or whose payload the mesh refuses; the actor, exactly when the mesh answers with a page
      that panics it. */
  lemma DiesExactlyWhen(hub: Hub, timeUp: bool, shouldCollect: ShouldCollect, identification: nat)
    requires Failed !in hub.responses
    ensures var first, blocked := MeshFirst(hub.current, timeUp), hub.bit && hub.responses == [];
            var result := TryRecv(hub, timeUp, shouldCollect, identification).result;
            && (result == Panicked <==>
                  hub.inbox != [] && !Relayable(hub.inbox[0]) && (!first || (!blocked && hub.pages == [])))
            && (result == Crashed <==>
                  && !blocked && hub.pages != [] && (first || hub.inbox == [])
                  && Receive(hub.table, hub.pages[0], shouldCollect).outcome == Panic)
  {
    WhoAnswers(hub, timeUp, shouldCollect, identification);
    hide TryRecv, Receive, Relayable, PagesOf;
  }

  // ---------- What the caller gets ----------

  lemma ReceivedFits(table: Table, page: Page, shouldCollect: ShouldCollect)
    ensures var outcome := Receive(table, page, shouldCollect).outcome; outcome.Completed? ==> outcome.headerSize < U64
  {
    Widths();
  }

  /** What an attempt broadcasts is the message it returns, and nothing if it returns none; and the frame comes
      apart into that message again. */
  lemma ReturnsWhatItBroadcasts(hub: Hub, timeUp: bool, shouldCollect: ShouldCollect, identification: nat)
    ensures var turn := TryRecv(hub, timeUp, shouldCollect, identification);
            if turn.result.NewCompleted? then
              && turn.hub.outbox == hub.outbox + [Frame(turn.result.m)]
              && |Frame(turn.result.m)| >= 8 && Unframe(Frame(turn.result.m)) == turn.result.m
            else
              turn.hub.outbox == hub.outbox
  {
    FailsExactlyWhen(hub, timeUp, shouldCollect, identification);
    if Failed !in hub.responses {
      WhoAnswers(hub, timeUp, shouldCollect, identification);
      var mesh := hub.(current := Iox2, bit := hub.bit && hub.responses == [], responses := []);
      MeshReturns(mesh, shouldCollect);
      GatewayReturns(mesh.(current := WsGateway), identification);
    }
    hide TryRecv, FromMesh, FromGateway, Frame, Unframe;
  }

  lemma MeshReturns(hub: Hub, shouldCollect: ShouldCollect)
    ensures var turn := FromMesh(hub, shouldCollect);
            if turn.result.NewCompleted? then
              && turn.hub.outbox == hub.outbox + [Frame(turn.result.m)]
              && |Frame(turn.result.m)| >= 8 && Unframe(Frame(turn.result.m)) == turn.result.m
            else
              turn.hub.outbox == hub.outbox
  {
    if hub.pages != [] {
      ReceivedFits(hub.table, hub.pages[0], shouldCollect);
      var outcome := Receive(hub.table, hub.pages[0], shouldCollect).outcome;
      if outcome.Completed? {
        FrameRoundTrip(Message(outcome.payload, outcome.headerSize));
      }
    }
    hide Receive, Frame, Unframe;
  }

  lemma GatewayReturns(hub: Hub, identification: nat)
    ensures var turn := FromGateway(hub, identification);
            !turn.result.NewCompleted? && turn.hub.outbox == hub.outbox
  {
    hide Relayable, PagesOf;
  }
}
