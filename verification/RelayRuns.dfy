/** A gateway at work: frames come from the websocket and go to the mesh, whatever comes over the mesh is
    broadcast again, and other senders use the mesh at the same time, between two pages of a frame too. */
module RelayRuns {
  import opened Bytes
  import opened Pages
  import opened Receiver
  import opened Reassembly
  import opened WaitBit
  import opened Relay

  /** What a message is sent as. */
  ghost function SentAs(m: Message, id: nat): (sent: seq<Sent>)
    requires IsWhole(m) || IsFragmented(m)
  {
    if IsWhole(m) then [Whole(m)] else Fragments(m, id)
  }

  ghost function PagesFor(senders: Senders, stream: seq<Sent>): (pages: seq<Page>)
    requires Stream(senders, stream)
    ensures |pages| == |stream|
  {
    seq(|stream|, k requires 0 <= k < |stream| => PageOf(senders, stream[k]))
  }

  /** Everything that was ever on the mesh and in the inbox, with how much of each has been taken.
      `pending` are the pages still to be sent of the frame that was taken last, `others` the pages that
      others sent. */
  datatype Relayed = Relayed(
    hub: Hub,
    stream: seq<Sent>,
    taken: nat,
    arrived: seq<Payload>,
    gone: nat,
    pending: seq<Sent>,
    others: seq<Sent>)

  const QUIET := Hub(map[], [], [], [], Unset, false, [])
  const SILENCE := Relayed(QUIET, [], 0, [], 0, [], [])

  datatype Event =
    | Arrive(frame: Payload)
    | OtherSends(sent: Sent)
    | TakePage
    | TakeFrame(id: nat)
    | SendNext
    | Control(current: Backing, bit: bool, responses: seq<Response>)

  /** A frame is relayed under an id of its own. */
  ghost predicate SentUnder(senders: Senders, m: Message, id: nat) {
    IsFragmented(m) ==> id in senders && senders[id] == m
  }

  ghost predicate Enabled(senders: Senders, r: Relayed, e: Event)
    requires Genuine(senders)
  {
    match e
    case Arrive(_) => true
    case OtherSends(sent) => FromSenders(senders, sent)
    case TakePage => r.hub.pages != []
    case TakeFrame(id) =>
      r.pending == [] && r.hub.inbox != [] && Relayable(r.hub.inbox[0]) && SentUnder(senders, Unframe(r.hub.inbox[0]), id)
    case SendNext => r.pending != [] && FromSenders(senders, r.pending[0])
    case Control(_, _, _) => true
  }

  ghost function Apply(senders: Senders, r: Relayed, e: Event, shouldCollect: ShouldCollect): Relayed
    requires Genuine(senders) && Enabled(senders, r, e)
  {
    match e
    case Arrive(frame) =>
      r.(hub := r.hub.(inbox := r.hub.inbox + [frame]), arrived := r.arrived + [frame])
    case OtherSends(sent) =>
      r.(hub := r.hub.(pages := r.hub.pages + [PageOf(senders, sent)]), stream := r.stream + [sent], others := r.others + [sent])
    case TakePage =>
      r.(hub := FromMesh(r.hub, shouldCollect).hub, taken := r.taken + 1)
    case TakeFrame(id) =>
      r.(hub := r.hub.(inbox := r.hub.inbox[1..]), gone := r.gone + 1, pending := SentAs(Unframe(r.hub.inbox[0]), id))
    case SendNext =>
      r.(hub := r.hub.(pages := r.hub.pages + [PageOf(senders, r.pending[0])]),
         stream := r.stream + [r.pending[0]],
         pending := r.pending[1..])
    case Control(current, bit, responses) =>
      r.(hub := r.hub.(current := current, bit := bit, responses := responses))
  }

  // ---------- What the broadcasts are ----------

  function EchoOf(outcome: Outcome): seq<Payload> {
    match outcome
    case Completed(payload, headerSize) => [Frame(Message(payload, headerSize))]
    case _ => []
  }

  /** What the first `n` pages make the gateway broadcast. */
  ghost function Echoes(senders: Senders, stream: seq<Sent>, shouldCollect: ShouldCollect, n: nat): seq<Payload>
    requires Stream(senders, stream) && n <= |stream|
    decreases n
  {
    if n == 0 then []
    else Echoes(senders, stream, shouldCollect, n - 1) + EchoOf(OutcomeAt(senders, stream, shouldCollect, n - 1))
  }

  /** What comes later on the mesh does not change what came before. */
  lemma {:induction false} LaterPages(senders: Senders, stream: seq<Sent>, more: seq<Sent>, shouldCollect: ShouldCollect, n: nat)
    requires Stream(senders, stream) && Stream(senders, stream + more) && n <= |stream|
    ensures TableAfter(senders, stream + more, shouldCollect, n) == TableAfter(senders, stream, shouldCollect, n)
    ensures Echoes(senders, stream + more, shouldCollect, n) == Echoes(senders, stream, shouldCollect, n)
    decreases n
  {
    hide Receive, PageOf, Stream;
    if n > 0 {
      LaterPages(senders, stream, more, shouldCollect, n - 1);
      assert (stream + more)[n - 1] == stream[n - 1];
    }
  }

  // ---------- The invariant ----------

  /** All pages of the message are among these. */
  ghost predicate OnMesh(senders: Senders, stream: seq<Sent>, m: Message) {
    if IsWhole(m) then Whole(m) in stream
    else IsFragmented(m) && exists id :: id in senders && senders[id] == m && AllSent(stream, id, NumChunks(m))
  }

  ghost predicate AllSent(stream: seq<Sent>, id: nat, n: nat) {
    forall i: nat | i < n :: Fragment(id, i) in stream
  }

  ghost predicate FrameOnMesh(senders: Senders, stream: seq<Sent>, frame: Payload) {
    Relayable(frame) && OnMesh(senders, stream, Unframe(frame))
  }

  ghost predicate MeshInv(senders: Senders, r: Relayed, shouldCollect: ShouldCollect) {
    && Stream(senders, r.stream) && r.taken <= |r.stream|
    && Stream(senders, r.stream[r.taken..])
    && r.hub.pages == PagesFor(senders, r.stream[r.taken..])
    && r.hub.table == TableAfter(senders, r.stream, shouldCollect, r.taken)
    && r.hub.outbox == Echoes(senders, r.stream, shouldCollect, r.taken)
  }

  /** Every frame taken has all its pages on the mesh, or about to be. */
  ghost predicate InboxInv(senders: Senders, r: Relayed) {
    && Stream(senders, r.pending)
    && r.gone <= |r.arrived| && r.hub.inbox == r.arrived[r.gone..]
    && forall k | 0 <= k < r.gone :: FrameOnMesh(senders, r.stream + r.pending, r.arrived[k])
  }

  lemma InvStart(senders: Senders, shouldCollect: ShouldCollect)
    requires Genuine(senders)
    ensures MeshInv(senders, SILENCE, shouldCollect) && InboxInv(senders, SILENCE)
  {
  }

  lemma MorePages(senders: Senders, stream: seq<Sent>, more: seq<Sent>)
    requires Stream(senders, stream) && Stream(senders, more)
    ensures Stream(senders, stream + more)
    ensures PagesFor(senders, stream + more) == PagesFor(senders, stream) + PagesFor(senders, more)
  {
  }

  lemma SentAsPages(senders: Senders, m: Message, id: nat)
    requires Genuine(senders) && (IsWhole(m) || IsFragmented(m)) && SentUnder(senders, m, id)
    ensures Stream(senders, SentAs(m, id))
    ensures PagesFor(senders, SentAs(m, id)) == PagesOf(m, id)
  {
  }

  /** Pages put on the mesh by anyone. */
  lemma SendKeepsMesh(senders: Senders, r: Relayed, more: seq<Sent>, shouldCollect: ShouldCollect, s: Relayed)
    requires MeshInv(senders, r, shouldCollect) && Stream(senders, more)
    requires s.stream == r.stream + more && s.taken == r.taken
    requires s.hub.table == r.hub.table && s.hub.outbox == r.hub.outbox
    requires s.hub.pages == r.hub.pages + PagesFor(senders, more)
    ensures MeshInv(senders, s, shouldCollect)
  {
    hide Stream, PagesFor, TableAfter, Echoes;
    MorePages(senders, r.stream, more);
    MorePages(senders, r.stream[r.taken..], more);
    LaterPages(senders, r.stream, more, shouldCollect, r.taken);
    assert (r.stream + more)[r.taken..] == r.stream[r.taken..] + more;
  }

  lemma NextPage(senders: Senders, stream: seq<Sent>, n: nat)
    requires Stream(senders, stream) && n < |stream| && Stream(senders, stream[n..])
    ensures Stream(senders, stream[n + 1..])
    ensures var pages := PagesFor(senders, stream[n..]);
            pages[0] == PageOf(senders, stream[n]) && pages[1..] == PagesFor(senders, stream[n + 1..])
  {
    assert stream[n..][1..] == stream[n + 1..];
    hide PageOf;
  }

  /** Taking a page from the mesh, by what it brings. */
  lemma MeshTurn(hub: Hub, shouldCollect: ShouldCollect)
    requires hub.pages != []
    ensures var received, after := Receive(hub.table, hub.pages[0], shouldCollect), FromMesh(hub, shouldCollect).hub;
            && after.inbox == hub.inbox
            && (received.outcome != Panic ==>
                  after.table == received.table && after.pages == hub.pages[1..]
                  && after.outbox == hub.outbox + EchoOf(received.outcome))
  {
    hide Receive;
  }

  /** What the next page makes of the table and of the broadcasts. */
  lemma StreamTurn(senders: Senders, stream: seq<Sent>, shouldCollect: ShouldCollect, n: nat)
    requires Stream(senders, stream) && n < |stream|
    ensures var received := Receive(TableAfter(senders, stream, shouldCollect, n), PageOf(senders, stream[n]), shouldCollect);
            && received.outcome != Panic
            && TableAfter(senders, stream, shouldCollect, n + 1) == received.table
            && Echoes(senders, stream, shouldCollect, n + 1) == Echoes(senders, stream, shouldCollect, n) + EchoOf(received.outcome)
  {
    hide Receive, PageOf, EchoOf;
    NeverPanics(senders, stream, shouldCollect, n);
  }

  lemma TakePageKeepsMesh(senders: Senders, r: Relayed, shouldCollect: ShouldCollect)
    requires MeshInv(senders, r, shouldCollect) && r.hub.pages != []
    ensures MeshInv(senders, Apply(senders, r, TakePage, shouldCollect), shouldCollect)
    ensures FromMesh(r.hub, shouldCollect).hub.inbox == r.hub.inbox
  {
    hide Receive, PageOf, Stream, PagesFor, FromMesh, EchoOf, TableAfter, Echoes, OutcomeAt, Genuine;
    NextPage(senders, r.stream, r.taken);
    StreamTurn(senders, r.stream, shouldCollect, r.taken);
    MeshTurn(r.hub, shouldCollect);
  }

  lemma OnMeshGrows(senders: Senders, stream: seq<Sent>, more: seq<Sent>, m: Message)
    requires OnMesh(senders, stream, m) && forall sent | sent in stream :: sent in more
    ensures OnMesh(senders, more, m)
  {
    if !IsWhole(m) {
      var id :| id in senders && senders[id] == m && AllSent(stream, id, NumChunks(m));
      assert AllSent(more, id, NumChunks(m));
    }
  }

  lemma SentIsOnMesh(senders: Senders, stream: seq<Sent>, m: Message, id: nat)
    requires (IsWhole(m) || IsFragmented(m)) && SentUnder(senders, m, id)
    ensures OnMesh(senders, stream + SentAs(m, id), m)
  {
    var sent := SentAs(m, id);
    if IsWhole(m) {
      assert sent[0] == Whole(m);
    } else {
      forall i: nat | i < NumChunks(m) ensures Fragment(id, i) in stream + sent {
        assert sent[i] == Fragment(id, i);
      }
      assert AllSent(stream + sent, id, NumChunks(m));
    }
  }

  lemma FramesStayOnMesh(senders: Senders, r: Relayed, more: seq<Sent>)
    requires InboxInv(senders, r) && forall sent | sent in r.stream + r.pending :: sent in more
    ensures forall k | 0 <= k < r.gone :: FrameOnMesh(senders, more, r.arrived[k])
  {
    forall k | 0 <= k < r.gone ensures FrameOnMesh(senders, more, r.arrived[k]) {
      OnMeshGrows(senders, r.stream + r.pending, more, Unframe(r.arrived[k]));
    }
  }

  /** Pages sent by others, or on their way from the gateway to the mesh. */
  lemma SendKeepsInbox(senders: Senders, r: Relayed, s: Relayed)
    requires InboxInv(senders, r) && Stream(senders, s.pending)
    requires forall sent | sent in r.stream + r.pending :: sent in s.stream + s.pending
    requires s.arrived == r.arrived && s.gone == r.gone && s.hub.inbox == r.hub.inbox
    ensures InboxInv(senders, s)
  {
    FramesStayOnMesh(senders, r, s.stream + s.pending);
  }

  lemma TakeFrameKeepsInbox(senders: Senders, r: Relayed, id: nat, s: Relayed)
    requires Genuine(senders) && InboxInv(senders, r) && r.pending == []
    requires r.hub.inbox != [] && Relayable(r.hub.inbox[0])
    requires SentUnder(senders, Unframe(r.hub.inbox[0]), id)
    requires s.stream == r.stream && s.pending == SentAs(Unframe(r.hub.inbox[0]), id)
    requires s.arrived == r.arrived && s.gone == r.gone + 1 && s.hub.inbox == r.hub.inbox[1..]
    ensures InboxInv(senders, s)
  {
    hide FrameOnMesh, OnMesh, Relayable, Unframe, SentAs, SentUnder, Stream;
    FrameSent(senders, r.stream, r.hub.inbox[0], id);
    FramesStayOnMesh(senders, r, r.stream + s.pending);
    assert r.hub.inbox[0] == r.arrived[r.gone];
  }

  lemma FrameSent(senders: Senders, stream: seq<Sent>, frame: Payload, id: nat)
    requires Genuine(senders) && Relayable(frame) && SentUnder(senders, Unframe(frame), id)
    ensures Stream(senders, SentAs(Unframe(frame), id))
    ensures FrameOnMesh(senders, stream + SentAs(Unframe(frame), id), frame)
  {
    hide OnMesh, SentAs, SentUnder, Stream, Unframe;
    SentAsPages(senders, Unframe(frame), id);
    SentIsOnMesh(senders, stream, Unframe(frame), id);
  }

  lemma ArriveKeepsInbox(senders: Senders, r: Relayed, frame: Payload, s: Relayed)
    requires InboxInv(senders, r)
    requires s.stream == r.stream && s.pending == r.pending && s.gone == r.gone
    requires s.arrived == r.arrived + [frame] && s.hub.inbox == r.hub.inbox + [frame]
    ensures InboxInv(senders, s)
  {
    hide FrameOnMesh;
  }

  lemma StepKeepsMesh(senders: Senders, r: Relayed, e: Event, shouldCollect: ShouldCollect)
    requires Genuine(senders) && MeshInv(senders, r, shouldCollect) && Enabled(senders, r, e)
    ensures MeshInv(senders, Apply(senders, r, e, shouldCollect), shouldCollect)
  {
    hide Stream, PagesFor, TableAfter, Echoes, FromMesh, PagesOf, Genuine;
    var s := Apply(senders, r, e, shouldCollect);
    match e {
      case OtherSends(sent) =>
        OnePage(senders, sent);
        SendKeepsMesh(senders, r, [sent], shouldCollect, s);
      case SendNext =>
        OnePage(senders, r.pending[0]);
        SendKeepsMesh(senders, r, [r.pending[0]], shouldCollect, s);
      case TakePage =>
        TakePageKeepsMesh(senders, r, shouldCollect);
      case _ =>
    }
  }

  lemma OnePage(senders: Senders, sent: Sent)
    requires Genuine(senders) && FromSenders(senders, sent)
    ensures Stream(senders, [sent]) && PagesFor(senders, [sent]) == [PageOf(senders, sent)]
  {
  }

  lemma StepKeepsInbox(senders: Senders, r: Relayed, e: Event, shouldCollect: ShouldCollect)
    requires Genuine(senders) && MeshInv(senders, r, shouldCollect) && InboxInv(senders, r) && Enabled(senders, r, e)
    ensures InboxInv(senders, Apply(senders, r, e, shouldCollect))
  {
    assert Stream(senders, r.pending);
    hide MeshInv, InboxInv, FromMesh;
    var s := Apply(senders, r, e, shouldCollect);
    match e {
      case Arrive(frame) =>
        ArriveKeepsInbox(senders, r, frame, s);
      case TakePage =>
        TakePageKeepsMesh(senders, r, shouldCollect);
        SendKeepsInbox(senders, r, s);
      case TakeFrame(id) =>
        TakeFrameKeepsInbox(senders, r, id, s);
      case _ =>
        SendKeepsInbox(senders, r, s);
    }
  }

  // ---------- Runs ----------

  ghost predicate IsRun(senders: Senders, rs: seq<Relayed>, es: seq<Event>, shouldCollect: ShouldCollect) {
    && Genuine(senders)
    && |rs| == |es| + 1
    && rs[0] == SILENCE
    && forall i: nat {:trigger StepAt(senders, rs, es, shouldCollect, i)} :: i < |es| ==> StepAt(senders, rs, es, shouldCollect, i)
  }

  ghost predicate StepAt(senders: Senders, rs: seq<Relayed>, es: seq<Event>, shouldCollect: ShouldCollect, i: nat)
    requires Genuine(senders)
  {
    i < |es| < |rs| && Enabled(senders, rs[i], es[i]) && rs[i + 1] == Apply(senders, rs[i], es[i], shouldCollect)
  }

  lemma RunInv(senders: Senders, rs: seq<Relayed>, es: seq<Event>, shouldCollect: ShouldCollect, i: nat)
    requires IsRun(senders, rs, es, shouldCollect) && i < |rs|
    ensures MeshInv(senders, rs[i], shouldCollect) && InboxInv(senders, rs[i])
  {
    InvStart(senders, shouldCollect);
    hide MeshInv, InboxInv, Enabled, Apply, Genuine;
    for k := 0 to i
      invariant MeshInv(senders, rs[k], shouldCollect) && InboxInv(senders, rs[k])
    {
      assert StepAt(senders, rs, es, shouldCollect, k);
      StepKeepsMesh(senders, rs[k], es[k], shouldCollect);
      StepKeepsInbox(senders, rs[k], es[k], shouldCollect);
    }
  }

  /** Whose page it is. */
  ghost function MessageOf(senders: Senders, sent: Sent): Message
    requires Genuine(senders) && FromSenders(senders, sent)
  {
    match sent
    case Whole(m) => m
    case Fragment(id, _) => senders[id]
  }

  /** What is completed is what was sent, and was wanted. */
  lemma CompletedIsGenuine(senders: Senders, stream: seq<Sent>, shouldCollect: ShouldCollect, n: nat)
    requires Stream(senders, stream) && n < |stream| && OutcomeAt(senders, stream, shouldCollect, n).Completed?
    ensures var m := MessageOf(senders, stream[n]);
            && OutcomeAt(senders, stream, shouldCollect, n) == Completed(m.payload, m.headerSize)
            && m.headerSize <= |m.payload| && shouldCollect(Header(m))
  {
    OutcomeIsNoted(senders, stream, shouldCollect, n);
    hide OutcomeAt;
  }

  lemma EchoesGrow(senders: Senders, stream: seq<Sent>, shouldCollect: ShouldCollect, frame: Payload, k: nat, n: nat)
    requires Stream(senders, stream) && k <= n <= |stream| && frame in Echoes(senders, stream, shouldCollect, k)
    ensures frame in Echoes(senders, stream, shouldCollect, n)
  {
    hide OutcomeAt, Stream, EchoOf;
    for j := k to n
      invariant frame in Echoes(senders, stream, shouldCollect, j)
    {
    }
  }

  lemma EchoedAt(senders: Senders, stream: seq<Sent>, shouldCollect: ShouldCollect, k: nat, n: nat)
    requires Stream(senders, stream) && k < n <= |stream| && OutcomeAt(senders, stream, shouldCollect, k).Completed?
    ensures Frame(MessageOf(senders, stream[k])) in Echoes(senders, stream, shouldCollect, n)
  {
    hide OutcomeAt, MessageOf, Frame;
    CompletedIsGenuine(senders, stream, shouldCollect, k);
    var frame := Frame(MessageOf(senders, stream[k]));
    assert EchoOf(OutcomeAt(senders, stream, shouldCollect, k)) == [frame];
    EchoesGrow(senders, stream, shouldCollect, frame, k + 1, n);
  }

  /** Which page a broadcast frame is due to. */
  lemma {:induction false} EchoedBy(senders: Senders, stream: seq<Sent>, shouldCollect: ShouldCollect, frame: Payload, n: nat)
    returns (k: nat)
    requires Stream(senders, stream) && n <= |stream| && frame in Echoes(senders, stream, shouldCollect, n)
    ensures k < n && OutcomeAt(senders, stream, shouldCollect, k).Completed?
    ensures frame == Frame(MessageOf(senders, stream[k]))
    decreases n
  {
    hide OutcomeAt, Stream, MessageOf, Frame;
    k := n - 1;
    if frame in Echoes(senders, stream, shouldCollect, n - 1) {
      k := EchoedBy(senders, stream, shouldCollect, frame, n - 1);
    } else {
      CompletedIsGenuine(senders, stream, shouldCollect, k);
    }
  }

  lemma {:induction false} SentHasCome(stream: seq<Sent>, id: nat, k: nat, n: nat)
    requires k < n <= |stream| && IsOf(stream[k], id)
    ensures stream[k].i in Come(stream, id, n)
    decreases n
  {
    if k + 1 < n {
      SentHasCome(stream, id, k, n - 1);
    }
  }

  lemma AllHaveCome(senders: Senders, stream: seq<Sent>, id: nat)
    requires Stream(senders, stream) && id in senders && AllSent(stream, id, NumChunks(senders[id]))
    ensures Come(stream, id, |stream|) == AllChunks(senders[id])
  {
    ComeInside(senders, stream, id, |stream|);
    forall i: nat | i < NumChunks(senders[id]) ensures i in Come(stream, id, |stream|) {
      assert Fragment(id, i) in stream;
      var k :| 0 <= k < |stream| && stream[k] == Fragment(id, i);
      SentHasCome(stream, id, k, |stream|);
    }
  }

  /** A wanted message with all its pages on the mesh is broadcast once all pages have been taken. */
  lemma OnMeshIsEchoed(senders: Senders, stream: seq<Sent>, shouldCollect: ShouldCollect, m: Message)
    requires Stream(senders, stream) && OnMesh(senders, stream, m)
    requires m.headerSize <= |m.payload| && shouldCollect(Header(m))
    ensures Frame(m) in Echoes(senders, stream, shouldCollect, |stream|)
  {
    hide OutcomeAt, Echoes;
    if IsWhole(m) {
      var k :| 0 <= k < |stream| && stream[k] == Whole(m);
      NeverPanics(senders, stream, shouldCollect, k);
      EchoedAt(senders, stream, shouldCollect, k, |stream|);
    } else {
      var id :| id in senders && senders[id] == m && AllSent(stream, id, NumChunks(m));
      AllHaveCome(senders, stream, id);
      var k := RoundTrip(senders, stream, shouldCollect, id);
      EchoedAt(senders, stream, shouldCollect, k, |stream|);
    }
  }

  /** Whatever else happens on the mesh and however the turns are taken: when everything has been taken and
      sent, every wanted frame that came from the websocket has been broadcast again, byte for byte. */
  lemma EveryFrameComesBack(senders: Senders, rs: seq<Relayed>, es: seq<Event>, shouldCollect: ShouldCollect, i: nat, k: nat)
    requires IsRun(senders, rs, es, shouldCollect) && i < |rs|
    requires rs[i].hub.inbox == [] && rs[i].pending == [] && rs[i].hub.pages == [] && k < |rs[i].arrived|
    ensures Relayable(rs[i].arrived[k])
    ensures shouldCollect(Header(Unframe(rs[i].arrived[k]))) ==> rs[i].arrived[k] in rs[i].hub.outbox
  {
    hide Echoes, TableAfter, OnMesh, Frame, Apply, Enabled;
    RunInv(senders, rs, es, shouldCollect, i);
    var r := rs[i];
    assert r.stream + r.pending == r.stream;
    assert FrameOnMesh(senders, r.stream, r.arrived[k]);
    var m := Unframe(r.arrived[k]);
    UnframeRoundTrip(r.arrived[k]);
    if shouldCollect(Header(m)) {
      OnMeshIsEchoed(senders, r.stream, shouldCollect, m);
    }
  }

  /** What is broadcast was sent by somebody, and is taken apart again into the payload and the header size
      that were sent. */
  lemma NothingElseIsBroadcast(senders: Senders, rs: seq<Relayed>, es: seq<Event>, shouldCollect: ShouldCollect, i: nat, frame: Payload)
    returns (sent: Sent)
    requires IsRun(senders, rs, es, shouldCollect) && i < |rs| && frame in rs[i].hub.outbox
    ensures sent in rs[i].stream && FromSenders(senders, sent)
    ensures var m := MessageOf(senders, sent);
            m.headerSize <= |m.payload| && shouldCollect(Header(m)) && |frame| >= 8 && Unframe(frame) == m
  {
    RunInv(senders, rs, es, shouldCollect, i);
    var r := rs[i];
    hide OutcomeAt, Echoes, TableAfter, PagesFor;
    var k := EchoedBy(senders, r.stream, shouldCollect, frame, r.taken);
    CompletedIsGenuine(senders, r.stream, shouldCollect, k);
    sent := r.stream[k];
    FrameRoundTrip(MessageOf(senders, sent));
  }
}
