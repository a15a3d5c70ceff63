/** What the caller of the receiver gets, attempt after attempt. */
module Answers {
  import opened Bytes
  import opened Pages
  import opened Receiver
  import opened Reassembly
  import opened Relay
  import opened RelayRuns
  import opened RelayAttempts

  /** The message that a move gives to the caller, if it gives one. */
  function Given(before: Hub, m: Move, shouldCollect: ShouldCollect): (messages: seq<Message>) {
    match m
    case Attempt(timeUp, id) =>
      var result := TryRecv(before, timeUp, shouldCollect, id).result;
      if result.NewCompleted? then [result.m] else []
    case _ => []
  }

  /** The messages that the first `n` moves gave to the caller. */
  function Returned(hs: seq<Hub>, ms: seq<Move>, shouldCollect: ShouldCollect, n: nat): (messages: seq<Message>)
    requires n <= |ms| < |hs|
    decreases n
  {
    if n == 0 then [] else Returned(hs, ms, shouldCollect, n - 1) + Given(hs[n - 1], ms[n - 1], shouldCollect)
  }

  function Framed(messages: seq<Message>): (frames: seq<Payload>)
    ensures |frames| == |messages| && forall k | 0 <= k < |messages| :: frames[k] == Frame(messages[k])
  {
    seq(|messages|, k requires 0 <= k < |messages| => Frame(messages[k]))
  }

  /** The header size of `m` can be told from its frame. */
  ghost predicate TellsItself(m: Message) {
    |Frame(m)| >= 8 && Unframe(Frame(m)) == m
  }

  lemma MoveBroadcasts(senders: Senders, hub: Hub, m: Move, shouldCollect: ShouldCollect)
    requires Genuine(senders) && CanMove(senders, hub, m, shouldCollect)
    ensures Moved(senders, hub, m, shouldCollect).outbox == hub.outbox + Framed(Given(hub, m, shouldCollect))
    ensures forall given | given in Given(hub, m, shouldCollect) :: TellsItself(given)
  {
    hide TryRecv, Frame, Unframe;
    if m.Attempt? {
      ReturnsWhatItBroadcasts(hub, m.timeUp, shouldCollect, m.id);
    }
  }

  lemma FramedBoth(a: seq<Message>, b: seq<Message>)
    ensures Framed(a + b) == Framed(a) + Framed(b) && Framed([]) == []
  {
  }

  /** The messages returned are, in order, those of the frames broadcast. */
  lemma {:induction false} ReturnedIsBroadcast(senders: Senders, hs: seq<Hub>, ms: seq<Move>, shouldCollect: ShouldCollect, i: nat)
    requires IsCourse(senders, hs, ms, shouldCollect) && i < |hs|
    ensures hs[i].outbox == Framed(Returned(hs, ms, shouldCollect, i))
    ensures forall m | m in Returned(hs, ms, shouldCollect, i) :: TellsItself(m)
    decreases i
  {
    hide CanMove, Moved, Given, Frame, Framed, TellsItself;
    if i > 0 {
      ReturnedIsBroadcast(senders, hs, ms, shouldCollect, i - 1);
      assert MoveAt(senders, hs, ms, shouldCollect, i - 1);
      MoveBroadcasts(senders, hs[i - 1], ms[i - 1], shouldCollect);
      FramedBoth(Returned(hs, ms, shouldCollect, i - 1), Given(hs[i - 1], ms[i - 1], shouldCollect));
    }
  }

  /** A message is among those returned exactly when its frame is among those broadcast. */
  lemma ReturnedExactlyWhen(senders: Senders, hs: seq<Hub>, ms: seq<Move>, shouldCollect: ShouldCollect, i: nat, m: Message)
    requires IsCourse(senders, hs, ms, shouldCollect) && i < |hs| && m.headerSize < U64
    ensures m in Returned(hs, ms, shouldCollect, i) <==> Frame(m) in hs[i].outbox
  {
    ReturnedIsBroadcast(senders, hs, ms, shouldCollect, i);
    FrameRoundTrip(m);
    hide Frame, Unframe, IsCourse, Returned;
    var messages := Returned(hs, ms, shouldCollect, i);
    if m in messages {
      var k :| 0 <= k < |messages| && messages[k] == m;
      assert Framed(messages)[k] == Frame(m);
    }
    if Frame(m) in hs[i].outbox {
      var k :| 0 <= k < |messages| && Framed(messages)[k] == Frame(m);
      assert TellsItself(messages[k]);
    }
  }

  /** The mesh is empty: all pages have been taken. */
  lemma AllPagesTaken(senders: Senders, r: Relayed, shouldCollect: ShouldCollect)
    requires MeshInv(senders, r, shouldCollect) && r.hub.pages == []
    ensures Stream(senders, r.stream) && r.hub.outbox == Echoes(senders, r.stream, shouldCollect, |r.stream|)
  {
    hide Echoes, TableAfter;
    assert |PagesFor(senders, r.stream[r.taken..])| == |r.stream| - r.taken;
  }

  /** A wanted message that is complete on the mesh, from whomever, is given to the caller by the time the mesh
      is empty, with its payload and its header size. */
  lemma CompleteIsReturned(senders: Senders, hs: seq<Hub>, ms: seq<Move>, shouldCollect: ShouldCollect, i: nat, m: Message)
    requires IsCourse(senders, hs, ms, shouldCollect) && i < |hs| && hs[i].pages == []
    requires OnMesh(senders, StreamOf(hs, ms, i), m) && m.headerSize <= |m.payload| && shouldCollect(Header(m))
    ensures m in Returned(hs, ms, shouldCollect, i)
  {
    assert m.headerSize < U64;
    hide Reached, OnMesh, Frame, Returned, StreamOf, Frames, MeshInv, Echoes, TableAfter, Stream;
    var r := CourseIsRun(senders, hs, ms, shouldCollect, i);
    ReachedInv(senders, r, shouldCollect);
    AllPagesTaken(senders, r, shouldCollect);
    OnMeshIsEchoed(senders, r.stream, shouldCollect, m);
    ReturnedExactlyWhen(senders, hs, ms, shouldCollect, i, m);
  }

  /** And the caller is given nothing else: what it gets was sent by somebody, payload and header size, and was
      wanted. */
  lemma ReturnedWasSent(senders: Senders, hs: seq<Hub>, ms: seq<Move>, shouldCollect: ShouldCollect, i: nat, m: Message)
    returns (sent: Sent)
    requires IsCourse(senders, hs, ms, shouldCollect) && i < |hs| && m in Returned(hs, ms, shouldCollect, i)
    ensures sent in StreamOf(hs, ms, i) && FromSenders(senders, sent) && MessageOf(senders, sent) == m
    ensures m.headerSize <= |m.payload| && shouldCollect(Header(m))
  {
    hide Frame, Unframe, StreamOf, Frames, MessageOf, Returned;
    ReturnedIsBroadcast(senders, hs, ms, shouldCollect, i);
    var messages := Returned(hs, ms, shouldCollect, i);
    var k :| 0 <= k < |messages| && messages[k] == m;
    assert Framed(messages)[k] == Frame(m);
    assert TellsItself(m);
    var r := CourseIsRun(senders, hs, ms, shouldCollect, i);
    var rs, es :| IsRun(senders, rs, es, shouldCollect) && rs[|es|] == r;
    sent := NothingElseIsBroadcast(senders, rs, es, shouldCollect, |es|, Frame(m));
  }
}
