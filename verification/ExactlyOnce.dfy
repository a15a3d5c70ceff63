/** How often a frame is broadcast: as often as it was sent, if no page of a fragmented message is repeated. */
module ExactlyOnce {
  import opened Bytes
  import opened Pages
  import opened Receiver
  import opened Reassembly
  import opened Relay
  import opened RelayRuns

  // ---------- The page a message is broadcast for ----------

  ghost predicate NoRepeats(stream: seq<Sent>) {
    forall a, b :: 0 <= a < b < |stream| && stream[a].Fragment? ==> stream[a] != stream[b]
  }

  ghost predicate NoneAfter(stream: seq<Sent>, id: nat, k: nat) {
    forall j :: k < j < |stream| ==> !IsOf(stream[j], id)
  }

  /** Fragment `i` is the last page of `id`. */
  ghost predicate LastOf(stream: seq<Sent>, id: nat, i: nat) {
    exists k :: 0 <= k < |stream| && stream[k] == Fragment(id, i) && NoneAfter(stream, id, k)
  }

  /** The frame that is due for this page: a whole payload has one page, and a fragmented message counts where
      its last page is, if all its pages are there. */
  ghost function Due(senders: Senders, stream: seq<Sent>, sent: Sent, shouldCollect: ShouldCollect): seq<Payload>
    requires Genuine(senders) && FromSenders(senders, sent)
  {
    match sent
    case Whole(m) => if shouldCollect(Header(m)) then [Frame(m)] else []
    case Fragment(id, i) =>
      var m := senders[id];
      if shouldCollect(Header(m)) && LastOf(stream, id, i) && AllSent(stream, id, NumChunks(m)) then [Frame(m)] else []
  }

  /** With the pages up to this one all chunks have come exactly when it is the last one and all are there. */
  lemma CompleteAtLast(senders: Senders, stream: seq<Sent>, k: nat, id: nat, i: nat)
    requires Stream(senders, stream) && NoRepeats(stream) && k < |stream| && stream[k] == Fragment(id, i)
    ensures id in senders
    ensures Come(stream, id, k + 1) == AllChunks(senders[id]) <==>
            LastOf(stream, id, i) && AllSent(stream, id, NumChunks(senders[id]))
  {
    ComeInside(senders, stream, id, k + 1);
    if Come(stream, id, k + 1) == AllChunks(senders[id]) {
      AllComeAreSent(senders, stream, id, k + 1);
      NothingLeftToCome(senders, stream, id, k);
    }
    if LastOf(stream, id, i) && AllSent(stream, id, NumChunks(senders[id])) {
      AllSentHaveCome(senders, stream, id, k);
    }
  }

  lemma {:induction false} CameFrom(stream: seq<Sent>, id: nat, i: nat, n: nat) returns (k: nat)
    requires n <= |stream| && i in Come(stream, id, n)
    ensures k < n && stream[k] == Fragment(id, i)
    decreases n
  {
    k := n - 1;
    if i in Come(stream, id, n - 1) {
      k := CameFrom(stream, id, i, n - 1);
    }
  }

  lemma AllComeAreSent(senders: Senders, stream: seq<Sent>, id: nat, n: nat)
    requires Stream(senders, stream) && n <= |stream| && id in senders
    requires Come(stream, id, n) == AllChunks(senders[id])
    ensures AllSent(stream, id, NumChunks(senders[id]))
  {
    forall i: nat | i < NumChunks(senders[id]) ensures Fragment(id, i) in stream {
      var k := CameFrom(stream, id, i, n);
    }
  }

  lemma NothingLeftToCome(senders: Senders, stream: seq<Sent>, id: nat, k: nat)
    requires Stream(senders, stream) && NoRepeats(stream) && k < |stream| && IsOf(stream[k], id)
    requires Come(stream, id, k + 1) == AllChunks(senders[id])
    ensures NoneAfter(stream, id, k)
  {
    forall j | k < j < |stream| ensures !IsOf(stream[j], id) {
      if IsOf(stream[j], id) {
        assert FromSenders(senders, stream[j]);
        var p := CameFrom(stream, id, stream[j].i, k + 1);
        assert false;
      }
    }
  }

  lemma LastIsHere(stream: seq<Sent>, id: nat, k: nat)
    requires NoRepeats(stream) && k < |stream| && IsOf(stream[k], id) && LastOf(stream, id, stream[k].i)
    ensures NoneAfter(stream, id, k)
  {
    var last :| 0 <= last < |stream| && stream[last] == Fragment(id, stream[k].i) && NoneAfter(stream, id, last);
    assert last == k;
  }

  lemma HasComeByLast(stream: seq<Sent>, id: nat, k: nat, i: nat)
    requires k < |stream| && NoneAfter(stream, id, k) && Fragment(id, i) in stream
    ensures i in Come(stream, id, k + 1)
  {
    var p :| 0 <= p < |stream| && stream[p] == Fragment(id, i);
    assert IsOf(stream[p], id);
    SentHasCome(stream, id, p, k + 1);
  }

  lemma AllSentHaveCome(senders: Senders, stream: seq<Sent>, id: nat, k: nat)
    requires Stream(senders, stream) && NoRepeats(stream) && k < |stream| && IsOf(stream[k], id) && id in senders
    requires LastOf(stream, id, stream[k].i) && AllSent(stream, id, NumChunks(senders[id]))
    ensures Come(stream, id, k + 1) == AllChunks(senders[id])
  {
    ComeInside(senders, stream, id, k + 1);
    LastIsHere(stream, id, k);
    hide NoRepeats, LastOf, NoneAfter, Come;
    var come := Come(stream, id, k + 1);
    forall i: nat | i < NumChunks(senders[id]) ensures i in come {
      HasComeByLast(stream, id, k, i);
    }
  }

  lemma NotYetCome(senders: Senders, stream: seq<Sent>, id: nat, k: nat)
    requires Stream(senders, stream) && NoRepeats(stream) && k < |stream| && IsOf(stream[k], id)
    ensures stream[k].i !in Come(stream, id, k)
    ensures Come(stream, id, k) != AllChunks(senders[id])
  {
    if stream[k].i in Come(stream, id, k) {
      var p := CameFrom(stream, id, stream[k].i, k);
      assert false;
    }
    assert FromSenders(senders, stream[k]);
  }

  /** What page `k` makes the gateway broadcast is what is due for it. */
  lemma EchoIsDue(senders: Senders, stream: seq<Sent>, shouldCollect: ShouldCollect, k: nat)
    requires Stream(senders, stream) && NoRepeats(stream) && k < |stream|
    ensures EchoOf(OutcomeAt(senders, stream, shouldCollect, k)) == Due(senders, stream, stream[k], shouldCollect)
  {
    OutcomeIsNoted(senders, stream, shouldCollect, k);
    hide OutcomeAt, NoRepeats, Frame, AllSent, LastOf;
    match stream[k] {
      case Whole(m) =>
      case Fragment(id, i) =>
        if shouldCollect(Header(senders[id])) {
          NotYetCome(senders, stream, id, k);
          NotedIsCome(senders, stream, shouldCollect, id, k);
          CompleteAtLast(senders, stream, k, id, i);
          assert Come(stream, id, k + 1) == Come(stream, id, k) + {i};
        }
    }
  }

  // ---------- Counting frames ----------

  /** The frames due for these pages, which are among all those of `stream`. */
  ghost function AllDue(senders: Senders, stream: seq<Sent>, part: seq<Sent>, shouldCollect: ShouldCollect): multiset<Payload>
    requires Stream(senders, part)
    decreases |part|
  {
    if part == [] then multiset{}
    else
      var n := |part| - 1;
      AllDue(senders, stream, part[..n], shouldCollect) + multiset(Due(senders, stream, part[n], shouldCollect))
  }

  lemma OneMoreDue(senders: Senders, stream: seq<Sent>, part: seq<Sent>, sent: Sent, shouldCollect: ShouldCollect)
    requires Stream(senders, part) && FromSenders(senders, sent)
    ensures Stream(senders, part + [sent])
    ensures AllDue(senders, stream, part + [sent], shouldCollect) ==
            AllDue(senders, stream, part, shouldCollect) + multiset(Due(senders, stream, sent, shouldCollect))
  {
    assert (part + [sent])[..|part|] == part;
    hide Due, FromSenders;
  }

  lemma StreamPart(senders: Senders, part: seq<Sent>, n: nat)
    requires Stream(senders, part) && n < |part|
    ensures Stream(senders, part[..n]) && FromSenders(senders, part[n])
  {
  }

  lemma AppendStep(senders: Senders, stream: seq<Sent>, a: seq<Sent>, b: seq<Sent>, shouldCollect: ShouldCollect, n: nat)
    requires Stream(senders, b) && n < |b| && Stream(senders, b[..n]) && Stream(senders, a) && Stream(senders, a + b[..n])
    requires AllDue(senders, stream, a + b[..n], shouldCollect) ==
             AllDue(senders, stream, a, shouldCollect) + AllDue(senders, stream, b[..n], shouldCollect)
    ensures Stream(senders, b[..n + 1]) && Stream(senders, a + b[..n + 1])
    ensures AllDue(senders, stream, a + b[..n + 1], shouldCollect) ==
            AllDue(senders, stream, a, shouldCollect) + AllDue(senders, stream, b[..n + 1], shouldCollect)
  {
    hide Due, AllDue, Stream, FromSenders;
    StreamPart(senders, b, n);
    OneMoreDue(senders, stream, b[..n], b[n], shouldCollect);
    OneMoreDue(senders, stream, a + b[..n], b[n], shouldCollect);
    assert b[..n] + [b[n]] == b[..n + 1];
    assert (a + b[..n]) + [b[n]] == a + b[..n + 1];
  }

  lemma AllDueAppend(senders: Senders, stream: seq<Sent>, a: seq<Sent>, b: seq<Sent>, shouldCollect: ShouldCollect)
    requires Stream(senders, a) && Stream(senders, b)
    ensures Stream(senders, a + b)
    ensures AllDue(senders, stream, a + b, shouldCollect) ==
            AllDue(senders, stream, a, shouldCollect) + AllDue(senders, stream, b, shouldCollect)
  {
    assert a + b[..0] == a && Stream(senders, b[..0]);
    assert AllDue(senders, stream, b[..0], shouldCollect) == multiset{};
    hide *;
    for n := 0 to |b|
      invariant Stream(senders, b[..n]) && Stream(senders, a + b[..n])
      invariant AllDue(senders, stream, a + b[..n], shouldCollect) ==
                AllDue(senders, stream, a, shouldCollect) + AllDue(senders, stream, b[..n], shouldCollect)
    {
      AppendStep(senders, stream, a, b, shouldCollect, n);
    }
    assert b[..|b|] == b;
  }

  lemma EchoesAreDue(senders: Senders, stream: seq<Sent>, shouldCollect: ShouldCollect, n: nat)
    requires Stream(senders, stream) && NoRepeats(stream) && n <= |stream|
    ensures Stream(senders, stream[..n])
    ensures multiset(Echoes(senders, stream, shouldCollect, n)) == AllDue(senders, stream, stream[..n], shouldCollect)
  {
    hide Due, EchoOf, OutcomeAt, NoRepeats;
    for k := 0 to n
      invariant Stream(senders, stream[..k])
      invariant multiset(Echoes(senders, stream, shouldCollect, k)) == AllDue(senders, stream, stream[..k], shouldCollect)
    {
      EchoIsDue(senders, stream, shouldCollect, k);
      assert stream[..k + 1][..k] == stream[..k];
    }
  }

  predicate IsWanted(frame: Payload, shouldCollect: ShouldCollect) {
    Relayable(frame) && shouldCollect(Header(Unframe(frame)))
  }

  function Wanted(frames: seq<Payload>, shouldCollect: ShouldCollect): multiset<Payload> {
    if frames == [] then multiset{}
    else
      var n := |frames| - 1;
      Wanted(frames[..n], shouldCollect) + if IsWanted(frames[n], shouldCollect) then multiset{frames[n]} else multiset{}
  }

  // ---------- The pages of one frame ----------

  lemma LastIsOne(stream: seq<Sent>, id: nat, i: nat, j: nat)
    requires LastOf(stream, id, i) && LastOf(stream, id, j)
    ensures i == j
  {
    var k :| 0 <= k < |stream| && stream[k] == Fragment(id, i) && NoneAfter(stream, id, k);
    var l :| 0 <= l < |stream| && stream[l] == Fragment(id, j) && NoneAfter(stream, id, l);
    assert IsOf(stream[k], id) && IsOf(stream[l], id);
  }

  lemma SomeLast(senders: Senders, stream: seq<Sent>, id: nat) returns (i: nat)
    requires Stream(senders, stream) && id in senders && AllSent(stream, id, NumChunks(senders[id]))
    ensures i < NumChunks(senders[id]) && LastOf(stream, id, i)
  {
    ChunksFillBody(senders[id]);
    assert Fragment(id, 0) in stream;
    var k :| 0 <= k < |stream| && stream[k] == Fragment(id, 0);
    var last := LastFrom(stream, id, k);
    assert FromSenders(senders, stream[last]);
    i := stream[last].i;
  }

  lemma LastFrom(stream: seq<Sent>, id: nat, k: nat) returns (last: nat)
    requires k < |stream| && IsOf(stream[k], id)
    ensures last < |stream| && IsOf(stream[last], id) && NoneAfter(stream, id, last)
  {
    last := k;
    for n := k + 1 to |stream|
      invariant last < n && IsOf(stream[last], id) && forall j | last < j < n :: !IsOf(stream[j], id)
    {
      if IsOf(stream[n], id) {
        last := n;
      }
    }
  }

  lemma FragmentDue(senders: Senders, stream: seq<Sent>, id: nat, last: nat, shouldCollect: ShouldCollect, k: nat)
    requires Genuine(senders) && id in senders && k < NumChunks(senders[id])
    requires AllSent(stream, id, NumChunks(senders[id])) && LastOf(stream, id, last)
    ensures multiset(Due(senders, stream, Fragment(id, k), shouldCollect)) ==
            if k == last && shouldCollect(Header(senders[id])) then multiset{Frame(senders[id])} else multiset{}
  {
    hide AllSent, LastOf, Frame;
    if LastOf(stream, id, k) {
      LastIsOne(stream, id, k, last);
    }
  }

  /** Of the first `n` fragments one is due, if the last one is among them. */
  lemma FragmentsDue(senders: Senders, stream: seq<Sent>, id: nat, last: nat, shouldCollect: ShouldCollect, n: nat)
    requires Genuine(senders) && id in senders && n <= NumChunks(senders[id])
    requires AllSent(stream, id, NumChunks(senders[id])) && LastOf(stream, id, last)
    ensures Stream(senders, Fragments(senders[id], id)[..n])
    ensures AllDue(senders, stream, Fragments(senders[id], id)[..n], shouldCollect) ==
            if last < n && shouldCollect(Header(senders[id])) then multiset{Frame(senders[id])} else multiset{}
  {
    var sent := Fragments(senders[id], id);
    assert Stream(senders, sent);
    assert sent[..0] == [];
    hide AllSent, LastOf, Frame, Due, FromSenders, NumChunks;
    for k := 0 to n
      invariant Stream(senders, sent[..k])
      invariant AllDue(senders, stream, sent[..k], shouldCollect) ==
                if last < k && shouldCollect(Header(senders[id])) then multiset{Frame(senders[id])} else multiset{}
    {
      OneMoreDue(senders, stream, sent[..k], sent[k], shouldCollect);
      FragmentDue(senders, stream, id, last, shouldCollect, k);
      assert sent[..k + 1] == sent[..k] + [sent[k]];
    }
  }

  /** A frame is due once for its pages, if it is wanted and they are all on the mesh. */
  lemma FrameIsDueOnce(senders: Senders, stream: seq<Sent>, frame: Payload, id: nat, shouldCollect: ShouldCollect)
    requires Stream(senders, stream) && Relayable(frame) && SentUnder(senders, Unframe(frame), id)
    requires forall sent | sent in SentAs(Unframe(frame), id) :: sent in stream
    ensures Stream(senders, SentAs(Unframe(frame), id))
    ensures AllDue(senders, stream, SentAs(Unframe(frame), id), shouldCollect) ==
            if IsWanted(frame, shouldCollect) then multiset{frame} else multiset{}
  {
    var m := Unframe(frame);
    UnframeRoundTrip(frame);
    SentAsPages(senders, m, id);
    var sent := SentAs(m, id);
    if IsWhole(m) {
      assert sent[..0] == [] && sent[0] == Whole(m);
    } else {
      forall i: nat | i < NumChunks(m) ensures Fragment(id, i) in stream {
        assert sent[i] == Fragment(id, i);
      }
      var last := SomeLast(senders, stream, id);
      FragmentsDue(senders, stream, id, last, shouldCollect, NumChunks(m));
      assert sent[..NumChunks(m)] == sent;
    }
  }

  // ---------- Over a run ----------

  /** The pages sent and about to be sent. */
  function Traffic(r: Relayed): seq<Sent> {
    r.stream + r.pending
  }

  ghost predicate Inside(part: seq<Sent>, all: seq<Sent>) {
    forall sent | sent in part :: sent in all
  }

  /** What is due for all pages is each wanted frame taken from the inbox, once, and what is due to others. */
  ghost predicate Balanced(senders: Senders, r: Relayed, all: seq<Sent>, shouldCollect: ShouldCollect) {
    && Stream(senders, Traffic(r)) && Stream(senders, r.others) && r.gone <= |r.arrived|
    && AllDue(senders, all, Traffic(r), shouldCollect) ==
       Wanted(r.arrived[..r.gone], shouldCollect) + AllDue(senders, all, r.others, shouldCollect)
  }

  lemma TrafficGrows(senders: Senders, r: Relayed, e: Event, shouldCollect: ShouldCollect)
    requires Genuine(senders) && Enabled(senders, r, e)
    ensures Inside(Traffic(r), Traffic(Apply(senders, r, e, shouldCollect)))
  {
    hide Genuine, FromMesh, PageOf, SentAs, Unframe, Relayable, SentUnder, FromSenders;
  }

  /** A page of somebody else, among others. */
  lemma OtherPageDue(senders: Senders, all: seq<Sent>, a: seq<Sent>, sent: Sent, b: seq<Sent>, shouldCollect: ShouldCollect)
    requires Stream(senders, a + b) && Stream(senders, a) && Stream(senders, b) && FromSenders(senders, sent)
    ensures Stream(senders, [sent]) && Stream(senders, a + [sent] + b)
    ensures AllDue(senders, all, a + [sent] + b, shouldCollect) ==
            AllDue(senders, all, a + b, shouldCollect) + multiset(Due(senders, all, sent, shouldCollect))
  {
    hide Due, AllDue;
    OneMoreDue(senders, all, a, sent, shouldCollect);
    AllDueAppend(senders, all, a + [sent], b, shouldCollect);
    AllDueAppend(senders, all, a, b, shouldCollect);
  }

  lemma TrafficParts(senders: Senders, r: Relayed)
    requires Stream(senders, Traffic(r))
    ensures Stream(senders, r.stream) && Stream(senders, r.pending)
  {
    forall k | 0 <= k < |r.pending| ensures FromSenders(senders, r.pending[k]) {
      assert r.pending[k] == Traffic(r)[|r.stream| + k];
    }
    forall k | 0 <= k < |r.stream| ensures FromSenders(senders, r.stream[k]) {
      assert r.stream[k] == Traffic(r)[k];
    }
  }

  lemma OtherKeepsBalance(senders: Senders, r: Relayed, sent: Sent, all: seq<Sent>, shouldCollect: ShouldCollect, s: Relayed)
    requires Balanced(senders, r, all, shouldCollect) && FromSenders(senders, sent)
    requires s.stream == r.stream + [sent] && s.pending == r.pending && s.others == r.others + [sent]
    requires s.arrived == r.arrived && s.gone == r.gone
    ensures Balanced(senders, s, all, shouldCollect)
  {
    TrafficParts(senders, r);
    hide Due, AllDue, Stream, FromSenders, Wanted;
    OtherPageDue(senders, all, r.stream, sent, r.pending, shouldCollect);
    OneMoreDue(senders, all, r.others, sent, shouldCollect);
  }

  lemma WantedStep(frames: seq<Payload>, n: nat, shouldCollect: ShouldCollect)
    requires n < |frames|
    ensures Wanted(frames[..n + 1], shouldCollect) ==
            Wanted(frames[..n], shouldCollect) + if IsWanted(frames[n], shouldCollect) then multiset{frames[n]} else multiset{}
  {
    hide IsWanted;
    assert frames[..n + 1][..n] == frames[..n];
  }

  lemma FrameKeepsBalance(senders: Senders, r: Relayed, id: nat, all: seq<Sent>, shouldCollect: ShouldCollect, s: Relayed)
    requires Stream(senders, all) && Balanced(senders, r, all, shouldCollect) && r.pending == []
    requires r.gone < |r.arrived| && Relayable(r.arrived[r.gone]) && SentUnder(senders, Unframe(r.arrived[r.gone]), id)
    requires s.stream == r.stream && s.others == r.others && s.pending == SentAs(Unframe(r.arrived[r.gone]), id)
    requires s.arrived == r.arrived && s.gone == r.gone + 1 && Inside(s.pending, all)
    ensures Balanced(senders, s, all, shouldCollect)
  {
    hide Due, AllDue, Stream, Wanted, IsWanted, SentAs, Unframe, SentUnder, IsWhole, IsFragmented;
    assert Traffic(r) == r.stream;
    FrameIsDueOnce(senders, all, r.arrived[r.gone], id, shouldCollect);
    AllDueAppend(senders, all, r.stream, s.pending, shouldCollect);
    WantedStep(r.arrived, r.gone, shouldCollect);
  }

  lemma SameBalance(senders: Senders, r: Relayed, all: seq<Sent>, shouldCollect: ShouldCollect, s: Relayed)
    requires Balanced(senders, r, all, shouldCollect) && Traffic(s) == Traffic(r) && s.others == r.others
    requires s.gone == r.gone && r.arrived <= s.arrived
    ensures Balanced(senders, s, all, shouldCollect)
  {
    hide Due, AllDue, Stream, Wanted;
    if r.gone <= |r.arrived| {
      assert s.arrived[..r.gone] == r.arrived[..r.gone];
    }
  }

  lemma InboxHead(senders: Senders, r: Relayed)
    requires InboxInv(senders, r) && r.hub.inbox != []
    ensures r.gone < |r.arrived| && r.hub.inbox[0] == r.arrived[r.gone]
  {
  }

  /** Steps that send nothing of others and take no frame. */
  lemma QuietStep(senders: Senders, r: Relayed, e: Event, shouldCollect: ShouldCollect)
    requires Genuine(senders) && Enabled(senders, r, e) && !e.OtherSends? && !e.TakeFrame?
    ensures var s := Apply(senders, r, e, shouldCollect);
            Traffic(s) == Traffic(r) && s.others == r.others && s.gone == r.gone && r.arrived <= s.arrived
  {
    hide FromMesh, PageOf, FromSenders, Genuine;
  }

  lemma TakenFrame(senders: Senders, r: Relayed, id: nat, all: seq<Sent>, shouldCollect: ShouldCollect)
    requires Stream(senders, all) && InboxInv(senders, r) && Enabled(senders, r, TakeFrame(id))
    requires Balanced(senders, r, all, shouldCollect) && Inside(Traffic(Apply(senders, r, TakeFrame(id), shouldCollect)), all)
    ensures Balanced(senders, Apply(senders, r, TakeFrame(id), shouldCollect), all, shouldCollect)
  {
    assert Genuine(senders);
    hide Balanced, Stream, InboxInv, SentAs, Unframe, SentUnder, Relayable, Genuine;
    InboxHead(senders, r);
    FrameKeepsBalance(senders, r, id, all, shouldCollect, Apply(senders, r, TakeFrame(id), shouldCollect));
  }

  lemma StepKeepsBalance(senders: Senders, r: Relayed, e: Event, all: seq<Sent>, shouldCollect: ShouldCollect)
    requires Stream(senders, all) && InboxInv(senders, r) && Enabled(senders, r, e)
    requires Balanced(senders, r, all, shouldCollect) && Inside(Traffic(Apply(senders, r, e, shouldCollect)), all)
    ensures Balanced(senders, Apply(senders, r, e, shouldCollect), all, shouldCollect)
  {
    assert Genuine(senders);
    hide Balanced, Stream, InboxInv, Inside, Traffic, SentUnder, Relayable, FromSenders, Genuine;
    if e.OtherSends? {
      OtherKeepsBalance(senders, r, e.sent, all, shouldCollect, Apply(senders, r, e, shouldCollect));
    } else if e.TakeFrame? {
      TakenFrame(senders, r, e.id, all, shouldCollect);
    } else {
      QuietStep(senders, r, e, shouldCollect);
      SameBalance(senders, r, all, shouldCollect, Apply(senders, r, e, shouldCollect));
    }
  }

  lemma {:induction false} RunBalanced(senders: Senders, rs: seq<Relayed>, es: seq<Event>, shouldCollect: ShouldCollect, i: nat, all: seq<Sent>)
    requires IsRun(senders, rs, es, shouldCollect) && i < |rs| && Stream(senders, all) && Inside(Traffic(rs[i]), all)
    ensures Balanced(senders, rs[i], all, shouldCollect)
    decreases i
  {
    hide Apply, Enabled, Balanced, InboxInv, MeshInv;
    if i == 0 {
      SilenceBalanced(senders, all, shouldCollect);
    } else {
      assert StepAt(senders, rs, es, shouldCollect, i - 1);
      TrafficGrows(senders, rs[i - 1], es[i - 1], shouldCollect);
      RunInv(senders, rs, es, shouldCollect, i - 1);
      RunBalanced(senders, rs, es, shouldCollect, i - 1, all);
      StepKeepsBalance(senders, rs[i - 1], es[i - 1], all, shouldCollect);
    }
  }

  lemma SilenceBalanced(senders: Senders, all: seq<Sent>, shouldCollect: ShouldCollect)
    requires Genuine(senders)
    ensures Balanced(senders, SILENCE, all, shouldCollect)
  {
    assert Traffic(SILENCE) == [];
  }

  /** Exactly as often: when everything has been sent and taken, and no page of a fragmented message was ever
      repeated, what has been broadcast is every wanted frame as often as it came from the websocket, and
      every message of others that was wanted and complete. */
  lemma EveryFrameExactlyAsOften(senders: Senders, rs: seq<Relayed>, es: seq<Event>, shouldCollect: ShouldCollect, i: nat)
    requires IsRun(senders, rs, es, shouldCollect) && i < |rs|
    requires rs[i].hub.inbox == [] && rs[i].pending == [] && rs[i].hub.pages == []
    requires NoRepeats(rs[i].stream)
    ensures Stream(senders, rs[i].others)
    ensures multiset(rs[i].hub.outbox) ==
            Wanted(rs[i].arrived, shouldCollect) + AllDue(senders, rs[i].stream, rs[i].others, shouldCollect)
  {
    hide AllDue, Echoes, Wanted, NoRepeats, Enabled, Apply, Genuine, Balanced, MeshInv, InboxInv;
    RunInv(senders, rs, es, shouldCollect, i);
    var r := rs[i];
    assert Traffic(r) == r.stream && Inside(Traffic(r), r.stream);
    AllTaken(senders, r, shouldCollect);
    RunBalanced(senders, rs, es, shouldCollect, i, r.stream);
    BalancedAtEnd(senders, r, shouldCollect);
    EchoesAreDue(senders, r.stream, shouldCollect, |r.stream|);
    assert r.stream[..|r.stream|] == r.stream;
  }

  lemma AllTaken(senders: Senders, r: Relayed, shouldCollect: ShouldCollect)
    requires MeshInv(senders, r, shouldCollect) && InboxInv(senders, r)
    requires r.hub.inbox == [] && r.hub.pages == []
    ensures Stream(senders, r.stream) && r.hub.outbox == Echoes(senders, r.stream, shouldCollect, |r.stream|)
    ensures r.gone == |r.arrived|
  {
    hide Echoes, TableAfter, FrameOnMesh;
  }

  lemma BalancedAtEnd(senders: Senders, r: Relayed, shouldCollect: ShouldCollect)
    requires Balanced(senders, r, r.stream, shouldCollect) && Traffic(r) == r.stream && r.gone == |r.arrived|
    ensures Stream(senders, r.stream) && Stream(senders, r.others)
    ensures AllDue(senders, r.stream, r.stream, shouldCollect) ==
            Wanted(r.arrived, shouldCollect) + AllDue(senders, r.stream, r.others, shouldCollect)
  {
    hide AllDue, Wanted;
    assert r.arrived[..r.gone] == r.arrived;
  }
}
