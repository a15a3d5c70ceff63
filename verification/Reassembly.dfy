/** Whole streams of pages, of any number of messages, in any order and with repetitions: what the
    receiver makes of them. */
module Reassembly {
  import opened Bytes
  import opened Options
  import opened Pages
  import opened Receiver

  /** Who sent what: the fragmented messages by id.  Ids are drawn at random; they are distinct. */
  type Senders = map<nat, Message>

  ghost predicate Genuine(senders: Senders) {
    forall id | id in senders :: id < U64 && IsFragmented(senders[id]) && Countable(senders[id])
  }

  /** A page, by what it is a page of. */
  datatype Sent =
    | Whole(m: Message)
    | Fragment(id: nat, i: nat)

  ghost predicate FromSenders(senders: Senders, s: Sent)
    requires Genuine(senders)
  {
    match s
    case Whole(m) => IsWhole(m)
    case Fragment(id, i) => id in senders && i < NumChunks(senders[id])
  }

  ghost function PageOf(senders: Senders, s: Sent): Page
    requires Genuine(senders) && FromSenders(senders, s)
  {
    match s
    case Whole(m) => WholePage(m)
    case Fragment(id, i) => FragmentPage(senders[id], id, i)
  }

  function Header(m: Message): Payload
    requires m.headerSize <= |m.payload|
  {
    m.payload[..m.headerSize]
  }

  // ---------- The receiver as it should be ----------

  /** For each message on its way, the chunks that have come. */
  type Progress = map<nat, set<nat>>

  datatype Noted = Noted(progress: Progress, outcome: Outcome)

  function SeenOf(progress: Progress, id: nat): set<nat> {
    if id in progress then progress[id] else {}
  }

  function WholeOutcome(m: Message, shouldCollect: ShouldCollect): Outcome
    requires IsWhole(m)
  {
    if shouldCollect(Header(m)) then Completed(m.payload, m.headerSize) else Nothing
  }

  /** A fragment of a wanted message is noted; the last missing one completes it. */
  ghost function NoteFragment(senders: Senders, progress: Progress, id: nat, i: nat): Noted
    requires Genuine(senders) && id in senders && i < NumChunks(senders[id])
  {
    var m, seen := senders[id], SeenOf(progress, id) + {i};
    if i in SeenOf(progress, id) then Noted(progress, Nothing)
    else if seen == AllChunks(m) then Noted(progress - {id}, Completed(m.payload, m.headerSize))
    else Noted(progress[id := seen], Nothing)
  }

  ghost function Note(senders: Senders, progress: Progress, s: Sent, shouldCollect: ShouldCollect): Noted
    requires Genuine(senders) && FromSenders(senders, s)
  {
    match s
    case Whole(m) => Noted(progress, WholeOutcome(m, shouldCollect))
    case Fragment(id, i) =>
      if shouldCollect(Header(senders[id])) then NoteFragment(senders, progress, id, i) else Noted(progress, Nothing)
  }

  // ---------- The merge table ----------

  /** An entry knows exactly the chunks that have come, at least one and not yet all. */
  ghost predicate OnItsWay(entry: Entry, m: Message, seen: set<nat>)
    requires IsFragmented(m)
  {
    seen != {} && seen != AllChunks(m) && Knows(entry, m, seen)
  }

  ghost predicate Tracks(table: Table, progress: Progress, senders: Senders)
    requires Genuine(senders)
  {
    && table.Keys == progress.Keys
    && (forall id | id in table :: id in senders && OnItsWay(table[id], senders[id], progress[id]))
  }

  lemma TracksPut(table: Table, progress: Progress, senders: Senders, id: nat, entry: Entry, seen: set<nat>)
    requires Genuine(senders) && Tracks(table, progress, senders)
    requires id in senders && OnItsWay(entry, senders[id], seen)
    ensures Tracks(table[id := entry], progress[id := seen], senders)
  {
    hide OnItsWay;
  }

  lemma TracksRemoved(table: Table, progress: Progress, senders: Senders, id: nat)
    requires Genuine(senders) && Tracks(table, progress, senders)
    ensures Tracks(table - {id}, progress - {id}, senders)
  {
    hide OnItsWay;
  }

  lemma EntryForKnows(table: Table, progress: Progress, senders: Senders, id: nat, i: nat, f: Fields)
    requires Genuine(senders) && Tracks(table, progress, senders)
    requires id in senders && i < NumChunks(senders[id]) && ReadsFragment(f, senders[id], id, i)
    ensures HeaderSize(f) <= FRAGMENT_ROOM && f.index == i && f.count == NumChunks(senders[id]) > 0
    ensures Knows(EntryFor(table, f), senders[id], SeenOf(progress, id))
  {
    NewEntryKnows(senders[id], id, i, f);
  }

  lemma KnowsBit(entry: Entry, m: Message, seen: set<nat>, i: nat)
    requires IsFragmented(m) && i < NumChunks(m) && Knows(entry, m, seen)
    ensures i < |entry.merged| && (entry.merged[i] <==> i in seen)
  {
  }

  /** A chunk that has not come before is written into the entry of its message. */
  lemma EntryTakes(entry: Entry, m: Message, seen: set<nat>, id: nat, i: nat, f: Fields)
    requires IsFragmented(m) && Countable(m) && i < NumChunks(m) && ReadsFragment(f, m, id, i)
    requires Knows(entry, m, seen) && i !in seen
    ensures HeaderSize(f) <= FRAGMENT_ROOM && f.index == i
    ensures Merge(entry, f) == Some(WithChunk(entry, m, i))
    ensures Knows(WithChunk(entry, m, i), m, seen + {i})
  {
    MergeWritesChunk(entry, m, id, i, f);
    WithChunkKnows(entry, m, seen, i);
  }

  /** The count reaches the number of chunks exactly when all have come; then the buffer is the payload. */
  lemma EntryFills(entry: Entry, m: Message, seen: set<nat>)
    requires IsFragmented(m) && Countable(m) && Knows(entry, m, seen)
    ensures entry.count == NumChunks(m) <==> seen == AllChunks(m)
    ensures seen == AllChunks(m) ==> entry.data == m.payload
  {
    FullWhenCounted(m, seen);
    if seen == AllChunks(m) {
      FullIsPayload(entry, m);
    }
  }

  lemma ReceivesNew(table: Table, f: Fields, after: Entry)
    requires |f.room| == WHOLE_MAX && HeaderSize(f) <= FRAGMENT_ROOM && f.count > 0
    requires var entry := EntryFor(table, f); f.index < |entry.merged| && !entry.merged[f.index] && Merge(entry, f) == Some(after)
    ensures ReceiveFragment(table, f) ==
            if f.count == after.count then Received(table - {f.id}, Completed(after.data, HeaderSize(f)))
            else Received(table[f.id := after], Nothing)
  {
    hide HeaderSize, EntryFor, Merge;
  }

  /** A fragment that has not come before completes its message or leaves an entry that knows it. */
  lemma NewFragment(table: Table, progress: Progress, senders: Senders, id: nat, i: nat, f: Fields) returns (after: Entry)
    requires Genuine(senders) && Tracks(table, progress, senders)
    requires id in senders && i < NumChunks(senders[id]) && ReadsFragment(f, senders[id], id, i)
    requires i !in SeenOf(progress, id)
    ensures HeaderSize(f) <= FRAGMENT_ROOM && f.count > 0
    ensures var m, seen := senders[id], SeenOf(progress, id) + {i};
            if seen == AllChunks(m)
            then ReceiveFragment(table, f) == Received(table - {id}, Completed(m.payload, m.headerSize))
            else OnItsWay(after, m, seen) && ReceiveFragment(table, f) == Received(table[id := after], Nothing)
  {
    hide Tracks, SeenOf, EntryFor, Merge, ReceiveFragment, Knows, AllChunks, NumChunks, IsFragmented, Countable;
    EntryForKnows(table, progress, senders, id, i, f);
    var m, entry := senders[id], EntryFor(table, f);
    KnowsBit(entry, m, SeenOf(progress, id), i);
    EntryTakes(entry, m, SeenOf(progress, id), id, i, f);
    after := WithChunk(entry, m, i);
    EntryFills(after, m, SeenOf(progress, id) + {i});
    ReceivesNew(table, f, after);
  }

  lemma SeenFragment(table: Table, progress: Progress, senders: Senders, id: nat, i: nat, f: Fields)
    requires Genuine(senders) && Tracks(table, progress, senders)
    requires id in senders && i < NumChunks(senders[id]) && ReadsFragment(f, senders[id], id, i)
    requires i in SeenOf(progress, id)
    ensures HeaderSize(f) <= FRAGMENT_ROOM && f.count > 0
    ensures ReceiveFragment(table, f) == Received(table, Nothing)
  {
    EntryForKnows(table, progress, senders, id, i, f);
    assert table[id := table[id]] == table;
  }

  /** One wanted fragment: the table does what the notes say, and other messages are untouched. */
  lemma FragmentTracks(table: Table, progress: Progress, senders: Senders, id: nat, i: nat, f: Fields)
    requires Genuine(senders) && Tracks(table, progress, senders)
    requires id in senders && i < NumChunks(senders[id]) && ReadsFragment(f, senders[id], id, i)
    ensures HeaderSize(f) <= FRAGMENT_ROOM && f.count > 0
    ensures var noted, received := NoteFragment(senders, progress, id, i), ReceiveFragment(table, f);
            received.outcome == noted.outcome && Tracks(received.table, noted.progress, senders)
  {
    hide OnItsWay, Tracks, ReceiveFragment;
    if i in SeenOf(progress, id) {
      SeenFragment(table, progress, senders, id, i, f);
    } else {
      var after := NewFragment(table, progress, senders, id, i, f);
      var m, seen := senders[id], SeenOf(progress, id) + {i};
      if seen == AllChunks(m) {
        TracksRemoved(table, progress, senders, id);
      } else {
        TracksPut(table, progress, senders, id, after, seen);
      }
    }
  }

  lemma WholeTracks(table: Table, m: Message, shouldCollect: ShouldCollect)
    requires IsWhole(m)
    ensures Receive(table, WholePage(m), shouldCollect) == Received(table, WholeOutcome(m, shouldCollect))
  {
    WholePageReads(m);
    var f := Read(WholePage(m));
    assert f.room[..m.headerSize] == f.room[..|m.payload|][..m.headerSize];
  }

  /** A fragment is collected, or not, for the header it carries. */
  lemma FragmentCollected(table: Table, m: Message, id: nat, i: nat, shouldCollect: ShouldCollect)
    requires IsFragmented(m) && Countable(m) && i < NumChunks(m) && id < U64
    ensures var f := Read(FragmentPage(m, id, i));
            && ReadsFragment(f, m, id, i) && HeaderSize(f) <= FRAGMENT_ROOM && f.count > 0
            && Receive(table, FragmentPage(m, id, i), shouldCollect) ==
               if shouldCollect(Header(m)) then ReceiveFragment(table, f) else Received(table, Nothing)
  {
    FragmentPageReads(m, id, i);
    TotalLengthRecovered(m, id, i, Read(FragmentPage(m, id, i)));
  }

  /** Any page of a sender: no panic, the right outcome, and the table keeps track. */
  lemma ReceiveTracks(table: Table, progress: Progress, senders: Senders, s: Sent, shouldCollect: ShouldCollect)
    requires Genuine(senders) && Tracks(table, progress, senders) && FromSenders(senders, s)
    ensures var noted := Note(senders, progress, s, shouldCollect);
            var received := Receive(table, PageOf(senders, s), shouldCollect);
            received.outcome == noted.outcome && Tracks(received.table, noted.progress, senders)
  {
    match s {
      case Whole(m) =>
        WholeTracks(table, m, shouldCollect);
      case Fragment(id, i) =>
        FragmentCollected(table, senders[id], id, i, shouldCollect);
        FragmentTracks(table, progress, senders, id, i, Read(FragmentPage(senders[id], id, i)));
    }
  }

  /** A page of one message leaves the entries of all others as they are. */
  lemma OthersUntouched(table: Table, page: Page, shouldCollect: ShouldCollect, other: nat)
    requires other != Read(page).id || Read(page).count == 0
    ensures var after := Receive(table, page, shouldCollect).table;
            (other in after <==> other in table) && (other in table ==> after[other] == table[other])
  {
  }

  // ---------- Streams ----------

  ghost predicate Stream(senders: Senders, stream: seq<Sent>) {
    Genuine(senders) && forall k | 0 <= k < |stream| :: FromSenders(senders, stream[k])
  }

  /** The table after the first `n` pages. */
  ghost function TableAfter(senders: Senders, stream: seq<Sent>, shouldCollect: ShouldCollect, n: nat): Table
    requires Stream(senders, stream) && n <= |stream|
    decreases n
  {
    if n == 0 then map[]
    else Receive(TableAfter(senders, stream, shouldCollect, n - 1), PageOf(senders, stream[n - 1]), shouldCollect).table
  }

  /** What page `n` brings. */
  ghost function OutcomeAt(senders: Senders, stream: seq<Sent>, shouldCollect: ShouldCollect, n: nat): Outcome
    requires Stream(senders, stream) && n < |stream|
  {
    Receive(TableAfter(senders, stream, shouldCollect, n), PageOf(senders, stream[n]), shouldCollect).outcome
  }

  ghost function ProgressAfter(senders: Senders, stream: seq<Sent>, shouldCollect: ShouldCollect, n: nat): Progress
    requires Stream(senders, stream) && n <= |stream|
    decreases n
  {
    if n == 0 then map[]
    else Note(senders, ProgressAfter(senders, stream, shouldCollect, n - 1), stream[n - 1], shouldCollect).progress
  }

  lemma StreamStep(senders: Senders, stream: seq<Sent>, shouldCollect: ShouldCollect, n: nat)
    requires Stream(senders, stream) && n < |stream|
    requires Tracks(TableAfter(senders, stream, shouldCollect, n), ProgressAfter(senders, stream, shouldCollect, n), senders)
    ensures Tracks(TableAfter(senders, stream, shouldCollect, n + 1), ProgressAfter(senders, stream, shouldCollect, n + 1), senders)
  {
    hide Tracks, Receive, Note, FromSenders, IsFragmented, Countable, PageOf;
    ReceiveTracks(TableAfter(senders, stream, shouldCollect, n),
                  ProgressAfter(senders, stream, shouldCollect, n), senders, stream[n], shouldCollect);
  }

  lemma StreamBegins(senders: Senders, stream: seq<Sent>, shouldCollect: ShouldCollect)
    requires Stream(senders, stream)
    ensures Tracks(TableAfter(senders, stream, shouldCollect, 0), ProgressAfter(senders, stream, shouldCollect, 0), senders)
  {
  }

  /** Over any stream the table tracks what has come. */
  lemma StreamTracks(senders: Senders, stream: seq<Sent>, shouldCollect: ShouldCollect, n: nat)
    requires Stream(senders, stream) && n <= |stream|
    ensures Tracks(TableAfter(senders, stream, shouldCollect, n), ProgressAfter(senders, stream, shouldCollect, n), senders)
  {
    StreamBegins(senders, stream, shouldCollect);
    hide *;
    for k := 0 to n
      invariant Tracks(TableAfter(senders, stream, shouldCollect, k), ProgressAfter(senders, stream, shouldCollect, k), senders)
    {
      StreamStep(senders, stream, shouldCollect, k);
    }
  }

  lemma OutcomeIsNoted(senders: Senders, stream: seq<Sent>, shouldCollect: ShouldCollect, n: nat)
    requires Stream(senders, stream) && n < |stream|
    ensures OutcomeAt(senders, stream, shouldCollect, n) ==
            Note(senders, ProgressAfter(senders, stream, shouldCollect, n), stream[n], shouldCollect).outcome
  {
    StreamTracks(senders, stream, shouldCollect, n);
    ReceiveTracks(TableAfter(senders, stream, shouldCollect, n),
                  ProgressAfter(senders, stream, shouldCollect, n), senders, stream[n], shouldCollect);
  }

  ghost predicate IsOf(s: Sent, id: nat) {
    s.Fragment? && s.id == id
  }

  /** The chunks of `id` among the first `n` pages. */
  ghost function Come(stream: seq<Sent>, id: nat, n: nat): (come: set<nat>)
    requires n <= |stream|
    decreases n
  {
    if n == 0 then {} else Come(stream, id, n - 1) + if IsOf(stream[n - 1], id) then {stream[n - 1].i} else {}
  }

  lemma {:induction false} ComeGrows(stream: seq<Sent>, id: nat, k: nat, n: nat)
    requires k <= n <= |stream|
    ensures Come(stream, id, k) <= Come(stream, id, n)
    decreases n
  {
    if k < n {
      ComeGrows(stream, id, k, n - 1);
    }
  }

  lemma {:induction false} ComeInside(senders: Senders, stream: seq<Sent>, id: nat, n: nat)
    requires Stream(senders, stream) && n <= |stream| && id in senders
    ensures Come(stream, id, n) <= AllChunks(senders[id])
    decreases n
  {
    if n > 0 {
      ComeInside(senders, stream, id, n - 1);
    }
  }

  /** What one page does to the notes about a wanted message. */
  lemma NoteSeen(senders: Senders, progress: Progress, s: Sent, shouldCollect: ShouldCollect, id: nat)
    requires Genuine(senders) && FromSenders(senders, s) && id in senders && shouldCollect(Header(senders[id]))
    ensures var after := SeenOf(progress, id) + if IsOf(s, id) then {s.i} else {};
            var noted := Note(senders, progress, s, shouldCollect);
            && (after != AllChunks(senders[id]) ==> SeenOf(noted.progress, id) == after)
            && (after != AllChunks(senders[id]) && IsOf(s, id) ==> noted.outcome == Nothing)
  {
    hide AllChunks;
  }

  lemma NoteCompletes(senders: Senders, progress: Progress, s: Sent, shouldCollect: ShouldCollect, id: nat)
    requires Genuine(senders) && FromSenders(senders, s) && id in senders && shouldCollect(Header(senders[id]))
    requires IsOf(s, id) && SeenOf(progress, id) != AllChunks(senders[id])
    requires SeenOf(progress, id) + {s.i} == AllChunks(senders[id])
    ensures Note(senders, progress, s, shouldCollect) ==
            Noted(progress - {id}, Completed(senders[id].payload, senders[id].headerSize))
  {
    var seen, i := SeenOf(progress, id), s.i;
    assert i !in seen by {
      assert seen + {i} != seen;
    }
  }

  /** Until all have come, what is noted of a wanted message is what has come. */
  lemma {:induction false} NotedIsCome(senders: Senders, stream: seq<Sent>, shouldCollect: ShouldCollect, id: nat, n: nat)
    requires Stream(senders, stream) && n <= |stream| && id in senders && shouldCollect(Header(senders[id]))
    requires Come(stream, id, n) != AllChunks(senders[id])
    ensures SeenOf(ProgressAfter(senders, stream, shouldCollect, n), id) == Come(stream, id, n)
    decreases n
  {
    if n > 0 {
      ComeGrows(stream, id, n - 1, n);
      ComeInside(senders, stream, id, n);
      NotedIsCome(senders, stream, shouldCollect, id, n - 1);
      NoteSeen(senders, ProgressAfter(senders, stream, shouldCollect, n - 1), stream[n - 1], shouldCollect, id);
      hide Note, SeenOf, AllChunks;
    }
  }

  /** The page with which the last missing chunk comes. */
  lemma {:induction false} LastMissing(senders: Senders, stream: seq<Sent>, id: nat, n: nat) returns (last: nat)
    requires Stream(senders, stream) && n <= |stream| && id in senders
    requires Come(stream, id, n) == AllChunks(senders[id])
    ensures last < n && IsOf(stream[last], id)
    ensures Come(stream, id, last) != AllChunks(senders[id]) && Come(stream, id, last + 1) == AllChunks(senders[id])
    decreases n
  {
    ChunksFillBody(senders[id]);
    assert 0 in AllChunks(senders[id]);
    assert n > 0;
    last := n - 1;
    if Come(stream, id, n - 1) == AllChunks(senders[id]) {
      last := LastMissing(senders, stream, id, n - 1);
    }
  }

  lemma AtLast(senders: Senders, stream: seq<Sent>, shouldCollect: ShouldCollect, id: nat, last: nat)
    requires Stream(senders, stream) && last < |stream| && id in senders && shouldCollect(Header(senders[id]))
    requires IsOf(stream[last], id)
    requires Come(stream, id, last) != AllChunks(senders[id]) && Come(stream, id, last + 1) == AllChunks(senders[id])
    ensures OutcomeAt(senders, stream, shouldCollect, last) == Completed(senders[id].payload, senders[id].headerSize)
    ensures id !in TableAfter(senders, stream, shouldCollect, last + 1)
  {
    var before := ProgressAfter(senders, stream, shouldCollect, last);
    NotedIsCome(senders, stream, shouldCollect, id, last);
    assert SeenOf(before, id) + {stream[last].i} == AllChunks(senders[id]);
    NoteCompletes(senders, before, stream[last], shouldCollect, id);
    OutcomeIsNoted(senders, stream, shouldCollect, last);
    StreamTracks(senders, stream, shouldCollect, last + 1);
    hide Note, OutcomeAt, TableAfter, AllChunks, Countable, IsFragmented, OnItsWay;
  }

  /** Round trip: whatever else is in the stream, in whatever order the pages of a wanted message come
      and however often, the page with the last missing chunk, and no page of it before, completes
      it, and what is completed is the payload and header size that were sent. */
  lemma RoundTrip(senders: Senders, stream: seq<Sent>, shouldCollect: ShouldCollect, id: nat) returns (last: nat)
    requires Stream(senders, stream) && id in senders && shouldCollect(Header(senders[id]))
    requires Come(stream, id, |stream|) == AllChunks(senders[id])
    ensures last < |stream| && IsOf(stream[last], id)
    ensures OutcomeAt(senders, stream, shouldCollect, last) == Completed(senders[id].payload, senders[id].headerSize)
    ensures forall k | 0 <= k < last && IsOf(stream[k], id) :: OutcomeAt(senders, stream, shouldCollect, k) == Nothing
    ensures id !in TableAfter(senders, stream, shouldCollect, last + 1)
  {
    last := LastMissing(senders, stream, id, |stream|);
    BeforeLast(senders, stream, shouldCollect, id, last);
    AtLast(senders, stream, shouldCollect, id, last);
  }

  lemma NothingYet(senders: Senders, stream: seq<Sent>, shouldCollect: ShouldCollect, id: nat, k: nat)
    requires Stream(senders, stream) && k < |stream| && id in senders && shouldCollect(Header(senders[id]))
    requires IsOf(stream[k], id) && Come(stream, id, k + 1) != AllChunks(senders[id])
    ensures OutcomeAt(senders, stream, shouldCollect, k) == Nothing
  {
    ComeGrows(stream, id, k, k + 1);
    ComeInside(senders, stream, id, k + 1);
    NotedIsCome(senders, stream, shouldCollect, id, k);
    NoteSeen(senders, ProgressAfter(senders, stream, shouldCollect, k), stream[k], shouldCollect, id);
    OutcomeIsNoted(senders, stream, shouldCollect, k);
    hide Note, OutcomeAt, SeenOf, AllChunks, ProgressAfter;
  }

  lemma BeforeLast(senders: Senders, stream: seq<Sent>, shouldCollect: ShouldCollect, id: nat, last: nat)
    requires Stream(senders, stream) && last < |stream| && id in senders && shouldCollect(Header(senders[id]))
    requires Come(stream, id, last) != AllChunks(senders[id])
    ensures forall k | 0 <= k < last && IsOf(stream[k], id) :: OutcomeAt(senders, stream, shouldCollect, k) == Nothing
  {
    hide Come, OutcomeAt, AllChunks, IsFragmented, Countable, FromSenders, IsOf;
    forall k | 0 <= k < last && IsOf(stream[k], id) ensures OutcomeAt(senders, stream, shouldCollect, k) == Nothing {
      ComeGrows(stream, id, k + 1, last);
      ComeInside(senders, stream, id, last);
      NothingYet(senders, stream, shouldCollect, id, k);
    }
  }

  /** The pages of one fragmented message in the order they are sent. */
  ghost function Fragments(m: Message, id: nat): (sent: seq<Sent>)
    requires IsFragmented(m)
    ensures |sent| == NumChunks(m)
    ensures forall i | 0 <= i < NumChunks(m) :: sent[i] == Fragment(id, i)
  {
    seq(NumChunks(m), i requires 0 <= i < NumChunks(m) => Fragment(id, i))
  }

  lemma {:induction false} ComeInOrder(m: Message, id: nat, n: nat)
    requires IsFragmented(m) && n <= NumChunks(m)
    ensures Come(Fragments(m, id), id, n) == FirstNumbers(n)
    decreases n
  {
    if n > 0 {
      ComeInOrder(m, id, n - 1);
    }
  }

  lemma AloneIsStream(m: Message, id: nat)
    requires IsFragmented(m) && Countable(m) && id < U64
    ensures Stream(map[id := m], Fragments(m, id))
  {
  }

  lemma LastIsMissing(m: Message, id: nat)
    requires IsFragmented(m)
    ensures var n := NumChunks(m);
            && n > 0
            && Come(Fragments(m, id), id, n - 1) != AllChunks(m)
            && Come(Fragments(m, id), id, n) == AllChunks(m)
  {
    ChunksFillBody(m);
    ComeInOrder(m, id, NumChunks(m) - 1);
    ComeInOrder(m, id, NumChunks(m));
    hide Come;
    assert NumChunks(m) - 1 in FirstNumbers(NumChunks(m));
  }

  /** A wanted message whose pages come as they are sent, and nothing else: the last page completes it,
      no other does, and no entry is left. */
  lemma SentAloneArrives(m: Message, id: nat, shouldCollect: ShouldCollect)
    requires IsFragmented(m) && Countable(m) && id < U64 && shouldCollect(Header(m))
    ensures var senders, stream, n := map[id := m], Fragments(m, id), NumChunks(m);
            && Stream(senders, stream) && n > 0
            && OutcomeAt(senders, stream, shouldCollect, n - 1) == Completed(m.payload, m.headerSize)
            && (forall k | 0 <= k < n - 1 :: OutcomeAt(senders, stream, shouldCollect, k) == Nothing)
            && id !in TableAfter(senders, stream, shouldCollect, n)
  {
    hide OutcomeAt, TableAfter, Come, AllChunks, Stream, Countable, Fragments;
    var senders, stream, n := map[id := m], Fragments(m, id), NumChunks(m);
    AloneIsStream(m, id);
    LastIsMissing(m, id);
    AtLast(senders, stream, shouldCollect, id, n - 1);
    BeforeLast(senders, stream, shouldCollect, id, n - 1);
  }

  ghost predicate CameBetween(stream: seq<Sent>, id: nat, i: nat, from: nat, to: nat)
    requires to <= |stream|
  {
    exists k :: from <= k < to && stream[k] == Fragment(id, i)
  }

  ghost predicate AllCame(chunks: set<nat>, stream: seq<Sent>, id: nat, from: nat, to: nat)
    requires to <= |stream|
  {
    forall i | i in chunks :: CameBetween(stream, id, i, from, to)
  }

  lemma OneMoreCame(chunks: set<nat>, more: set<nat>, stream: seq<Sent>, id: nat, from: nat, to: nat)
    requires from <= to < |stream| && AllCame(chunks, stream, id, from, to)
    requires forall i | i in more :: i in chunks || stream[to] == Fragment(id, i)
    ensures AllCame(more, stream, id, from, to + 1)
  {
    forall i: nat | i in more ensures CameBetween(stream, id, i, from, to + 1) {
      if i in chunks {
        var p :| from <= p < to && stream[p] == Fragment(id, i);
        assert from <= p < to + 1;
      }
    }
  }

  /** What one page can add to the notes about a message. */
  lemma NoteAdds(senders: Senders, progress: Progress, s: Sent, shouldCollect: ShouldCollect, id: nat)
    requires Genuine(senders) && FromSenders(senders, s) && id in senders
    ensures forall i | i in SeenOf(Note(senders, progress, s, shouldCollect).progress, id) ::
              i in SeenOf(progress, id) || s == Fragment(id, i)
  {
    hide AllChunks;
  }

  /** Completing a message ends the notes about it. */
  lemma NoteEnds(senders: Senders, progress: Progress, s: Sent, shouldCollect: ShouldCollect, id: nat)
    requires Genuine(senders) && FromSenders(senders, s) && id in senders && IsOf(s, id)
    requires Note(senders, progress, s, shouldCollect).outcome.Completed?
    ensures SeenOf(Note(senders, progress, s, shouldCollect).progress, id) == {}
    ensures SeenOf(progress, id) + {s.i} == AllChunks(senders[id])
  {
    hide AllChunks;
  }

  lemma StepCame(senders: Senders, stream: seq<Sent>, shouldCollect: ShouldCollect, id: nat, from: nat, k: nat)
    requires Stream(senders, stream) && from <= k < |stream| && id in senders
    requires AllCame(SeenOf(ProgressAfter(senders, stream, shouldCollect, k), id), stream, id, from, k)
    ensures AllCame(SeenOf(ProgressAfter(senders, stream, shouldCollect, k + 1), id), stream, id, from, k + 1)
  {
    var before := ProgressAfter(senders, stream, shouldCollect, k);
    NoteAdds(senders, before, stream[k], shouldCollect, id);
    OneMoreCame(SeenOf(before, id), SeenOf(Note(senders, before, stream[k], shouldCollect).progress, id), stream, id, from, k);
  }

  lemma NothingCame(stream: seq<Sent>, id: nat, from: nat)
    requires from <= |stream|
    ensures AllCame({}, stream, id, from, from)
  {
  }

  lemma SeenCameSince(senders: Senders, stream: seq<Sent>, shouldCollect: ShouldCollect, id: nat, from: nat, n: nat)
    requires Stream(senders, stream) && from <= n <= |stream| && id in senders
    requires SeenOf(ProgressAfter(senders, stream, shouldCollect, from), id) == {}
    ensures AllCame(SeenOf(ProgressAfter(senders, stream, shouldCollect, n), id), stream, id, from, n)
  {
    hide *;
    NothingCame(stream, id, from);
    for k := from to n
      invariant AllCame(SeenOf(ProgressAfter(senders, stream, shouldCollect, k), id), stream, id, from, k)
    {
      StepCame(senders, stream, shouldCollect, id, from, k);
    }
  }

  lemma EndedAt(senders: Senders, stream: seq<Sent>, shouldCollect: ShouldCollect, id: nat, n: nat)
    requires Stream(senders, stream) && n < |stream| && id in senders
    requires IsOf(stream[n], id) && OutcomeAt(senders, stream, shouldCollect, n).Completed?
    ensures SeenOf(ProgressAfter(senders, stream, shouldCollect, n + 1), id) == {}
    ensures SeenOf(ProgressAfter(senders, stream, shouldCollect, n), id) + {stream[n].i} == AllChunks(senders[id])
  {
    hide Note, OutcomeAt, SeenOf, AllChunks;
    OutcomeIsNoted(senders, stream, shouldCollect, n);
    NoteEnds(senders, ProgressAfter(senders, stream, shouldCollect, n), stream[n], shouldCollect, id);
  }

  /** Once only: a message that is completed twice had every one of its pages come again in between. */
  lemma TwiceOnlyIfSentTwice(senders: Senders, stream: seq<Sent>, shouldCollect: ShouldCollect, id: nat, a: nat, b: nat)
    requires Stream(senders, stream) && a < b < |stream| && id in senders
    requires IsOf(stream[a], id) && OutcomeAt(senders, stream, shouldCollect, a).Completed?
    requires IsOf(stream[b], id) && OutcomeAt(senders, stream, shouldCollect, b).Completed?
    ensures AllCame(AllChunks(senders[id]), stream, id, a + 1, b + 1)
  {
    hide OutcomeAt, AllCame, AllChunks, SeenOf, ProgressAfter, Countable, IsFragmented, FromSenders;
    EndedAt(senders, stream, shouldCollect, id, a);
    EndedAt(senders, stream, shouldCollect, id, b);
    SeenCameSince(senders, stream, shouldCollect, id, a + 1, b);
    OneMoreCame(SeenOf(ProgressAfter(senders, stream, shouldCollect, b), id), AllChunks(senders[id]), stream, id, a + 1, b);
  }

  /** No page of any sender makes the receiver panic, and a message whose header is refused is never
      completed. */
  lemma NeverPanics(senders: Senders, stream: seq<Sent>, shouldCollect: ShouldCollect, n: nat)
    requires Stream(senders, stream) && n < |stream|
    ensures OutcomeAt(senders, stream, shouldCollect, n) != Panic
    ensures stream[n].Fragment? && !shouldCollect(Header(senders[stream[n].id])) ==>
              OutcomeAt(senders, stream, shouldCollect, n) == Nothing
    ensures stream[n].Whole? ==>
              OutcomeAt(senders, stream, shouldCollect, n) ==
              if shouldCollect(Header(stream[n].m)) then Completed(stream[n].m.payload, stream[n].m.headerSize) else Nothing
  {
    OutcomeIsNoted(senders, stream, shouldCollect, n);
  }
}
