/** Putting fragments together again: one page at a time, in a table keyed by message id. */
module Receiver {
  import opened Bytes
  import opened Options
  import opened Pages

  /** Which chunks have been merged, how many, and the payload as far as it is known. */
  datatype Entry = Entry(merged: seq<bool>, count: nat, data: Payload)

  type Table = map<nat, Entry>

  /** `Panic` stands for an index, slice or subtraction out of range. */
  datatype Outcome =
    | Panic
    | Nothing
    | Completed(payload: Payload, headerSize: nat)

  datatype Received = Received(table: Table, outcome: Outcome)

  /** The user's choice, by header. */
  type ShouldCollect = Payload -> bool

  function WriteAt(data: Payload, at: nat, bytes: Payload): (written: Payload)
    requires at + |bytes| <= |data|
    ensures |written| == |data|
    ensures written[at..at + |bytes|] == bytes
    ensures forall k | 0 <= k < |data| && !(at <= k < at + |bytes|) :: written[k] == data[k]
  {
    data[..at] + bytes + data[at + |bytes|..]
  }

  /** The table's answer to a fragment it has no entry for. */
  function NewEntry(f: Fields): (entry: Entry)
    requires |f.room| == WHOLE_MAX && HeaderSize(f) <= FRAGMENT_ROOM && f.count > 0
  {
    var h := HeaderSize(f);
    Entry(seq(f.count, _ => false), 0, f.room[8..8 + h] + Zeros(Total(f.lead, f.count, h) - h))
  }

  /** The entry a fragment goes to, found or made. */
  function EntryFor(table: Table, f: Fields): (entry: Entry)
    requires |f.room| == WHOLE_MAX && HeaderSize(f) <= FRAGMENT_ROOM && f.count > 0
  {
    if f.id in table then table[f.id] else NewEntry(f)
  }

  /** How many bytes of the body a fragment brings. */
  function BytesHere(f: Fields): (length: nat)
    requires |f.room| == WHOLE_MAX && HeaderSize(f) <= FRAGMENT_ROOM
  {
    if f.count == f.index + 1 && f.lead != 0 then f.lead else FRAGMENT_ROOM - HeaderSize(f)
  }

  /** Merging a fragment into its entry. */
  function Merge(entry: Entry, f: Fields): (merged: Option<Entry>)
    requires |f.room| == WHOLE_MAX && HeaderSize(f) <= FRAGMENT_ROOM
    requires f.index < |entry.merged|
  {
    var h := HeaderSize(f);
    var start, length := h + Times(f.index, FRAGMENT_ROOM - h), BytesHere(f);
    if start + length > |entry.data| || 8 + h + length > |f.room| then None
    else Some(Entry(entry.merged[f.index := true], entry.count + 1,
                    WriteAt(entry.data, start, f.room[8 + h..8 + h + length])))
  }

  /** A fragment that is wanted. */
  function ReceiveFragment(table: Table, f: Fields): Received
    requires |f.room| == WHOLE_MAX && HeaderSize(f) <= FRAGMENT_ROOM && f.count > 0
  {
    var entry := EntryFor(table, f);
    if f.index >= |entry.merged| then Received(table, Panic)
    else if entry.merged[f.index] then Received(table[f.id := entry], Nothing)
    else
      match Merge(entry, f)
      case None => Received(table, Panic)
      case Some(after) =>
        if f.count == after.count then Received(table - {f.id}, Completed(after.data, HeaderSize(f)))
        else Received(table[f.id := after], Nothing)
  }

  /** Receiving one page. */
  function Receive(table: Table, page: Page, shouldCollect: ShouldCollect): Received {
    var f := Read(page);
    if f.count == 0 then
      if f.id > |f.room| then Received(table, Panic)
      else if !shouldCollect(f.room[..f.id]) then Received(table, Nothing)
      else if f.lead > |f.room| then Received(table, Panic)
      else Received(table, Completed(f.room[..f.lead], f.id))
    else if HeaderSize(f) > FRAGMENT_ROOM then Received(table, Panic)
    else if !shouldCollect(f.room[8..8 + HeaderSize(f)]) then Received(table, Nothing)
    else ReceiveFragment(table, f)
  }

  // ---------- Pages of any kind ----------

  /** The fragment on the page fits the entry: there is a bit for it, and unless that is set, the chunk ends within
      the buffer and within the page. */
  predicate Fits(entry: Entry, page: Page) {
    var lead, index, count, h :=
      FromLe(page[..8]), FromLe(page[8..12]), FromLe(page[12..16]), FromLe(page[24..32]);
    h <= 992 && index < |entry.merged| &&
    (entry.merged[index] ||
      (var length := if index == count - 1 && lead != 0 then lead else 992 - h;
       h + index * (992 - h) + length <= |entry.data| && 32 + h + length <= 1024))
  }

  /** Any page whatever: what makes the receiver panic is a header that ends behind the page, or if it is wanted, a
      payload that does, or a fragment that does not fit the entry found or made for it.  Of an unwanted page the
      rest does not matter, and it changes nothing. */
  lemma PanicsExactlyWhen(table: Table, page: Page, shouldCollect: ShouldCollect)
    ensures var f, received := Read(page), Receive(table, page, shouldCollect);
            if f.count == 0 then
              && received.table == table
              && (received.outcome == Panic <==>
                    24 + f.id > 1024 || (shouldCollect(page[24..24 + f.id]) && 24 + f.lead > 1024))
              && (received.outcome == Nothing <==> 24 + f.id <= 1024 && !shouldCollect(page[24..24 + f.id]))
            else
              var h := FromLe(page[24..32]);
              && h == HeaderSize(f)
              && (received.outcome == Panic <==>
                    32 + h > 1024 || (shouldCollect(page[32..32 + h]) && !Fits(EntryFor(table, f), page)))
              && (32 + h <= 1024 && !shouldCollect(page[32..32 + h]) ==> received == Received(table, Nothing))
  {
    var f := Read(page);
    assert page[24..][..8] == page[24..32];
    if f.count == 0 {
      if f.id <= 1000 {
        assert page[24..][..f.id] == page[24..24 + f.id];
      }
    } else if HeaderSize(f) <= FRAGMENT_ROOM {
      TimesIs(f.index, FRAGMENT_ROOM - HeaderSize(f));
      assert page[24..][8..8 + HeaderSize(f)] == page[32..32 + HeaderSize(f)];
      FragmentPanics(table, page);
    }
  }

  lemma FragmentPanics(table: Table, page: Page)
    requires Read(page).count > 0 && HeaderSize(Read(page)) <= FRAGMENT_ROOM
    ensures ReceiveFragment(table, Read(page)).outcome == Panic <==> !Fits(EntryFor(table, Read(page)), page)
  {
    var f := Read(page);
    assert page[24..][..8] == page[24..32];
    TimesIs(f.index, FRAGMENT_ROOM - HeaderSize(f));
    hide EntryFor, FromLe;
  }

  // ---------- What an entry knows ----------

  function FirstNumbers(n: nat): (numbers: set<nat>)
    ensures forall i :: i in numbers <==> 0 <= i < n
    ensures |numbers| == n
  {
    if n == 0 then {} else FirstNumbers(n - 1) + {n - 1}
  }

  function AllChunks(m: Message): (all: set<nat>)
    requires IsFragmented(m)
  {
    FirstNumbers(NumChunks(m))
  }

  /** The entry of a message of which the chunks `seen` have come. */
  ghost predicate Knows(entry: Entry, m: Message, seen: set<nat>)
    requires IsFragmented(m)
  {
    && seen <= AllChunks(m)
    && |entry.merged| == NumChunks(m) && (forall i | 0 <= i < NumChunks(m) :: entry.merged[i] <==> i in seen)
    && entry.count == |seen|
    && |entry.data| == |m.payload|
    && (forall k | 0 <= k < m.headerSize :: entry.data[k] == m.payload[k])
    && (forall i | i in seen :: KnowsChunk(entry, m, i))
  }

  ghost predicate KnowsChunk(entry: Entry, m: Message, i: nat)
    requires IsFragmented(m) && i < NumChunks(m) && |entry.data| == |m.payload|
  {
    ChunkInside(m, i);
    forall k | ChunkStart(m, i) <= k < ChunkStart(m, i) + ChunkLength(m, i) :: entry.data[k] == m.payload[k]
  }

  /** The bits count the chunks: they are all set exactly when the count is the number of chunks. */
  lemma FullWhenCounted(m: Message, seen: set<nat>)
    requires IsFragmented(m) && seen <= AllChunks(m)
    ensures |seen| == NumChunks(m) <==> seen == AllChunks(m)
  {
    if seen != AllChunks(m) {
      Smaller(seen, AllChunks(m));
    }
  }

  lemma Smaller(some: set<nat>, all: set<nat>)
    requires some < all
    ensures |some| < |all|
  {
    var x :| x in all && x !in some;
    assert |all - {x}| == |all| - 1;
    assert some <= all - {x};
    NotLarger(some, all - {x});
  }

  lemma NotLarger(some: set<nat>, all: set<nat>)
    requires some <= all
    ensures |some| <= |all|
  {
    if some != {} {
      var x :| x in some;
      NotLarger(some - {x}, all - {x});
    }
  }

  /** With every chunk in, the buffer is the payload. */
  lemma FullIsPayload(entry: Entry, m: Message)
    requires IsFragmented(m) && Knows(entry, m, AllChunks(m))
    ensures entry.data == m.payload
  {
    forall k: nat | k < |m.payload| ensures entry.data[k] == m.payload[k] {
      if k >= m.headerSize {
        var i := ByteInChunk(m, k);
        assert KnowsChunk(entry, m, i);
      }
    }
  }

  /** The entry made for the first fragment to come knows nothing but the header. */
  lemma NewEntryKnows(m: Message, id: nat, i: nat, f: Fields)
    requires IsFragmented(m) && Countable(m) && i < NumChunks(m) && ReadsFragment(f, m, id, i)
    ensures HeaderSize(f) <= FRAGMENT_ROOM && f.count > 0
    ensures Knows(NewEntry(f), m, {})
  {
    TotalLengthRecovered(m, id, i, f);
    var entry := NewEntry(f);
    forall k | 0 <= k < m.headerSize ensures entry.data[k] == m.payload[k] {
      assert entry.data[k] == m.payload[..m.headerSize][k];
    }
  }

  /** The entry after chunk `i` has been written into it. */
  function WithChunk(entry: Entry, m: Message, i: nat): (after: Entry)
    requires IsFragmented(m) && i < NumChunks(m) && |entry.merged| == NumChunks(m) && |entry.data| == |m.payload|
  {
    ChunkInside(m, i);
    Entry(entry.merged[i := true], entry.count + 1, WriteAt(entry.data, ChunkStart(m, i), Chunk(m, i)))
  }

  lemma WithChunkKnowsIt(entry: Entry, m: Message, i: nat)
    requires IsFragmented(m) && i < NumChunks(m) && |entry.merged| == NumChunks(m) && |entry.data| == |m.payload|
    ensures KnowsChunk(WithChunk(entry, m, i), m, i)
  {
    ChunkInside(m, i);
    var after, start, length := WithChunk(entry, m, i), ChunkStart(m, i), ChunkLength(m, i);
    forall k | start <= k < start + length ensures after.data[k] == m.payload[k] {
      assert after.data[k] == after.data[start..start + length][k - start];
    }
  }

  /** Writing one chunk leaves the others alone. */
  lemma WithChunkKeeps(entry: Entry, m: Message, i: nat, j: nat)
    requires IsFragmented(m) && i < NumChunks(m) && |entry.merged| == NumChunks(m) && |entry.data| == |m.payload|
    requires j < NumChunks(m) && j != i && KnowsChunk(entry, m, j)
    ensures KnowsChunk(WithChunk(entry, m, i), m, j)
  {
    ChunkInside(m, i);
    ChunkInside(m, j);
    if j < i {
      ChunksApart(m, j, i);
    } else {
      ChunksApart(m, i, j);
    }
  }

  lemma WithChunkKnows(entry: Entry, m: Message, seen: set<nat>, i: nat)
    requires IsFragmented(m) && i < NumChunks(m) && Knows(entry, m, seen) && i !in seen
    ensures Knows(WithChunk(entry, m, i), m, seen + {i})
  {
    ChunkInside(m, i);
    WithChunkKnowsIt(entry, m, i);
    forall j | j in seen ensures KnowsChunk(WithChunk(entry, m, i), m, j) {
      WithChunkKeeps(entry, m, i, j);
    }
  }

  /** Merging fragment `i` is writing chunk `i`. */
  lemma MergeWritesChunk(entry: Entry, m: Message, id: nat, i: nat, f: Fields)
    requires IsFragmented(m) && Countable(m) && i < NumChunks(m) && ReadsFragment(f, m, id, i)
    requires |entry.merged| == NumChunks(m) && |entry.data| == |m.payload|
    ensures HeaderSize(f) <= FRAGMENT_ROOM && f.index == i
    ensures Merge(entry, f) == Some(WithChunk(entry, m, i))
  {
    ChunkInside(m, i);
  }
}
