/** How a payload is cut into pages, and what a page says about the payload it comes from. */
module Pages {
  import opened Bytes

  const PRESET_N: nat := 1024
  /** What an unfragmented payload may take: a page less three fields. */
  const WHOLE_MAX: nat := PRESET_N - 8 - 8 - 8
  /** What a fragment has for the header and a part of the body: a page less four fields. */
  const FRAGMENT_ROOM: nat := PRESET_N - 8 - 8 - 8 - 8

  type Page = page: Payload | |page| == PRESET_N witness Zeros(PRESET_N)

  datatype Message = Message(payload: Payload, headerSize: nat)

  datatype SendError =
    | HeaderExceedsPayload(headerSize: nat, payloadLength: nat)
    | HeaderTooLarge(headerSize: nat, maximum: nat)

  // ---------- What is accepted ----------

  predicate IsWhole(m: Message) {
    m.headerSize <= |m.payload| <= WHOLE_MAX
  }

  predicate IsFragmented(m: Message) {
    m.headerSize <= |m.payload| && |m.payload| > WHOLE_MAX && m.headerSize + 32 < PRESET_N
  }

  // ---------- Chunks ----------

  // Products and quotients of two variables, spelled out so that proofs about them stay linear.
  // `TimesIs` and `DividesIs` say that they are the usual operators.

  function Times(i: nat, size: nat): (product: nat)
    decreases i
  {
    if i == 0 then 0 else Times(i - 1, size) + size
  }

  function Quotient(length: nat, size: nat): (q: nat)
    requires size >= 1
    decreases length
  {
    if length < size then 0 else Quotient(length - size, size) + 1
  }

  function Rest(length: nat, size: nat): (rest: nat)
    requires size >= 1
    ensures rest < size
    decreases length
  {
    if length < size then length else Rest(length - size, size)
  }

  lemma {:induction false} TimesIs(i: nat, size: nat)
    ensures Times(i, size) == i * size
    decreases i
  {
    if i > 0 {
      TimesIs(i - 1, size);
    }
  }

  lemma {:induction false} TimesMonotone(i: nat, j: nat, size: nat)
    requires i <= j
    ensures Times(i, size) <= Times(j, size)
    decreases j
  {
    if i < j {
      TimesMonotone(i, j - 1, size);
    }
  }

  lemma {:induction false} Divides(length: nat, size: nat)
    requires size >= 1
    ensures length == Times(Quotient(length, size), size) + Rest(length, size)
    decreases length
  {
    if length >= size {
      Divides(length - size, size);
    }
  }

  lemma DividesIs(length: nat, size: nat)
    requires size >= 1
    ensures Quotient(length, size) == length / size && Rest(length, size) == length % size
  {
    Divides(length, size);
    TimesIs(Quotient(length, size), size);
    QuotientUnique(size, Quotient(length, size), Rest(length, size), length / size, length % size);
  }

  function ChunkSize(m: Message): (size: nat)
    requires IsFragmented(m)
    ensures size >= 1
  {
    FRAGMENT_ROOM - m.headerSize
  }

  function BodyLength(m: Message): (length: nat)
    requires m.headerSize <= |m.payload|
  {
    |m.payload| - m.headerSize
  }

  function Remainder(m: Message): (rest: nat)
    requires IsFragmented(m)
    ensures rest < ChunkSize(m)
  {
    Rest(BodyLength(m), ChunkSize(m))
  }

  /** The length of `chunks(chunk_size)`. */
  function NumChunks(m: Message): (n: nat)
    requires IsFragmented(m)
  {
    Quotient(BodyLength(m), ChunkSize(m)) + if Remainder(m) == 0 then 0 else 1
  }

  /** Where chunk `i` begins in the payload. */
  function ChunkStart(m: Message, i: nat): (start: nat)
    requires IsFragmented(m)
  {
    m.headerSize + Times(i, ChunkSize(m))
  }

  function ChunkLength(m: Message, i: nat): (length: nat)
    requires IsFragmented(m)
  {
    if i + 1 == NumChunks(m) && Remainder(m) != 0 then Remainder(m) else ChunkSize(m)
  }

  /** A fragmented payload has at least two chunks, and they are exactly as long as its body. */
  lemma ChunksFillBody(m: Message)
    requires IsFragmented(m)
    ensures NumChunks(m) >= 2
    ensures ChunkStart(m, NumChunks(m) - 1) + ChunkLength(m, NumChunks(m) - 1) == |m.payload|
  {
    Divides(BodyLength(m), ChunkSize(m));
    assert Times(1, ChunkSize(m)) == ChunkSize(m);
  }

  /** Chunks lie in the payload, behind the header, and one ends where the next begins. */
  lemma ChunkInside(m: Message, i: nat)
    requires IsFragmented(m) && i < NumChunks(m)
    ensures 0 < ChunkLength(m, i) <= ChunkSize(m)
    ensures m.headerSize <= ChunkStart(m, i)
    ensures ChunkStart(m, i) + ChunkLength(m, i) <= |m.payload|
    ensures i + 1 < NumChunks(m) ==> ChunkStart(m, i) + ChunkLength(m, i) == ChunkStart(m, i + 1)
  {
    ChunksFillBody(m);
    TimesMonotone(i, NumChunks(m) - 1, ChunkSize(m));
    if i + 1 < NumChunks(m) {
      TimesMonotone(i + 1, NumChunks(m) - 1, ChunkSize(m));
    }
  }

  lemma ChunksApart(m: Message, i: nat, j: nat)
    requires IsFragmented(m) && i < j < NumChunks(m)
    ensures ChunkStart(m, i) + ChunkLength(m, i) <= ChunkStart(m, j)
  {
    ChunkInside(m, i);
    TimesMonotone(i + 1, j, ChunkSize(m));
  }

  /** Every byte of the body is in a chunk. */
  lemma ByteInChunk(m: Message, k: nat) returns (i: nat)
    requires IsFragmented(m) && m.headerSize <= k < |m.payload|
    ensures i < NumChunks(m)
    ensures ChunkStart(m, i) <= k < ChunkStart(m, i) + ChunkLength(m, i)
  {
    i := NumChunks(m) - 1;
    ChunksFillBody(m);
    while ChunkStart(m, i) > k
      invariant i < NumChunks(m) && k < ChunkStart(m, i) + ChunkLength(m, i)
    {
      i := i - 1;
      ChunkInside(m, i);
    }
  }

  function Chunk(m: Message, i: nat): (chunk: Payload)
    requires IsFragmented(m) && i < NumChunks(m)
    ensures |chunk| == ChunkLength(m, i)
  {
    ChunkInside(m, i);
    m.payload[ChunkStart(m, i)..ChunkStart(m, i) + ChunkLength(m, i)]
  }

  // ---------- Pages ----------

  function WholeFields(m: Message): seq<Payload>
    requires IsWhole(m)
  {
    [ToLe(|m.payload|, 8), ToLe(0, 4), ToLe(0, 4), ToLe(m.headerSize, 8), m.payload, Zeros(WHOLE_MAX - |m.payload|)]
  }

  /** A payload that fits one page.  The two fields that count chunks are zero. */
  function WholePage(m: Message): (page: Page)
    requires IsWhole(m)
  {
    WholeOffsets(m);
    Lay(WholeFields(m))
  }

  lemma NextOffset(fields: seq<Payload>, i: nat)
    requires i < |fields|
    ensures Offset(fields, i + 1) == Offset(fields, i) + |fields[i]|
  {
  }

  /** The offsets behind the first six fields. */
  lemma FirstOffsets(fields: seq<Payload>)
    requires |fields| >= 6
    ensures Offset(fields, 0) == 0 && Offset(fields, 1) == |fields[0]|
    ensures Offset(fields, 2) == |fields[0]| + |fields[1]|
    ensures Offset(fields, 3) == |fields[0]| + |fields[1]| + |fields[2]|
    ensures Offset(fields, 4) == |fields[0]| + |fields[1]| + |fields[2]| + |fields[3]|
    ensures Offset(fields, 5) == |fields[0]| + |fields[1]| + |fields[2]| + |fields[3]| + |fields[4]|
    ensures Offset(fields, 6) == |fields[0]| + |fields[1]| + |fields[2]| + |fields[3]| + |fields[4]| + |fields[5]|
  {
    NextOffset(fields, 0);
    NextOffset(fields, 1);
    NextOffset(fields, 2);
    NextOffset(fields, 3);
    NextOffset(fields, 4);
    NextOffset(fields, 5);
  }

  lemma WholeOffsets(m: Message)
    requires IsWhole(m)
    ensures var fields := WholeFields(m);
            && Offset(fields, 0) == 0 && Offset(fields, 1) == 8 && Offset(fields, 2) == 12
            && Offset(fields, 3) == 16 && Offset(fields, 4) == 24 && Offset(fields, 5) == 24 + |m.payload|
            && |Lay(fields)| == PRESET_N
  {
    var fields := WholeFields(m);
    LayLength(fields);
    FirstOffsets(fields);
    assert |fields[4]| == |m.payload|;
  }

  function FragmentFields(m: Message, id: nat, i: nat): seq<Payload>
    requires IsFragmented(m) && i < NumChunks(m)
  {
    ChunkInside(m, i);
    [ToLe(Remainder(m), 8), ToLe(i % U32, 4), ToLe(NumChunks(m) % U32, 4), ToLe(id, 8), ToLe(m.headerSize, 8),
     m.payload[..m.headerSize], Chunk(m, i), Zeros(FRAGMENT_ROOM - m.headerSize - ChunkLength(m, i))]
  }

  /** Fragment `i`.  The counts are cut to 32 bits. */
  function FragmentPage(m: Message, id: nat, i: nat): (page: Page)
    requires IsFragmented(m) && i < NumChunks(m)
  {
    FragmentOffsets(m, id, i);
    Lay(FragmentFields(m, id, i))
  }

  lemma FragmentOffsets(m: Message, id: nat, i: nat)
    requires IsFragmented(m) && i < NumChunks(m)
    ensures var fields := FragmentFields(m, id, i);
            && Offset(fields, 0) == 0 && Offset(fields, 1) == 8 && Offset(fields, 2) == 12
            && Offset(fields, 3) == 16 && Offset(fields, 4) == 24 && Offset(fields, 5) == 32
            && Offset(fields, 6) == 32 + m.headerSize && Offset(fields, 7) == 32 + m.headerSize + ChunkLength(m, i)
            && |Lay(fields)| == PRESET_N
  {
    var fields := FragmentFields(m, id, i);
    LayLength(fields);
    FirstOffsets(fields);
    ChunkInside(m, i);
    NextOffset(fields, 6);
    NextOffset(fields, 7);
  }

  /** The pages a payload is sent as. */
  function PagesOf(m: Message, id: nat): (pages: seq<Page>)
    requires IsWhole(m) || IsFragmented(m)
  {
    if IsWhole(m) then [WholePage(m)]
    else seq(NumChunks(m), i requires 0 <= i < NumChunks(m) => FragmentPage(m, id, i))
  }

  // ---------- Reading a page ----------

  /** What is read out of a page.  `room` is all that follows the first three words. */
  datatype Fields = Fields(lead: nat, index: nat, count: nat, id: nat, room: Payload)

  function Read(page: Page): (fields: Fields)
    ensures |fields.room| == WHOLE_MAX
  {
    Fields(FromLe(page[..8]), FromLe(page[8..12]), FromLe(page[12..16]), FromLe(page[16..24]), page[24..])
  }

  /** In a fragment the room begins with the size of the header. */
  function HeaderSize(f: Fields): nat
    requires |f.room| == WHOLE_MAX
  {
    FromLe(f.room[..8])
  }

  /** The message can be told from its pages: its lengths fit 64 bits and its chunk count 32. */
  predicate Countable(m: Message) {
    |m.payload| < U64 && (IsFragmented(m) ==> NumChunks(m) < U32)
  }

  /** The first three words of any laid-out page. */
  lemma WordsAreRead(fields: seq<Payload>, page: Page)
    requires |fields| >= 6 && page == Lay(fields)
    requires |fields[0]| == 8 && |fields[1]| == 4 && |fields[2]| == 4 && |fields[3]| == 8
    ensures var f := Read(page);
            && f.lead == FromLe(fields[0]) && f.index == FromLe(fields[1])
            && f.count == FromLe(fields[2]) && f.id == FromLe(fields[3])
  {
    FirstOffsets(fields);
    LayField(fields, 0);
    LayField(fields, 1);
    LayField(fields, 2);
    LayField(fields, 3);
  }

  lemma SliceOfRest(bytes: Payload, from: nat, at: nat, n: nat)
    requires from + at + n <= |bytes|
    ensures bytes[from..][at..at + n] == bytes[from + at..from + at + n]
  {
  }

  /** A field behind the first three words, as part of the room. */
  lemma RoomHolds(fields: seq<Payload>, page: Page, k: nat, at: nat)
    requires 4 <= k < |fields| && page == Lay(fields) && Offset(fields, k) == 24 + at
    ensures at + |fields[k]| <= WHOLE_MAX && Read(page).room[at..at + |fields[k]|] == fields[k]
  {
    LayField(fields, k);
    SliceOfRest(page, 24, at, |fields[k]|);
  }

  /** What is read out of the page of an unfragmented payload. */
  ghost predicate ReadsWhole(f: Fields, m: Message)
    requires IsWhole(m)
  {
    && f.lead == |m.payload| && f.count == 0 && f.id == m.headerSize
    && |f.room| == WHOLE_MAX && f.room[..|m.payload|] == m.payload
  }

  lemma WholePageReads(m: Message)
    requires IsWhole(m)
    ensures ReadsWhole(Read(WholePage(m)), m)
  {
    var fields := WholeFields(m);
    WholeOffsets(m);
    WordsAreRead(fields, WholePage(m));
    RoomHolds(fields, WholePage(m), 4, 0);
    Widths();
    LeRoundTrip(|m.payload|, 8);
    LeRoundTrip(0, 4);
    LeRoundTrip(m.headerSize, 8);
  }

  /** What is read out of fragment `i`. */
  ghost predicate ReadsFragment(f: Fields, m: Message, id: nat, i: nat)
    requires IsFragmented(m) && i < NumChunks(m)
  {
    && |f.room| == WHOLE_MAX
    && f.lead == Remainder(m) && f.id == id && HeaderSize(f) == m.headerSize
    && f.index == i % U32 && f.count == NumChunks(m) % U32
    && f.room[8..8 + m.headerSize] == m.payload[..m.headerSize]
    && 8 + m.headerSize + ChunkLength(m, i) <= |f.room|
    && f.room[8 + m.headerSize..8 + m.headerSize + ChunkLength(m, i)] == Chunk(m, i)
  }

  lemma FragmentWords(m: Message, id: nat, i: nat)
    requires IsFragmented(m) && i < NumChunks(m) && id < U64
    ensures var fields := FragmentFields(m, id, i);
            && |fields| == 8
            && |fields[0]| == 8 && FromLe(fields[0]) == Remainder(m)
            && |fields[1]| == 4 && FromLe(fields[1]) == i % U32
            && |fields[2]| == 4 && FromLe(fields[2]) == NumChunks(m) % U32
            && |fields[3]| == 8 && FromLe(fields[3]) == id
            && |fields[4]| == 8 && FromLe(fields[4]) == m.headerSize
            && fields[5] == m.payload[..m.headerSize] && fields[6] == Chunk(m, i)
  {
    Widths();
    LeRoundTrip(Remainder(m), 8);
    LeRoundTrip(i % U32, 4);
    LeRoundTrip(NumChunks(m) % U32, 4);
    LeRoundTrip(id, 8);
    LeRoundTrip(m.headerSize, 8);
  }

  lemma LaidFragmentReads(fields: seq<Payload>, page: Page, m: Message, id: nat, i: nat)
    requires IsFragmented(m) && i < NumChunks(m) && |fields| == 8 && page == Lay(fields)
    requires |fields[0]| == 8 && FromLe(fields[0]) == Remainder(m)
    requires |fields[1]| == 4 && FromLe(fields[1]) == i % U32
    requires |fields[2]| == 4 && FromLe(fields[2]) == NumChunks(m) % U32
    requires |fields[3]| == 8 && FromLe(fields[3]) == id
    requires |fields[4]| == 8 && FromLe(fields[4]) == m.headerSize
    requires fields[5] == m.payload[..m.headerSize] && fields[6] == Chunk(m, i)
    ensures ReadsFragment(Read(page), m, id, i)
  {
    WordsAreRead(fields, page);
    FirstOffsets(fields);
    RoomHolds(fields, page, 4, 0);
    RoomHolds(fields, page, 5, 8);
    RoomHolds(fields, page, 6, 8 + m.headerSize);
  }

  lemma FragmentPageReads(m: Message, id: nat, i: nat)
    requires IsFragmented(m) && i < NumChunks(m) && id < U64
    ensures ReadsFragment(Read(FragmentPage(m, id, i)), m, id, i)
  {
    var fields, page := FragmentFields(m, id, i), FragmentPage(m, id, i);
    FragmentOffsets(m, id, i);
    FragmentWords(m, id, i);
    LaidFragmentReads(fields, page, m, id, i);
  }

  /** The receiver's idea of how long the payload is. */
  function Total(lead: nat, count: nat, headerSize: nat): (length: nat)
    requires headerSize <= FRAGMENT_ROOM && count > 0
  {
    var size := FRAGMENT_ROOM - headerSize;
    headerSize + Times(count - 1, size) + if lead == 0 then size else lead
  }

  lemma TotalIsLength(m: Message, count: nat)
    requires IsFragmented(m) && 0 < count <= NumChunks(m)
    ensures Total(Remainder(m), count, m.headerSize) == |m.payload| <==> count == NumChunks(m)
  {
    ChunksFillBody(m);
    if count < NumChunks(m) {
      TimesMonotone(count, NumChunks(m) - 1, ChunkSize(m));
    }
  }

  /** Any one fragment gives away the whole length, exactly when the number of chunks fits 32 bits. */
  lemma TotalLengthRecovered(m: Message, id: nat, i: nat, f: Fields)
    requires IsFragmented(m) && i < NumChunks(m) && ReadsFragment(f, m, id, i)
    ensures HeaderSize(f) <= FRAGMENT_ROOM
    ensures NumChunks(m) < U32 <==> f.count > 0 && Total(f.lead, f.count, HeaderSize(f)) == |m.payload|
  {
    ChunksFillBody(m);
    if f.count > 0 {
      TotalIsLength(m, f.count);
    }
  }
}
