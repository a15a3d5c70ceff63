/** Sending and receiving streams over the page channel, with the buffers updated in place. */
module Mesh {
  import opened Bytes
  import opened Options
  import opened Pages
  import opened Receiver

  /** The publisher and one subscriber: pages are received in the order they were sent. */
  class PageChannel {
    var pages: seq<Page>

    constructor ()
      ensures pages == []
    {
      pages := [];
    }

    method Send(page: Page)
      modifies this
      ensures pages == old(pages) + [page]
    {
      pages := pages + [page];
    }

    method Recv() returns (page: Option<Page>)
      modifies this
      ensures old(pages) == [] ==> page == None && pages == []
      ensures old(pages) != [] ==> page == Some(old(pages)[0]) && pages == old(pages)[1..]
    {
      if pages == [] {
        return None;
      }
      page := Some(pages[0]);
      pages := pages[1..];
    }
  }

  method CopyFromSlice(target: array<byte>, at: nat, bytes: Payload)
    requires at + |bytes| <= target.Length
    modifies target
    ensures target[..] == WriteAt(old(target[..]), at, bytes)
  {
    for k := 0 to |bytes|
      invariant forall j | 0 <= j < target.Length ::
                  target[j] == if at <= j < at + k then bytes[j - at] else old(target[j])
    {
      target[at + k] := bytes[k];
    }
    assert forall j | at <= j < at + |bytes| ::
      WriteAt(old(target[..]), at, bytes)[j] == WriteAt(old(target[..]), at, bytes)[at..at + |bytes|][j - at];
  }

  // ---------- Filling a page ----------

  /** The first `j` fields are in place; what follows is still zero. */
  ghost predicate Filled(page: Payload, fields: seq<Payload>, j: nat)
    requires j <= |fields|
  {
    && Offset(fields, j) <= |page|
    && FieldsIn(page, fields, j)
    && ZeroFrom(page, Offset(fields, j))
  }

  ghost predicate FieldsIn(page: Payload, fields: seq<Payload>, j: nat)
    requires j <= |fields|
    decreases j
  {
    j > 0 ==> FieldsIn(page, fields, j - 1) && FieldIn(page, fields, j - 1)
  }

  ghost predicate ZeroFrom(page: Payload, at: nat) {
    forall k | at <= k < |page| :: page[k] == 0
  }

  ghost predicate FieldIn(page: Payload, fields: seq<Payload>, i: nat)
    requires i < |fields|
  {
    Offset(fields, i) + |fields[i]| <= |page| && page[Offset(fields, i)..Offset(fields, i) + |fields[i]|] == fields[i]
  }

  lemma {:induction false} OffsetsGrow(fields: seq<Payload>, i: nat, j: nat)
    requires i < j <= |fields|
    ensures Offset(fields, i) + |fields[i]| <= Offset(fields, j)
    decreases j
  {
    if i + 1 < j {
      OffsetsGrow(fields, i, j - 1);
    }
  }

  lemma FieldStays(page: Payload, fields: seq<Payload>, j: nat, i: nat)
    requires i < j < |fields| && Offset(fields, j) + |fields[j]| <= |page| && FieldIn(page, fields, i)
    ensures FieldIn(WriteAt(page, Offset(fields, j), fields[j]), fields, i)
  {
    OffsetsGrow(fields, i, j);
  }

  lemma {:induction false} FieldsStay(page: Payload, fields: seq<Payload>, j: nat, i: nat)
    requires i <= j < |fields| && Offset(fields, j) + |fields[j]| <= |page| && FieldsIn(page, fields, i)
    ensures FieldsIn(WriteAt(page, Offset(fields, j), fields[j]), fields, i)
    decreases i
  {
    if i > 0 {
      FieldsStay(page, fields, j, i - 1);
      FieldStays(page, fields, j, i - 1);
    }
  }

  lemma FieldPut(page: Payload, fields: seq<Payload>, j: nat)
    requires j < |fields| && Offset(fields, j) + |fields[j]| <= |page|
    ensures FieldIn(WriteAt(page, Offset(fields, j), fields[j]), fields, j)
  {
  }

  lemma ZeroStays(page: Payload, at: nat, bytes: Payload)
    requires at + |bytes| <= |page| && ZeroFrom(page, at)
    ensures ZeroFrom(WriteAt(page, at, bytes), at + |bytes|)
  {
  }

  lemma FilledFurther(page: Payload, fields: seq<Payload>, j: nat)
    requires j < |fields| && Filled(page, fields, j) && Offset(fields, j) + |fields[j]| <= |page|
    ensures Filled(WriteAt(page, Offset(fields, j), fields[j]), fields, j + 1)
  {
    ZeroStays(page, Offset(fields, j), fields[j]);
    FieldsStay(page, fields, j, j);
    FieldPut(page, fields, j);
    hide WriteAt, FieldIn, ZeroFrom;
  }

  /** A field of zeros needs no writing. */
  lemma FilledWithZeros(page: Payload, fields: seq<Payload>, j: nat)
    requires j < |fields| && Filled(page, fields, j) && Offset(fields, j) + |fields[j]| <= |page|
    requires fields[j] == Zeros(|fields[j]|)
    ensures Filled(page, fields, j + 1)
  {
    assert FieldIn(page, fields, j);
  }

  lemma {:induction false} FilledIsLaid(page: Payload, fields: seq<Payload>, j: nat)
    requires j <= |fields| && |page| == Offset(fields, |fields|)
    requires FieldsIn(page, fields, j)
    ensures Offset(fields, j) <= |Lay(fields)| && Offset(fields, j) <= |page|
    ensures page[..Offset(fields, j)] == Lay(fields)[..Offset(fields, j)]
    decreases j
  {
    LayLength(fields);
    if j > 0 {
      FilledIsLaid(page, fields, j - 1);
      LayField(fields, j - 1);
      var from, to := Offset(fields, j - 1), Offset(fields, j);
      assert page[..to] == page[..from] + page[from..to];
      assert Lay(fields)[..to] == Lay(fields)[..from] + Lay(fields)[from..to];
    }
  }

  lemma FilledPage(page: Payload, fields: seq<Payload>)
    requires Filled(page, fields, |fields|) && |page| == Offset(fields, |fields|)
    ensures page == Lay(fields)
  {
    FilledIsLaid(page, fields, |fields|);
    LayLength(fields);
    assert page[..|page|] == page && Lay(fields)[..|page|] == Lay(fields);
  }

  /** Copies the next field to its place. */
  method CopyField(page: array<byte>, at: nat, bytes: Payload, ghost fields: seq<Payload>, ghost j: nat)
    requires j < |fields| && fields[j] == bytes && Offset(fields, j) == at && at + |bytes| <= page.Length
    requires Filled(page[..], fields, j)
    modifies page
    ensures Filled(page[..], fields, j + 1)
  {
    FilledFurther(page[..], fields, j);
    CopyFromSlice(page, at, bytes);
  }

  method NewPage(ghost fields: seq<Payload>) returns (page: array<byte>)
    ensures fresh(page) && page.Length == PRESET_N && Filled(page[..], fields, 0)
  {
    page := new byte[PRESET_N](_ => 0);
  }

  // ---------- Sending ----------

  method FillWhole(payload: Payload, headerSize: nat) returns (page: Page)
    requires IsWhole(Message(payload, headerSize))
    ensures page == WholePage(Message(payload, headerSize))
  {
    ghost var m := Message(payload, headerSize);
    ghost var fields := WholeFields(m);
    WholeOffsets(m);
    LayLength(fields);
    var data := NewPage(fields);
    CopyField(data, 0, ToLe(|payload|, 8), fields, 0);
    FilledWithZeros(data[..], fields, 1);
    FilledWithZeros(data[..], fields, 2);
    CopyField(data, 16, ToLe(headerSize, 8), fields, 3);
    CopyField(data, 24, payload, fields, 4);
    FilledWithZeros(data[..], fields, 5);
    FilledPage(data[..], fields);
    page := data[..];
  }

  method FillFragment(payload: Payload, headerSize: nat, identification: nat,
                      remainder: nat, i: nat, numChunks: nat, chunk: Payload)
    returns (page: Page)
    requires var m := Message(payload, headerSize);
             && IsFragmented(m) && i < NumChunks(m)
             && numChunks == NumChunks(m) && remainder == Remainder(m) && chunk == Chunk(m, i)
    ensures page == FragmentPage(Message(payload, headerSize), identification, i)
  {
    ghost var m := Message(payload, headerSize);
    ghost var fields := FragmentFields(m, identification, i);
    FragmentOffsets(m, identification, i);
    LayLength(fields);
    ChunkInside(m, i);
    var data := NewPage(fields);
    CopyField(data, 0, ToLe(remainder, 8), fields, 0);
    CopyField(data, 8, ToLe(i % U32, 4), fields, 1);
    CopyField(data, 12, ToLe(numChunks % U32, 4), fields, 2);
    CopyField(data, 16, ToLe(identification, 8), fields, 3);
    CopyField(data, 24, ToLe(headerSize, 8), fields, 4);
    CopyField(data, 32, payload[..headerSize], fields, 5);
    CopyField(data, headerSize + 32, chunk, fields, 6);
    FilledWithZeros(data[..], fields, 7);
    FilledPage(data[..], fields);
    page := data[..];
  }

  /** What `chunks` yields: the next `size` bytes of the body, or what is left. */
  lemma ChunkIsNext(m: Message, i: nat)
    requires IsFragmented(m) && i < NumChunks(m)
    ensures var start := ChunkStart(m, i);
            var end := if start + ChunkSize(m) <= |m.payload| then start + ChunkSize(m) else |m.payload|;
            start <= end && m.payload[start..end] == Chunk(m, i)
    ensures ChunkStart(m, i + 1) == ChunkStart(m, i) + ChunkSize(m)
  {
    ChunkInside(m, i);
    ChunksFillBody(m);
  }

  method SendFragments(channel: PageChannel, payload: Payload, headerSize: nat, identification: nat,
                       chunkSize: nat, remainder: nat, numChunks: nat)
    requires var m := Message(payload, headerSize);
             IsFragmented(m) && chunkSize == ChunkSize(m) && remainder == Remainder(m) && numChunks == NumChunks(m)
    modifies channel
    ensures channel.pages == old(channel.pages) + PagesOf(Message(payload, headerSize), identification)
  {
    ghost var m := Message(payload, headerSize);
    ghost var pages := PagesOf(m, identification);
    var i, start := 0, headerSize;
    while i < numChunks
      invariant i <= numChunks && start == ChunkStart(m, i)
      invariant channel.pages == old(channel.pages) + pages[..i]
    {
      var end := if start + chunkSize <= |payload| then start + chunkSize else |payload|;
      ChunkIsNext(m, i);
      var page := FillFragment(payload, headerSize, identification, remainder, i, numChunks, payload[start..end]);
      assert page == pages[i] && pages[..i + 1] == pages[..i] + [pages[i]];
      channel.Send(page);
      i, start := i + 1, start + chunkSize;
    }
    assert pages[..i] == pages;
  }

  /** Cuts a payload into pages and sends them one after the other, or refuses it. */
  method SendStream(channel: PageChannel, payload: Payload, headerSize: nat, identification: nat)
    returns (error: Option<SendError>)
    modifies channel
    ensures var m := Message(payload, headerSize);
            if headerSize > |payload| then
              error == Some(HeaderExceedsPayload(headerSize, |payload|)) && channel.pages == old(channel.pages)
            else if IsWhole(m) || IsFragmented(m) then
              error == None && channel.pages == old(channel.pages) + PagesOf(m, identification)
            else
              error == Some(HeaderTooLarge(headerSize, FRAGMENT_ROOM - 1)) && channel.pages == old(channel.pages)
  {
    if headerSize > |payload| {
      return Some(HeaderExceedsPayload(headerSize, |payload|));
    }
    if |payload| <= PRESET_N - 8 - 8 - 8 {
      var page := FillWhole(payload, headerSize);
      channel.Send(page);
      return None;
    }
    if 8 + 8 + 8 + 8 + headerSize >= PRESET_N {
      return Some(HeaderTooLarge(headerSize, PRESET_N - 8 - 8 - 8 - 8 - 1));
    }
    var chunkSize := PRESET_N - 8 - 8 - 8 - 8 - headerSize;
    DividesIs(|payload| - headerSize, chunkSize);
    var remainder := (|payload| - headerSize) % chunkSize;
    var numChunks := (|payload| - headerSize) / chunkSize + if remainder == 0 then 0 else 1;
    SendFragments(channel, payload, headerSize, identification, chunkSize, remainder, numChunks);
    return None;
  }
}
