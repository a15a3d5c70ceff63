/** Frames and pages octet by octet: which octet of which number stands where. */
module Layout {
  import opened Bytes
  import opened Pages
  import opened Relay

  /** The `k` octets from `at` on are the low octets of `n`, the lowest first. */
  ghost predicate NumberAt(bytes: Payload, at: nat, k: nat, n: nat) {
    at + k <= |bytes| && forall j: nat | j < k :: bytes[at + j] == n / Values(j) % 256
  }

  ghost predicate ZeroFrom(bytes: Payload, at: nat) {
    forall j | at <= j < |bytes| :: bytes[j] == 0
  }

  lemma NumberWritten(n: nat, k: nat)
    ensures NumberAt(ToLe(n, k), 0, k, n)
  {
    forall j: nat | j < k ensures ToLe(n, k)[0 + j] == n / Values(j) % 256 {
      LeDigit(n, k, j);
    }
  }

  /** A frame is the payload, and then the eight octets of the header size. */
  lemma FrameLayout(m: Message)
    ensures |Frame(m)| == |m.payload| + 8
    ensures Frame(m)[..|m.payload|] == m.payload
    ensures NumberAt(Frame(m), |m.payload|, 8, m.headerSize)
  {
    NumberWritten(m.headerSize, 8);
  }

  lemma FieldAt(fields: seq<Payload>, k: nat, at: nat)
    requires k < |fields| && Offset(fields, k) == at
    ensures at + |fields[k]| <= |Lay(fields)| && Lay(fields)[at..at + |fields[k]|] == fields[k]
  {
    LayField(fields, k);
  }

  /** A field that holds a number. */
  lemma NumberField(fields: seq<Payload>, k: nat, at: nat, width: nat, n: nat)
    requires k < |fields| && Offset(fields, k) == at && fields[k] == ToLe(n, width)
    ensures NumberAt(Lay(fields), at, width, n)
  {
    FieldAt(fields, k, at);
    NumberWritten(n, width);
    forall j: nat | j < width ensures Lay(fields)[at + j] == n / Values(j) % 256 {
      assert Lay(fields)[at..at + width][j] == fields[k][0 + j];
    }
  }

  lemma LastFieldZero(fields: seq<Payload>, at: nat, k: nat)
    requires fields != [] && Offset(fields, |fields| - 1) == at && fields[|fields| - 1] == Zeros(k)
    ensures ZeroFrom(Lay(fields), at)
  {
    hide Lay, Offset;
    NextOffset(fields, |fields| - 1);
    FieldAt(fields, |fields| - 1, at);
    LayLength(fields);
    forall j | at <= j < |Lay(fields)| ensures Lay(fields)[j] == 0 {
      assert Lay(fields)[at..at + k][j - at] == 0;
    }
  }

  /** A payload that fits one page: its length, eight zeros, its header size, the payload, zeros. */
  lemma WholeLayout(m: Message)
    requires IsWhole(m)
    ensures var page := WholePage(m);
            && |page| == 1024
            && NumberAt(page, 0, 8, |m.payload|)
            && NumberAt(page, 8, 8, 0)
            && NumberAt(page, 16, 8, m.headerSize)
            && page[24..24 + |m.payload|] == m.payload
            && ZeroFrom(page, 24 + |m.payload|)
  {
    var fields, page := WholeFields(m), WholePage(m);
    WholeOffsets(m);
    NumberField(fields, 0, 0, 8, |m.payload|);
    NumberField(fields, 1, 8, 4, 0);
    NumberField(fields, 2, 12, 4, 0);
    NumberField(fields, 3, 16, 8, m.headerSize);
    FieldAt(fields, 4, 24);
    LastFieldZero(fields, 24 + |m.payload|, WHOLE_MAX - |m.payload|);
    ZerosTogether(page);
  }

  /** Two fields of four zeros are one of eight. */
  lemma ZerosTogether(page: Page)
    requires NumberAt(page, 8, 4, 0) && NumberAt(page, 12, 4, 0)
    ensures NumberAt(page, 8, 8, 0)
  {
    forall j: nat | j < 8 ensures page[8 + j] == 0 / Values(j) % 256 {
      ZeroDivided(Values(j));
      if j >= 4 {
        ZeroDivided(Values(j - 4));
        assert page[12 + (j - 4)] == 0 / Values(j - 4) % 256;
      }
    }
  }

  lemma ZeroDivided(d: nat)
    requires d > 0
    ensures 0 / d == 0
  {
  }

  // ---------- Fragments ----------

  /** What a fragment has room for besides its header. */
  function Room(m: Message): (size: nat)
    requires m.headerSize < 992
  {
    992 - m.headerSize
  }

  /** What is left over. */
  function LeftOver(m: Message): nat
    requires m.headerSize < 992 && m.headerSize <= |m.payload|
  {
    (|m.payload| - m.headerSize) % Room(m)
  }

  /** As many chunks of that size as the body fills, and one for what is left over. */
  function Pieces(m: Message): int
    requires m.headerSize < 992 && m.headerSize <= |m.payload|
  {
    (|m.payload| - m.headerSize) / Room(m) + if LeftOver(m) == 0 then 0 else 1
  }

  /** Where piece `i` begins. */
  function PieceStart(m: Message, i: nat): nat
    requires m.headerSize < 992
  {
    m.headerSize + i * Room(m)
  }

  function Min(a: nat, b: nat): nat {
    if a < b then a else b
  }

  /** The chunks are what cutting the body at every multiple of the chunk size makes of it. */
  lemma ChunkIsPiece(m: Message, i: nat)
    requires IsFragmented(m) && i < NumChunks(m)
    ensures NumChunks(m) == Pieces(m)
    ensures ChunkStart(m, i) == PieceStart(m, i) <= |m.payload|
    ensures ChunkStart(m, i) + ChunkLength(m, i) == Min(PieceStart(m, i + 1), |m.payload|)
    ensures Remainder(m) == LeftOver(m)
  {
    DividesIs(BodyLength(m), ChunkSize(m));
    TimesIs(i, ChunkSize(m));
    TimesIs(i + 1, ChunkSize(m));
    ChunkInside(m, i);
    ChunksFillBody(m);
    LastPiece(m, i);
  }

  lemma LastPiece(m: Message, i: nat)
    requires IsFragmented(m) && i < NumChunks(m)
    ensures ChunkStart(m, i) + ChunkLength(m, i) == Min(ChunkStart(m, i + 1), |m.payload|)
  {
    ChunkInside(m, i);
    ChunksFillBody(m);
  }

  /** Fragment `i`, octet by octet: five numbers, the header, piece `i` of the body, zeros. */
  ghost predicate IsFragmentOf(page: Payload, m: Message, id: nat, i: nat)
    requires m.headerSize < 992 && m.headerSize <= |m.payload|
  {
    var from, to := PieceStart(m, i), Min(PieceStart(m, i + 1), |m.payload|);
    var end := 32 + m.headerSize + to - from;
    && |page| == 1024 && from <= to && end <= 1024
    && NumberAt(page, 0, 8, LeftOver(m))
    && NumberAt(page, 8, 4, i % 0x1_0000_0000)
    && NumberAt(page, 12, 4, Pieces(m) % 0x1_0000_0000)
    && NumberAt(page, 16, 8, id)
    && NumberAt(page, 24, 8, m.headerSize)
    && page[32..32 + m.headerSize] == m.payload[..m.headerSize]
    && page[32 + m.headerSize..end] == m.payload[from..to]
    && ZeroFrom(page, end)
  }

  lemma FragmentNumbers(m: Message, id: nat, i: nat)
    requires IsFragmented(m) && i < NumChunks(m)
    ensures var page := FragmentPage(m, id, i);
            && NumberAt(page, 0, 8, Remainder(m))
            && NumberAt(page, 8, 4, i % U32)
            && NumberAt(page, 12, 4, NumChunks(m) % U32)
            && NumberAt(page, 16, 8, id)
            && NumberAt(page, 24, 8, m.headerSize)
  {
    hide NumberAt, Lay, Remainder, NumChunks, IsFragmented, Chunk, ChunkLength;
    var fields := FragmentFields(m, id, i);
    FragmentOffsets(m, id, i);
    NumberField(fields, 0, 0, 8, Remainder(m));
    NumberField(fields, 1, 8, 4, i % U32);
    NumberField(fields, 2, 12, 4, NumChunks(m) % U32);
    NumberField(fields, 3, 16, 8, id);
    NumberField(fields, 4, 24, 8, m.headerSize);
  }

  lemma FragmentBytes(m: Message, id: nat, i: nat)
    requires IsFragmented(m) && i < NumChunks(m)
    ensures var page, end := FragmentPage(m, id, i), 32 + m.headerSize + ChunkLength(m, i);
            && m.headerSize <= |m.payload| && end <= 1024
            && page[32..32 + m.headerSize] == m.payload[..m.headerSize]
            && page[32 + m.headerSize..end] == Chunk(m, i)
            && ZeroFrom(page, end)
  {
    hide Lay, Offset, Remainder, NumChunks, ChunkLength, Chunk, ZeroFrom;
    FragmentOffsets(m, id, i);
    ChunkInside(m, i);
    LaidBytes(FragmentFields(m, id, i), m.headerSize, ChunkLength(m, i), FRAGMENT_ROOM - m.headerSize - ChunkLength(m, i));
  }

  lemma LaidBytes(fields: seq<Payload>, h: nat, n: nat, pad: nat)
    requires |fields| == 8 && |fields[5]| == h && |fields[6]| == n && fields[7] == Zeros(pad)
    requires Offset(fields, 5) == 32 && Offset(fields, 6) == 32 + h && Offset(fields, 7) == 32 + h + n
    ensures 32 + h + n <= |Lay(fields)|
    ensures Lay(fields)[32..32 + h] == fields[5] && Lay(fields)[32 + h..32 + h + n] == fields[6]
    ensures ZeroFrom(Lay(fields), 32 + h + n)
  {
    hide Lay, Offset, ZeroFrom;
    FieldAt(fields, 5, 32);
    FieldAt(fields, 6, 32 + h);
    LastFieldZero(fields, 32 + h + n, pad);
  }

  lemma ChunkIsSlice(m: Message, i: nat)
    requires IsFragmented(m) && i < NumChunks(m)
    ensures NumChunks(m) == Pieces(m) && Remainder(m) == LeftOver(m)
    ensures var from, to := PieceStart(m, i), Min(PieceStart(m, i + 1), |m.payload|);
            from <= to <= |m.payload| && to - from == ChunkLength(m, i) && Chunk(m, i) == m.payload[from..to]
  {
    ChunkIsPiece(m, i);
    hide Remainder, NumChunks, Pieces, PieceStart, Min, IsFragmented;
  }

  lemma FragmentLayout(m: Message, id: nat, i: nat)
    requires IsFragmented(m) && i < NumChunks(m)
    ensures IsFragmentOf(FragmentPage(m, id, i), m, id, i)
  {
    FragmentNumbers(m, id, i);
    FragmentBytes(m, id, i);
    ChunkIsSlice(m, i);
    hide NumberAt, ZeroFrom, FragmentPage, Remainder, NumChunks, ChunkLength, ChunkStart, Chunk, Pieces, PieceStart, LeftOver;
  }

  // ---------- A whole payload ----------

  /** What is accepted: a header no longer than the payload, and a payload that fits one page or a header that
      leaves a fragment room for one byte.  So a header is refused as too large exactly when the payload exceeds
      one page and the header exceeds the maximum that the error names. */
  lemma AcceptedExactlyWhen(m: Message)
    ensures IsWhole(m) <==> m.headerSize <= |m.payload| <= 1000
    ensures IsFragmented(m) <==> m.headerSize <= |m.payload| && |m.payload| > 1000 && m.headerSize <= 991
    ensures m.headerSize <= |m.payload| && !IsWhole(m) && !IsFragmented(m) <==>
            m.headerSize <= |m.payload| && |m.payload| > 1000 && m.headerSize > 991
    ensures FRAGMENT_ROOM - 1 == 991
  {
  }

  /** What the relay accepts of the gateway: eight octets of header size, which is no more than the payload before
      them, and no more than 991 if the payload exceeds one page. */
  lemma RelayableExactlyWhen(frame: Payload)
    ensures Relayable(frame) <==>
            |frame| >= 8 && var n, h := |frame| - 8, FromLe(frame[|frame| - 8..]); h <= n && (n > 1000 ==> h <= 991)
  {
  }

  /** The pages of an accepted payload, all of them. */
  lemma PagesLayout(m: Message, id: nat)
    requires m.headerSize <= |m.payload| && (|m.payload| > 1000 ==> m.headerSize <= 991)
    ensures IsWhole(m) || IsFragmented(m)
    ensures |m.payload| <= 1000 ==> PagesOf(m, id) == [WholePage(m)]
    ensures |m.payload| > 1000 ==>
              && |PagesOf(m, id)| == Pieces(m)
              && forall i: nat | i < Pieces(m) :: IsFragmentOf(PagesOf(m, id)[i], m, id, i)
  {
    if |m.payload| > 1000 {
      ChunksFillBody(m);
      ChunkIsPiece(m, 0);
      forall i: nat | i < Pieces(m) ensures IsFragmentOf(PagesOf(m, id)[i], m, id, i) {
        FragmentLayout(m, id, i);
        assert PagesOf(m, id)[i] == FragmentPage(m, id, i);
      }
    }
  }
}
