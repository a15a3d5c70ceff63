/** Messages of 2^32 chunks and more: the chunk count is cut to 32 bits on the way, and the message is lost. */
module Wraparound {
  import opened Bytes
  import opened Pages
  import opened Receiver
  import opened Reassembly

  // ---------- The pages of one message, in any order ----------

  predicate Chunks(m: Message, order: seq<nat>)
    requires IsFragmented(m)
  {
    forall k | 0 <= k < |order| :: order[k] < NumChunks(m)
  }

  /** The table after the first `n` of these pages. */
  function TableOf(m: Message, id: nat, order: seq<nat>, shouldCollect: ShouldCollect, n: nat): Table
    requires IsFragmented(m) && Chunks(m, order) && n <= |order|
    decreases n
  {
    if n == 0 then map[]
    else Receive(TableOf(m, id, order, shouldCollect, n - 1), FragmentPage(m, id, order[n - 1]), shouldCollect).table
  }

  /** What page `n` of them brings. */
  function OutcomeOf(m: Message, id: nat, order: seq<nat>, shouldCollect: ShouldCollect, n: nat): Outcome
    requires IsFragmented(m) && Chunks(m, order) && n < |order|
  {
    Receive(TableOf(m, id, order, shouldCollect, n), FragmentPage(m, id, order[n]), shouldCollect).outcome
  }

  /** The message can be put together from its pages, in some order. */
  ghost predicate CanArrive(m: Message, id: nat, shouldCollect: ShouldCollect)
    requires IsFragmented(m)
  {
    exists order, n: nat ::
      && Chunks(m, order) && n < |order|
      && OutcomeOf(m, id, order, shouldCollect, n) == Completed(m.payload, m.headerSize)
  }

  // ---------- A count that reads zero ----------

  /** With a multiple of 2^32 chunks every page reads as a whole payload, with the id for a header size: the
      receiver panics if that exceeds the room, and takes the remainder for the length otherwise. */
  lemma CountReadsZero(table: Table, m: Message, id: nat, i: nat, shouldCollect: ShouldCollect)
    requires IsFragmented(m) && i < NumChunks(m) && id < U64 && NumChunks(m) % U32 == 0
    ensures var room := Read(FragmentPage(m, id, i)).room;
            Receive(table, FragmentPage(m, id, i), shouldCollect) ==
            Received(table,
                     if id > WHOLE_MAX then Panic
                     else if shouldCollect(room[..id]) then Completed(room[..Remainder(m)], id)
                     else Nothing)
  {
    FragmentPageReads(m, id, i);
    hide FragmentPage, Read;
  }

  // ---------- A count that reads too small ----------

  /** The length the receiver takes the payload to have. */
  function WrongLength(m: Message): (length: nat)
    requires IsFragmented(m) && NumChunks(m) % U32 > 0
  {
    Total(Remainder(m), NumChunks(m) % U32, m.headerSize)
  }

  lemma LengthIsWrong(m: Message)
    requires IsFragmented(m) && NumChunks(m) >= U32 && NumChunks(m) % U32 > 0
    ensures WrongLength(m) != |m.payload|
  {
    TotalIsLength(m, NumChunks(m) % U32);
  }

  /** The entry of the message, if there is one, has the wrong length. */
  ghost predicate WronglyMade(table: Table, m: Message, id: nat)
    requires IsFragmented(m) && NumChunks(m) % U32 > 0
  {
    id in table ==> |table[id].data| == WrongLength(m)
  }

  lemma MergeKeepsLength(entry: Entry, f: Fields)
    requires |f.room| == WHOLE_MAX && HeaderSize(f) <= FRAGMENT_ROOM && f.index < |entry.merged|
    ensures var merged := Merge(entry, f); merged.Some? ==> |merged.value.data| == |entry.data|
  {
    hide HeaderSize, Times;
  }

  lemma WrongEntry(table: Table, m: Message, id: nat, i: nat, f: Fields)
    requires IsFragmented(m) && i < NumChunks(m) && ReadsFragment(f, m, id, i) && NumChunks(m) % U32 > 0
    requires WronglyMade(table, m, id)
    ensures HeaderSize(f) <= FRAGMENT_ROOM && f.count > 0
    ensures |EntryFor(table, f).data| == WrongLength(m)
  {
    hide HeaderSize, Times, NumChunks;
  }

  lemma WrongFragment(table: Table, m: Message, id: nat, i: nat, f: Fields)
    requires IsFragmented(m) && i < NumChunks(m) && ReadsFragment(f, m, id, i) && NumChunks(m) % U32 > 0
    requires WronglyMade(table, m, id)
    ensures HeaderSize(f) <= FRAGMENT_ROOM && f.count > 0
    ensures var received := ReceiveFragment(table, f);
            && WronglyMade(received.table, m, id)
            && (received.outcome.Completed? ==> |received.outcome.payload| == WrongLength(m))
  {
    WrongEntry(table, m, id, i, f);
    var entry := EntryFor(table, f);
    hide HeaderSize, Merge, EntryFor, NumChunks, WrongLength;
    if f.index < |entry.merged| {
      MergeKeepsLength(entry, f);
    }
  }

  lemma WrongPage(table: Table, m: Message, id: nat, i: nat, shouldCollect: ShouldCollect)
    requires IsFragmented(m) && i < NumChunks(m) && id < U64 && NumChunks(m) % U32 > 0
    requires WronglyMade(table, m, id)
    ensures var received := Receive(table, FragmentPage(m, id, i), shouldCollect);
            && WronglyMade(received.table, m, id)
            && (received.outcome.Completed? ==> |received.outcome.payload| == WrongLength(m))
  {
    FragmentPageReads(m, id, i);
    WrongFragment(table, m, id, i, Read(FragmentPage(m, id, i)));
    hide FragmentPage, Read, ReceiveFragment, WronglyMade, WrongLength;
  }

  lemma WrongTable(m: Message, id: nat, order: seq<nat>, shouldCollect: ShouldCollect, n: nat)
    requires IsFragmented(m) && Chunks(m, order) && n <= |order| && id < U64 && NumChunks(m) % U32 > 0
    ensures WronglyMade(TableOf(m, id, order, shouldCollect, n), m, id)
  {
    assert WronglyMade(map[], m, id);
    hide Receive, WronglyMade, NumChunks, IsFragmented;
    for k := 0 to n
      invariant WronglyMade(TableOf(m, id, order, shouldCollect, k), m, id)
    {
      WrongPage(TableOf(m, id, order, shouldCollect, k), m, id, order[k], shouldCollect);
    }
  }

  /** Whatever is completed is not the payload. */
  lemma TooLongNeverArrives(m: Message, id: nat, order: seq<nat>, shouldCollect: ShouldCollect, n: nat)
    requires IsFragmented(m) && NumChunks(m) >= U32 && Chunks(m, order) && n < |order| && id < U64
    ensures OutcomeOf(m, id, order, shouldCollect, n).Completed? ==>
              OutcomeOf(m, id, order, shouldCollect, n).payload != m.payload
  {
    if NumChunks(m) % U32 == 0 {
      CountReadsZero(TableOf(m, id, order, shouldCollect, n), m, id, order[n], shouldCollect);
      hide Receive, TableOf, NumChunks, FragmentPage, Read;
    } else {
      hide Receive, TableOf, WronglyMade, WrongLength;
      WrongTable(m, id, order, shouldCollect, n);
      WrongPage(TableOf(m, id, order, shouldCollect, n), m, id, order[n], shouldCollect);
      LengthIsWrong(m);
    }
  }

  // ---------- Exactly when ----------

  /** All chunks in order. */
  function InOrder(m: Message): (order: seq<nat>)
    requires IsFragmented(m)
    ensures |order| == NumChunks(m) && forall k | 0 <= k < |order| :: order[k] == k
  {
    seq(NumChunks(m), k => k)
  }

  lemma SameTable(m: Message, id: nat, shouldCollect: ShouldCollect, n: nat)
    requires IsFragmented(m) && Countable(m) && id < U64 && n <= NumChunks(m)
    requires Stream(map[id := m], Fragments(m, id))
    ensures TableOf(m, id, InOrder(m), shouldCollect, n) == TableAfter(map[id := m], Fragments(m, id), shouldCollect, n)
  {
    hide Receive, FragmentPage, NumChunks, IsFragmented, Countable;
    for k := 0 to n
      invariant TableOf(m, id, InOrder(m), shouldCollect, k) ==
                TableAfter(map[id := m], Fragments(m, id), shouldCollect, k)
    {
    }
  }

  lemma SameOutcome(m: Message, id: nat, shouldCollect: ShouldCollect, n: nat)
    requires IsFragmented(m) && Countable(m) && id < U64 && n < NumChunks(m)
    requires Stream(map[id := m], Fragments(m, id))
    ensures OutcomeOf(m, id, InOrder(m), shouldCollect, n) == OutcomeAt(map[id := m], Fragments(m, id), shouldCollect, n)
  {
    hide Receive, TableOf, TableAfter, FragmentPage, NumChunks, IsFragmented, Countable;
    SameTable(m, id, shouldCollect, n);
  }

  lemma ShortArrives(m: Message, id: nat, shouldCollect: ShouldCollect)
    requires IsFragmented(m) && Countable(m) && id < U64 && shouldCollect(Header(m))
    ensures CanArrive(m, id, shouldCollect)
  {
    hide OutcomeOf, OutcomeAt, TableAfter, NumChunks, Countable, Stream;
    SentAloneArrives(m, id, shouldCollect);
    SameOutcome(m, id, shouldCollect, NumChunks(m) - 1);
    assert Chunks(m, InOrder(m));
  }

  /** A wanted message can be put together from its pages exactly when it has fewer than 2^32 chunks. */
  lemma ArrivesExactlyWhen(m: Message, id: nat, shouldCollect: ShouldCollect)
    requires IsFragmented(m) && |m.payload| < U64 && id < U64 && shouldCollect(Header(m))
    ensures CanArrive(m, id, shouldCollect) <==> NumChunks(m) < U32
  {
    hide OutcomeOf, NumChunks;
    if NumChunks(m) < U32 {
      ShortArrives(m, id, shouldCollect);
    } else if CanArrive(m, id, shouldCollect) {
      var order, n: nat :|
        && Chunks(m, order) && n < |order|
        && OutcomeOf(m, id, order, shouldCollect, n) == Completed(m.payload, m.headerSize);
      TooLongNeverArrives(m, id, order, shouldCollect, n);
    }
  }

  /** The shortest such message: a header that leaves one byte to a page, and 2^32 bytes of body. */
  lemma AMessageIsTooLong() returns (m: Message)
    ensures IsFragmented(m) && NumChunks(m) == U32 && |m.payload| < U64
  {
    m := Message(Zeros(FRAGMENT_ROOM - 1 + U32), FRAGMENT_ROOM - 1);
    DividesIs(U32, 1);
  }
}
