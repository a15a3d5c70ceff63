/** The receiving side: a table of half-merged payloads, each with its bitmap, its count and its buffer. */
module Merging {
  import opened Bytes
  import opened Pages
  import opened Receiver
  import opened Mesh

  datatype TryRecvResult =
    | OutOfAccessible
    | PotentiallyAvailable
    | NewCompleted(payload: Payload, headerSize: nat)
    | Panicked

  /** What is returned for what a page brings. */
  function ResultOf(outcome: Outcome): TryRecvResult {
    match outcome
    case Panic => Panicked
    case Nothing => PotentiallyAvailable
    case Completed(payload, headerSize) => NewCompleted(payload, headerSize)
  }

  /** A buffer of zeros with the header copied to its front. */
  method NewBuffer(length: nat, header: Payload) returns (buffer: array<byte>)
    requires |header| <= length
    ensures fresh(buffer) && buffer[..] == header + Zeros(length - |header|)
  {
    buffer := new byte[length](_ => 0);
    CopyFromSlice(buffer, 0, header);
    assert buffer[..|header|] == header;
  }

  method Product(i: nat, size: nat) returns (product: nat)
    ensures product == Times(i, size)
  {
    TimesIs(i, size);
    product := i * size;
  }

  class MergeAlloc {
    const merged: array<bool>
    var count: nat
    const data: array<byte>

    ghost function Contents(): Entry
      reads this, merged, data
    {
      Entry(merged[..], count, data[..])
    }

    constructor (f: Fields)
      requires |f.room| == WHOLE_MAX && HeaderSize(f) <= FRAGMENT_ROOM && f.count > 0
      ensures fresh(merged) && fresh(data) && Contents() == NewEntry(f)
    {
      var headerSize := HeaderSize(f);
      var chunkSize := FRAGMENT_ROOM - headerSize;
      var before := Product(f.count - 1, chunkSize);
      var totalLength := headerSize + before + if f.lead == 0 then chunkSize else f.lead;
      assert totalLength == Total(f.lead, f.count, headerSize);
      var allocation := NewBuffer(totalLength, f.room[8..8 + headerSize]);
      var bits := new bool[f.count](_ => false);
      merged, count, data := bits, 0, allocation;
      new;
      assert merged[..] == seq(f.count, _ => false);
    }

    /** Copies the chunk to its place, unless it would not fit. */
    method Merge(f: Fields) returns (fits: bool)
      requires |f.room| == WHOLE_MAX && HeaderSize(f) <= FRAGMENT_ROOM
      requires f.index < merged.Length
      modifies this, merged, data
      ensures fits == Receiver.Merge(old(Contents()), f).Some?
      ensures fits ==> Contents() == Receiver.Merge(old(Contents()), f).value
      ensures !fits ==> Contents() == old(Contents())
    {
      hide WriteAt, HeaderSize, Times;
      var headerSize := HeaderSize(f);
      var chunkSize := FRAGMENT_ROOM - headerSize;
      var before := Product(f.index, chunkSize);
      var start := headerSize + before;
      var length := if f.count == f.index + 1 && f.lead != 0 then f.lead else chunkSize;
      if start + length > data.Length || headerSize + 8 + length > |f.room| {
        return false;
      }
      CopyFromSlice(data, start, f.room[8 + headerSize..8 + headerSize + length]);
      merged[f.index] := true;
      count := count + 1;
      assert merged[..] == old(merged[..])[f.index := true];
      return true;
    }
  }

  /** Making the entry before merging into it is the same as making it while merging. */
  lemma InsertedFirst(table: Table, f: Fields)
    requires |f.room| == WHOLE_MAX && HeaderSize(f) <= FRAGMENT_ROOM && f.count > 0
    ensures var first := ReceiveFragment(table[f.id := EntryFor(table, f)], f);
            var direct := ReceiveFragment(table, f);
            first.outcome == direct.outcome && (direct.outcome != Panic ==> first.table == direct.table)
  {
    hide Merge, NewEntry;
    var entry := EntryFor(table, f);
    assert table[f.id := entry][f.id := entry] == table[f.id := entry];
    assert table[f.id := entry] - {f.id} == table - {f.id};
  }

  class MergeTable {
    var allocations: map<nat, MergeAlloc>
    ghost var table: Table
    ghost var repr: set<object>

    /** No two entries share storage. */
    ghost predicate Apart()
      reads this
    {
      forall a, b | a in allocations && b in allocations && a != b ::
        && allocations[a] != allocations[b]
        && allocations[a].merged != allocations[b].merged
        && allocations[a].data != allocations[b].data
    }

    ghost predicate Valid()
      reads this, repr
    {
      && this !in repr
      && Apart()
      && table.Keys == allocations.Keys
      && (forall id | id in allocations ::
            && allocations[id] in repr && allocations[id].merged in repr && allocations[id].data in repr
            && allocations[id].Contents() == table[id])
    }

    constructor ()
      ensures Valid() && table == map[] && repr == {}
    {
      allocations, table, repr := map[], map[], {};
    }

    /** Finds or makes the entry of a fragment. */
    method FindOrInsert(f: Fields)
      requires Valid()
      requires |f.room| == WHOLE_MAX && HeaderSize(f) <= FRAGMENT_ROOM && f.count > 0
      modifies this
      ensures Valid() && fresh(repr - old(repr))
      ensures table == old(table)[f.id := EntryFor(old(table), f)]
      ensures f.id in allocations
    {
      hide NewEntry, HeaderSize, Total;
      if f.id in allocations {
        assert table == table[f.id := table[f.id]];
        return;
      }
      var alloc := new MergeAlloc(f);
      allocations := allocations[f.id := alloc];
      table := table[f.id := alloc.Contents()];
      repr := repr + {alloc, alloc.merged, alloc.data};
    }

    /** Merges a fragment into the entry of `id`. */
    method MergeInto(id: nat, f: Fields) returns (fits: bool)
      requires Valid() && id in allocations
      requires |f.room| == WHOLE_MAX && HeaderSize(f) <= FRAGMENT_ROOM && f.index < |table[id].merged|
      modifies this`table, repr
      ensures Valid()
      ensures fits == Merge(old(table)[id], f).Some?
      ensures fits ==> table == old(table)[id := Merge(old(table)[id], f).value]
    {
      var alloc := allocations[id];
      fits := alloc.Merge(f);
      table := table[id := alloc.Contents()];
    }

    method Remove(id: nat) returns (data: Payload)
      requires Valid() && id in allocations
      modifies this
      ensures Valid() && repr == old(repr)
      ensures table == old(table) - {id} && data == old(table)[id].data
    {
      data := allocations[id].data[..];
      allocations := allocations - {id};
      table := table - {id};
    }

    /** A fragment that has an entry. */
    method MergeFound(f: Fields) returns (outcome: Outcome)
      requires Valid() && f.id in allocations
      requires |f.room| == WHOLE_MAX && HeaderSize(f) <= FRAGMENT_ROOM && f.count > 0
      modifies this, repr
      ensures Valid() && repr == old(repr)
      ensures outcome == ReceiveFragment(old(table), f).outcome
      ensures !outcome.Panic? ==> table == ReceiveFragment(old(table), f).table
    {
      hide Merge, HeaderSize;
      var alloc := allocations[f.id];
      if f.index >= alloc.merged.Length {
        return Panic;
      }
      if alloc.merged[f.index] {
        assert table == table[f.id := table[f.id]];
        return Nothing;
      }
      var fits := MergeInto(f.id, f);
      if !fits {
        return Panic;
      }
      if f.count != alloc.count {
        return Nothing;
      }
      var data := Remove(f.id);
      assert table == old(table) - {f.id};
      return Completed(data, HeaderSize(f));
    }

    /** A fragment that is wanted. */
    method MergeFragment(f: Fields) returns (outcome: Outcome)
      requires Valid()
      requires |f.room| == WHOLE_MAX && HeaderSize(f) <= FRAGMENT_ROOM && f.count > 0
      modifies this, repr
      ensures Valid() && fresh(repr - old(repr))
      ensures outcome == ReceiveFragment(old(table), f).outcome
      ensures !outcome.Panic? ==> table == ReceiveFragment(old(table), f).table
    {
      InsertedFirst(table, f);
      FindOrInsert(f);
      outcome := MergeFound(f);
    }

    /** Takes one page, if there is one, and does with it what it asks for. */
    method TryRecvStream(channel: PageChannel, shouldCollect: ShouldCollect) returns (result: TryRecvResult)
      requires Valid() && channel !in repr
      modifies this, repr, channel
      ensures Valid() && fresh(repr - old(repr))
      ensures old(channel.pages) == [] ==>
                result == OutOfAccessible && channel.pages == [] && table == old(table)
      ensures old(channel.pages) != [] ==>
                && channel.pages == old(channel.pages)[1..]
                && var received := Receive(old(table), old(channel.pages)[0], shouldCollect);
                   result == ResultOf(received.outcome) && (result != Panicked ==> table == received.table)
    {
      var next := channel.Recv();
      if next.None? {
        return OutOfAccessible;
      }
      var f := Read(next.value);
      if f.count == 0 {
        var payloadLength, headerSize := f.lead, f.id;
        if headerSize > |f.room| {
          return Panicked;
        }
        if !shouldCollect(f.room[..headerSize]) {
          return PotentiallyAvailable;
        }
        if payloadLength > |f.room| {
          return Panicked;
        }
        return NewCompleted(f.room[..payloadLength], headerSize);
      }
      if HeaderSize(f) > FRAGMENT_ROOM {
        return Panicked;
      }
      if !shouldCollect(f.room[8..8 + HeaderSize(f)]) {
        return PotentiallyAvailable;
      }
      var outcome := MergeFragment(f);
      result := ResultOf(outcome);
    }
  }
}
