/** The receiver that asks the mesh and the gateway in turn, updated in place. */
module Combined {
  import opened Bytes
  import opened Pages
  import opened Receiver
  import opened Mesh
  import opened Merging
  import opened WaitBit
  import opened Relay

  class CombinedReceiver {
    const mesh: PageChannel
    const merges: MergeTable
    var inbox: seq<Payload>
    var outbox: seq<Payload>
    var current: Backing
    var bit: bool
    var responses: seq<Response>

    ghost predicate Valid()
      reads this, mesh, merges, merges.repr
    {
      merges.Valid() && mesh !in merges.repr && this !in merges.repr
    }

    ghost function View(): Hub
      reads this, mesh, merges
    {
      Hub(merges.table, mesh.pages, inbox, outbox, current, bit, responses)
    }

    constructor ()
      ensures Valid() && fresh(mesh) && fresh(merges) && View() == Hub(map[], [], [], [], Unset, false, [])
    {
      mesh := new PageChannel();
      merges := new MergeTable();
      inbox, outbox, current, bit, responses := [], [], Unset, false, [];
    }

    /** Takes what responses there are; an error ends it. */
    method WaitStreamDrain() returns (failed: bool)
      requires Valid()
      modifies this`bit, this`responses
      ensures Valid() && View() == Drained(old(View())).hub
      ensures failed == (Drained(old(View())).result == Failure)
    {
      while responses != []
        invariant Valid() && Drained(View()) == Drained(old(View()))
        decreases |responses|
      {
        var response := responses[0];
        responses := responses[1..];
        if response == Failed {
          return true;
        }
        bit := false;
      }
      return false;
    }

    /** A message from the mesh is given to the caller and to the websocket. */
    method AskMesh(shouldCollect: ShouldCollect) returns (result: Result)
      requires Valid()
      modifies this`outbox, mesh, merges, merges.repr
      ensures Valid() && fresh(merges.repr - old(merges.repr))
      ensures var turn := FromMesh(old(View()), shouldCollect);
              result == turn.result && (result != Crashed ==> View() == turn.hub)
    {
      var received := merges.TryRecvStream(mesh, shouldCollect);
      match received {
        case OutOfAccessible => return Result.OutOfAccessible;
        case PotentiallyAvailable => return Result.PotentiallyAvailable;
        case Panicked => return Crashed;
        case NewCompleted(payload, headerSize) =>
          outbox := outbox + [payload + ToLe(headerSize, 8)];
          return Result.NewCompleted(Message(payload, headerSize));
      }
    }

    /** A frame from the websocket is cut back to its payload and sent over the mesh. */
    method AskGateway(identification: nat) returns (result: Result)
      requires Valid()
      modifies this`inbox, mesh
      ensures Valid()
      ensures var turn := FromGateway(old(View()), identification);
              result == turn.result && (result != Result.Panicked ==> View() == turn.hub)
    {
      hide PagesOf;
      if inbox == [] {
        return Result.OutOfAccessible;
      }
      var payload := inbox[0];
      inbox := inbox[1..];
      if |payload| < 8 {
        return Result.Panicked;
      }
      var headerSize := FromLe(payload[|payload| - 8..]);
      payload := payload[..|payload| - 8];
      var error := SendStream(mesh, payload, headerSize, identification);
      if error.Some? {
        return Result.Panicked;
      }
      return Result.PotentiallyAvailable;
    }

    method AskCurrent(shouldCollect: ShouldCollect, identification: nat) returns (result: Result)
      requires Valid()
      modifies this`inbox, this`outbox, mesh, merges, merges.repr
      ensures Valid() && fresh(merges.repr - old(merges.repr))
      ensures var turn := if old(current) == Iox2 then FromMesh(old(View()), shouldCollect) else FromGateway(old(View()), identification);
              result == turn.result && (result != Crashed && result != Result.Panicked ==> View() == turn.hub)
    {
      hide FromMesh, FromGateway;
      if current == Iox2 {
        result := AskMesh(shouldCollect);
      } else {
        result := AskGateway(identification);
      }
    }

    method TryRecvStream(timeUp: bool, shouldCollect: ShouldCollect, identification: nat) returns (result: Result)
      requires Valid()
      modifies this`current, this`bit, this`responses, this`inbox, this`outbox, mesh, merges, merges.repr
      ensures Valid() && fresh(merges.repr - old(merges.repr))
      ensures var turn := TryRecv(old(View()), timeUp, shouldCollect, identification);
              result == turn.result && (result != Crashed && result != Result.Panicked ==> View() == turn.hub)
    {
      hide FromMesh, FromGateway;
      if current == Unset {
        current := Iox2;
      } else if timeUp {
        current := Rotated(current);
      }
      var failed := WaitStreamDrain();
      if failed {
        return Failure;
      }
      var left := 2;
      while left > 0
        invariant Valid() && fresh(merges.repr - old(merges.repr))
        invariant TryBackings(View(), shouldCollect, identification, left) == TryRecv(old(View()), timeUp, shouldCollect, identification)
        decreases left
      {
        var blocked := current == Iox2 && bit;
        if !blocked {
          result := AskCurrent(shouldCollect, identification);
          if result != Result.OutOfAccessible {
            return result;
          }
          current := Rotated(current);
        }
        left := left - 1;
      }
      return Result.OutOfAccessible;
    }
  }
}
