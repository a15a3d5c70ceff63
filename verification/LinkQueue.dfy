/** The queue as the program keeps it: nodes that point at each other, changed in place.  One call
    at a time; what several callers do to each other is the business of `QueueMachine`. */
module LinkQueue {
  import opened Bytes
  import opened Chains
  import opened Options
  import opened SoundGraph
  import opened Walks

  type ConsumerId = nat

  /** What a consumer holds as long as it is there: `strong` until it is dropped. */
  class DropTracker {
    var strong: bool

    constructor ()
      ensures strong
    {
      strong := true;
    }
  }

  /** Consumers by id, each with a weak reference to its tracker.  Ids are drawn at random: two consumers
      can have the same one, and then the later takes the place of the earlier. */
  type Snapshot = map<ConsumerId, DropTracker>

  predicate AllDead(waiting: Snapshot)
    reads waiting.Values
  {
    forall c | c in waiting :: !waiting[c].strong
  }

  /** The consumers a message waits for, once `c` has left it. */
  function Without(targets: Option<Snapshot>, c: ConsumerId): Option<Snapshot> {
    match targets
    case None => None
    case Some(waiting) => Some(waiting - {c})
  }

  /** A message that waits for nobody who is still there. */
  predicate Released(targets: Option<Snapshot>)
    reads if targets.Some? then targets.value.Values else {}
  {
    targets.Some? && AllDead(targets.value)
  }

  /** The global table of consumers. */
  class Registry {
    var active: Snapshot

    constructor ()
      ensures active == map[]
    {
      active := map[];
    }
  }

  /** A `NextMessage` behind its mutex.  `place` is its number in `LinkMessageQueue.nodes`. */
  class Node {
    ghost const place: nat
    var payload: Option<Payload>
    var next: Node?
    var targets: Option<Snapshot>

    constructor (payload: Option<Payload>, next: Node?, targets: Option<Snapshot>, ghost place: nat)
      ensures this.payload == payload && this.next == next && this.targets == targets && this.place == place
    {
      this.payload, this.next, this.targets, this.place := payload, next, targets, place;
    }

    method IsClaimed() returns (claimed: bool)
      ensures claimed <==> payload.None?
    {
      claimed := payload.None?;
    }

    /** Takes the payload; a second claim gets nothing. */
    method Claim() returns (taken: Option<Payload>)
      modifies this`payload
      ensures taken == old(payload) && payload == None
    {
      taken := payload;
      payload := None;
    }

    /** `check_should_now_autodrop`. */
    method CheckShouldNowAutodrop(c: ConsumerId)
      modifies this`payload, this`targets
      ensures targets == Without(old(targets), c)
      ensures payload == if Released(targets) then None else old(payload)
    {
      if targets.Some? {
        targets := Some(targets.value - {c});
        if AllDead(targets.value) {
          var _ := Claim();
        }
      }
    }
  }

  class LinkMessageQueue {
    const root: Node
    const tail: Node
    const registry: Registry
    var last: Node
    var notified: nat

    /** All nodes ever made, by number, and their `next` graph. */
    ghost var nodes: seq<Node>
    ghost var links: Links

    /** The graph is the one the nodes spell out. */
    ghost predicate Linked()
      reads this`nodes, this`links, nodes`next
    {
      && ROOT < |nodes| == |links|
      && nodes[TAIL] == tail && nodes[ROOT] == root && tail.next == null
      && (forall i {:trigger nodes[i]} | 0 <= i < |nodes| :: nodes[i].place == i)
      && (forall i {:trigger links[i]} | 0 <= i < |links| :: links[i] < |nodes|)
      && (forall i {:trigger nodes[i].next} | 0 < i < |nodes| :: nodes[i].next == nodes[links[i]])
    }

    /** The messages that still hold their payload. */
    ghost function Live(): (live: set<nat>)
      reads this`nodes, nodes`payload
      ensures forall m :: m in live <==> 0 <= m < |nodes| && nodes[m].payload.Some?
    {
      set m: nat | m < |nodes| && nodes[m].payload.Some?
    }

    ghost predicate Has(node: Node)
      reads this`nodes
    {
      node.place < |nodes| && nodes[node.place] == node
    }

    /** `node` is the first message behind number `a` in the graph `before`; null if there is none. */
    ghost predicate IsFirst(before: Links, a: nat, node: Node?)
      requires CanWalk(before, a) && |before| <= |nodes|
      reads this`nodes, nodes`payload
    {
      var first := First(before, Live(), a);
      node == if first == TAIL then null else nodes[first]
    }

    ghost predicate Valid()
      reads this`nodes, this`links, this`last, nodes`next
    {
      && Linked()
      && Grounded(links)
      && Has(last) && last != tail
    }

    constructor (registry: Registry)
      ensures Valid() && this.registry == registry
      ensures nodes == [tail, root] && links == [TAIL, TAIL] && Live() == {}
      ensures root.targets == None && last == root && notified == 0
      ensures fresh(nodes)
    {
      var end := new Node(None, null, None, TAIL);
      var start := new Node(None, end, None, ROOT);
      root, tail, last := start, end, start;
      this.registry := registry;
      notified := 0;
      nodes, links := [end, start], [TAIL, TAIL];
      new;
      SoundStart();
    }

    /** Follows `next` from `last`, which may have been pruned long ago, to the node that points at
        the tail. */
    method FindInsertionPoint() returns (at: Node)
      requires Valid()
      ensures Has(at) && at != tail && at.next == tail
      ensures at.place == End(links, last.place) && links[at.place] == TAIL
    {
      at := last;
      while at.next != tail
        invariant Has(at) && at != tail
        invariant End(links, at.place) == End(links, last.place)
        decreases Dist(links, at.place)
      {
        DistStep(links, at.place);
        at := at.next;
      }
    }

    /** Puts `newNode`, which points at the tail already, behind `at`. */
    method LinkBehind(at: Node, newNode: Node)
      requires Linked() && Has(at) && at != tail && links[at.place] == TAIL
      requires newNode.place == |nodes| && newNode.next == tail && newNode.payload.Some?
      modifies this`nodes, this`links, at`next
      ensures Linked() && nodes == old(nodes) + [newNode]
      ensures links == Append(old(links), at.place)
      ensures Live() == old(Live()) + {newNode.place}
    {
      at.next := newNode;
      links := Append(links, at.place);
      nodes := nodes + [newNode];
      assert forall m | m in old(nodes) :: m.payload == old(m.payload);
    }

    /** Puts `newNode` behind the end of the chain of `last`, and tells the waiters. */
    method Insert(newNode: Node)
      requires Valid()
      requires newNode.place == |nodes| && newNode.next == tail && newNode.payload.Some?
      modifies this, nodes`next
      ensures nodes == old(nodes) + [newNode] && last == newNode
      ensures Valid()
      ensures links == old(Append(links, End(links, last.place)))
      ensures Live() == old(Live()) + {newNode.place}
      ensures notified == old(notified) + 1
    {
      var at := FindInsertionPoint();
      AppendGrounded(links, at.place);
      LinkBehind(at, newNode);
      last := newNode;
      notified := notified + 1;
    }

    /** Pushes a message for every consumer registered now. */
    method Push(message: Payload)
      requires Valid()
      modifies this, nodes`next
      ensures nodes == old(nodes) + [last] && fresh(last)
      ensures last.payload == Some(message) && last.targets == Some(registry.active)
      ensures Valid()
      ensures links == old(Append(links, End(links, last.place)))
      ensures Live() == old(Live()) + {last.place}
      ensures notified == old(notified) + 1
    {
      var newNode := new Node(Some(message), tail, Some(registry.active), |nodes|);
      assert Live() == old(Live());
      Insert(newNode);
    }

    /** A new consumer, at the root.  Those that are gone are taken off the table. */
    method CreateConsumer(id: ConsumerId) returns (consumer: MessageConsumer)
      requires Valid()
      modifies registry
      ensures fresh(consumer) && consumer.current == root && consumer.id == id && consumer.registry == registry
      ensures fresh(consumer.dropTracker) && consumer.dropTracker.strong
      ensures registry.active ==
              (map c | c in old(registry.active) && old(registry.active[c].strong) :: old(registry.active)[c])
              [id := consumer.dropTracker]
    {
      var dropTracker := new DropTracker();
      consumer := new MessageConsumer(root, id, dropTracker, registry);
      registry.active := map c | c in registry.active && registry.active[c].strong :: registry.active[c];
      registry.active := registry.active[id := dropTracker];
    }
  }

  class MessageConsumer {
    var current: Node
    const id: ConsumerId
    const dropTracker: DropTracker
    const registry: Registry

    constructor (current: Node, id: ConsumerId, dropTracker: DropTracker, registry: Registry)
      ensures this.current == current && this.id == id
      ensures this.dropTracker == dropTracker && this.registry == registry
    {
      this.current, this.id, this.dropTracker, this.registry := current, id, dropTracker, registry;
    }

    /** This consumer stands on a node of `queue`, and never on its tail. */
    ghost predicate In(queue: LinkMessageQueue)
      reads this, queue`nodes
    {
      queue.Has(current) && current != queue.tail
    }

    /** Walks to the first message behind the current node that still holds its payload, pruning on
        the way, moves there and returns it; or returns null and stays. */
    method TryNext(ghost queue: LinkMessageQueue) returns (result: Node?)
      requires queue.Valid() && In(queue)
      modifies this`current, current`payload, current`targets, queue`links, queue.nodes`next
      ensures queue.Valid() && In(queue)
      ensures old(current).targets == Without(old(current.targets), id)
      ensures old(current).payload == if Released(old(current).targets) then None else old(current.payload)
      ensures queue.links == Walked(old(queue.links), queue.Live(), old(current.place))
      ensures queue.IsFirst(old(queue.links), old(current.place), result)
      ensures current == if result == null then old(current) else result
    {
      current.CheckShouldNowAutodrop(id);
      ghost var live, a := queue.Live(), current.place;
      WalkEndsAtFirst(queue.links, live, a);
      result := Walk(queue, Walked(queue.links, live, a));
      if result != null {
        current := result;
      }
    }

    /** One iteration: takes `next` out, and points it back unless the current node is claimed. */
    method PruneNext(ghost queue: LinkMessageQueue, next: Node, claimed: bool) returns (onward: Node)
      requires queue.Linked() && In(queue) && queue.Has(next) && next != queue.tail
      requires next.place == queue.links[current.place] && next != current
      modifies queue`links, current`next, next`next
      ensures queue.Linked() && queue.links == Prune(old(queue.links), current.place, !claimed)
      ensures onward == queue.nodes[old(queue.links)[next.place]]
    {
      onward := next.next;
      current.next := onward;
      if !claimed {
        next.next := current;
      }
      queue.links := Prune(queue.links, current.place, !claimed);
    }

    /** The pruning loop. */
    method Walk(ghost queue: LinkMessageQueue, ghost goal: Links) returns (result: Node?)
      requires queue.Linked() && In(queue) && Towards(queue.links, queue.Live(), current.place, goal)
      modifies queue`links, queue.nodes`next
      ensures queue.Linked() && queue.links == goal
      ensures result == if goal[current.place] == TAIL then null else queue.nodes[goal[current.place]]
    {
      ghost var live, a := queue.Live(), current.place;
      var claimed := current.IsClaimed();
      var next := current.next;
      while next.payload.None? && next.next != null
        invariant queue.Linked() && Towards(queue.links, live, a, goal)
        invariant next == queue.nodes[queue.links[a]]
        decreases Dist(queue.links, a)
      {
        TowardsStep(queue.links, live, a, goal);
        next := PruneNext(queue, next, claimed);
      }
      current.next := next;
      result := if next.next != null then next else null;
    }

    /** Dropping a consumer: off the active list, off its node, and last its tracker. */
    method Drop()
      modifies registry, current`payload, current`targets, dropTracker
      ensures registry.active == old(registry.active) - {id} && !dropTracker.strong
      ensures current.targets == Without(old(current.targets), id)
      ensures current.payload == if old(Released(Without(current.targets, id))) then None else old(current.payload)
    {
      registry.active := registry.active - {id};
      current.CheckShouldNowAutodrop(id);
      dropTracker.strong := false;
    }
  }
}
