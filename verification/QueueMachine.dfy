/** The message queue as a machine: one pusher and any number of consumers, interleaved.

    A step is what one party does while it holds the locks it needs.  One iteration of the pruning
    loop is one step; between two iterations the walker keeps the mutex and the payload lock of its
    current node, which is what `Free` stands for.  A push is cut at every lock it drops. */
module QueueMachine {
  import opened Bytes
  import opened Chains
  import opened Options
  import opened SoundGraph

  type ConsumerId = nat

  datatype Phase =
    | Idle                                                             // between calls
    | Ready(ticket: nat)                                               // in `next`, about to try
    | Walking(claimed: bool, probe: nat, promise: Option<nat>)         // in the pruning loop
    | Parked(ticket: nat)                                              // in `next`, waiting
    | Unregistered                                                     // dropping, off the active list
    | Detached                                                         // dropping, off its node
    | Gone                                                             // drop tracker released

  /** `handed` lists the messages returned so far; it is history, the program does not keep it. */
  datatype Consumer = Consumer(cursor: nat, phase: Phase, handed: seq<nat>)

  datatype Pusher =
    | Quiet
    | Chasing(at: nat, message: Payload, snapshot: set<ConsumerId>)    // looking for the insertion point
    | Linked(node: nat)                                                // linked, waiters not yet notified

  /** `sent` lists every payload ever linked; it is history, the program does not keep it. */
  datatype State = State(
    sent: seq<Payload>,
    next: Links,
    payload: seq<Option<Payload>>,
    targets: seq<Option<set<ConsumerId>>>,
    last: nat,
    pusher: Pusher,
    notified: nat,
    active: set<ConsumerId>,
    consumers: map<ConsumerId, Consumer>)

  datatype Event =
    | Create(c: ConsumerId)
    | TakeTicket(c: ConsumerId)
    | Start(c: ConsumerId)
    | Advance(c: ConsumerId)
    | Wake(c: ConsumerId)
    | Cancel(c: ConsumerId)
    | Unregister(c: ConsumerId)
    | Detach(c: ConsumerId)
    | Die(c: ConsumerId)
    | Claim(m: nat)
    | BeginPush(message: Payload)
    | Hop
    | Notify

  const INITIAL := State([], [TAIL, TAIL], [None, None], [None, None], ROOT, Quiet, 0, {}, map[])

  function Live(s: State): (live: set<nat>)
    ensures forall m :: m in live <==> 0 <= m < |s.payload| && s.payload[m].Some?
  {
    set m: nat | m < |s.payload| && s.payload[m].Some?
  }

  /** No walker stands on `x`: its mutex, and the write lock of its payload, can be had. */
  predicate Free(s: State, x: nat) {
    forall c | c in s.consumers :: s.consumers[c].phase.Walking? ==> s.consumers[c].cursor != x
  }

  /** The drop tracker of `c` has a strong reference. */
  predicate Alive(s: State, c: ConsumerId) {
    c in s.consumers && s.consumers[c].phase != Gone
  }

  function At(s: State, c: ConsumerId): Phase
    requires c in s.consumers
  {
    s.consumers[c].phase
  }

  predicate WasHanded(s: State, m: nat) {
    exists c | c in s.consumers :: m in s.consumers[c].handed
  }

  /** `check_should_now_autodrop` on the current node of `c`. */
  function Settle(s: State, c: ConsumerId): State
    requires c in s.consumers && s.consumers[c].cursor < |s.payload| == |s.targets|
  {
    var m := s.consumers[c].cursor;
    match s.targets[m]
    case None => s
    case Some(waiting) =>
      var left := waiting - {c};
      s.(targets := s.targets[m := Some(left)],
         payload := if forall d | d in left :: !Alive(s, d) then s.payload[m := None] else s.payload)
  }

  function Become(s: State, c: ConsumerId, phase: Phase): State
    requires c in s.consumers
  {
    s.(consumers := s.consumers[c := s.consumers[c].(phase := phase)])
  }

  predicate InRange(s: State) {
    && |s.next| == |s.payload| == |s.targets|
    && ROOT < |s.next|
    && (forall x | 0 <= x < |s.next| :: s.next[x] < |s.next|)
    && 0 < s.last < |s.next|
    && (forall c | c in s.consumers :: 0 < s.consumers[c].cursor < |s.next|)
    && (forall c | c in s.consumers && s.consumers[c].phase.Walking? :: s.consumers[c].phase.probe < |s.next|)
    && (s.pusher.Chasing? ==> 0 < s.pusher.at < |s.next|)
  }

  predicate Enabled(s: State, e: Event)
    requires InRange(s)
  {
    match e
    case Create(c) => c !in s.consumers
    case TakeTicket(c) => c in s.consumers && At(s, c).Idle?
    case Start(c) => c in s.consumers && (At(s, c).Idle? || At(s, c).Ready?) && Free(s, s.consumers[c].cursor)
    case Advance(c) => c in s.consumers && At(s, c).Walking? && Free(s, At(s, c).probe)
    case Wake(c) => c in s.consumers && At(s, c).Parked? && At(s, c).ticket < s.notified
    case Cancel(c) => c in s.consumers && At(s, c).Parked?
    case Unregister(c) => c in s.consumers && At(s, c).Idle?
    case Detach(c) => c in s.consumers && At(s, c).Unregistered? && Free(s, s.consumers[c].cursor)
    case Die(c) => c in s.consumers && At(s, c).Detached?
    case Claim(m) => m < |s.next| && WasHanded(s, m) && Free(s, m)
    case BeginPush(_) => s.pusher.Quiet?
    case Hop => s.pusher.Chasing? && Free(s, s.pusher.at)
    case Notify => s.pusher.Linked?
  }

  /** One iteration of the pruning loop of `c`, standing on `a` and looking at `b`. */
  function Iterate(s: State, c: ConsumerId): State
    requires InRange(s) && c in s.consumers && At(s, c).Walking?
  {
    var a := s.consumers[c].cursor;
    var Walking(claimed, b, promise) := At(s, c);
    if b == TAIL then
      Become(s.(next := s.next[a := b]), c, match promise case None => Idle case Some(t) => Parked(t))
    else if s.payload[b].Some? then
      s.(next := s.next[a := b],
         consumers := s.consumers[c := Consumer(b, Idle, s.consumers[c].handed + [b])])
    else
      var onward := s.next[b];
      var skipped := s.next[a := onward];
      Become(s.(next := if claimed then skipped else skipped[b := a]), c, Walking(claimed, onward, promise))
  }

  function Apply(s: State, e: Event): State
    requires InRange(s) && Enabled(s, e)
  {
    match e
    case Create(c) =>
      s.(active := (set d | d in s.active && Alive(s, d)) + {c},
         consumers := s.consumers[c := Consumer(ROOT, Idle, [])])
    case TakeTicket(c) => Become(s, c, Ready(s.notified))
    case Start(c) =>
      var t := Settle(s, c);
      var a := s.consumers[c].cursor;
      Become(t, c, Walking(t.payload[a].None?, t.next[a], if At(s, c).Ready? then Some(At(s, c).ticket) else None))
    case Advance(c) => Iterate(s, c)
    case Wake(c) => Become(s, c, Ready(s.notified))
    case Cancel(c) => Become(s, c, Idle)
    case Unregister(c) => Become(s.(active := s.active - {c}), c, Unregistered)
    case Detach(c) => Become(Settle(s, c), c, Detached)
    case Die(c) => Become(s, c, Gone)
    case Claim(m) => s.(payload := s.payload[m := None])
    case BeginPush(message) => s.(pusher := Chasing(s.last, message, s.active))
    case Hop =>
      var at := s.pusher.at;
      if s.next[at] != TAIL then
        s.(pusher := s.pusher.(at := s.next[at]))
      else
        s.(sent := s.sent + [s.pusher.message],
           next := Append(s.next, at),
           payload := s.payload + [Some(s.pusher.message)],
           targets := s.targets + [Some(s.pusher.snapshot)],
           last := |s.next|,
           pusher := Linked(|s.next|))
    case Notify => s.(pusher := Quiet, notified := s.notified + 1)
  }

  /** The payload that was pushed as message `m`. */
  function Sent(s: State, m: nat): Payload
    requires ROOT < m < |s.sent| + 2
  {
    s.sent[m - 2]
  }

  // ---------- The invariant ----------

  /** What the fields look like, apart from the graph. */
  ghost predicate Shape(s: State) {
    && InRange(s)
    && s.payload[TAIL].None? && s.payload[ROOT].None?
    && |s.next| == |s.sent| + 2
    && (forall x | ROOT < x < |s.next| :: s.payload[x] == None || s.payload[x] == Some(Sent(s, x)))
    && (forall x | 0 <= x < |s.next| :: s.targets[x].Some? <==> x > ROOT)
    && (s.pusher.Linked? ==> s.pusher.node == |s.next| - 1 > ROOT)
  }

  ghost predicate GraphInv(s: State) {
    Shape(s) && Sound(s.next, Live(s))
  }

  /** No two walkers hold the same node. */
  ghost predicate Locked(s: State) {
    forall c, d ::
      && c in s.consumers && At(s, c).Walking?
      && d in s.consumers && At(s, d).Walking?
      && s.consumers[c].cursor == s.consumers[d].cursor
      ==> c == d
  }

  /** Of a waiter at `u` that no notification has reached: what it could be given is what the
      pusher has linked and is about to announce. */
  ghost predicate NothingUnannounced(next: Links, live: set<nat>, u: nat, pusher: Pusher)
    requires Grounded(next) && u < |next|
  {
    forall m: nat :: On(next, u, m) && m in live && m > u ==> pusher == Linked(m)
  }

  /** A consumer stands on what it was handed last.  A walker's own copy of its next node never
      goes stale, and what it found out about its own payload stays true, because nobody else can
      get at its node. */
  ghost predicate ConsumerInv(s: State, c: ConsumerId)
    requires GraphInv(s) && c in s.consumers
  {
    var Consumer(a, phase, handed) := s.consumers[c];
    && (forall m | m in handed :: ROOT < m < |s.next|)
    && a == (if handed == [] then ROOT else handed[|handed| - 1])
    && (phase.Ready? ==> phase.ticket <= s.notified)
    && (phase.Walking? ==>
          && phase.probe == s.next[a]
          && (phase.claimed <==> s.payload[a].None?)
          && (phase.promise.Some? ==> phase.promise.value <= s.notified))
    && (phase.Parked? ==>
          && phase.ticket <= s.notified
          && (phase.ticket == s.notified ==> NothingUnannounced(s.next, Live(s), a, s.pusher)))
  }

  ghost predicate Inv(s: State) {
    && GraphInv(s)
    && Locked(s)
    && (forall c | c in s.consumers :: ConsumerInv(s, c))
  }

  lemma InvStart()
    ensures Inv(INITIAL)
  {
    SoundStart();
    assert Live(INITIAL) == {};
  }

  // ---------- Every step keeps it ----------

  /** Taking a payload out of a free node. */
  lemma TakeKeepsInv(s: State, m: nat, t: State)
    requires Inv(s) && m < |s.next| && Free(s, m)
    requires t == s.(payload := s.payload[m := None])
    ensures Inv(t)
  {
    assert Live(t) <= Live(s);
    ClaimSound(s.next, Live(s), Live(t));
    forall d | d in t.consumers ensures ConsumerInv(t, d) {
      assert ConsumerInv(s, d);
    }
  }

  lemma RetargetKeepsInv(s: State, m: nat, left: set<ConsumerId>)
    requires Inv(s) && ROOT < m < |s.next|
    ensures Inv(s.(targets := s.targets[m := Some(left)]))
  {
    var t := s.(targets := s.targets[m := Some(left)]);
    assert Live(t) == Live(s);
    forall d | d in t.consumers ensures ConsumerInv(t, d) {
      assert ConsumerInv(s, d);
    }
  }

  lemma SettleKeepsInv(s: State, c: ConsumerId)
    requires Inv(s) && c in s.consumers && Free(s, s.consumers[c].cursor)
    ensures Inv(Settle(s, c))
  {
    var m := s.consumers[c].cursor;
    if s.targets[m].Some? {
      var left := s.targets[m].value - {c};
      RetargetKeepsInv(s, m, left);
      if forall d | d in left :: !Alive(s, d) {
        TakeKeepsInv(s.(targets := s.targets[m := Some(left)]), m, Settle(s, c));
      }
    }
  }

  /** A consumer that changes phase only, or is handed a message, leaves the others alone. */
  lemma BecomeKeepsInv(s: State, c: ConsumerId, consumer: Consumer, t: State)
    requires Inv(s) && InRange(t)
    requires t == s.(active := t.active, consumers := s.consumers[c := consumer])
    requires consumer.phase.Walking? ==> Free(s, consumer.cursor)
    requires GraphInv(t) ==> ConsumerInv(t, c)
    ensures Inv(t)
  {
    assert Live(t) == Live(s);
    assert GraphInv(t);
    forall d | d in t.consumers ensures ConsumerInv(t, d) {
      if d != c {
        assert ConsumerInv(s, d);
      }
    }
  }

  /** A pruning iteration is `Prune` on the graph. */
  lemma IterationPrunes(s: State, c: ConsumerId)
    requires Inv(s) && Enabled(s, Advance(c)) && At(s, c).probe != TAIL && s.payload[At(s, c).probe].None?
    ensures CanPrune(s.next, s.consumers[c].cursor)
    ensures At(s, c).probe == s.next[s.consumers[c].cursor] && At(s, c).probe !in Live(s)
    ensures At(s, c).claimed <==> s.consumers[c].cursor !in Live(s)
    ensures Iterate(s, c).next == Prune(s.next, s.consumers[c].cursor, !At(s, c).claimed)
  {
    assert ConsumerInv(s, c);
  }

  lemma PruneKeepsGraph(s: State, c: ConsumerId)
    requires Inv(s) && Enabled(s, Advance(c)) && At(s, c).probe != TAIL && s.payload[At(s, c).probe].None?
    ensures GraphInv(Iterate(s, c))
  {
    IterationPrunes(s, c);
    assert Live(Iterate(s, c)) == Live(s);
    PruneSound(s.next, Live(s), s.consumers[c].cursor, !At(s, c).claimed);
  }

  lemma PruneKeepsOther(s: State, c: ConsumerId, d: ConsumerId)
    requires Inv(s) && Enabled(s, Advance(c)) && At(s, c).probe != TAIL && s.payload[At(s, c).probe].None?
    requires d in s.consumers && d != c
    ensures GraphInv(Iterate(s, c)) && ConsumerInv(Iterate(s, c), d)
  {
    PruneKeepsGraph(s, c);
    IterationPrunes(s, c);
    assert ConsumerInv(s, d);
    var t := Iterate(s, c);
    var a, u := s.consumers[c].cursor, s.consumers[d].cursor;
    assert Live(t) == Live(s);
    if At(s, d).Walking? {
      assert u != a && u != s.next[a];
    }
    if At(s, d).Parked? && At(s, d).ticket == s.notified {
      forall m: nat | On(t.next, u, m) && m in Live(t) && m > u ensures t.pusher == Linked(m) {
        PruneBringsNothingNewer(s.next, Live(s), a, !At(s, c).claimed, u, m);
        assert On(s.next, u, m);
      }
    }
  }

  lemma ReachedTailKeepsInv(s: State, c: ConsumerId)
    requires Inv(s) && Enabled(s, Advance(c)) && At(s, c).probe == TAIL
    ensures Inv(Iterate(s, c))
  {
    var t := Iterate(s, c);
    var a := s.consumers[c].cursor;
    assert ConsumerInv(s, c);
    assert s.next[a := TAIL] == s.next;
    forall m: nat | On(s.next, a, m) ensures m == a {
      OnStep(s.next, a, m);
      OnStep(s.next, TAIL, m);
    }
    BecomeKeepsInv(s, c, t.consumers[c], t);
  }

  lemma FoundKeepsInv(s: State, c: ConsumerId)
    requires Inv(s) && Enabled(s, Advance(c)) && s.payload[At(s, c).probe].Some?
    ensures Inv(Iterate(s, c))
  {
    var t := Iterate(s, c);
    assert ConsumerInv(s, c);
    assert s.next[s.consumers[c].cursor := At(s, c).probe] == s.next;
    assert At(s, c).probe in Live(s);
    BecomeKeepsInv(s, c, t.consumers[c], t);
  }

  lemma PruneKeepsSelf(s: State, c: ConsumerId)
    requires Inv(s) && Enabled(s, Advance(c)) && At(s, c).probe != TAIL && s.payload[At(s, c).probe].None?
    ensures GraphInv(Iterate(s, c)) && ConsumerInv(Iterate(s, c), c)
  {
    PruneKeepsGraph(s, c);
    IterationPrunes(s, c);
    PruneApart(s.next, s.consumers[c].cursor);
    assert ConsumerInv(s, c);
  }

  lemma PruneKeepsInv(s: State, c: ConsumerId)
    requires Inv(s) && Enabled(s, Advance(c)) && At(s, c).probe != TAIL && s.payload[At(s, c).probe].None?
    ensures Inv(Iterate(s, c))
  {
    PruneKeepsSelf(s, c);
    forall d | d in s.consumers ensures ConsumerInv(Iterate(s, c), d) {
      if d != c {
        PruneKeepsOther(s, c, d);
      }
    }
  }

  lemma StartKeepsSelf(s: State, c: ConsumerId)
    requires GraphInv(s) && Enabled(s, Start(c)) && ConsumerInv(s, c)
    ensures InRange(Apply(s, Start(c)))
    ensures GraphInv(Apply(s, Start(c))) ==> ConsumerInv(Apply(s, Start(c)), c)
  {
  }

  lemma StartKeepsInv(s: State, c: ConsumerId)
    requires Inv(s) && Enabled(s, Start(c))
    ensures Inv(Apply(s, Start(c)))
  {
    SettleKeepsInv(s, c);
    assert ConsumerInv(s, c);
    StartKeepsSelf(s, c);
    BecomeKeepsInv(Settle(s, c), c, Apply(s, Start(c)).consumers[c], Apply(s, Start(c)));
  }

  lemma LinkKeepsGraph(s: State)
    requires Inv(s) && Enabled(s, Hop) && s.next[s.pusher.at] == TAIL
    ensures GraphInv(Apply(s, Hop))
    ensures Live(Apply(s, Hop)) == Live(s) + {|s.next|}
  {
    assert Live(Apply(s, Hop)) == Live(s) + {|s.next|};
    AppendSound(s.next, Live(s), s.pusher.at);
  }

  lemma LinkKeepsConsumer(s: State, d: ConsumerId)
    requires Inv(s) && Enabled(s, Hop) && s.next[s.pusher.at] == TAIL && d in s.consumers
    ensures GraphInv(Apply(s, Hop)) && ConsumerInv(Apply(s, Hop), d)
  {
    LinkKeepsGraph(s);
    var t := Apply(s, Hop);
    assert ConsumerInv(s, d);
    var u := s.consumers[d].cursor;
    if At(s, d).Parked? && At(s, d).ticket == s.notified {
      forall m: nat | On(t.next, u, m) && m in Live(t) && m > u ensures t.pusher == Linked(m) {
        AppendOn(s.next, s.pusher.at, u, m);
      }
    }
  }

  lemma LinkKeepsInv(s: State)
    requires Inv(s) && Enabled(s, Hop) && s.next[s.pusher.at] == TAIL
    ensures Inv(Apply(s, Hop))
  {
    LinkKeepsGraph(s);
    forall d | d in s.consumers ensures ConsumerInv(Apply(s, Hop), d) {
      LinkKeepsConsumer(s, d);
    }
  }

  /** Steps of the pusher that link nothing. */
  predicate LinksNothing(s: State, e: Event)
    requires InRange(s) && Enabled(s, e)
  {
    e.BeginPush? || e.Notify? || (e.Hop? && s.next[s.pusher.at] != TAIL)
  }

  lemma PusherStepKeepsConsumer(s: State, e: Event, d: ConsumerId)
    requires Inv(s) && Enabled(s, e) && LinksNothing(s, e) && d in s.consumers
    ensures GraphInv(Apply(s, e)) && ConsumerInv(Apply(s, e), d)
  {
    assert Live(Apply(s, e)) == Live(s);
    assert ConsumerInv(s, d);
  }

  lemma PusherStepKeepsInv(s: State, e: Event)
    requires Inv(s) && Enabled(s, e) && LinksNothing(s, e)
    ensures Inv(Apply(s, e))
  {
    assert Live(Apply(s, e)) == Live(s);
    assert GraphInv(Apply(s, e));
    forall d | d in s.consumers ensures ConsumerInv(Apply(s, e), d) {
      PusherStepKeepsConsumer(s, e, d);
    }
  }

  /** Steps of one consumer outside the pruning loop. */
  lemma ConsumerStepKeepsInv(s: State, e: Event)
    requires Inv(s) && Enabled(s, e)
    requires e.Create? || e.TakeTicket? || e.Wake? || e.Cancel? || e.Unregister? || e.Die?
    ensures Inv(Apply(s, e))
  {
    assert e.c in s.consumers ==> ConsumerInv(s, e.c);
    var t := Apply(s, e);
    BecomeKeepsInv(s, e.c, t.consumers[e.c], t);
  }

  lemma DetachKeepsInv(s: State, c: ConsumerId)
    requires Inv(s) && Enabled(s, Detach(c))
    ensures Inv(Apply(s, Detach(c)))
  {
    SettleKeepsInv(s, c);
    var t := Apply(s, Detach(c));
    assert ConsumerInv(Settle(s, c), c);
    BecomeKeepsInv(Settle(s, c), c, t.consumers[c], t);
  }

  /** The invariant holds after every step of every party. */
  lemma StepKeepsInv(s: State, e: Event)
    requires Inv(s) && Enabled(s, e)
    ensures Inv(Apply(s, e))
  {
    match e {
      case Start(c) =>
        StartKeepsInv(s, c);
      case Advance(c) =>
        if At(s, c).probe == TAIL {
          ReachedTailKeepsInv(s, c);
        } else if s.payload[At(s, c).probe].Some? {
          FoundKeepsInv(s, c);
        } else {
          PruneKeepsInv(s, c);
        }
      case Detach(c) =>
        DetachKeepsInv(s, c);
      case Claim(m) =>
        TakeKeepsInv(s, m, Apply(s, e));
      case Hop =>
        if s.next[s.pusher.at] == TAIL {
          LinkKeepsInv(s);
        } else {
          PusherStepKeepsInv(s, e);
        }
      case BeginPush(_) => PusherStepKeepsInv(s, e);
      case Notify => PusherStepKeepsInv(s, e);
      case _ => ConsumerStepKeepsInv(s, e);
    }
  }

  // ---------- What a step does to the graph ----------

  /** The step is an iteration that takes a node out. */
  predicate Prunes(s: State, e: Event)
    requires InRange(s)
  {
    && e.Advance? && e.c in s.consumers && At(s, e.c).Walking?
    && At(s, e.c).probe != TAIL && s.payload[At(s, e.c).probe].None?
  }

  /** The step puts a message in. */
  predicate Inserts(s: State, e: Event)
    requires InRange(s)
  {
    e.Hop? && s.pusher.Chasing? && s.next[s.pusher.at] == TAIL
  }

  /** Every step is one of the rewrites, or leaves the graph alone and makes no message live. */
  lemma StepRewrites(s: State, e: Event)
    requires Inv(s) && Enabled(s, e)
    ensures if Prunes(s, e) then
              var a, back := s.consumers[e.c].cursor, !At(s, e.c).claimed;
              && CanPrune(s.next, a) && s.next[a] !in Live(s) && (back ==> a in Live(s))
              && Apply(s, e).next == Prune(s.next, a, back) && Live(Apply(s, e)) == Live(s)
            else if Inserts(s, e) then
              && CanAppend(s.next, s.pusher.at)
              && Apply(s, e).next == Append(s.next, s.pusher.at) && Live(Apply(s, e)) == Live(s) + {|s.next|}
            else
              Apply(s, e).next == s.next && Live(Apply(s, e)) <= Live(s)
  {
    match e {
      case Advance(c) =>
        assert ConsumerInv(s, c);
        if Prunes(s, e) {
          IterationPrunes(s, c);
        } else {
          assert Apply(s, e).next == s.next;
        }
      case Hop =>
        if Inserts(s, e) {
          LinkKeepsGraph(s);
        }
      case _ =>
    }
  }
}
