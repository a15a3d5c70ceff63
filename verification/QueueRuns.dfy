/** What holds over whole runs of the queue machine, whatever the interleaving. */
module QueueRuns {
  import opened Chains
  import opened Options
  import opened SoundGraph
  import opened QueueMachine

  /** `ss` are the states of a run and `es` the steps between them. */
  ghost predicate IsRun(ss: seq<State>, es: seq<Event>) {
    && |ss| == |es| + 1
    && ss[0] == INITIAL
    && (forall i: nat {:trigger StepAt(ss, es, i)} :: i < |es| ==> StepAt(ss, es, i))
  }

  ghost predicate StepAt(ss: seq<State>, es: seq<Event>, i: nat) {
    i < |es| < |ss| && StepOf(ss[i], es[i], ss[i + 1])
  }

  ghost predicate StepOf(s: State, e: Event, t: State) {
    InRange(s) && Enabled(s, e) && t == Apply(s, e)
  }

  lemma {:induction false} RunInv(ss: seq<State>, es: seq<Event>, i: nat)
    requires IsRun(ss, es) && i < |ss|
    ensures Inv(ss[i])
  {
    if i == 0 {
      InvStart();
    } else {
      RunInv(ss, es, i - 1);
      assert StepAt(ss, es, i - 1);
      StepKeepsInv(ss[i - 1], es[i - 1]);
    }
  }

  lemma RunShape(ss: seq<State>, es: seq<Event>, i: nat)
    requires IsRun(ss, es) && i < |ss|
    ensures Shape(ss[i])
  {
    RunInv(ss, es, i);
  }

  lemma RunStep(ss: seq<State>, es: seq<Event>, i: nat)
    requires IsRun(ss, es) && i < |es|
    ensures Shape(ss[i]) && Enabled(ss[i], es[i])
    ensures ss[i + 1] == Apply(ss[i], es[i])
  {
    assert StepAt(ss, es, i);
    RunShape(ss, es, i);
  }

  // ---------- The graph ----------

  /** In every reachable state, unfinished walks included, every node reaches the tail and no two
      nodes reach each other. */
  lemma NeverACycle(ss: seq<State>, es: seq<Event>, i: nat)
    requires IsRun(ss, es) && i < |ss|
    ensures Grounded(ss[i].next)
    ensures forall x: nat, y: nat | x < |ss[i].next| && y < |ss[i].next| && On(ss[i].next, x, y) && On(ss[i].next, y, x) ::
              x == y
  {
    RunInv(ss, es, i);
    var next := ss[i].next;
    forall x: nat, y: nat | x < |next| && y < |next| && On(next, x, y) && On(next, y, x) ensures x == y {
      OnAntisymmetric(next, x, y);
    }
  }

  ghost predicate Sorted(chain: seq<nat>) {
    forall i, j :: 0 <= i < j < |chain| ==> chain[i] < chain[j]
  }

  /** In every reachable state the chain of the root and of every unclaimed message meets nodes in
      push order, and any two of these chains are parts of one chain or share no node. */
  lemma ChainsInPushOrder(ss: seq<State>, es: seq<Event>, i: nat, x: nat, y: nat)
    requires IsRun(ss, es) && i < |ss|
    requires x == ROOT || x in Live(ss[i])
    requires y == ROOT || y in Live(ss[i])
    ensures Grounded(ss[i].next) && x < |ss[i].next| && y < |ss[i].next|
    ensures Sorted(Chain(ss[i].next, x))
    ensures On(ss[i].next, x, y) || On(ss[i].next, y, x)
            || (forall z | z in Chain(ss[i].next, x) :: z !in Chain(ss[i].next, y))
  {
    RunInv(ss, es, i);
    var next, live := ss[i].next, Live(ss[i]);
    forall j: nat, k: nat | j < k < |Chain(next, x)| ensures Chain(next, x)[j] < Chain(next, x)[k] {
      ChainSorted(next, live, x, j, k);
    }
    OnStep(next, x, x);
    forall z | z in Chain(next, x) && z in Chain(next, y) ensures On(next, x, y) || On(next, y, x) {
      assert On(next, x, z) && On(next, y, z);
    }
  }

  // ---------- Locks ----------

  /** A walker that cannot take its step waits for a walker strictly nearer to the tail. */
  lemma BlockedByNearer(s: State, c: ConsumerId) returns (d: ConsumerId)
    requires Inv(s) && c in s.consumers && At(s, c).Walking? && !Enabled(s, Advance(c))
    ensures d in s.consumers && At(s, d).Walking?
    ensures s.consumers[d].cursor == s.next[s.consumers[c].cursor]
    ensures Dist(s.next, s.consumers[d].cursor) < Dist(s.next, s.consumers[c].cursor)
  {
    assert ConsumerInv(s, c);
    d :| d in s.consumers && At(s, d).Walking? && s.consumers[d].cursor == At(s, c).probe;
    DistStep(s.next, s.consumers[c].cursor);
  }

  lemma {:induction false} SomeWalkerCanStep(s: State, c: ConsumerId) returns (d: ConsumerId)
    requires Inv(s) && c in s.consumers && At(s, c).Walking?
    ensures d in s.consumers && At(s, d).Walking? && Enabled(s, Advance(d))
    decreases Dist(s.next, s.consumers[c].cursor)
  {
    if Enabled(s, Advance(c)) {
      d := c;
    } else {
      var nearer := BlockedByNearer(s, c);
      d := SomeWalkerCanStep(s, nearer);
    }
  }

  ghost predicate SomeoneWalks(s: State) {
    exists c :: c in s.consumers && At(s, c).Walking?
  }

  ghost predicate SomeWalkerSteps(s: State)
    requires InRange(s)
  {
    exists c :: c in s.consumers && At(s, c).Walking? && Enabled(s, Advance(c))
  }

  /** Every lock that a party is about to ask for can be had. */
  ghost predicate AllLocksFree(s: State)
    requires InRange(s)
  {
    && (s.pusher.Chasing? ==> Enabled(s, Hop))
    && (forall c | c in s.consumers && (At(s, c).Idle? || At(s, c).Ready?) :: Enabled(s, Start(c)))
    && (forall c | c in s.consumers && At(s, c).Unregistered? :: Enabled(s, Detach(c)))
    && (forall m | 0 <= m < |s.next| && WasHanded(s, m) :: Enabled(s, Claim(m)))
  }

  /** What takes no node lock can be done whatever the others do. */
  ghost predicate NobodyIsHeldUp(s: State)
    requires InRange(s)
  {
    && (forall c | c !in s.consumers :: Enabled(s, Create(c)))
    && (forall c | c in s.consumers && At(s, c).Idle? :: Enabled(s, TakeTicket(c)) && Enabled(s, Unregister(c)))
    && (forall c | c in s.consumers && At(s, c).Parked? :: Enabled(s, Cancel(c)))
    && (forall c | c in s.consumers && At(s, c).Detached? :: Enabled(s, Die(c)))
    && (s.pusher.Quiet? ==> forall message :: Enabled(s, BeginPush(message)))
    && (s.pusher.Linked? ==> Enabled(s, Notify))
  }

  /** Deadlock freedom: while anyone holds a node lock, someone who holds one can step; when nobody
      does, every party that wants a lock can have it; and no other step waits for anyone. */
  lemma NoDeadlock(ss: seq<State>, es: seq<Event>, i: nat)
    requires IsRun(ss, es) && i < |ss|
    ensures InRange(ss[i]) && NobodyIsHeldUp(ss[i])
    ensures if SomeoneWalks(ss[i]) then SomeWalkerSteps(ss[i]) else AllLocksFree(ss[i])
  {
    RunInv(ss, es, i);
    NoLockNoWait(ss[i]);
    hide NobodyIsHeldUp, AllLocksFree;
    var s := ss[i];
    if c :| c in s.consumers && At(s, c).Walking? {
      var d := SomeWalkerCanStep(s, c);
    } else {
      NoWalkerNoLock(s);
    }
  }

  lemma NoLockNoWait(s: State)
    requires InRange(s)
    ensures NobodyIsHeldUp(s)
  {
  }

  lemma NoWalkerNoLock(s: State)
    requires Shape(s) && !SomeoneWalks(s)
    ensures AllLocksFree(s)
  {
    forall x: nat ensures Free(s, x) {
    }
  }

  // ---------- Wakeups ----------

  /** No lost wakeup: while a consumer is parked and no notification has come since it took its
      ticket, the only message on its chain newer than its node that can be unclaimed is the one
      that is linked but not yet announced. */
  lemma NoLostWakeup(ss: seq<State>, es: seq<Event>, i: nat, c: ConsumerId, m: nat)
    requires IsRun(ss, es) && i < |ss|
    requires c in ss[i].consumers && At(ss[i], c).Parked? && !(At(ss[i], c).ticket < ss[i].notified)
    requires ss[i].consumers[c].cursor < m && m in Live(ss[i]) && ss[i].pusher != Linked(m)
    ensures Grounded(ss[i].next) && ss[i].consumers[c].cursor < |ss[i].next|
    ensures !On(ss[i].next, ss[i].consumers[c].cursor, m)
  {
    RunInv(ss, es, i);
    assert ConsumerInv(ss[i], c);
  }

  // ---------- What a step does to what can be reached ----------

  lemma AdvanceLosesNothing(s: State, c: ConsumerId, x: nat)
    requires Inv(s) && Enabled(s, Advance(c)) && x < |s.next|
    ensures var t := Iterate(s, c);
            && Live(t) == Live(s) && |t.next| == |s.next| && Grounded(t.next)
            && (Pending(t.next, x, Live(t)) == Pending(s.next, x, Live(s)) ||
                PutIn(Pending(s.next, x, Live(s)), s.consumers[c].cursor, Pending(t.next, x, Live(t))))
  {
    assert ConsumerInv(s, c);
    assert Live(Iterate(s, c)) == Live(s);
    if At(s, c).probe != TAIL && s.payload[At(s, c).probe].None? {
      IterationPrunes(s, c);
      PruneKeepsPending(s.next, s.consumers[c].cursor, !At(s, c).claimed, x, Live(s));
    } else {
      assert Iterate(s, c).next == s.next;
    }
  }

  lemma HopLosesNothing(s: State, x: nat)
    requires Inv(s) && Enabled(s, Hop) && x < |s.next|
    ensures var t := Apply(s, Hop);
            && x < |t.next| && Grounded(t.next)
            && Pending(t.next, x, Live(t)) ==
               Pending(s.next, x, Live(s)) +
               if s.next[s.pusher.at] == TAIL && On(s.next, x, s.pusher.at) then [|s.next|] else []
  {
    var t := Apply(s, Hop);
    if s.next[s.pusher.at] == TAIL {
      assert Live(t) == Live(s) + {|s.next|};
      AppendPending(s.next, s.pusher.at, x, Live(s));
    } else {
      assert Live(t) == Live(s);
    }
  }

  lemma OthersLoseOnlyClaimed(s: State, e: Event, x: nat)
    requires Inv(s) && Enabled(s, e) && x < |s.next| && !e.Advance? && !e.Hop?
    ensures var t := Apply(s, e);
            && t.next == s.next
            && Pending(t.next, x, Live(t)) == Keep(Pending(s.next, x, Live(s)), Live(t))
  {
    var t := Apply(s, e);
    assert t.next == s.next;
    assert Live(t) <= Live(s);
    KeepKeep(Chain(s.next, x), Live(s), Live(t));
  }

  /** Nothing that can be reached from a node stops being reachable unless it is claimed.  A push
      adds its message behind the insertion point; pruning may let a chain meet the pruner again. */
  lemma NothingIsLost(ss: seq<State>, es: seq<Event>, i: nat, x: nat)
    requires IsRun(ss, es) && i < |es| && x < |ss[i].next|
    ensures Inv(ss[i]) && Inv(ss[i + 1]) && x < |ss[i + 1].next|
    ensures var before := Pending(ss[i].next, x, Live(ss[i]));
            var after := Pending(ss[i + 1].next, x, Live(ss[i + 1]));
            match es[i]
            case Advance(c) =>
              c in ss[i].consumers && (after == before || PutIn(before, ss[i].consumers[c].cursor, after))
            case Hop =>
              && ss[i].pusher.Chasing?
              && after == before + (if ss[i].next[ss[i].pusher.at] == TAIL && On(ss[i].next, x, ss[i].pusher.at)
                                    then [|ss[i].next|] else [])
            case _ =>
              after == Keep(before, Live(ss[i + 1]))
  {
    RunInv(ss, es, i);
    RunInv(ss, es, i + 1);
    RunStep(ss, es, i);
    match es[i] {
      case Advance(c) => AdvanceLosesNothing(ss[i], c, x);
      case Hop => HopLosesNothing(ss[i], x);
      case _ => OthersLoseOnlyClaimed(ss[i], es[i], x);
    }
  }

  lemma {:induction false} KeepKeep(chain: seq<nat>, live: set<nat>, fewer: set<nat>)
    requires fewer <= live
    ensures Keep(Keep(chain, live), fewer) == Keep(chain, fewer)
  {
    if chain != [] {
      KeepKeep(chain[1..], live, fewer);
      if chain[0] in live {
        assert Keep(chain, live)[1..] == Keep(chain[1..], live);
      }
    }
  }

  // ---------- Payloads ----------

  /** Step `k` takes the payload of message `m`. */
  ghost predicate Takes(ss: seq<State>, k: nat, m: nat)
    requires k + 1 < |ss|
  {
    m in Live(ss[k]) && m !in Live(ss[k + 1])
  }

  lemma StepKeepsSent(s: State, e: Event)
    requires Shape(s) && Enabled(s, e)
    ensures s.sent <= Apply(s, e).sent && |s.next| <= |Apply(s, e).next|
    ensures forall m: nat | ROOT < m < |s.next| && m in Live(Apply(s, e)) :: m in Live(s)
    ensures forall m: nat | m !in Live(s) && |s.next| <= m < |Apply(s, e).next| :: m in Live(Apply(s, e))
  {
  }

  lemma RunKeepsSent(ss: seq<State>, es: seq<Event>, i: nat)
    requires IsRun(ss, es) && i < |es|
    ensures ss[i].sent <= ss[i + 1].sent && |ss[i].next| <= |ss[i + 1].next|
    ensures forall m: nat | ROOT < m < |ss[i].next| && m in Live(ss[i + 1]) :: m in Live(ss[i])
    ensures forall m: nat | m !in Live(ss[i]) && |ss[i].next| <= m < |ss[i + 1].next| :: m in Live(ss[i + 1])
  {
    RunStep(ss, es, i);
    StepKeepsSent(ss[i], es[i]);
  }

  /** A payload that was taken never comes back. */
  lemma {:induction false} GoneForGood(ss: seq<State>, es: seq<Event>, k: nat, i: nat, m: nat)
    requires IsRun(ss, es) && k <= i < |ss| && ROOT < m < |ss[k].next| && m !in Live(ss[k])
    ensures m !in Live(ss[i])
    decreases i
  {
    if k < i {
      GoneForGood(ss, es, k, i - 1, m);
      NodesOnlyGrow(ss, es, k, i - 1);
      RunKeepsSent(ss, es, i - 1);
    }
  }

  lemma TakenAtMostOnce(ss: seq<State>, es: seq<Event>, j: nat, k: nat, m: nat)
    requires IsRun(ss, es) && j < |es| && k < |es| && m > ROOT && Takes(ss, j, m) && Takes(ss, k, m)
    ensures j == k
  {
    RunShape(ss, es, j);
    RunShape(ss, es, k);
    RunKeepsSent(ss, es, j);
    RunKeepsSent(ss, es, k);
    if j < k {
      GoneForGood(ss, es, j + 1, k, m);
    } else if k < j {
      GoneForGood(ss, es, k + 1, j, m);
    }
  }

  lemma {:induction false} TakenSomeTime(ss: seq<State>, es: seq<Event>, i: nat, m: nat) returns (k: nat)
    requires IsRun(ss, es) && i < |ss| && ROOT < m < |ss[i].next| && m !in Live(ss[i])
    ensures k < i && Takes(ss, k, m)
  {
    assert i > 0;
    RunKeepsSent(ss, es, i - 1);
    k := i - 1;
    RunShape(ss, es, i - 1);
    if m !in Live(ss[i - 1]) {
      k := TakenSomeTime(ss, es, i - 1, m);
    }
  }

  /** Claim conservation: a pushed message still holds what was pushed and was never taken, or holds
      nothing and was taken in exactly one step. */
  lemma StoredOrTakenOnce(ss: seq<State>, es: seq<Event>, i: nat, m: nat) returns (k: nat)
    requires IsRun(ss, es) && i < |ss| && ROOT < m < |ss[i].next|
    ensures Shape(ss[i])
    ensures if m in Live(ss[i])
            then ss[i].payload[m] == Some(Sent(ss[i], m)) && (forall j: nat | j < i :: !Takes(ss, j, m))
            else k < i && Takes(ss, k, m) && (forall j: nat | j < i && Takes(ss, j, m) :: j == k)
  {
    RunShape(ss, es, i);
    if m in Live(ss[i]) {
      k := 0;
      forall j: nat | j < i ensures !Takes(ss, j, m) {
        if Takes(ss, j, m) {
          RunShape(ss, es, j);
          RunKeepsSent(ss, es, j);
          GoneForGood(ss, es, j + 1, i, m);
        }
      }
    } else {
      k := TakenSomeTime(ss, es, i, m);
      forall j: nat | j < i && Takes(ss, j, m) ensures j == k {
        TakenAtMostOnce(ss, es, j, k, m);
      }
    }
  }

  lemma {:induction false} NodesOnlyGrow(ss: seq<State>, es: seq<Event>, k: nat, i: nat)
    requires IsRun(ss, es) && k <= i < |ss|
    ensures |ss[k].next| <= |ss[i].next| && ss[k].sent <= ss[i].sent
    decreases i
  {
    if k < i {
      NodesOnlyGrow(ss, es, k, i - 1);
      RunKeepsSent(ss, es, i - 1);
    }
  }

  // ---------- Autodrop ----------

  /** Step `j` begins the push of message `m`; the snapshot is taken here. */
  ghost predicate PushBegins(ss: seq<State>, es: seq<Event>, j: nat, m: nat) {
    j < |es| < |ss| && es[j].BeginPush? && |ss[j].next| == m
  }

  /** In step `k`, `c` asks for the next message, or is dropped, while it stands on `m`. */
  ghost predicate Leaves(ss: seq<State>, es: seq<Event>, k: nat, c: ConsumerId, m: nat) {
    && k < |es| < |ss|
    && (es[k] == Start(c) || es[k] == Detach(c))
    && c in ss[k].consumers && ss[k].consumers[c].cursor == m
  }

  ghost predicate HasLeft(ss: seq<State>, es: seq<Event>, i: nat, c: ConsumerId, m: nat) {
    exists k :: 0 <= k < i && Leaves(ss, es, k, c, m)
  }

  /** `pusher` is on its way with the push that began in step `j`. */
  ghost predicate OnItsWay(ss: seq<State>, es: seq<Event>, j: nat, pusher: Pusher)
    requires j < |es| < |ss|
  {
    pusher.Chasing? && pusher.snapshot == ss[j].active && es[j].BeginPush? && pusher.message == es[j].message
  }

  lemma PusherStep(ss: seq<State>, es: seq<Event>, i: nat)
    requires IsRun(ss, es) && i < |es|
    ensures ss[i].pusher.Chasing? ==>
              || |ss[i + 1].next| > |ss[i].next|
              || (|ss[i + 1].next| == |ss[i].next| && ss[i + 1].pusher.Chasing? &&
                  ss[i + 1].pusher.snapshot == ss[i].pusher.snapshot &&
                  ss[i + 1].pusher.message == ss[i].pusher.message)
    ensures es[i].BeginPush? ==> |ss[i + 1].next| == |ss[i].next| && OnItsWay(ss, es, i, ss[i + 1].pusher)
    ensures |ss[i + 1].next| > |ss[i].next| ==>
              && ss[i].pusher.Chasing? && |ss[i + 1].next| == |ss[i].next| + 1
              && |ss[i + 1].targets| == |ss[i + 1].next| && ss[i + 1].targets[|ss[i].next|] == Some(ss[i].pusher.snapshot)
              && ss[i + 1].sent == ss[i].sent + [ss[i].pusher.message]
    ensures ss[i + 1].pusher.Chasing? && !ss[i].pusher.Chasing? ==> es[i].BeginPush?
    ensures ss[i + 1].pusher.Chasing? ==> |ss[i + 1].next| == |ss[i].next|
  {
    RunStep(ss, es, i);
  }

  /** A push keeps the snapshot and the payload it began with, until it has linked its message. */
  lemma {:induction false} PushKept(ss: seq<State>, es: seq<Event>, j: nat, m: nat, i: nat)
    requires IsRun(ss, es) && PushBegins(ss, es, j, m) && j < i < |ss|
    ensures |ss[i].next| > m || (|ss[i].next| == m && OnItsWay(ss, es, j, ss[i].pusher))
    decreases i
  {
    PusherStep(ss, es, i - 1);
    RunKeepsSent(ss, es, i - 1);
    if j < i - 1 {
      PushKept(ss, es, j, m, i - 1);
    }
  }

  /** One step of the target set of a message that is linked already. */
  lemma TargetsStep(ss: seq<State>, es: seq<Event>, i: nat, m: nat, c: ConsumerId)
    requires IsRun(ss, es) && i < |es| && ROOT < m < |ss[i].next|
    ensures m < |ss[i].targets| && ss[i].targets[m].Some?
    ensures m < |ss[i + 1].targets| && ss[i + 1].targets[m].Some?
    ensures c in ss[i + 1].targets[m].value <==> c in ss[i].targets[m].value && !Leaves(ss, es, i, c, m)
  {
    RunStep(ss, es, i);
    RunShape(ss, es, i + 1);
  }

  lemma {:induction false} NotLeftBeforeItExists(ss: seq<State>, es: seq<Event>, i: nat, c: ConsumerId, m: nat)
    requires IsRun(ss, es) && i < |ss| && |ss[i].next| <= m
    ensures !HasLeft(ss, es, i, c, m)
  {
    forall k | 0 <= k < i ensures !Leaves(ss, es, k, c, m) {
      NodesOnlyGrow(ss, es, k, i);
      NobodyLeavesNowhere(ss, es, k, c, m);
    }
  }

  lemma HasLeftStep(ss: seq<State>, es: seq<Event>, i: nat, c: ConsumerId, m: nat)
    ensures HasLeft(ss, es, i + 1, c, m) <==> HasLeft(ss, es, i, c, m) || Leaves(ss, es, i, c, m)
  {
  }

  /** A message is linked with the snapshot of its push as its targets. */
  lemma TargetsAtLink(ss: seq<State>, es: seq<Event>, j: nat, i: nat, m: nat)
    requires IsRun(ss, es) && PushBegins(ss, es, j, m) && j < i < |es|
    requires |ss[i].next| <= m < |ss[i + 1].next|
    ensures m < |ss[i + 1].targets| && ss[i + 1].targets[m] == Some(ss[j].active)
  {
    PusherStep(ss, es, i);
    PushKept(ss, es, j, m, i);
  }

  lemma NobodyLeavesNowhere(ss: seq<State>, es: seq<Event>, i: nat, c: ConsumerId, m: nat)
    requires IsRun(ss, es) && i < |es| && |ss[i].next| <= m
    ensures !Leaves(ss, es, i, c, m)
  {
    RunShape(ss, es, i);
  }

  /** The targets of a linked message are the snapshot, less those that have left it. */
  lemma {:induction false} WhoIsWaitedFor(ss: seq<State>, es: seq<Event>, j: nat, i: nat, m: nat, c: ConsumerId)
    requires IsRun(ss, es) && PushBegins(ss, es, j, m) && i < |ss|
    requires ROOT < m < |ss[i].next|
    ensures m < |ss[i].targets| && ss[i].targets[m].Some?
    ensures c in ss[i].targets[m].value <==> c in ss[j].active && !HasLeft(ss, es, i, c, m)
  {
    if i <= j {
      NodesOnlyGrow(ss, es, i, j);
    } else {
      HasLeftStep(ss, es, i - 1, c, m);
      if m < |ss[i - 1].next| {
        WhoIsWaitedFor(ss, es, j, i - 1, m, c);
        TargetsStep(ss, es, i - 1, m, c);
      } else {
        NotLeftBeforeItExists(ss, es, i - 1, c, m);
        NobodyLeavesNowhere(ss, es, i - 1, c, m);
        PusherStep(ss, es, i - 1);
        TargetsAtLink(ss, es, j, i - 1, m);
      }
    }
  }

  /** Autodrop safety: when a message is taken by anything but a claim, every consumer that was
      active when its push began is gone, or has stood on the message and then asked for the next
      one or been dropped. */
  lemma AutodropIsSafe(ss: seq<State>, es: seq<Event>, k: nat, m: nat, j: nat, c: ConsumerId)
    requires IsRun(ss, es) && k < |es| && Takes(ss, k, m) && !es[k].Claim?
    requires PushBegins(ss, es, j, m) && c in ss[j].active
    ensures !Alive(ss[k], c) || HasLeft(ss, es, k + 1, c, m)
  {
    RunStep(ss, es, k);
    var s, e := ss[k], es[k];
    assert e.Start? || e.Detach?;
    assert s.consumers[e.c].cursor == m;
    WhoIsWaitedFor(ss, es, j, k, m, c);
    if c == e.c {
      assert Leaves(ss, es, k, c, m);
    } else if c in s.targets[m].value {
      assert c in s.targets[m].value - {e.c};
    }
  }

  /** In step `k`, somebody leaves `m`. */
  ghost predicate SomebodyLeaves(ss: seq<State>, es: seq<Event>, k: nat, m: nat) {
    k < |es| < |ss| && (es[k].Start? || es[k].Detach?) && Leaves(ss, es, k, es[k].c, m)
  }

  /** Exactly when a message is dropped: when somebody leaves an unclaimed message, it is taken if and only if
      every consumer that was active when its push began is gone or has left it. */
  lemma AutodropExactlyWhen(ss: seq<State>, es: seq<Event>, k: nat, m: nat, j: nat)
    requires IsRun(ss, es) && PushBegins(ss, es, j, m)
    requires SomebodyLeaves(ss, es, k, m) && m in Live(ss[k])
    ensures Takes(ss, k, m) <==> forall d | d in ss[j].active :: !Alive(ss[k], d) || HasLeft(ss, es, k + 1, d, m)
  {
    RunStep(ss, es, k);
    var s, e := ss[k], es[k];
    var waiting := s.targets[m].value;
    assert Takes(ss, k, m) <==> forall d | d in waiting - {e.c} :: !Alive(s, d);
    hide Apply, Shape, IsRun;
    forall d ensures d in waiting - {e.c} <==> d in ss[j].active && !HasLeft(ss, es, k + 1, d, m) {
      WhoIsWaitedFor(ss, es, j, k, m, d);
      HasLeftStep(ss, es, k, d, m);
    }
  }

  /** The snapshot a message waits for is a real one: its push did begin, in this run, with the
      payload it holds. */
  lemma {:induction false} PushDidBegin(ss: seq<State>, es: seq<Event>, i: nat, m: nat) returns (j: nat)
    requires IsRun(ss, es) && i < |ss|
    requires ROOT < m < |ss[i].next|
    ensures j < i && PushBegins(ss, es, j, m)
    ensures Shape(ss[i]) && es[j].message == Sent(ss[i], m)
  {
    RunShape(ss, es, i);
    assert i > 0;
    RunShape(ss, es, i - 1);
    if m < |ss[i - 1].next| {
      j := PushDidBegin(ss, es, i - 1, m);
      RunKeepsSent(ss, es, i - 1);
    } else {
      PusherStep(ss, es, i - 1);
      j := ChaseDidBegin(ss, es, i - 1);
    }
  }

  lemma {:induction false} ChaseDidBegin(ss: seq<State>, es: seq<Event>, i: nat) returns (j: nat)
    requires IsRun(ss, es) && i < |ss| && ss[i].pusher.Chasing?
    ensures j < i && PushBegins(ss, es, j, |ss[i].next|) && es[j].message == ss[i].pusher.message
  {
    assert i > 0;
    PusherStep(ss, es, i - 1);
    j := i - 1;
    if ss[i - 1].pusher.Chasing? {
      j := ChaseDidBegin(ss, es, i - 1);
    }
  }
}
