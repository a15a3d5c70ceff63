/** The runs in which the queue is what it promises to be.

    A walk that starts at the root or at a claimed message does not point back what it skips.  If
    it skips the node that points at the tail, two nodes do so afterwards, and a push that finds
    the skipped one is not seen from the other.  This is the only thing that can go wrong:
    `StaysSingleEnded` says so step by step, and in every run without such a step the queue is a
    log with cursors. */
module SingleEnd {
  import opened Chains
  import opened Options
  import opened SoundGraph
  import opened QueueMachine
  import opened QueueRuns
  import opened MessageLog

  /** The walker has been told that its own message is gone, and what it is about to skip is the
      node that points at the tail. */
  predicate Forks(s: State, e: Event)
    requires InRange(s)
  {
    && e.Advance? && e.c in s.consumers && At(s, e.c).Walking?
    && At(s, e.c).claimed
    && At(s, e.c).probe != TAIL && s.payload[At(s, e.c).probe].None?
    && s.next[At(s, e.c).probe] == TAIL
  }

  /** From a state in which one node points at the tail, a step leads to another such state exactly
      when it is not a fork. */
  lemma StaysSingleEnded(s: State, e: Event)
    requires Inv(s) && Enabled(s, e) && SingleEnded(s.next)
    ensures SingleEnded(Apply(s, e).next) <==> !Forks(s, e)
  {
    match e {
      case Advance(c) =>
        assert ConsumerInv(s, c);
        if At(s, c).probe != TAIL && s.payload[At(s, c).probe].None? {
          IterationPrunes(s, c);
          PruneSingleEnded(s.next, s.consumers[c].cursor, !At(s, c).claimed);
        } else {
          assert Apply(s, e).next == s.next;
        }
      case Hop =>
        if s.next[s.pusher.at] == TAIL {
          AppendSingleEnded(s.next, s.pusher.at);
        }
      case _ =>
    }
  }

  ghost predicate NeverForks(ss: seq<State>, es: seq<Event>) {
    && IsRun(ss, es)
    && (forall i | 0 <= i < |es| :: InRange(ss[i]) && !Forks(ss[i], es[i]))
  }

  lemma {:induction false} RunSingleEnded(ss: seq<State>, es: seq<Event>, i: nat)
    requires NeverForks(ss, es) && i < |ss|
    ensures Inv(ss[i]) && SingleEnded(ss[i].next)
  {
    RunInv(ss, es, i);
    if i > 0 {
      RunSingleEnded(ss, es, i - 1);
      RunStep(ss, es, i - 1);
      StaysSingleEnded(ss[i - 1], es[i - 1]);
    }
  }

  /** A push is about to be linked at `at`.  It will be on the chain of every node, and so be seen by
      every consumer there is or will be, exactly when the state is single-ended. */
  lemma EveryoneSeesThePush(s: State)
    requires Inv(s) && Enabled(s, Hop) && s.next[s.pusher.at] == TAIL
    ensures Inv(Apply(s, Hop))
    ensures SingleEnded(s.next) <==> forall x: nat | 0 < x < |s.next| :: On(Apply(s, Hop).next, x, |s.next|)
  {
    StepKeepsInv(s, Hop);
    PushReachesAll(s.next, s.pusher.at);
  }

  // ---------- The queue is a log with cursors ----------

  /** The claimed messages. */
  function Taken(s: State): (taken: set<nat>)
    ensures forall m :: m in taken <==> ROOT < m < |s.payload| && s.payload[m].None?
  {
    set m: nat | ROOT < m < |s.payload| && s.payload[m].None?
  }

  function AsLog(s: State): Log {
    Log(s.sent, Taken(s), map c | c in s.consumers :: s.consumers[c].cursor)
  }

  /** What a step of the machine does to the log.  It is a result exactly when a call ends, and which one is
      seen from what has been handed out. */
  function ActionOf(s: State, e: Event): Action
    requires InRange(s) && Enabled(s, e)
  {
    match e
    case Create(c) => Register(c)
    case Claim(m) => Action.Claim(m)
    case Start(c) => Dropping(s, c)
    case Detach(c) => Dropping(s, c)
    case Hop => if s.next[s.pusher.at] == TAIL then Action.Append(s.pusher.message) else Action.Idle
    case Advance(c) => if Walks(Apply(s, e), c) then Action.Idle else TryNext(c, Returned(s, c, Apply(s, e)))
    case _ => Action.Idle
  }

  predicate Walks(s: State, c: ConsumerId) {
    c in s.consumers && At(s, c).Walking?
  }

  function HandedTo(s: State, c: ConsumerId): seq<nat> {
    if c in s.consumers then s.consumers[c].handed else []
  }

  /** What the call of `c` that ends between these two states has returned. */
  function Returned(s: State, c: ConsumerId, t: State): Option<nat> {
    var before, after := HandedTo(s, c), HandedTo(t, c);
    if after == before || after == [] then None else Some(after[|after| - 1])
  }

  /** Leaving a message for good claims it, if nobody else is waited for. */
  function Dropping(s: State, c: ConsumerId): Action
    requires InRange(s) && c in s.consumers
  {
    var m := s.consumers[c].cursor;
    if s.payload[m].Some? && Settle(s, c).payload[m].None? then Action.Claim(m) else Action.Idle
  }

  /** With one end, the first message behind a node is the least unclaimed one after it when the
      node is the root or unclaimed, and from a claimed node it is no later than that. */
  lemma FirstBehind(s: State, a: nat)
    requires Inv(s) && SingleEnded(s.next) && 0 < a < |s.next|
    requires s.next[a] == TAIL || s.next[a] in Live(s)
    ensures forall m | m in Live(s) && m > a :: s.next[a] != TAIL && s.next[a] <= m
    ensures a == ROOT || a in Live(s) ==> s.next[a] == TAIL || s.next[a] > a
  {
    var b := s.next[a];
    OnStep(s.next, a, a);
    forall m | m in Live(s) && m > a ensures b != TAIL && b <= m {
      AllNewerReachable(s.next, Live(s), a, m);
      OnStep(s.next, a, m);
      OnStep(s.next, TAIL, m);
      OnIsNewer(s.next, Live(s), b, m);
    }
  }

  lemma OpenIsLive(s: State)
    requires Shape(s)
    ensures forall m :: Open(AsLog(s), m) <==> m in Live(s)
  {
  }

  /** What a finished walk from `a` returns is what the log allows from cursor `a`. */
  lemma ResultRefines(s: State, c: ConsumerId, result: Option<nat>)
    requires Inv(s) && SingleEnded(s.next) && c in s.consumers
    requires var b := s.next[s.consumers[c].cursor];
             if b == TAIL then result == None else b in Live(s) && result == Some(b)
    ensures var a := s.consumers[c].cursor;
            if a in Taken(s) then NoneSkippedAfter(AsLog(s), a, result) else FirstOpenAfter(AsLog(s), a, result)
  {
    OpenIsLive(s);
    FirstBehind(s, s.consumers[c].cursor);
  }

  lemma FoundRefines(s: State, c: ConsumerId)
    requires Inv(s) && Enabled(s, Advance(c)) && SingleEnded(s.next)
    requires At(s, c).probe != TAIL && s.payload[At(s, c).probe].Some?
    ensures Next(AsLog(s), ActionOf(s, Advance(c)), AsLog(Iterate(s, c)))
  {
    assert ConsumerInv(s, c);
    var b, t := At(s, c).probe, Iterate(s, c);
    assert Returned(s, c, t) == Some(b);
    assert AsLog(t).cursors == AsLog(s).cursors[c := b];
    ResultRefines(s, c, Some(b));
    assert Taken(t) == Taken(s);
    hide ConsumerInv, Locked, Sound;
  }

  lemma ReachedTailRefines(s: State, c: ConsumerId)
    requires Inv(s) && Enabled(s, Advance(c)) && SingleEnded(s.next) && At(s, c).probe == TAIL
    ensures Next(AsLog(s), ActionOf(s, Advance(c)), AsLog(Iterate(s, c)))
  {
    assert ConsumerInv(s, c);
    var t := Iterate(s, c);
    assert AsLog(t).cursors == AsLog(s).cursors;
    ResultRefines(s, c, None);
    assert Taken(t) == Taken(s);
    hide ConsumerInv, Locked, Sound;
  }

  lemma PruningRefines(s: State, c: ConsumerId)
    requires Inv(s) && Enabled(s, Advance(c)) && At(s, c).probe != TAIL && s.payload[At(s, c).probe].None?
    ensures Next(AsLog(s), ActionOf(s, Advance(c)), AsLog(Iterate(s, c)))
  {
    var t := Iterate(s, c);
    assert AsLog(t).cursors == AsLog(s).cursors;
    assert Taken(t) == Taken(s);
    hide ConsumerInv, Locked, Sound;
  }

  lemma AdvanceRefines(s: State, c: ConsumerId)
    requires Inv(s) && Enabled(s, Advance(c)) && SingleEnded(s.next)
    ensures Next(AsLog(s), ActionOf(s, Advance(c)), AsLog(Iterate(s, c)))
  {
    hide ConsumerInv, Locked, Sound, SingleEnded, Iterate, ActionOf, Next, AsLog;
    if At(s, c).probe == TAIL {
      ReachedTailRefines(s, c);
    } else if s.payload[At(s, c).probe].Some? {
      FoundRefines(s, c);
    } else {
      PruningRefines(s, c);
    }
  }

  lemma SettleRefines(s: State, c: ConsumerId, phase: Phase)
    requires Shape(s) && c in s.consumers
    ensures Next(AsLog(s), Dropping(s, c), AsLog(Become(Settle(s, c), c, phase)))
  {
    var t := Become(Settle(s, c), c, phase);
    assert AsLog(t).cursors == AsLog(s).cursors;
    assert Taken(t) == Taken(s) + if Dropping(s, c).Claim? then {s.consumers[c].cursor} else {};
  }

  lemma ClaimRefines(s: State, m: nat)
    requires Inv(s) && Enabled(s, Event.Claim(m))
    ensures Next(AsLog(s), Action.Claim(m), AsLog(Apply(s, Event.Claim(m))))
  {
    var c :| c in s.consumers && m in s.consumers[c].handed;
    assert ConsumerInv(s, c);
    assert Taken(Apply(s, Event.Claim(m))) == Taken(s) + {m};
  }

  lemma HopRefines(s: State)
    requires Shape(s) && Enabled(s, Hop)
    ensures Next(AsLog(s), ActionOf(s, Hop), AsLog(Apply(s, Hop)))
  {
    assert Taken(Apply(s, Hop)) == Taken(s);
  }

  /** The steps that only change who is where in a call, and the arrival of a consumer. */
  lemma PhaseStepRefines(s: State, e: Event)
    requires Shape(s) && Enabled(s, e)
    requires !e.Advance? && !e.Start? && !e.Detach? && !e.Claim? && !e.Hop?
    ensures Next(AsLog(s), ActionOf(s, e), AsLog(Apply(s, e)))
  {
    assert Taken(Apply(s, e)) == Taken(s);
    if e.Create? {
      assert AsLog(Apply(s, e)).cursors == AsLog(s).cursors[e.c := ROOT];
    } else {
      assert AsLog(Apply(s, e)).cursors == AsLog(s).cursors;
    }
  }

  /** Every step of the machine is the step of the log that `ActionOf` names. */
  lemma StepRefines(s: State, e: Event)
    requires Inv(s) && Enabled(s, e) && SingleEnded(s.next)
    ensures Next(AsLog(s), ActionOf(s, e), AsLog(Apply(s, e)))
  {
    match e {
      case Advance(c) => AdvanceRefines(s, c);
      case Start(c) => SettleRefines(s, c, At(Apply(s, e), c));
      case Detach(c) => SettleRefines(s, c, Detached);
      case Claim(m) => ClaimRefines(s, m);
      case Hop => HopRefines(s);
      case _ => PhaseStepRefines(s, e);
    }
  }

  /** Refinement: a run without a fork is, step by step, a run of the log with cursors. */
  lemma RunsAreLogRuns(ss: seq<State>, es: seq<Event>, i: nat)
    requires NeverForks(ss, es) && i < |es|
    ensures AsLog(ss[0]) == EMPTY
    ensures InRange(ss[i]) && Enabled(ss[i], es[i])
    ensures Next(AsLog(ss[i]), ActionOf(ss[i], es[i]), AsLog(ss[i + 1]))
  {
    RunSingleEnded(ss, es, i);
    RunStep(ss, es, i);
    StepRefines(ss[i], es[i]);
    assert Taken(INITIAL) == {};
  }
}
