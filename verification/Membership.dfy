/** Who is on the table of consumers, who is alive, and who a message is kept for, told from the steps made. */
module Membership {
  import opened QueueMachine
  import opened QueueRuns

  /** What the steps made so far say of `c`. */
  ghost predicate Fits(s: State, past: seq<Event>, c: ConsumerId) {
    && (c in s.consumers <==> Create(c) in past)
    && (c in s.active <==> Create(c) in past && Unregister(c) !in past)
    && (Unregister(c) in past || Die(c) in past ==> Create(c) in past)
    && (c in s.consumers ==>
          && (At(s, c).Unregistered? || At(s, c).Detached? || At(s, c).Gone? <==> Unregister(c) in past)
          && (At(s, c).Gone? <==> Die(c) in past))
  }

  lemma StepFits(s: State, past: seq<Event>, e: Event, c: ConsumerId)
    requires InRange(s) && Enabled(s, e) && Fits(s, past, c)
    requires e.Create? ==> forall d | d in s.active :: Alive(s, d)
    ensures Fits(Apply(s, e), past + [e], c)
  {
  }

  /** A consumer is there when it was created; it is on the table when it was created and not dropped, and alive
      as long as its tracker was not released. */
  lemma {:induction false} WhoIsThere(ss: seq<State>, es: seq<Event>, i: nat, c: ConsumerId)
    requires IsRun(ss, es) && i < |ss|
    ensures c in ss[i].consumers <==> Create(c) in es[..i]
    ensures c in ss[i].active <==> Create(c) in es[..i] && Unregister(c) !in es[..i]
    ensures Alive(ss[i], c) <==> Create(c) in es[..i] && Die(c) !in es[..i]
    ensures Fits(ss[i], es[..i], c)
    decreases i, 1
  {
    if i > 0 {
      WhoIsThere(ss, es, i - 1, c);
      RunStep(ss, es, i - 1);
      ActiveAreAlive(ss, es, i - 1);
      StepFits(ss[i - 1], es[..i - 1], es[i - 1], c);
      assert es[..i] == es[..i - 1] + [es[i - 1]];
    }
  }

  /** Nobody on the table is gone. */
  lemma {:induction false} ActiveAreAlive(ss: seq<State>, es: seq<Event>, i: nat)
    requires IsRun(ss, es) && i < |ss|
    ensures forall d | d in ss[i].active :: Alive(ss[i], d)
    decreases i, 2
  {
    forall d | d in ss[i].active ensures Alive(ss[i], d) {
      WhoIsThere(ss, es, i, d);
    }
  }

  /** Created and not dropped before step `j`. */
  ghost predicate WasThere(es: seq<Event>, j: nat, c: ConsumerId)
    requires j <= |es|
  {
    Create(c) in es[..j] && Unregister(c) !in es[..j]
  }

  /** A message that is there was pushed before, and who was there then was created before. */
  lemma PushedBefore(ss: seq<State>, es: seq<Event>, j: nat, k: nat, m: nat)
    requires IsRun(ss, es) && PushBegins(ss, es, j, m) && k < |ss| && m in Live(ss[k])
    ensures j < k
    ensures forall c :: WasThere(es, j, c) ==> Create(c) in es[..k]
  {
    RunShape(ss, es, k);
    if k <= j {
      NodesOnlyGrow(ss, es, k, j);
    }
    assert es[..j] == es[..k][..j];
  }

  /** Exactly when a message is dropped, from the steps alone: when somebody leaves an unclaimed message, it is
      taken if and only if every consumer that had been created and not dropped before its push began is gone,
      or has stood on the message and then asked for the next one or been dropped. */
  lemma DroppedExactlyWhen(ss: seq<State>, es: seq<Event>, k: nat, m: nat, j: nat)
    requires IsRun(ss, es) && PushBegins(ss, es, j, m)
    requires SomebodyLeaves(ss, es, k, m) && m in Live(ss[k])
    ensures Takes(ss, k, m) <==>
            forall d | WasThere(es, j, d) :: Die(d) in es[..k] || HasLeft(ss, es, k + 1, d, m)
  {
    AutodropExactlyWhen(ss, es, k, m, j);
    PushedBefore(ss, es, j, k, m);
    hide IsRun, PushBegins, SomebodyLeaves, Takes, HasLeft;
    forall d ensures d in ss[j].active <==> WasThere(es, j, d) {
      WhoIsThere(ss, es, j, d);
    }
    forall d | WasThere(es, j, d) ensures Alive(ss[k], d) <==> Die(d) !in es[..k] {
      WhoIsThere(ss, es, k, d);
    }
  }

  /** Safety: a message is taken by anything but a claim only then. */
  lemma DroppedOnlyThen(ss: seq<State>, es: seq<Event>, k: nat, m: nat, j: nat, c: ConsumerId)
    requires IsRun(ss, es) && k < |es| && Takes(ss, k, m) && !es[k].Claim?
    requires PushBegins(ss, es, j, m) && WasThere(es, j, c)
    ensures Die(c) in es[..k] || HasLeft(ss, es, k + 1, c, m)
  {
    WhoIsThere(ss, es, j, c);
    AutodropIsSafe(ss, es, k, m, j, c);
    WhoIsThere(ss, es, k, c);
    PushedBefore(ss, es, j, k, m);
  }
}
