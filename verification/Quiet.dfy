/**
 The controller left to itself: no outsider moves and no call fails. Its own writes wake it again
 only a bounded number of times, and what it reaches is what the CR asks for.
 */
module Quiet {
  import opened Types
  import opened Status
  import opened Desired
  import opened Finalizers
  import opened Protocol
  import Safety
  import Convergence
  import Wakeup

  // ---------- the rule ----------

  ghost predicate NoFaults(s: State, l: Label) {
    l.Control? ==> l.ch.fault.Fine?
  }

  ghost predicate Undisturbed(s: State, l: Label) {
    Convergence.Alone(s, l) && NoFaults(s, l)
  }

  // ---------- the invariant ----------

  /** No requested component is in the hands of another controller. */
  ghost predicate Ownable(k: Cluster, spec: Spec) {
    forall c :: Requested(spec, c) && c in k.comps ==> CanOwn(k.comps[c])
  }

  ghost predicate BusyInv(k: Cluster, cr: CR, pc: Pc, errs: seq<bool>) {
    && k.cr == Some(cr)
    && (pc.AddFinalizer? ==> !HasFinalizer(cr.finalizers))
    && (!pc.AddFinalizer? ==> Safety.Converging(pc) && HasFinalizer(cr.finalizers) && true !in errs)
    && (pc.Write? ==> !Convergence.InPlace(k, cr, pc.c))
    && (pc.Probe? ==> pc.c != WorkerConfig && Requested(cr.spec, pc.c) && Wakeup.ProbedReady(k, pc.c))
    && (pc.Publish? ==>
          && WellKinded(pc.conditions) && !AreConditionsEqual(cr.conditions, pc.conditions)
          && !Wakeup.StatusCurrent(k, cr)
          && AreConditionsEqual(pc.conditions,
                                GetConditions(Wakeup.ReadingsOf(k), cr.spec.topologyUpdater, 0)))
  }

  ghost predicate Inv(s: State) {
    && s.k.cr.Some? && !s.k.cr.value.deleting && Ownable(s.k, s.k.cr.value.spec)
    && Convergence.Inv(true, s)
    && (s.ctl.Idle? ==> s.k.queued || Wakeup.Converged(s.k, s.k.cr.value))
    && (s.ctl.Fetching? ==> !s.k.queued)
    && (s.ctl.Busy? ==> BusyInv(s.k, s.ctl.cr, s.ctl.pc, s.ctl.errs))
  }

  // ---------- how much is left ----------

  /** How often the controller will still be started. */
  ghost function Rounds(s: State): nat
    requires s.k.cr.Some?
  {
    var cr := s.k.cr.value;
    var done := Wakeup.Converged(s.k, cr);
    match s.ctl
    case Idle => if !s.k.queued then 0 else if !HasFinalizer(cr.finalizers) then 3 else if !done then 2 else 1
    case Fetching => if !HasFinalizer(cr.finalizers) then 2 else if !done then 1 else 0
    case Busy(_, pc, _) => if pc.AddFinalizer? then 2 else if done && !s.k.queued then 0 else 1
  }

  function ComponentRank(c: Component): nat {
    match c
    case Master => 4
    case WorkerConfig => 3
    case Worker => 2
    case Topology => 1
    case GC => 0
  }

  /** How many calls the running Reconcile can still make. */
  function Calls(ctl: Ctl): nat {
    match ctl
    case Idle => 0
    case Fetching => 20
    case Busy(_, pc, _) =>
      match pc
      case Read(c) => 8 + 2 * ComponentRank(c)
      case Write(c, _) => 7 + 2 * ComponentRank(c)
      case Probe(c) => 6 - Wakeup.ProbeRank(c)
      case Remove(c) => 8 - Safety.RemovalRank(c)
      case FindJob => 2
      case _ => 1
  }

  ghost function Potential(s: State): nat
    requires s.k.cr.Some?
  {
    32 * Rounds(s) + Calls(s.ctl)
  }

  /** The invariant is kept, no further start becomes due, and the Reconcile has fewer calls left. */
  ghost predicate Progresses(s: State, t: State)
    requires s.k.cr.Some?
  {
    Inv(t) && Rounds(t) <= Rounds(s) && Calls(t.ctl) < Calls(s.ctl)
  }

  // ---------- every undisturbed move keeps the invariant and uses up potential ----------

  lemma FetchMoves(s: State, ch: Choice)
    requires Inv(s) && s.ctl.Fetching? && ch.fault.Fine?
    ensures Progresses(s, Apply(s, Control(ch)))
  {
  }

  lemma AddFinalizerMoves(s: State, ch: Choice)
    requires Inv(s) && s.ctl.Busy? && s.ctl.pc.AddFinalizer? && ch.fault.Fine?
    ensures Progresses(s, Apply(s, Control(ch)))
  {
    assert HasFinalizer(WithFinalizer(s.ctl.cr.finalizers));
  }

  /** Going on after a component that is in place. */
  lemma GoOn(s: State, c: Component)
    requires Inv(s) && s.ctl.Busy? && (s.ctl.pc.Read? || s.ctl.pc.Write?) && s.ctl.pc.c == c
    ensures var t := ComponentDone(s.k, s.ctl.cr, c, s.ctl.errs, false);
      && t.ctl.Busy? && t.k == s.k && t.ctl.cr == s.ctl.cr && true !in t.ctl.errs
      && (t.ctl.pc.Read? || t.ctl.pc == Probe(Worker)) && Calls(t.ctl) < Calls(s.ctl)
  {
  }

  lemma ReadMoves(s: State, ch: Choice)
    requires Inv(s) && s.ctl.Busy? && s.ctl.pc.Read? && ch.fault.Fine?
    ensures Progresses(s, Apply(s, Control(ch)))
  {
    Convergence.ReadKeeps(true, s, ch);
    GoOn(s, s.ctl.pc.c);
  }

  lemma WriteMoves(s: State, ch: Choice)
    requires Inv(s) && s.ctl.Busy? && s.ctl.pc.Write? && ch.fault.Fine?
    ensures Progresses(s, StepWrite(s.k, s.ctl.cr, s.ctl.pc.c, s.ctl.pc.seen, s.ctl.errs, ch))
  {
    var cr, c, errs := s.ctl.cr, s.ctl.pc.c, s.ctl.errs;
    var o := WriteComponent(s.k, cr, c, s.ctl.pc.seen, ch);
    Convergence.WriteKeeps(true, s, ch);
    WriteLands(s, ch);
    Wakeup.NextIsQuiet(o.k, cr, c, errs, false);
    NextCalls(o.k, cr, c, errs);
  }

  /** A write of an undisturbed controller succeeds, and touches its own object only. */
  lemma WriteLands(s: State, ch: Choice)
    requires Inv(s) && s.ctl.Busy? && s.ctl.pc.Write? && ch.fault.Fine?
    ensures var o := WriteComponent(s.k, s.ctl.cr, s.ctl.pc.c, s.ctl.pc.seen, ch);
      && !o.err && o.k.cr == s.k.cr && Ownable(o.k, s.ctl.cr.spec)
  {
  }

  lemma NextCalls(k: Cluster, cr: CR, c: Component, errs: seq<bool>)
    requires |errs| == Convergence.HandlerOf(c) && true !in errs
    ensures var t := ComponentDone(k, cr, c, errs, false);
      && t.ctl.Busy? && t.ctl.cr == cr && true !in t.ctl.errs
      && (t.ctl.pc == Probe(Worker) || (t.ctl.pc.Read? && ComponentRank(t.ctl.pc.c) < ComponentRank(c)))
  {
  }

  /** The status handler moves on without touching what the earlier handlers have achieved. */
  lemma StatusGoesOn(s: State, pc: Pc)
    requires Convergence.Inv(true, s) && s.ctl.Busy? && s.ctl.pc.Probe? && (pc.Probe? || pc.Publish?)
    ensures Convergence.Inv(true, State(s.k, Busy(s.ctl.cr, pc, s.ctl.errs)))
  {
    assert forall d :: Convergence.Processed(pc, s.ctl.errs, d) <==> Convergence.Processed(s.ctl.pc, s.ctl.errs, d);
  }

  lemma ProbeMoves(s: State, ch: Choice)
    requires Inv(s) && s.ctl.Busy? && s.ctl.pc.Probe? && ch.fault.Fine?
    ensures Progresses(s, Apply(s, Control(ch)))
  {
    var cr, c, k := s.ctl.cr, s.ctl.pc.c, s.k;
    var topology := cr.spec.topologyUpdater;
    var problem := NotAvailableConditions(c, Observe(k, c), ch.now);
    var next := NextProbe(c, topology);
    Wakeup.ComputedWellKinded(c, Observe(k, c), ch.now);
    if problem.None? && next.Some? {
      assert ProblemOf(c, Observe(k, c)).None?;
      var pc := Probe(next.value);
      assert Apply(s, Control(ch)) == State(k, Busy(cr, pc, s.ctl.errs));
      StatusGoesOn(s, pc);
    } else {
      Wakeup.ProbeDecides(k, c, topology, ch.now);
      var conditions := if problem.Some? then problem.value else AvailableConditions(ch.now);
      ComputedAreCurrent(k, cr, conditions, ch.now);
      CompareMoves(s, conditions);
    }
  }

  /** Conditions computed at some time are the current ones, and the comparison with them decides. */
  lemma ComputedAreCurrent(k: Cluster, cr: CR, conditions: seq<Condition>, now: int)
    requires conditions == GetConditions(Wakeup.ReadingsOf(k), cr.spec.topologyUpdater, now)
    ensures AreConditionsEqual(cr.conditions, conditions) <==> Wakeup.StatusCurrent(k, cr)
    ensures WellKinded(conditions)
    ensures AreConditionsEqual(conditions, GetConditions(Wakeup.ReadingsOf(k), cr.spec.topologyUpdater, 0))
  {
    GetConditionsWellKinded(Wakeup.ReadingsOf(k), cr.spec.topologyUpdater, now);
    TimeIsIgnored(cr.conditions, Wakeup.ReadingsOf(k), cr.spec.topologyUpdater, now, 0);
    TimeIsIgnored(conditions, Wakeup.ReadingsOf(k), cr.spec.topologyUpdater, now, 0);
    EqualIsSameReport(conditions, conditions);
  }

  lemma CompareMoves(s: State, conditions: seq<Condition>)
    requires Inv(s) && s.ctl.Busy? && s.ctl.pc.Probe? && WellKinded(conditions)
    requires AreConditionsEqual(s.ctl.cr.conditions, conditions) <==> Wakeup.StatusCurrent(s.k, s.ctl.cr)
    requires AreConditionsEqual(conditions,
                                GetConditions(Wakeup.ReadingsOf(s.k), s.ctl.cr.spec.topologyUpdater, 0))
    ensures Progresses(s, Compare(s.k, s.ctl.cr, s.ctl.errs, conditions))
  {
    ComparedGoesOn(s.k, s.ctl.cr, s.ctl.errs, conditions);
    if AreConditionsEqual(s.ctl.cr.conditions, conditions) {
      StatusIsCurrent(s);
    } else {
      PublishIsDue(s, conditions);
    }
  }

  lemma StatusIsCurrent(s: State)
    requires Inv(s) && s.ctl.Busy? && s.ctl.pc.Probe? && Wakeup.StatusCurrent(s.k, s.ctl.cr)
    ensures Progresses(s, Finish(s.k, false))
  {
    AllInPlace(s);
    assert Wakeup.Converged(s.k, s.ctl.cr);
  }

  lemma PublishIsReady(k: Cluster, cr: CR, pc: Pc, errs: seq<bool>, conditions: seq<Condition>)
    requires BusyInv(k, cr, pc, errs) && pc.Probe?
    requires !AreConditionsEqual(cr.conditions, conditions) && WellKinded(conditions)
    requires !Wakeup.StatusCurrent(k, cr)
    requires AreConditionsEqual(conditions, GetConditions(Wakeup.ReadingsOf(k), cr.spec.topologyUpdater, 0))
    ensures BusyInv(k, cr, Publish(conditions), errs)
  {
  }

  lemma PublishIsDue(s: State, conditions: seq<Condition>)
    requires Inv(s) && s.ctl.Busy? && s.ctl.pc.Probe?
    requires !AreConditionsEqual(s.ctl.cr.conditions, conditions) && WellKinded(conditions)
    requires !Wakeup.StatusCurrent(s.k, s.ctl.cr)
    requires AreConditionsEqual(conditions,
                                GetConditions(Wakeup.ReadingsOf(s.k), s.ctl.cr.spec.topologyUpdater, 0))
    ensures Progresses(s, State(s.k, Busy(s.ctl.cr, Publish(conditions), s.ctl.errs)))
  {
    StatusGoesOn(s, Publish(conditions));
    PublishIsReady(s.k, s.ctl.cr, s.ctl.pc, s.ctl.errs, conditions);
    SameClusterMoves(s, Publish(conditions));
  }

  /** With the cluster as it is, only the position of the status handler is another. */
  lemma SameClusterMoves(s: State, pc: Pc)
    requires Inv(s) && s.ctl.Busy? && s.ctl.pc.Probe? && (pc.Probe? || pc.Publish?)
    requires BusyInv(s.k, s.ctl.cr, pc, s.ctl.errs)
    requires Convergence.Inv(true, State(s.k, Busy(s.ctl.cr, pc, s.ctl.errs)))
    ensures var t := State(s.k, Busy(s.ctl.cr, pc, s.ctl.errs)); Inv(t) && Rounds(t) == Rounds(s)
  {
  }

  lemma AllInPlace(s: State)
    requires Inv(s) && s.ctl.Busy? && (s.ctl.pc.Probe? || s.ctl.pc.Publish?)
    ensures forall c :: Requested(s.ctl.cr.spec, c) ==> Convergence.InPlace(s.k, s.ctl.cr, c)
  {
    forall c | Requested(s.ctl.cr.spec, c) ensures Convergence.InPlace(s.k, s.ctl.cr, c) {
      assert Convergence.Processed(s.ctl.pc, s.ctl.errs, c);
      assert !Convergence.Errored(s.ctl.errs, c);
    }
  }

  lemma PublishMoves(s: State, ch: Choice)
    requires Inv(s) && s.ctl.Busy? && s.ctl.pc.Publish? && ch.fault.Fine?
    ensures Progresses(s, StepPublish(s.k, s.ctl.cr, s.ctl.pc.conditions, s.ctl.errs, ch))
  {
    var cr := s.ctl.cr.(conditions := s.ctl.pc.conditions);
    var k := s.k.(cr := Some(cr), queued := true);
    AllInPlace(s);
    UnequalDiffers(s.ctl.cr.conditions, s.ctl.pc.conditions);
    assert true !in s.ctl.errs + [false];
    assert StepPublish(s.k, s.ctl.cr, s.ctl.pc.conditions, s.ctl.errs, ch) == State(k, Idle);
    forall c | Requested(cr.spec, c) ensures Convergence.InPlace(k, cr, c) {
      assert Convergence.InPlace(s.k, s.ctl.cr, c);
    }
    assert Wakeup.ReadingsOf(k) == Wakeup.ReadingsOf(s.k);
    assert Wakeup.Converged(k, cr);
  }

  lemma Moves(s: State, l: Label)
    requires Inv(s) && Enabled(s, l) && Undisturbed(s, l)
    ensures Inv(Apply(s, l)) && Potential(Apply(s, l)) < Potential(s)
    ensures if l.Start? then Rounds(Apply(s, l)) < Rounds(s) else Rounds(Apply(s, l)) <= Rounds(s)
  {
    if l.Control? {
      if s.ctl.Fetching? { FetchMoves(s, l.ch); }
      else if s.ctl.pc.AddFinalizer? { AddFinalizerMoves(s, l.ch); }
      else if s.ctl.pc.Read? { ReadMoves(s, l.ch); }
      else if s.ctl.pc.Write? { WriteMoves(s, l.ch); }
      else if s.ctl.pc.Probe? { ProbeMoves(s, l.ch); }
      else { PublishMoves(s, l.ch); }
    } else {
      StartMoves(s);
    }
  }

  lemma StartMoves(s: State)
    requires Inv(s) && Enabled(s, Start)
    ensures var t := Apply(s, Start); Inv(t) && Rounds(t) == Rounds(s) - 1
  {
    var t := Apply(s, Start);
    assert Wakeup.ReadingsOf(t.k) == Wakeup.ReadingsOf(s.k);
    assert forall c :: Convergence.InPlace(t.k, s.k.cr.value, c) <==> Convergence.InPlace(s.k, s.k.cr.value, c);
    assert Wakeup.Converged(t.k, s.k.cr.value) <==> Wakeup.Converged(s.k, s.k.cr.value);
  }

  // ---------- theorems ----------

  /** The number of Reconciles begun in a run. */
  function Starts(ls: seq<Label>): nat {
    if ls == [] then 0 else (if ls[0].Start? then 1 else 0) + Starts(ls[1..])
  }

  lemma {:induction false} RunMoves(s: State, ls: seq<Label>)
    requires Inv(s) && IsRun(s, ls) && Along(Undisturbed, s, ls)
    ensures Inv(Exec(s, ls))
    ensures Potential(Exec(s, ls)) + |ls| <= Potential(s)
    ensures Rounds(Exec(s, ls)) + Starts(ls) <= Rounds(s)
    decreases |ls|
  {
    if ls != [] {
      Moves(s, ls[0]);
      RunMoves(Apply(s, ls[0]), ls[1..]);
    }
  }

  /** A woken controller with a live CR whose components nobody else controls. */
  ghost predicate Woken(s: State) {
    && s.ctl.Idle? && s.k.queued && s.k.cr.Some? && !s.k.cr.value.deleting
    && Ownable(s.k, s.k.cr.value.spec)
  }

  /** A state in which nothing is running and nothing is queued. */
  predicate AtRest(s: State) {
    s.ctl.Idle? && !s.k.queued
  }

  /** Where nothing stands in the way of a fault-free move, there is one unless the controller is at rest. */
  lemma RestOrMove(s: State) returns (l: Label)
    requires !AtRest(s)
    ensures Enabled(s, l) && Undisturbed(s, l)
  {
    l := if s.ctl.Idle? then Start else Control(Choice(Fine, 0, false, BLANK));
  }

  /** The same CR with the same spec, and at most the operator's finalizer added. */
  predicate SameDemand(a: CR, b: CR) {
    && b.spec == a.spec && b.uid == a.uid
    && (b.finalizers == a.finalizers
        || (!HasFinalizer(a.finalizers) && b.finalizers == WithFinalizer(a.finalizers)))
  }

  lemma {:induction false} DemandKept(s: State, ls: seq<Label>)
    requires Inv(s) && IsRun(s, ls) && Along(Undisturbed, s, ls)
    ensures var t := Exec(s, ls);
      t.k.cr.Some? && SameDemand(s.k.cr.value, t.k.cr.value) && t.k.job == s.k.job
    decreases |ls|
  {
    if ls != [] {
      Moves(s, ls[0]);
      DemandKeptByMove(s, ls[0]);
      DemandKept(Apply(s, ls[0]), ls[1..]);
    }
  }

  lemma DemandKeptByMove(s: State, l: Label)
    requires Inv(s) && Enabled(s, l) && Undisturbed(s, l)
    ensures var t := Apply(s, l);
      (t.k.cr.Some? ==> SameDemand(s.k.cr.value, t.k.cr.value)) && t.k.job == s.k.job
  {
    if l.Control? && s.ctl.Busy? && !s.ctl.pc.AddFinalizer? {
      Safety.ConvergingGoesOn(s, l.ch);
    }
  }

  /** With nothing left to do, no write is pending. */
  lemma NoWritePending(s: State)
    requires Inv(s) && Rounds(s) == 0 && s.ctl.Busy?
    ensures s.ctl.pc.Read? || s.ctl.pc.Probe?
  {
  }

  lemma ReadChangesNothing(k: Cluster, cr: CR, c: Component, errs: seq<bool>, ch: Choice)
    requires |errs| == Convergence.HandlerOf(c)
    ensures StepRead(k, cr, c, errs, ch).k == k
  {
  }

  lemma ProbeChangesNothing(k: Cluster, cr: CR, c: Component, errs: seq<bool>, ch: Choice)
    requires true !in errs
    ensures StepProbe(k, cr, c, errs, ch).k == k
  {
    assert true !in errs + [false];
  }

  lemma NothingLeftNothingDone(s: State, l: Label)
    requires Inv(s) && Enabled(s, l) && Undisturbed(s, l) && Rounds(s) == 0
    ensures Apply(s, l).k == s.k
  {
    if s.ctl.Busy? {
      NoWritePending(s);
      if s.ctl.pc.Read? {
        ReadChangesNothing(s.k, s.ctl.cr, s.ctl.pc.c, s.ctl.errs, l.ch);
      } else {
        ProbeChangesNothing(s.k, s.ctl.cr, s.ctl.pc.c, s.ctl.errs, l.ch);
      }
    }
  }

  lemma {:induction false} NothingDone(s: State, ls: seq<Label>)
    requires Inv(s) && IsRun(s, ls) && Along(Undisturbed, s, ls) && Rounds(s) == 0
    ensures Exec(s, ls).k == s.k
    decreases |ls|
  {
    if ls != [] {
      Moves(s, ls[0]);
      NothingLeftNothingDone(s, ls[0]);
      NothingDone(Apply(s, ls[0]), ls[1..]);
    }
  }

  /** Once everything has converged, further Reconciles alter no stored object and wake nobody. */
  lemma RepeatingChangesNothing(s: State, ls: seq<Label>)
    requires Woken(s) && Wakeup.Converged(s.k, s.k.cr.value)
    requires IsRun(s, ls) && Along(Undisturbed, s, ls) && ls != []
    ensures Exec(s, ls).k == s.k.(queued := false)
  {
    Moves(s, ls[0]);
    NothingDone(Apply(s, ls[0]), ls[1..]);
  }

  /** Left alone, a controller that has been woken does come to rest. */
  lemma {:induction false} ComesToRest(s: State) returns (ls: seq<Label>)
    requires Inv(s)
    ensures IsRun(s, ls) && Along(Undisturbed, s, ls)
    ensures Exec(s, ls).ctl.Idle? && !Exec(s, ls).k.queued
    decreases Potential(s)
  {
    if s.ctl.Idle? && !s.k.queued {
      ls := [];
    } else {
      var l := if s.ctl.Idle? then Start else Control(Choice(Fine, 0, false, BLANK));
      Moves(s, l);
      var rest := ComesToRest(Apply(s, l));
      ls := [l] + rest;
      assert ls[1..] == rest;
    }
  }
}
