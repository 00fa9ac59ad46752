/** The prune job: when it is started, how often, what a failure blocks, and whose job the operator takes it to be. */
module Prune {
  import opened Types
  import opened Desired
  import opened Finalizers
  import opened Protocol
  import Safety
  import Convergence

  // ---------- when it is started, and how often ----------

  ghost predicate JobStays(s: State, l: Label) {
    !(l.Outside? && l.a.DeleteJob?)
  }

  predicate CreatesJob(s: State, t: State) {
    s.k.job.None? && t.k.job.Some?
  }

  /** The operator starts the prune job only when everything it was asked to remove is gone. */
  lemma PruneAfterTeardown(s0: State, ls: seq<Label>, i: nat)
    requires Init(s0) && IsRun(s0, ls) && i < |ls|
    requires IsRun(s0, ls[..i]) && IsRun(s0, ls[..i + 1])
    requires CreatesJob(Exec(s0, ls[..i]), Exec(s0, ls[..i + 1])) && ls[i].Control?
    ensures var s := Exec(s0, ls[..i]);
      && s.ctl.Busy? && s.ctl.pc.StartJob? && s.ctl.cr.deleting
      && (forall c :: Requested(s.ctl.cr.spec, c) ==> Safety.Unowned(s.k, c))
      && (Along(Safety.NoOutsideCreation, s0, ls) ==> forall c :: Requested(s.ctl.cr.spec, c) ==> c !in s.k.comps)
      && var job := Exec(s0, ls[..i + 1]).k.job.value;
      && job.image == s.ctl.cr.spec.operand.image && job.owner == Nfd(s.ctl.cr.uid)
      && job.succeeded == 0 && job.failed == 0
  {
    RunSplit(s0, ls, i);
    Safety.Reachable(s0, ls, i);
    var s := Exec(s0, ls[..i]);
    OnlyStartJobCreates(s, ls[i].ch);
    assert forall c :: Safety.Removed(s.ctl.pc, c);
    assert forall c :: Requested(s.ctl.cr.spec, c) ==> Safety.Gone(false, s.k, c);
    if Along(Safety.NoOutsideCreation, s0, ls) {
      assert forall c :: Requested(s.ctl.cr.spec, c) ==> Safety.Gone(true, s.k, c);
    }
  }

  lemma OnlyStartJobCreates(s: State, ch: Choice)
    requires !s.ctl.Idle?
    ensures var t := Apply(s, Control(ch));
      t.k.job != s.k.job ==> s.ctl.Busy? && s.ctl.pc.StartJob? && s.k.job.None? && t.k.job == Some(PruneJob(s.ctl.cr))
  {
    if s.ctl.Busy? && Safety.Converging(s.ctl.pc) { Safety.ConvergingGoesOn(s, ch); }
  }

  lemma {:induction false} JobRemains(s: State, ls: seq<Label>)
    requires IsRun(s, ls) && Along(JobStays, s, ls) && s.k.job.Some?
    ensures Exec(s, ls).k.job.Some?
    decreases |ls|
  {
    if ls != [] {
      if ls[0].Control? { OnlyStartJobCreates(s, ls[0].ch); }
      JobRemains(Apply(s, ls[0]), ls[1..]);
    }
  }

  /** At most one prune job comes into being as long as nobody deletes it. */
  lemma OnePruneJob(s0: State, ls: seq<Label>, i: nat, j: nat)
    requires IsRun(s0, ls) && Along(JobStays, s0, ls) && i < |ls| && j < |ls|
    requires IsRun(s0, ls[..i]) && IsRun(s0, ls[..i + 1]) && IsRun(s0, ls[..j]) && IsRun(s0, ls[..j + 1])
    requires CreatesJob(Exec(s0, ls[..i]), Exec(s0, ls[..i + 1]))
    requires CreatesJob(Exec(s0, ls[..j]), Exec(s0, ls[..j + 1]))
    ensures i == j
  {
    var a, b := if i < j then i else j, if i < j then j else i;
    if a < b {
      var mid := ls[a + 1..b];
      assert ls[..b] == ls[..a + 1] + mid;
      AlongPrefix(JobStays, s0, ls, b);
      RunAppend(s0, ls[..a + 1], mid);
      AlongAppend(JobStays, s0, ls[..a + 1], mid);
      JobRemains(Exec(s0, ls[..a + 1]), mid);
    }
  }

  // ---------- what a failure blocks ----------

  /** The prune job shows a failure and pruning is still asked for. */
  ghost predicate PruneFailed(s: State, l: Label) {
    && s.k.job.Some? && s.k.job.value.failed > 0
    && (s.k.cr.Some? ==> s.k.cr.value.spec.pruneOnDelete)
  }

  /**
   A teardown of this CR is under way that will not look at the job any more: it has passed it, or
   its snapshot did not ask for pruning.
   */
  predicate PastTheJob(s: State) {
    && s.ctl.Busy? && HasFinalizer(s.ctl.cr.finalizers)
    && s.k.cr.Some? && s.ctl.cr.uid == s.k.cr.value.uid
    && (s.ctl.pc.DropFinalizer? || (s.ctl.pc.Remove? && !s.ctl.cr.spec.pruneOnDelete))
  }

  predicate HoldsFinalizer(k: Cluster) {
    k.cr.Some? && HasFinalizer(k.cr.value.finalizers)
  }

  /** A move that obeys the rule keeps the finalizer, and leads past the job only from past the job. */
  lemma FailureHolds(s: State, l: Label)
    requires Enabled(s, l) && PruneFailed(s, l) && HoldsFinalizer(s.k) && !PastTheJob(s)
    ensures HoldsFinalizer(Apply(s, l).k) && !PastTheJob(Apply(s, l))
  {
    match l
    case Start =>
    case Restart =>
    case Outside(a) =>
    case Control(ch) =>
      if s.ctl.Busy? { FailureHoldsControl(s, ch); }
  }

  lemma FailureHoldsControl(s: State, ch: Choice)
    requires s.ctl.Busy? && PruneFailed(s, Control(ch)) && HoldsFinalizer(s.k) && !PastTheJob(s)
    ensures var t := Apply(s, Control(ch)); HoldsFinalizer(t.k) && !PastTheJob(t)
  {
    if Safety.Converging(s.ctl.pc) {
      Safety.ConvergingGoesOn(s, ch);
    }
  }

  lemma {:induction false} FailureHoldsOn(s: State, ls: seq<Label>)
    requires IsRun(s, ls) && Along(PruneFailed, s, ls) && HoldsFinalizer(s.k) && !PastTheJob(s)
    ensures HoldsFinalizer(Exec(s, ls).k)
    decreases |ls|
  {
    if ls != [] {
      FailureHolds(s, ls[0]);
      FailureHoldsOn(Apply(s, ls[0]), ls[1..]);
    }
  }

  /** A call that works, also on the server's side when the copy of the CR is out of date. */
  const TAKEN := Control(Choice(Fine, 0, true, BLANK))

  lemma TakenRemoves(s: State)
    requires PastTheJob(s) && s.ctl.pc.Remove? && s.k.job.Some?
    ensures var t := Apply(s, TAKEN);
      PastTheJob(t) && t.k.job == s.k.job && t.k.cr == s.k.cr && Left(t) < Left(s)
  {
  }

  /** How many calls are left to the drop. */
  function Left(s: State): nat
    requires PastTheJob(s)
  {
    if s.ctl.pc.DropFinalizer? then 0 else 5 - Safety.RemovalRank(s.ctl.pc.c)
  }

  lemma TakenDrops(s: State)
    requires PastTheJob(s) && s.ctl.pc.DropFinalizer?
    ensures !HoldsFinalizer(Apply(s, TAKEN).k)
  {
    WithoutKeepsOthers(s.ctl.cr.finalizers);
  }

  /** From past the job, a run to the drop. */
  lemma {:induction false} RunToDrop(s: State) returns (ls: seq<Label>)
    requires PastTheJob(s) && HoldsFinalizer(s.k) && PruneFailed(s, TAKEN)
    ensures IsRun(s, ls) && Along(PruneFailed, s, ls) && !HoldsFinalizer(Exec(s, ls).k)
    decreases Left(s)
  {
    var t := Apply(s, TAKEN);
    var rest := [];
    if s.ctl.pc.DropFinalizer? {
      TakenDrops(s);
    } else {
      TakenRemoves(s);
      rest := RunToDrop(t);
    }
    ls := [TAKEN] + rest;
    assert ls[1..] == rest;
  }

  /** While the job shows a failure and pruning stays asked for, some run takes the finalizer off. */
  ghost predicate CanStillDrop(s: State) {
    exists ls :: IsRun(s, ls) && Along(PruneFailed, s, ls) && !HoldsFinalizer(Exec(s, ls).k)
  }

  /**
   A failed prune job blocks the deletion, whether or not it also counts a success: as long as the job
   shows the failure and pruning stays asked for, the finalizer can come off exactly if a teardown is
   under way already that has passed the job or did not ask for pruning.
   */
  lemma FailedPruneBlocksExactly(s: State)
    requires HoldsFinalizer(s.k) && PruneFailed(s, Start)
    ensures CanStillDrop(s) <==> PastTheJob(s)
  {
    if PastTheJob(s) {
      var ls := RunToDrop(s);
    } else {
      forall ls | IsRun(s, ls) && Along(PruneFailed, s, ls) ensures HoldsFinalizer(Exec(s, ls).k) {
        FailureHoldsOn(s, ls);
      }
    }
  }

  // ---------- whose job it is ----------

  /** The CR, if any, for which the move starts a prune job. */
  ghost function StartedBy(s: State, l: Label): set<nat>
    requires Enabled(s, l)
  {
    if l.Control? && s.ctl.Busy? && CreatesJob(s, Apply(s, l)) then {s.ctl.cr.uid} else {}
  }

  /** The CRs for which the operator has started a prune job in the run. */
  ghost function Starters(s: State, ls: seq<Label>): set<nat>
    requires IsRun(s, ls)
    decreases |ls|
  {
    if ls == [] then {} else StartedBy(s, ls[0]) + Starters(Apply(s, ls[0]), ls[1..])
  }

  predicate Found(s: State) {
    s.ctl.Busy? && s.ctl.pc.DropFinalizer? && s.ctl.pc.found.Some?
  }

  /** Who started the job that is there, and the job a teardown has found, is told by the reference. */
  ghost predicate ReferenceTells(s: State, started: set<nat>) {
    && (s.k.job.Some? && s.k.job.value.owner.Nfd? ==> s.k.job.value.owner.uid in started)
    && (Found(s) && s.ctl.pc.found.value.owner.Nfd? ==> s.ctl.pc.found.value.owner.uid in started)
  }

  /** A job that was started is there still, under the reference it was given. */
  ghost predicate StartedIsFound(s: State, started: set<nat>) {
    forall u :: u in started ==>
      && s.k.job.Some? && s.k.job.value.owner == Nfd(u)
      && (Found(s) ==> s.ctl.pc.found.value.owner == Nfd(u))
  }

  lemma TellsOn(s: State, l: Label, started: set<nat>)
    requires Enabled(s, l) && ReferenceTells(s, started)
    ensures ReferenceTells(Apply(s, l), started + StartedBy(s, l))
  {
    if l.Control? && !s.ctl.Idle? {
      OnlyStartJobCreates(s, l.ch);
      if s.ctl.Busy? && Safety.Converging(s.ctl.pc) { Safety.ConvergingGoesOn(s, l.ch); }
    }
  }

  lemma FoundOn(s: State, l: Label, started: set<nat>)
    requires Enabled(s, l) && Convergence.KeepsReferences(s, l) && JobStays(s, l) && StartedIsFound(s, started)
    ensures StartedIsFound(Apply(s, l), started + StartedBy(s, l))
  {
    if l.Control? && !s.ctl.Idle? {
      OnlyStartJobCreates(s, l.ch);
      if s.ctl.Busy? && Safety.Converging(s.ctl.pc) { Safety.ConvergingGoesOn(s, l.ch); }
    }
  }

  lemma {:induction false} TellsAlong(s: State, ls: seq<Label>, started: set<nat>)
    requires IsRun(s, ls) && ReferenceTells(s, started)
    ensures ReferenceTells(Exec(s, ls), started + Starters(s, ls))
    decreases |ls|
  {
    if ls == [] {
      assert started + Starters(s, ls) == started;
    } else {
      TellsOn(s, ls[0], started);
      TellsAlong(Apply(s, ls[0]), ls[1..], started + StartedBy(s, ls[0]));
      assert started + Starters(s, ls)
        == started + StartedBy(s, ls[0]) + Starters(Apply(s, ls[0]), ls[1..]);
    }
  }

  lemma {:induction false} FoundAlong(s: State, ls: seq<Label>, started: set<nat>)
    requires IsRun(s, ls) && StartedIsFound(s, started)
    requires Along(Convergence.KeepsReferences, s, ls) && Along(JobStays, s, ls)
    ensures StartedIsFound(Exec(s, ls), started + Starters(s, ls))
    decreases |ls|
  {
    if ls == [] {
      assert started + Starters(s, ls) == started;
    } else {
      FoundOn(s, ls[0], started);
      FoundAlong(Apply(s, ls[0]), ls[1..], started + StartedBy(s, ls[0]));
      assert started + Starters(s, ls)
        == started + StartedBy(s, ls[0]) + Starters(Apply(s, ls[0]), ls[1..]);
    }
  }

  /**
   The operator does not look at the owner of the job it finds. When the finalizer comes off after
   pruning, a job found with a reference to this CR was started for it; and unless others strip
   references or delete the job, one was started for it exactly if the job found has the reference.
   */
  lemma OwnJobExactly(s0: State, ls: seq<Label>, l: Label)
    requires Init(s0) && IsRun(s0, ls) && Enabled(Exec(s0, ls), l)
    requires Safety.DropsFinalizer(Exec(s0, ls), Apply(Exec(s0, ls), l))
    requires Exec(s0, ls).ctl.Busy? ==> Exec(s0, ls).ctl.cr.spec.pruneOnDelete
    ensures var s := Exec(s0, ls);
      && Found(s)
      && (s.ctl.pc.found.value.owner == Nfd(s.ctl.cr.uid) ==> s.ctl.cr.uid in Starters(s0, ls))
      && (Along(Convergence.KeepsReferences, s0, ls) && Along(JobStays, s0, ls) ==>
            (s.ctl.cr.uid in Starters(s0, ls) <==> s.ctl.pc.found.value.owner == Nfd(s.ctl.cr.uid)))
  {
    assert ls[..|ls|] == ls;
    Safety.Reachable(s0, ls, |ls|);
    Safety.OnlyTeardownDrops(Exec(s0, ls), l);
    TellsAlong(s0, ls, {});
    assert {} + Starters(s0, ls) == Starters(s0, ls);
    if Along(Convergence.KeepsReferences, s0, ls) && Along(JobStays, s0, ls) {
      FoundAlong(s0, ls, {});
    }
  }
}
