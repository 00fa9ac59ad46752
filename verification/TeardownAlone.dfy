/**
 A deletion left to itself: no outsider moves and no call fails. It comes to rest, unless the prune
 job that it waits for has failed; then it is retried for ever.
 */
module TeardownAlone {
  import opened Types
  import opened Desired
  import opened Finalizers
  import opened Protocol
  import Safety
  import Convergence
  import Quiet
  import opened Silence

  predicate JobSucceeded(k: Cluster) {
    k.job.Some? && k.job.value.succeeded > 0 && k.job.value.failed <= 0
  }

  /** Every Reconcile of this deletion will return the error of the failed job. */
  predicate Stuck(k: Cluster) {
    k.cr.Some? && k.cr.value.spec.pruneOnDelete && JobFailed(k)
  }

  /**
   A Reconcile finds nothing to do: the CR is gone, or all it asked to be removed is, and the operator
   has given up its finalizer or waits for the job.
   */
  ghost predicate Finished(k: Cluster) {
    k.cr.Some? ==>
      var cr := k.cr.value;
      && (forall c :: Requested(cr.spec, c) ==> c !in k.comps)
      && (cr.spec.pruneOnDelete ==> k.job.Some? && !JobFailed(k))
      && ((cr.spec.pruneOnDelete && !JobSucceeded(k)) || !HasFinalizer(cr.finalizers))
  }

  ghost predicate BusyInv(k: Cluster, cr: CR, pc: Pc) {
    && k.cr == Some(cr) && Safety.TearingDown(pc) && (pc.Remove? ==> Requested(cr.spec, pc.c))
    && (forall c :: Safety.Removed(pc, c) && Requested(cr.spec, c) ==> c !in k.comps)
    && (pc.FindJob? || pc.StartJob? ==> cr.spec.pruneOnDelete)
    && (pc.StartJob? ==> k.job.None?)
    && (pc.DropFinalizer? && cr.spec.pruneOnDelete ==> JobSucceeded(k))
  }

  ghost predicate Inv(s: State) {
    && Deleting(s.k)
    && (s.ctl.Busy? ==> BusyInv(s.k, s.ctl.cr, s.ctl.pc))
  }

  /** How often the controller will still be started. */
  ghost function Rounds(s: State): nat {
    if s.ctl.Idle? then if !s.k.queued then 0 else if Finished(s.k) then 1 else 2
    else if Finished(s.k) && !s.k.queued then 0 else 1
  }

  /** A Reconcile that is over without having been queued again has left nothing to do. */
  ghost predicate RestsFinished(s: State) {
    s.ctl.Idle? ==> Finished(s.k) || s.k.queued
  }

  ghost predicate Progresses(s: State, t: State) {
    && Inv(t) && !Stuck(t.k) && RestsFinished(t)
    && Rounds(t) <= Rounds(s) && Quiet.Calls(t.ctl) < Quiet.Calls(s.ctl)
  }

  // ---------- every undisturbed move of a deletion that is not stuck ----------

  lemma FetchMoves(s: State, ch: Choice)
    requires Inv(s) && !Stuck(s.k) && s.ctl.Fetching? && ch.fault.Fine?
    ensures Progresses(s, StepFetch(s.k, ch))
  {
  }

  lemma RemoveMoves(s: State, ch: Choice)
    requires Inv(s) && !Stuck(s.k) && s.ctl.Busy? && s.ctl.pc.Remove? && ch.fault.Fine?
    ensures Progresses(s, StepRemove(s.k, s.ctl.cr, s.ctl.pc.c, ch))
  {
  }

  /** Past the last removal nothing that was asked for is there. */
  lemma AllRemoved(s: State)
    requires Inv(s) && s.ctl.Busy? && !s.ctl.pc.Remove?
    ensures forall c :: Requested(s.ctl.cr.spec, c) ==> c !in s.k.comps
  {
    assert forall c :: Safety.Removed(s.ctl.pc, c);
  }

  lemma FindJobMoves(s: State, ch: Choice)
    requires Inv(s) && !Stuck(s.k) && s.ctl.Busy? && s.ctl.pc.FindJob? && ch.fault.Fine?
    ensures Progresses(s, StepFindJob(s.k, s.ctl.cr, ch))
  {
    AllRemoved(s);
  }

  lemma StartJobMoves(s: State, ch: Choice)
    requires Inv(s) && !Stuck(s.k) && s.ctl.Busy? && s.ctl.pc.StartJob? && ch.fault.Fine?
    ensures Progresses(s, StepStartJob(s.k, s.ctl.cr, ch))
  {
    AllRemoved(s);
  }

  /** A Reconcile that ends without error and leaves nothing to do. */
  lemma EndMoves(s: State, k: Cluster)
    requires s.ctl.Busy? && Deleting(k) && !Stuck(k) && Finished(k) && (k == s.k || !Finished(s.k))
    ensures Progresses(s, Finish(k, false))
  {
  }

  /** The copy of the CR is current, so the update is accepted and takes the finalizer off. */
  lemma DropLands(k: Cluster, cr: CR, ch: Choice)
    requires k.cr == Some(cr) && cr.deleting && HasFinalizer(cr.finalizers) && ch.fault.Fine?
    ensures var o := UpdateCr(k, cr, cr.(finalizers := WithoutFinalizer(cr.finalizers)), ch);
      && !o.err && o.k.comps == k.comps && o.k.job == k.job
      && (o.k.cr.Some? ==> o.k.cr.value == cr.(finalizers := WithoutFinalizer(cr.finalizers)))
    ensures !HasFinalizer(WithoutFinalizer(cr.finalizers))
  {
    WithoutKeepsOthers(cr.finalizers);
  }

  lemma DropFinalizerMoves(s: State, ch: Choice)
    requires Inv(s) && !Stuck(s.k) && s.ctl.Busy? && s.ctl.pc.DropFinalizer? && ch.fault.Fine?
    ensures Progresses(s, StepDropFinalizer(s.k, s.ctl.cr, ch))
  {
    AllRemoved(s);
    var cr := s.ctl.cr;
    if HasFinalizer(cr.finalizers) {
      DropLands(s.k, cr, ch);
      EndMoves(s, UpdateCr(s.k, cr, cr.(finalizers := WithoutFinalizer(cr.finalizers)), ch).k);
    } else {
      EndMoves(s, s.k);
    }
  }

  lemma Moves(s: State, l: Label)
    requires Inv(s) && !Stuck(s.k) && Enabled(s, l) && Quiet.Undisturbed(s, l)
    ensures var t := Apply(s, l);
      if l.Start? then Inv(t) && !Stuck(t.k) && Rounds(t) < Rounds(s) else Progresses(s, t)
  {
    if l.Control? {
      if s.ctl.Fetching? {
        FetchMoves(s, l.ch);
      } else {
        match s.ctl.pc
        case Remove(_) => RemoveMoves(s, l.ch);
        case FindJob => FindJobMoves(s, l.ch);
        case StartJob => StartJobMoves(s, l.ch);
        case DropFinalizer(_) => DropFinalizerMoves(s, l.ch);
        case _ =>
      }
    }
  }

  ghost function Potential(s: State): nat {
    32 * Rounds(s) + Quiet.Calls(s.ctl)
  }

  lemma {:induction false} RunMoves(s: State, ls: seq<Label>)
    requires Inv(s) && !Stuck(s.k) && IsRun(s, ls) && Along(Quiet.Undisturbed, s, ls)
    ensures Inv(Exec(s, ls)) && !Stuck(Exec(s, ls).k)
    ensures Potential(Exec(s, ls)) + |ls| <= Potential(s)
    ensures Rounds(Exec(s, ls)) + Quiet.Starts(ls) <= Rounds(s)
    ensures RestsFinished(s) ==> RestsFinished(Exec(s, ls))
    decreases |ls|
  {
    if ls != [] {
      Moves(s, ls[0]);
      RunMoves(Apply(s, ls[0]), ls[1..]);
    }
  }

  // ---------- a stuck deletion ----------

  /** A Reconcile is due, or one is under way that has not looked at the job yet and will. */
  predicate WillLook(s: State) {
    match s.ctl
    case Idle => s.k.queued
    case Fetching => true
    case Busy(cr, pc, _) => cr.spec.pruneOnDelete && (pc.Remove? || pc.FindJob? || pc.StartJob?)
  }

  ghost predicate StuckInv(s: State) {
    Deleting(s.k) && Stuck(s.k) && WillLook(s)
  }

  lemma StuckMoves(s: State, l: Label)
    requires StuckInv(s) && Enabled(s, l) && Quiet.Undisturbed(s, l)
    ensures StuckInv(Apply(s, l))
  {
  }

  lemma {:induction false} StuckRuns(s: State, ls: seq<Label>)
    requires StuckInv(s) && IsRun(s, ls) && Along(Quiet.Undisturbed, s, ls)
    ensures StuckInv(Exec(s, ls))
    decreases |ls|
  {
    if ls != [] {
      StuckMoves(s, ls[0]);
      StuckRuns(Apply(s, ls[0]), ls[1..]);
    }
  }

  // ---------- the theorems ----------

  lemma {:induction false} StartsFromAnywhere(s: State, ls: seq<Label>)
    requires Convergence.WellShaped(s.ctl) && Deleting(s.k) && !Blockable(s)
    requires IsRun(s, ls) && Along(Quiet.Undisturbed, s, ls)
    ensures Quiet.Starts(ls) <= 2 && |ls| <= Quiet.Calls(s.ctl) + 64
    ensures Quiet.Starts(ls) > 0 ==> RestsFinished(Exec(s, ls))
    decreases |ls|
  {
    if ls != [] {
      if s.ctl.Idle? {
        RunMoves(s, ls);
      } else {
        CallRunsOut(s, ls[0].ch);
        StartsFromAnywhere(Apply(s, ls[0]), ls[1..]);
      }
    }
  }

  /**
   From any state of a deletion, idle or with a Reconcile of any snapshot under way: left alone, the
   controller begins at most two Reconciles, with a bounded number of calls in all, and has finished or
   waits for the job when it rests after one, unless pruning is asked for and the job has failed. If
   it has, and a Reconcile that looks at the job is due or under way, the deletion never rests.
   */
  lemma TwoReconcilesSuffice(s: State, ls: seq<Label>)
    requires Convergence.WellShaped(s.ctl) && Deleting(s.k)
    requires IsRun(s, ls) && Along(Quiet.Undisturbed, s, ls)
    ensures !Blockable(s) ==>
      && Quiet.Starts(ls) <= 2 && |ls| <= 84
      && (Quiet.AtRest(Exec(s, ls)) && Quiet.Starts(ls) > 0 ==> Finished(Exec(s, ls).k))
    ensures !Quiet.AtRest(Exec(s, ls)) ==>
      exists l :: Enabled(Exec(s, ls), l) && Quiet.Undisturbed(Exec(s, ls), l)
    ensures Stuck(s.k) && WillLook(s) ==> !Quiet.AtRest(Exec(s, ls))
  {
    if Stuck(s.k) && WillLook(s) { StuckRuns(s, ls); }
    if !Blockable(s) { StartsFromAnywhere(s, ls); }
    if !Quiet.AtRest(Exec(s, ls)) {
      var l := Quiet.RestOrMove(Exec(s, ls));
    }
  }

  ghost predicate CanRest(s: State) {
    exists ls :: IsRun(s, ls) && Along(Quiet.Undisturbed, s, ls) && Quiet.AtRest(Exec(s, ls))
  }

  /** A first undisturbed move, and a run from where it leads. */
  lemma Prepend(s: State, l: Label, rest: seq<Label>)
    requires Enabled(s, l) && Quiet.Undisturbed(s, l)
    requires IsRun(Apply(s, l), rest) && Along(Quiet.Undisturbed, Apply(s, l), rest)
    ensures var ls := [l] + rest;
      && IsRun(s, ls) && Along(Quiet.Undisturbed, s, ls) && Exec(s, ls) == Exec(Apply(s, l), rest)
      && Quiet.Starts(ls) == (if l.Start? then 1 else 0) + Quiet.Starts(rest)
  {
    assert ([l] + rest)[1..] == rest;
  }

  lemma {:induction false} IdleComesToRest(s: State)
    requires Inv(s) && !Stuck(s.k)
    ensures CanRest(s)
    decreases Potential(s)
  {
    if Quiet.AtRest(s) {
      assert IsRun(s, []) && Along(Quiet.Undisturbed, s, []) && Exec(s, []) == s;
    } else {
      var l := Quiet.RestOrMove(s);
      Moves(s, l);
      IdleComesToRest(Apply(s, l));
      RestsAfter(s, l);
    }
  }

  lemma RestsAfter(s: State, l: Label)
    requires Enabled(s, l) && Quiet.Undisturbed(s, l) && CanRest(Apply(s, l))
    ensures CanRest(s)
  {
    var t := Apply(s, l);
    var rest :| IsRun(t, rest) && Along(Quiet.Undisturbed, t, rest) && Quiet.AtRest(Exec(t, rest));
    Prepend(s, l, rest);
  }

  /** The failed job is not in the way: nobody asks for it, or only an outdated snapshot that will look at it. */
  predicate Unblocked(s: State) {
    !Blockable(s) || (!Stuck(s.k) && WillLook(s))
  }

  lemma StaysUnblocked(s: State, ch: Choice)
    requires Convergence.WellShaped(s.ctl) && Deleting(s.k) && Unblocked(s) && !s.ctl.Idle? && ch.fault.Fine?
    ensures Unblocked(Apply(s, Control(ch)))
  {
    CallRunsOut(s, ch);
  }

  lemma {:induction false} ComesToRest(s: State)
    requires Convergence.WellShaped(s.ctl) && Deleting(s.k) && Unblocked(s)
    ensures CanRest(s)
    decreases Quiet.Calls(s.ctl)
  {
    if s.ctl.Idle? {
      IdleComesToRest(s);
    } else {
      var l := Quiet.RestOrMove(s);
      CallRunsOut(s, l.ch);
      StaysUnblocked(s, l.ch);
      ComesToRest(Apply(s, l));
      RestsAfter(s, l);
    }
  }

  /**
   Left alone, a deletion comes to rest exactly if pruning is not asked for or the job has not failed.
   This covers an idle controller with its queue entry, and every Reconcile under way for which the
   failure is no matter or that has yet to look at the job.
   */
  lemma ComesToRestExactly(s: State)
    requires Convergence.WellShaped(s.ctl) && Deleting(s.k) && (WillLook(s) || !Blockable(s))
    ensures CanRest(s) <==> !Stuck(s.k)
  {
    if Stuck(s.k) {
      forall ls | IsRun(s, ls) && Along(Quiet.Undisturbed, s, ls) ensures !Quiet.AtRest(Exec(s, ls)) {
        StuckRuns(s, ls);
      }
    } else {
      ComesToRest(s);
    }
  }

  /** The Reconcile under way, if any, can end so that no Reconcile is due, or none that gets stuck. */
  ghost predicate CanEndFree(s: State) {
    exists ls :: EndsFree(s, ls)
  }

  ghost predicate EndsFree(s: State, ls: seq<Label>) {
    && IsRun(s, ls) && Along(Quiet.Undisturbed, s, ls) && Quiet.Starts(ls) == 0
    && Exec(s, ls).ctl.Idle? && !(Exec(s, ls).k.queued && Stuck(Exec(s, ls).k))
  }

  lemma {:induction false} RestNeedsFreeEnd(s: State, ls: seq<Label>)
    requires Convergence.WellShaped(s.ctl) && Deleting(s.k)
    requires IsRun(s, ls) && Along(Quiet.Undisturbed, s, ls) && Quiet.AtRest(Exec(s, ls))
    ensures CanEndFree(s)
    decreases |ls|
  {
    if s.ctl.Idle? {
      if s.k.queued && Stuck(s.k) { StuckRuns(s, ls); }
      assert EndsFree(s, []);
    } else {
      CallRunsOut(s, ls[0].ch);
      RestNeedsFreeEnd(Apply(s, ls[0]), ls[1..]);
      var rest :| EndsFree(Apply(s, ls[0]), rest);
      Prepend(s, ls[0], rest);
      assert EndsFree(s, [ls[0]] + rest);
    }
  }

  lemma {:induction false} FreeEndGivesRest(s: State, ls: seq<Label>)
    requires Convergence.WellShaped(s.ctl) && Deleting(s.k) && EndsFree(s, ls)
    ensures CanRest(s)
    decreases |ls|
  {
    if s.ctl.Idle? {
      assert ls == [];
      if Quiet.AtRest(s) {
        assert IsRun(s, []) && Along(Quiet.Undisturbed, s, []) && Exec(s, []) == s;
      } else {
        IdleComesToRest(s);
      }
    } else {
      CallRunsOut(s, ls[0].ch);
      assert EndsFree(Apply(s, ls[0]), ls[1..]);
      FreeEndGivesRest(Apply(s, ls[0]), ls[1..]);
      RestsAfter(s, ls[0]);
    }
  }

  /**
   In every other state too, it is only the Reconcile under way that decides: the deletion can come to
   rest exactly if that Reconcile can end without a queue entry, or with one that will not get stuck.
   */
  lemma RestIsDecidedByTheEnd(s: State)
    requires Convergence.WellShaped(s.ctl) && Deleting(s.k)
    ensures CanRest(s) <==> CanEndFree(s)
  {
    if CanRest(s) {
      var ls :| IsRun(s, ls) && Along(Quiet.Undisturbed, s, ls) && Quiet.AtRest(Exec(s, ls));
      RestNeedsFreeEnd(s, ls);
    }
    if CanEndFree(s) {
      var ls :| EndsFree(s, ls);
      FreeEndGivesRest(s, ls);
    }
  }
}
