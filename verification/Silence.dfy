/**
 The environment falls silent at any moment: the queue may hold an entry or not, and a Reconcile may
 be under way with a snapshot that is long out of date. From there on the controller is left to
 itself and no call fails.
 */
module Silence {
  import opened Types
  import opened Desired
  import opened Finalizers
  import opened Protocol
  import Safety
  import Convergence
  import Wakeup
  import Quiet

  /**
   A live CR, and nobody else controls what the CR, or the snapshot of a running Reconcile, asks for.
   The running Reconcile can be any, even a teardown that was begun for an earlier CR.
   */
  ghost predicate Available(s: State) {
    && s.k.cr.Some? && !s.k.cr.value.deleting && Quiet.Ownable(s.k, s.k.cr.value.spec)
    && (s.ctl.Busy? ==> Quiet.Ownable(s.k, s.ctl.cr.spec))
    && Convergence.WellShaped(s.ctl)
  }

  /** The CR, if there is one, is under deletion. */
  predicate Deleting(k: Cluster) {
    k.cr.Some? ==> k.cr.value.deleting
  }

  predicate JobFailed(k: Cluster) {
    k.job.Some? && k.job.value.failed > 0
  }

  /** The prune job has failed, and the CR or the snapshot of a running Reconcile asks for it. */
  predicate Blockable(s: State) {
    && JobFailed(s.k)
    && ((s.k.cr.Some? && s.k.cr.value.spec.pruneOnDelete) || (s.ctl.Busy? && s.ctl.cr.spec.pruneOnDelete))
  }

  // ---------- the Reconcile under way comes to its end ----------

  /** The Reconcile has fewer calls left; what could be taken over, was under deletion or not blocked still is. */
  ghost predicate RunsOut(s: State, t: State) {
    && Convergence.WellShaped(t.ctl) && Quiet.Calls(t.ctl) < Quiet.Calls(s.ctl)
    && (Available(s) ==> Available(t))
    && (Deleting(s.k) ==> Deleting(t.k))
    && (!Blockable(s) ==> !Blockable(t))
  }

  lemma FetchRunsOut(s: State, ch: Choice)
    requires s.ctl.Fetching?
    ensures RunsOut(s, StepFetch(s.k, ch))
  {
  }

  lemma AddFinalizerRunsOut(s: State, ch: Choice)
    requires Convergence.WellShaped(s.ctl) && s.ctl.Busy? && s.ctl.pc.AddFinalizer?
    ensures RunsOut(s, StepAddFinalizer(s.k, s.ctl.cr, ch))
  {
  }

  lemma DoneRunsOut(s: State, c: Component, err: bool)
    requires Convergence.WellShaped(s.ctl) && s.ctl.Busy? && (s.ctl.pc.Read? || s.ctl.pc.Write?) && s.ctl.pc.c == c
    ensures RunsOut(s, ComponentDone(s.k, s.ctl.cr, c, s.ctl.errs, err))
  {
  }

  lemma ReadRunsOut(s: State, ch: Choice)
    requires Convergence.WellShaped(s.ctl) && s.ctl.Busy? && s.ctl.pc.Read?
    ensures RunsOut(s, StepRead(s.k, s.ctl.cr, s.ctl.pc.c, s.ctl.errs, ch))
  {
    DoneRunsOut(s, s.ctl.pc.c, true);
    DoneRunsOut(s, s.ctl.pc.c, false);
  }

  lemma WriteRunsOut(s: State, ch: Choice)
    requires Convergence.WellShaped(s.ctl) && s.ctl.Busy? && s.ctl.pc.Write?
    ensures RunsOut(s, StepWrite(s.k, s.ctl.cr, s.ctl.pc.c, s.ctl.pc.seen, s.ctl.errs, ch))
  {
    var o := WriteComponent(s.k, s.ctl.cr, s.ctl.pc.c, s.ctl.pc.seen, ch);
    assert Available(s) ==> Available(s.(k := o.k));
    DoneRunsOut(s.(k := o.k), s.ctl.pc.c, o.err);
  }

  lemma HandledRunsOut(s: State, err: bool)
    requires Convergence.WellShaped(s.ctl) && s.ctl.Busy? && (s.ctl.pc.Probe? || s.ctl.pc.Publish?)
    ensures RunsOut(s, HandlerDone(s.k, s.ctl.cr, s.ctl.errs, err))
  {
  }

  lemma ProbeRunsOut(s: State, ch: Choice)
    requires Convergence.WellShaped(s.ctl) && s.ctl.Busy? && s.ctl.pc.Probe?
    ensures RunsOut(s, StepProbe(s.k, s.ctl.cr, s.ctl.pc.c, s.ctl.errs, ch))
  {
    HandledRunsOut(s, false);
  }

  lemma PublishRunsOut(s: State, ch: Choice)
    requires Convergence.WellShaped(s.ctl) && s.ctl.Busy? && s.ctl.pc.Publish?
    ensures RunsOut(s, StepPublish(s.k, s.ctl.cr, s.ctl.pc.conditions, s.ctl.errs, ch))
  {
    var o := PatchStatus(s.k, s.ctl.pc.conditions, ch);
    HandledRunsOut(s.(k := o.k), o.err);
  }

  lemma RemoveRunsOut(s: State, ch: Choice)
    requires Convergence.WellShaped(s.ctl) && s.ctl.Busy? && s.ctl.pc.Remove?
    ensures RunsOut(s, StepRemove(s.k, s.ctl.cr, s.ctl.pc.c, ch))
  {
  }

  lemma JobRunsOut(s: State, ch: Choice)
    requires Convergence.WellShaped(s.ctl) && s.ctl.Busy? && (s.ctl.pc.FindJob? || s.ctl.pc.StartJob?)
    ensures RunsOut(s, StepBusy(s.k, s.ctl.cr, s.ctl.pc, s.ctl.errs, ch))
  {
  }

  lemma DropFinalizerRunsOut(s: State, ch: Choice)
    requires Convergence.WellShaped(s.ctl) && s.ctl.Busy? && s.ctl.pc.DropFinalizer?
    ensures RunsOut(s, StepDropFinalizer(s.k, s.ctl.cr, ch))
  {
  }

  lemma CallRunsOut(s: State, ch: Choice)
    requires Convergence.WellShaped(s.ctl) && !s.ctl.Idle?
    ensures RunsOut(s, Apply(s, Control(ch)))
  {
    if s.ctl.Fetching? {
      FetchRunsOut(s, ch);
    } else {
      match s.ctl.pc
      case AddFinalizer => AddFinalizerRunsOut(s, ch);
      case Read(_) => ReadRunsOut(s, ch);
      case Write(_, _) => WriteRunsOut(s, ch);
      case Probe(_) => ProbeRunsOut(s, ch);
      case Publish(_) => PublishRunsOut(s, ch);
      case Remove(_) => RemoveRunsOut(s, ch);
      case DropFinalizer(_) => DropFinalizerRunsOut(s, ch);
      case _ => JobRunsOut(s, ch);
    }
  }

  // ---------- no self-triggering ----------

  lemma {:induction false} StartsFromAnywhere(s: State, ls: seq<Label>)
    requires Available(s) && IsRun(s, ls) && Along(Quiet.Undisturbed, s, ls)
    ensures Quiet.Starts(ls) <= 3 && |ls| <= Quiet.Calls(s.ctl) + 96
    ensures Exec(s, ls).k.cr.Some? && !Exec(s, ls).k.cr.value.deleting
    ensures Quiet.Starts(ls) > 0 ==> Quiet.Inv(Exec(s, ls))
    decreases |ls|
  {
    if ls != [] {
      if s.ctl.Idle? {
        Quiet.RunMoves(s, ls);
      } else {
        CallRunsOut(s, ls[0].ch);
        StartsFromAnywhere(Apply(s, ls[0]), ls[1..]);
      }
    }
  }

  /**
   No self-triggering loop. Whatever is stored and wherever the controller stands, left alone it
   begins at most three Reconciles, with a bounded number of calls in all, although each of them
   computes conditions with new timestamps; it can move as long as it is not at rest; and if it has
   begun a Reconcile since, everything has converged when it is.
   */
  lemma NoSelfTriggering(s: State, ls: seq<Label>)
    requires Available(s) && IsRun(s, ls) && Along(Quiet.Undisturbed, s, ls)
    ensures Quiet.Starts(ls) <= 3 && |ls| <= 116
    ensures var t := Exec(s, ls);
      && t.k.cr.Some?
      && (Quiet.AtRest(t) && Quiet.Starts(ls) > 0 ==> Wakeup.Converged(t.k, t.k.cr.value))
      && (!Quiet.AtRest(t) ==> exists l :: Enabled(t, l) && Quiet.Undisturbed(t, l))
  {
    StartsFromAnywhere(s, ls);
    var t := Exec(s, ls);
    if !Quiet.AtRest(t) {
      var l := Quiet.RestOrMove(t);
    }
  }

  /** From every such state there is an undisturbed run to rest. */
  lemma {:induction false} ComesToRest(s: State) returns (ls: seq<Label>)
    requires Available(s)
    ensures IsRun(s, ls) && Along(Quiet.Undisturbed, s, ls) && Quiet.AtRest(Exec(s, ls))
    decreases Quiet.Calls(s.ctl)
  {
    if Quiet.AtRest(s) {
      ls := [];
    } else if s.ctl.Idle? {
      ls := Quiet.ComesToRest(s);
    } else {
      var l := Quiet.RestOrMove(s);
      CallRunsOut(s, l.ch);
      var rest := ComesToRest(Apply(s, l));
      ls := [l] + rest;
      assert ls[1..] == rest;
    }
  }

  lemma {:induction false} SilenceObeysTheRules(s: State, ls: seq<Label>)
    requires IsRun(s, ls) && Along(Quiet.Undisturbed, s, ls)
    ensures Along(Convergence.KeepsReferences, s, ls)
    decreases |ls|
  {
    if ls != [] {
      SilenceObeysTheRules(Apply(s, ls[0]), ls[1..]);
    }
  }

  /**
   The same after any history: when outsiders and faults stop at any moment of a run in which outsiders
   have left controller references alone, at most three more Reconciles begin. At rest the CR has
   converged exactly if its conditions tell of no unreadable component, and they never do once a
   Reconcile has begun in the silence.
   */
  lemma SilenceAfterAnyRun(s0: State, before: seq<Label>, ls: seq<Label>)
    requires Init(s0) && IsRun(s0, before) && Along(Convergence.KeepsReferences, s0, before)
    requires Available(Exec(s0, before))
    requires IsRun(Exec(s0, before), ls) && Along(Quiet.Undisturbed, Exec(s0, before), ls)
    ensures Quiet.Starts(ls) <= 3 && |ls| <= 116
    ensures var t := Exec(Exec(s0, before), ls);
      && t.k.cr.Some?
      && (Quiet.AtRest(t) ==>
            && (Wakeup.Converged(t.k, t.k.cr.value) <==> !Wakeup.TellsUnreadable(t.k.cr.value))
            && (Quiet.Starts(ls) > 0 ==> !Wakeup.TellsUnreadable(t.k.cr.value)))
      && (!Quiet.AtRest(t) ==> exists l :: Enabled(t, l) && Quiet.Undisturbed(t, l))
  {
    var s, t := Exec(s0, before), Exec(Exec(s0, before), ls);
    NoSelfTriggering(s, ls);
    StartsFromAnywhere(s, ls);
    SilenceObeysTheRules(s, ls);
    RunAppend(s0, before, ls);
    AlongAppend(Convergence.KeepsReferences, s0, before, ls);
    if Quiet.AtRest(t) { Wakeup.NoLostWakeup(s0, before + ls); }
  }
}
