/** A deletion makes progress: what is left to do never grows, and every error-free Reconcile does some of it. */
module Teardown {
  import opened Types
  import opened Desired
  import opened Finalizers
  import opened Protocol
  import Safety

  // ---------- what is left ----------

  /** Components still to be removed, the prune job still to be started, the finalizer still held. */
  datatype Remaining = Remaining(left: nat, unpruned: nat, held: nat)

  const NOTHING := Remaining(0, 0, 0)

  /** Lexicographically less. */
  predicate Less(a: Remaining, b: Remaining) {
    a.left < b.left || (a.left == b.left && (a.unpruned < b.unpruned || (a.unpruned == b.unpruned && a.held < b.held)))
  }

  predicate AtMost(a: Remaining, b: Remaining) {
    a == b || Less(a, b)
  }

  function Targets(spec: Spec, k: Cluster): set<Component> {
    set c | c in k.comps && Requested(spec, c)
  }

  predicate Held(k: Cluster) {
    k.cr.Some? && HasFinalizer(k.cr.value.finalizers)
  }

  function RemainingFor(spec: Spec, k: Cluster): Remaining {
    Remaining(|Targets(spec, k)|,
              if spec.pruneOnDelete && k.job.None? then 1 else 0,
              if Held(k) then 1 else 0)
  }

  // ---------- the rule and the invariant ----------

  /** Outsiders add no component, delete no job, create no second CR and leave the spec as it is. */
  ghost predicate Hands(s: State, l: Label) {
    l.Outside? ==>
      && !l.a.CreateObject? && !l.a.DeleteJob? && !l.a.CreateCr?
      && (l.a.EditCr? && s.k.cr.Some? ==> l.a.spec == s.k.cr.value.spec)
  }

  /** The CR with this spec is being deleted, and a running Reconcile, if any, has seen it. */
  ghost predicate Inv(spec: Spec, s: State) {
    && (s.k.cr.Some? ==> s.k.cr.value.deleting && s.k.cr.value.spec == spec)
    && (s.ctl.Busy? ==>
          var cr, pc := s.ctl.cr, s.ctl.pc;
          && Safety.TearingDown(pc) && cr.spec == spec
          && (s.k.cr.Some? ==> (Held(s.k) <==> HasFinalizer(cr.finalizers)))
          && (forall c :: Safety.Removed(pc, c) && Requested(spec, c) ==> c !in s.k.comps)
          && (pc.DropFinalizer? && spec.pruneOnDelete ==> s.k.job.Some?)
          && (pc.FindJob? || pc.StartJob? ==> spec.pruneOnDelete))
  }

  lemma FewerTargets(spec: Spec, k: Cluster, k': Cluster)
    requires k'.comps.Keys <= k.comps.Keys
    ensures |Targets(spec, k')| <= |Targets(spec, k)|
    ensures Targets(spec, k') != Targets(spec, k) ==> |Targets(spec, k')| < |Targets(spec, k)|
  {
    var a, b := Targets(spec, k'), Targets(spec, k);
    assert b == a + (b - a);
  }

  lemma OutsideKeeps(spec: Spec, s: State, a: Action)
    requires Inv(spec, s) && Possible(s.k, a) && Hands(s, Outside(a))
    ensures Inv(spec, Apply(s, Outside(a)))
    ensures AtMost(RemainingFor(spec, Act(s.k, a)), RemainingFor(spec, s.k))
  {
    var k := Act(s.k, a);
    assert k.comps.Keys <= s.k.comps.Keys;
    FewerTargets(spec, s.k, k);
    assert Held(k) ==> Held(s.k);
    assert s.k.job.Some? ==> k.job.Some?;
  }

  lemma RemoveKeeps(spec: Spec, s: State, ch: Choice)
    requires Inv(spec, s) && s.ctl.Busy? && s.ctl.pc.Remove?
    ensures var t := StepRemove(s.k, s.ctl.cr, s.ctl.pc.c, ch);
      Inv(spec, t) && AtMost(RemainingFor(spec, t.k), RemainingFor(spec, s.k))
  {
    var t := StepRemove(s.k, s.ctl.cr, s.ctl.pc.c, ch);
    assert t.k.comps.Keys <= s.k.comps.Keys;
    FewerTargets(spec, s.k, t.k);
    assert Held(t.k) == Held(s.k) && t.k.job == s.k.job;
  }

  lemma SameComponents(spec: Spec, k: Cluster, k': Cluster)
    requires k'.comps == k.comps && (k.job.Some? ==> k'.job.Some?) && (Held(k') ==> Held(k))
    ensures AtMost(RemainingFor(spec, k'), RemainingFor(spec, k))
  {
    assert Targets(spec, k') == Targets(spec, k);
  }

  lemma FindJobKeeps(spec: Spec, s: State, ch: Choice)
    requires Inv(spec, s) && s.ctl.Busy? && s.ctl.pc.FindJob?
    ensures var t := StepFindJob(s.k, s.ctl.cr, ch);
      Inv(spec, t) && AtMost(RemainingFor(spec, t.k), RemainingFor(spec, s.k))
  {
    SameComponents(spec, s.k, StepFindJob(s.k, s.ctl.cr, ch).k);
  }

  lemma StartJobKeeps(spec: Spec, s: State, ch: Choice)
    requires Inv(spec, s) && s.ctl.Busy? && s.ctl.pc.StartJob?
    ensures var t := StepStartJob(s.k, s.ctl.cr, ch);
      Inv(spec, t) && AtMost(RemainingFor(spec, t.k), RemainingFor(spec, s.k))
  {
    SameComponents(spec, s.k, StepStartJob(s.k, s.ctl.cr, ch).k);
  }

  lemma DropFinalizerKeeps(spec: Spec, s: State, ch: Choice)
    requires Inv(spec, s) && s.ctl.Busy? && s.ctl.pc.DropFinalizer?
    ensures var t := StepDropFinalizer(s.k, s.ctl.cr, ch);
      Inv(spec, t) && AtMost(RemainingFor(spec, t.k), RemainingFor(spec, s.k))
  {
    WithoutKeepsOthers(s.ctl.cr.finalizers);
    SameComponents(spec, s.k, StepDropFinalizer(s.k, s.ctl.cr, ch).k);
  }

  lemma ControlKeeps(spec: Spec, s: State, ch: Choice)
    requires Inv(spec, s) && s.ctl.Busy?
    ensures Inv(spec, Apply(s, Control(ch)))
    ensures AtMost(RemainingFor(spec, Apply(s, Control(ch)).k), RemainingFor(spec, s.k))
  {
    match s.ctl.pc
    case Remove(_) => RemoveKeeps(spec, s, ch);
    case FindJob => FindJobKeeps(spec, s, ch);
    case StartJob => StartJobKeeps(spec, s, ch);
    case DropFinalizer(_) => DropFinalizerKeeps(spec, s, ch);
    case _ =>
  }

  lemma Keeps(spec: Spec, s: State, l: Label)
    requires Inv(spec, s) && Enabled(s, l) && Hands(s, l)
    ensures Inv(spec, Apply(s, l))
    ensures AtMost(RemainingFor(spec, Apply(s, l).k), RemainingFor(spec, s.k))
  {
    match l
    case Outside(a) => OutsideKeeps(spec, s, a);
    case Control(ch) =>
      if s.ctl.Busy? { ControlKeeps(spec, s, ch); } else { assert Targets(spec, Apply(s, l).k) == Targets(spec, s.k); }
    case _ => assert Targets(spec, Apply(s, l).k) == Targets(spec, s.k);
  }

  /** With the spec fixed, what is left of a teardown never grows, under any faults and restarts. */
  lemma {:induction false} NeverGrows(spec: Spec, s: State, ls: seq<Label>)
    requires Inv(spec, s) && IsRun(s, ls) && Along(Hands, s, ls)
    ensures Inv(spec, Exec(s, ls))
    ensures AtMost(RemainingFor(spec, Exec(s, ls).k), RemainingFor(spec, s.k))
    decreases |ls|
  {
    if ls != [] {
      Keeps(spec, s, ls[0]);
      NeverGrows(spec, Apply(s, ls[0]), ls[1..]);
    }
  }

  // ---------- one Reconcile ----------

  /** This call ends the Reconcile without an error. */
  predicate EndsWell(s: State, ch: Choice)
    requires s.ctl.Busy?
  {
    match s.ctl.pc
    case FindJob =>
      ch.fault.Fine? && s.k.job.Some? && s.k.job.value.failed <= 0 && s.k.job.value.succeeded <= 0
    case StartJob =>
      !CreateJob(s.k, PruneJob(s.ctl.cr), ch).err
    case DropFinalizer(_) =>
      !HasFinalizer(s.ctl.cr.finalizers)
      || !UpdateCr(s.k, s.ctl.cr, s.ctl.cr.(finalizers := WithoutFinalizer(s.ctl.cr.finalizers)), ch).err
    case _ => false
  }

  /** An error-free last call ends the Reconcile; any other end is an error and puts it back in the queue. */
  lemma EndsWellMeansNoError(spec: Spec, s: State, ch: Choice)
    requires Inv(spec, s) && s.ctl.Busy?
    ensures var t := Apply(s, Control(ch));
      (EndsWell(s, ch) ==> t.ctl.Idle?) && (t.ctl.Idle? && !EndsWell(s, ch) ==> t.k.queued)
  {
  }

  /** The last call of an error-free Reconcile that does not wait finishes something or finds all done. */
  lemma LastCall(spec: Spec, s: State, ch: Choice)
    requires Inv(spec, s) && s.ctl.Busy? && EndsWell(s, ch) && !s.ctl.pc.FindJob?
    ensures var t := Apply(s, Control(ch));
      Less(RemainingFor(spec, t.k), RemainingFor(spec, s.k)) || RemainingFor(spec, s.k) == NOTHING
  {
    var t := Apply(s, Control(ch));
    assert forall c :: Safety.Removed(s.ctl.pc, c);
    assert Targets(spec, s.k) == {} == Targets(spec, t.k);
    WithoutKeepsOthers(s.ctl.cr.finalizers);
  }

  /**
   Teardown terminates. A Reconcile that begins on a deleting CR, suffers no restart and returns no
   error leaves strictly less to do than there was when it read the CR, unless nothing was left then,
   or nothing but to wait: no component to remove, no job to start, and the job not finished.
   */
  lemma EveryReconcileProgresses(spec: Spec, s: State, ls: seq<Label>, ch: Choice)
    requires Inv(spec, s) && IsRun(s, ls) && Along(Hands, s, ls)
    requires Exec(s, ls).ctl.Busy? && EndsWell(Exec(s, ls), ch)
    ensures var u, t := Exec(s, ls), Apply(Exec(s, ls), Control(ch));
      && t.ctl.Idle?
      && (Less(RemainingFor(spec, t.k), RemainingFor(spec, s.k))
          || RemainingFor(spec, s.k) == NOTHING
          || (u.ctl.pc.FindJob? && RemainingFor(spec, s.k).left == 0 && RemainingFor(spec, s.k).unpruned == 0
              && u.k.job.Some? && u.k.job.value.succeeded <= 0 && u.k.job.value.failed <= 0 && t.k == u.k))
  {
    NeverGrows(spec, s, ls);
    var u := Exec(s, ls);
    if u.ctl.pc.FindJob? {
      assert forall c :: Safety.Removed(u.ctl.pc, c);
      assert Targets(spec, u.k) == {};
      assert RemainingFor(spec, u.k).left == 0 && RemainingFor(spec, u.k).unpruned == 0;
    } else {
      LastCall(spec, u, ch);
    }
  }
}
