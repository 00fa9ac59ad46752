/**
 Where the promises end: for each rule that a theorem asks of a run, what goes wrong without it,
 exactly when, and runs from an empty namespace in which it does.
 */
module Limits {
  import opened Types
  import opened Status
  import opened Desired
  import opened Finalizers
  import opened Protocol
  import Safety
  import Prune
  import Convergence
  import Wakeup
  import Quiet

  // ---------- exactly when a change goes unnoticed ----------

  /**
   A real change to a requested object of a converged cluster is either noticed or harmless exactly
   when the new object is still controlled by a NodeFeatureDiscovery.
   */
  lemma StrippedReferenceExactly(s: State, c: Component, o: Object)
    requires s.ctl.Idle? && !s.k.queued && s.k.cr.Some? && !s.k.cr.value.deleting
    requires Wakeup.Converged(s.k, s.k.cr.value) && Requested(s.k.cr.value.spec, c)
    requires Possible(s.k, UpdateObject(c, o)) && o != s.k.comps[c]
    ensures var t := Apply(s, Outside(UpdateObject(c, o)));
      t.k.queued || Wakeup.Settled(t.k) <==> IsControlledByNFD(o.owner)
  {
    assert Convergence.InPlace(s.k, s.k.cr.value, c);
    var t := Apply(s, Outside(UpdateObject(c, o)));
    if !IsControlledByNFD(o.owner) {
      assert !Convergence.InPlace(t.k, t.k.cr.value, c);
    }
  }

  /**
   When the prune job that a deletion waits for comes to an end, this is noticed exactly when the
   job is controlled by a NodeFeatureDiscovery; a job of that name made by somebody else blocks it.
   */
  lemma ForeignJobExactly(s: State, j: Job)
    requires s.ctl.Idle? && !s.k.queued && s.k.cr.Some? && s.k.cr.value.deleting
    requires HasFinalizer(s.k.cr.value.finalizers) && Wakeup.TornDown(s.k, s.k.cr.value)
    requires Possible(s.k, UpdateJob(j)) && (j.succeeded > 0 || j.failed > 0)
    ensures var t := Apply(s, Outside(UpdateJob(j)));
      t.k.queued || Wakeup.Settled(t.k) <==> IsControlledByNFD(j.owner)
  {
  }

  /** The component that could not be read is there all the same, so what was published about it is wrong. */
  lemma ToldIsWrong(s: State, message: string)
    requires Wakeup.Inv(false, false, s) && !Convergence.Excused(false, s) && s.ctl.Busy? && s.ctl.pc.Probe?
    requires AreConditionsEqual(s.ctl.cr.conditions, Wakeup.Unreadable(s.ctl.pc.c, message))
    ensures s.k.cr == Some(s.ctl.cr) && !Wakeup.StatusCurrent(s.k, s.ctl.cr)
  {
    Wakeup.NoErrorMeansInPlace(s, s.ctl.pc.c);
    Wakeup.UnreadableIsWrong(s.ctl.cr.conditions, s.k, s.ctl.cr.spec.topologyUpdater, s.ctl.pc.c, message);
  }

  /**
   A failed read behind the status loses a wake-up, in a Reconcile after which nothing else brings
   another, exactly when the stored conditions already tell of that failure: then it ends in silence,
   and the conditions it leaves are wrong.
   */
  lemma FailedProbeExactly(s: State, ch: Choice)
    requires Wakeup.Inv(false, false, s) && !Convergence.Excused(false, s)
    requires s.ctl.Busy? && s.ctl.pc.Probe? && !ch.fault.Fine?
    ensures var t := Apply(s, Control(ch));
      t.ctl.Idle? && !t.k.queued && !Wakeup.Settled(t.k)
      <==> AreConditionsEqual(s.ctl.cr.conditions, Wakeup.Unreadable(s.ctl.pc.c, ch.fault.message))
  {
    var cr, c, errs := s.ctl.cr, s.ctl.pc.c, s.ctl.errs;
    var told := NotAvailableConditions(c, Failed(ch.fault.message), ch.now).value;
    Wakeup.ToldAtAnyTime(c, ch.fault.message, ch.now, cr.conditions);
    ComparedGoesOn(s.k, cr, errs, told);
    assert Apply(s, Control(ch)) == Compare(s.k, cr, errs, told);
    if AreConditionsEqual(cr.conditions, told) {
      ToldIsWrong(s, ch.fault.message);
    }
  }

  // ---------- runs ----------

  ghost predicate Reaches(s: State, t: State) {
    exists ls :: IsRun(s, ls) && Exec(s, ls) == t
  }

  lemma ReachRun(s: State, t: State, ls: seq<Label>)
    requires Reaches(s, t) && IsRun(t, ls)
    ensures Reaches(s, Exec(t, ls))
  {
    var first :| IsRun(s, first) && Exec(s, first) == t;
    RunAppend(s, first, ls);
    assert IsRun(s, first + ls) && Exec(s, first + ls) == Exec(t, ls);
  }

  lemma ReachMove(s: State, t: State, l: Label)
    requires Reaches(s, t) && Enabled(t, l)
    ensures Reaches(s, Apply(t, l))
  {
    RunOne(t, l);
    ReachRun(s, t, [l]);
  }

  lemma ReachSelf(s: State)
    ensures Reaches(s, s)
  {
    assert IsRun(s, []) && Exec(s, []) == s;
  }

  const EMPTY := State(Cluster(None, map[], None, 0, false), Idle)

  const SMOOTH := Control(Choice(Fine, 0, false, BLANK))

  /** From an empty namespace, a user's CR and an undisturbed operator lead to a converged cluster at rest. */
  lemma ReachConverged(spec: Spec) returns (t: State)
    ensures Reaches(EMPTY, t) && t.ctl.Idle? && !t.k.queued && t.k.cr.Some? && !t.k.cr.value.deleting
    ensures t.k.cr.value.spec == spec && t.k.cr.value.finalizers == [NFD_FINALIZER]
    ensures Wakeup.Converged(t.k, t.k.cr.value) && t.k.job.None?
  {
    var create := Outside(CreateCr(spec, [], []));
    ReachSelf(EMPTY);
    ReachMove(EMPTY, EMPTY, create);
    var s := Apply(EMPTY, create);
    assert Quiet.Inv(s);
    var ls := Quiet.ComesToRest(s);
    Quiet.RunMoves(s, ls);
    Quiet.DemandKept(s, ls);
    ReachRun(EMPTY, s, ls);
    t := Exec(s, ls);
    assert WithFinalizer([]) == [NFD_FINALIZER];
  }

  /** One deletion of a teardown, nothing failing. */
  lemma ReachRemove(s0: State, s: State, c: Component)
    requires Reaches(s0, s) && s.ctl.Busy? && s.ctl.pc == Remove(c)
    ensures Reaches(s0, Apply(s, SMOOTH))
    ensures var t := Apply(s, SMOOTH);
      && t.ctl == Busy(s.ctl.cr, AfterRemove(c, s.ctl.cr.spec), [])
      && t.k.cr == s.k.cr && t.k.job == s.k.job && GetComponent(t.k, c).None?
      && (forall d :: d != c ==> GetComponent(t.k, d) == GetComponent(s.k, d))
      && (c !in s.k.comps ==> t.k == s.k)
  {
    ReachMove(s0, s, SMOOTH);
  }

  /** The removals of a teardown, nothing failing. */
  lemma ReachTornDown(s0: State, s: State) returns (t: State)
    requires Reaches(s0, s) && s.ctl.Busy? && s.ctl.pc == Remove(Worker)
    ensures Reaches(s0, t) && t.ctl == Busy(s.ctl.cr, AfterRemove(GC, s.ctl.cr.spec), [])
    ensures t.k.cr == s.k.cr && t.k.job == s.k.job
    ensures forall c ::
      GetComponent(t.k, c) == if Requested(s.ctl.cr.spec, c) then None else GetComponent(s.k, c)
    ensures (forall c :: Requested(s.ctl.cr.spec, c) ==> c !in s.k.comps) ==> t.k == s.k
  {
    ReachRemove(s0, s, Worker);
    t := Apply(s, SMOOTH);
    ReachRemove(s0, t, WorkerConfig);
    t := Apply(t, SMOOTH);
    if s.ctl.cr.spec.topologyUpdater {
      ReachRemove(s0, t, Topology);
      t := Apply(t, SMOOTH);
    }
    ReachRemove(s0, t, Master);
    t := Apply(t, SMOOTH);
    ReachRemove(s0, t, GC);
    t := Apply(t, SMOOTH);
  }

  /** A teardown without prune job, from its first call to the end, nothing failing. */
  lemma ReachVanished(s0: State, s: State) returns (t: State)
    requires Reaches(s0, s) && s.ctl.Busy? && s.ctl.pc == Remove(Worker) && s.k.cr == Some(s.ctl.cr)
    requires s.ctl.cr.deleting && !s.ctl.cr.spec.topologyUpdater && !s.ctl.cr.spec.pruneOnDelete
    requires s.ctl.cr.finalizers == [NFD_FINALIZER]
    ensures Reaches(s0, t) && t.k.cr.None? && GetComponent(t.k, Topology) == GetComponent(s.k, Topology)
  {
    t := ReachTornDown(s0, s);
    LastFinalizer(t.k, s.ctl.cr, None);
    ReachMove(s0, t, SMOOTH);
    t := Apply(t, SMOOTH);
  }

  lemma LastFinalizer(k: Cluster, cr: CR, found: Option<Job>)
    requires k.cr == Some(cr) && cr.deleting && cr.finalizers == [NFD_FINALIZER]
    ensures Apply(State(k, Busy(cr, DropFinalizer(found), [])), SMOOTH) == State(k.(cr := None, queued := true), Idle)
  {
    SetThenRemove([]);
    assert WithFinalizer([]) == [NFD_FINALIZER];
  }

  /** With the topology updater switched off in between, the teardown of a converged CR begins without it. */
  lemma ReachSwitchedOff(s0: State, s: State) returns (t: State)
    requires Reaches(s0, s) && s.ctl.Idle? && !s.k.queued
    requires s.k.cr.Some? && !s.k.cr.value.deleting && s.k.cr.value.spec.topologyUpdater
    requires s.k.cr.value.finalizers == [NFD_FINALIZER]
    ensures Reaches(s0, t) && t.k.comps == s.k.comps && t.k.cr.Some?
    ensures t.ctl == Busy(t.k.cr.value, Remove(Worker), [])
    ensures var cr := s.k.cr.value;
      t.k.cr.value == cr.(spec := cr.spec.(topologyUpdater := false), deleting := true)
  {
    var cr := s.k.cr.value;
    var edit := Outside(EditCr(cr.spec.(topologyUpdater := false), cr.finalizers, cr.conditions));
    ReachMove(s0, s, edit);
    t := Apply(s, edit);
    ReachMove(s0, t, Outside(DeleteCr));
    t := Apply(t, Outside(DeleteCr));
    ReachMove(s0, t, Start);
    t := Apply(t, Start);
    ReachMove(s0, t, SMOOTH);
    t := Apply(t, SMOOTH);
  }

  /**
   The topology updater's DaemonSet can outlive its CR: switched on, then off, then the CR deleted.
   So OrphanFreedom does not hold of Topology without the rule that it stays on.
   */
  lemma TopologyCanBeOrphaned(spec: Spec) returns (t: State)
    requires spec.topologyUpdater && !spec.pruneOnDelete
    ensures Init(EMPTY) && Reaches(EMPTY, t)
    ensures t.k.cr.None? && Topology in t.k.comps && t.k.comps[Topology].owner.Nfd?
  {
    var s := ReachConverged(spec);
    assert Convergence.InPlace(s.k, s.k.cr.value, Topology);
    var u := ReachSwitchedOff(EMPTY, s);
    t := ReachVanished(EMPTY, u);
    assert GetComponent(t.k, Topology) == Some(s.k.comps[Topology]);
  }

  /** A DaemonSet that loses its content together with its controller reference stays that way. */
  lemma StrippedReferenceIsNotRepaired(spec: Spec, o: Object) returns (t: State)
    requires !IsControlledByNFD(o.owner)
    ensures Init(EMPTY) && Reaches(EMPTY, t) && t.ctl.Idle? && !t.k.queued
    ensures t.k.cr.Some? && t.k.cr.value.spec == spec && !Wakeup.Settled(t.k)
    ensures Worker in t.k.comps && t.k.comps[Worker] == o
  {
    var s := ReachConverged(spec);
    assert Convergence.InPlace(s.k, s.k.cr.value, Worker);
    var update := Outside(UpdateObject(Worker, o));
    StrippedReferenceExactly(s, Worker, o);
    ReachMove(EMPTY, s, update);
    t := Apply(s, update);
  }

  // ---------- the prune job ----------

  /** A Reconcile of a deletion with pruning, from the queue entry to the look at the job. */
  lemma ReachJob(s0: State, s: State) returns (t: State)
    requires Reaches(s0, s) && s.ctl.Idle? && s.k.queued
    requires s.k.cr.Some? && s.k.cr.value.deleting && s.k.cr.value.spec.pruneOnDelete
    ensures Reaches(s0, t) && t.ctl == Busy(s.k.cr.value, FindJob, [])
    ensures t.k.cr == s.k.cr && t.k.job == s.k.job
    ensures forall c :: Requested(s.k.cr.value.spec, c) ==> c !in t.k.comps
    ensures (forall c :: Requested(s.k.cr.value.spec, c) ==> c !in s.k.comps) ==> !t.k.queued
  {
    var k, cr := s.k.(queued := false), s.k.cr.value;
    ReachMove(s0, s, Start);
    ReachMove(s0, State(k, Fetching), SMOOTH);
    t := ReachTornDown(s0, State(k, Busy(cr, Remove(Worker), [])));
    forall c | Requested(cr.spec, c) ensures c !in t.k.comps {
      assert GetComponent(t.k, c).None?;
    }
  }

  /** A converged CR with pruning is deleted, and its teardown comes to look at the job. */
  lemma ReachFirstLook(spec: Spec, j: Option<Job>) returns (t: State, cr: CR)
    requires spec.pruneOnDelete && (j.Some? ==> !j.value.owner.Nfd?)
    ensures Reaches(EMPTY, t) && t.ctl == Busy(cr, FindJob, []) && t.k.cr == Some(cr) && t.k.job == j
    ensures cr.deleting && cr.spec == spec && cr.finalizers == [NFD_FINALIZER]
    ensures forall c :: Requested(spec, c) ==> c !in t.k.comps
  {
    t := ReachConverged(spec);
    if j.Some? {
      ReachMove(EMPTY, t, Outside(CreateForeignJob(j.value)));
      t := Apply(t, Outside(CreateForeignJob(j.value)));
    }
    ReachMove(EMPTY, t, Outside(DeleteCr));
    t := Apply(t, Outside(DeleteCr));
    cr := t.k.cr.value;
    t := ReachJob(EMPTY, t);
  }

  /**
   A job of somebody else that is not finished when a deletion comes to wait for it: when it ends
   nobody is woken, and the deletion waits for ever.
   */
  lemma ForeignJobIsNotNoticed(spec: Spec, j: Job) returns (t: State)
    requires spec.pruneOnDelete && !j.owner.Nfd? && j.succeeded <= 0 && j.failed <= 0
    ensures Init(EMPTY) && Reaches(EMPTY, t) && t.ctl.Idle? && !t.k.queued
    ensures t.k.cr.Some? && t.k.cr.value.deleting && t.k.job == Some(j.(succeeded := 1)) && !Wakeup.Settled(t.k)
  {
    var cr;
    t, cr := ReachFirstLook(spec, Some(j));
    ReachMove(EMPTY, t, SMOOTH);
    t := Apply(t, SMOOTH);
    // the removals have woken the operator once more
    if t.k.queued {
      t := ReachJob(EMPTY, t);
      ReachMove(EMPTY, t, SMOOTH);
      t := Apply(t, SMOOTH);
    }
    var done := Outside(UpdateJob(j.(succeeded := 1)));
    ForeignJobExactly(t, j.(succeeded := 1));
    ReachMove(EMPTY, t, done);
    t := Apply(t, done);
  }

  /**
   A job of somebody else that has succeeded stands in for the one of this deletion: the finalizer
   comes off without any pruning having been started.
   */
  lemma ForeignJobIsTaken(spec: Spec, j: Job) returns (s: State)
    requires spec.pruneOnDelete && !j.owner.Nfd? && j.succeeded > 0 && j.failed <= 0
    ensures Init(EMPTY) && Reaches(EMPTY, s) && Prune.Found(s)
    ensures s.ctl.cr.spec.pruneOnDelete && s.ctl.pc.found == Some(j)
    ensures s.k.cr.Some? && Apply(s, SMOOTH).k.cr.None?
  {
    var cr;
    s, cr := ReachFirstLook(spec, Some(j));
    ReachMove(EMPTY, s, SMOOTH);
    s := Apply(s, SMOOTH);
    LastFinalizer(s.k, cr, Some(j));
  }

  /**
   A failure that the prune job shows only after a teardown has read its success comes too late: the
   finalizer comes off although the job has failed and pruning is asked for.
   */
  lemma FailureComesTooLate(spec: Spec) returns (s: State)
    requires spec.pruneOnDelete
    ensures Init(EMPTY) && Reaches(EMPTY, s) && Prune.PruneFailed(s, SMOOTH) && Prune.PastTheJob(s)
    ensures Prune.HoldsFinalizer(s.k) && Apply(s, SMOOTH).k.cr.None?
  {
    var cr;
    s, cr := ReachFirstLook(spec, None);
    ReachMove(EMPTY, s, SMOOTH);
    s := Apply(s, SMOOTH);
    ReachMove(EMPTY, s, SMOOTH);
    s := Apply(s, SMOOTH);
    var succeeded := Outside(UpdateJob(PruneJob(cr).(succeeded := 1)));
    ReachMove(EMPTY, s, succeeded);
    s := Apply(s, succeeded);
    s := ReachJob(EMPTY, s);
    ReachMove(EMPTY, s, SMOOTH);
    s := Apply(s, SMOOTH);
    var found := PruneJob(cr).(succeeded := 1);
    var failed := Outside(UpdateJob(found.(failed := 1)));
    ReachMove(EMPTY, s, failed);
    s := Apply(s, failed);
    LastFinalizer(s.k, cr, Some(found));
  }

  // ---------- the status that stays wrong ----------

  /** From a converged cluster with a queue entry, to the first read behind the status. */
  lemma ReachProbe(s0: State, s: State) returns (t: State)
    requires Reaches(s0, s) && s.ctl.Idle? && s.k.queued
    requires s.k.cr.Some? && !s.k.cr.value.deleting && HasFinalizer(s.k.cr.value.finalizers)
    requires forall c :: Requested(s.k.cr.value.spec, c) ==> Convergence.InPlace(s.k, s.k.cr.value, c)
    ensures t == State(s.k.(queued := false), Busy(s.k.cr.value, Probe(Worker), NoErrors(4)))
    ensures Reaches(s0, t)
  {
    var k, cr := s.k.(queued := false), s.k.cr.value;
    assert forall c :: Requested(cr.spec, c) ==> Convergence.InPlace(k, cr, c);
    ReachMove(s0, s, Start);
    ReachMove(s0, State(k, Fetching), SMOOTH);
    ReachAllRead(s0, k, cr);
    t := State(k, Busy(cr, Probe(Worker), NoErrors(4)));
  }

  /** The handlers find their objects in place and have nothing to write. */
  lemma ReachAllRead(s0: State, k: Cluster, cr: CR)
    requires Reaches(s0, State(k, Busy(cr, Read(Master), NoErrors(0))))
    requires forall c :: Requested(cr.spec, c) ==> Convergence.InPlace(k, cr, c)
    ensures Reaches(s0, State(k, Busy(cr, Probe(Worker), NoErrors(4))))
  {
    ReachRead(s0, k, cr, Master, NoErrors(0));
    HandledWell(k, cr, Master);
    ReachRead(s0, k, cr, WorkerConfig, NoErrors(1));
    HandledWell(k, cr, WorkerConfig);
    ReachRead(s0, k, cr, Worker, NoErrors(1));
    HandledWell(k, cr, Worker);
    if cr.spec.topologyUpdater {
      ReachRead(s0, k, cr, Topology, NoErrors(2));
      HandledWell(k, cr, Topology);
    }
    ReachRead(s0, k, cr, GC, NoErrors(3));
    HandledWell(k, cr, GC);
  }

  function NoErrors(n: nat): (errs: seq<bool>)
    ensures |errs| == n && true !in errs
  {
    seq(n, _ => false)
  }

  /** Where a handler leads that has returned without error, as all before it have. */
  lemma HandledWell(k: Cluster, cr: CR, c: Component)
    ensures ComponentDone(k, cr, c, NoErrors(Convergence.HandlerOf(c)), false) == State(k,
      match c
      case Master => Busy(cr, Read(WorkerConfig), NoErrors(1))
      case WorkerConfig => Busy(cr, Read(Worker), NoErrors(1))
      case Worker =>
        if cr.spec.topologyUpdater then Busy(cr, Read(Topology), NoErrors(2))
        else Busy(cr, Read(GC), NoErrors(3))
      case Topology => Busy(cr, Read(GC), NoErrors(3))
      case GC => Busy(cr, Probe(Worker), NoErrors(4)))
  {
    var n := Convergence.HandlerOf(c);
    assert NoErrors(n) + [false] == NoErrors(n + 1);
    assert NoErrors(2) + [false] == NoErrors(3);
  }

  lemma ReachRead(s0: State, k: Cluster, cr: CR, c: Component, errs: seq<bool>)
    requires Reaches(s0, State(k, Busy(cr, Read(c), errs))) && Convergence.InPlace(k, cr, c)
    ensures Reaches(s0, ComponentDone(k, cr, c, errs, false))
  {
    ReachMove(s0, State(k, Busy(cr, Read(c), errs)), SMOOTH);
  }

  lemma FailedProbe(k: Cluster, cr: CR, message: string)
    ensures var p := State(k, Busy(cr, Probe(Worker), NoErrors(4)));
      var wrong := Wakeup.Unreadable(Worker, message);
      Apply(p, Failing(message)) ==
        if AreConditionsEqual(cr.conditions, wrong) then Finish(k, false)
        else State(k, Busy(cr, Publish(wrong), NoErrors(4)))
  {
    var errs := NoErrors(4);
    assert true !in errs + [false];
    assert NotAvailableConditions(Worker, Failed(message), 0) == Some(Wakeup.Unreadable(Worker, message));
  }

  function Failing(message: string): Label {
    Control(Choice(Lost(message), 0, false, BLANK))
  }

  lemma Published(k: Cluster, cr: CR, message: string)
    requires k.cr == Some(cr) && !cr.deleting && !AreConditionsEqual(cr.conditions, Wakeup.Unreadable(Worker, message))
    ensures var wrong := Wakeup.Unreadable(Worker, message);
      Apply(State(k, Busy(cr, Publish(wrong), NoErrors(4))), SMOOTH)
        == State(k.(cr := Some(cr.(conditions := wrong)), queued := true), Idle)
  {
    UnequalDiffers(cr.conditions, Wakeup.Unreadable(Worker, message));
    assert true !in NoErrors(4) + [false];
  }

  /** A converged cluster with its queue entry, after the read behind the status has failed once. */
  lemma AfterOneFailure(s0: State, s: State, message: string) returns (t: State)
    requires Reaches(s0, s) && s.ctl.Idle? && s.k.queued
    requires s.k.cr.Some? && !s.k.cr.value.deleting && HasFinalizer(s.k.cr.value.finalizers)
    requires forall c :: Requested(s.k.cr.value.spec, c) ==> Convergence.InPlace(s.k, s.k.cr.value, c)
    ensures Reaches(s0, t) && t.ctl.Idle? && t.k.comps == s.k.comps && t.k.cr.Some?
    ensures AreConditionsEqual(t.k.cr.value.conditions, Wakeup.Unreadable(Worker, message))
    ensures t.k.cr.value == s.k.cr.value.(conditions := t.k.cr.value.conditions)
    ensures AreConditionsEqual(s.k.cr.value.conditions, Wakeup.Unreadable(Worker, message)) ==> !t.k.queued
    ensures !AreConditionsEqual(s.k.cr.value.conditions, Wakeup.Unreadable(Worker, message)) ==>
              t.k.queued && t.k.cr.value.conditions == Wakeup.Unreadable(Worker, message)
  {
    var cr := s.k.cr.value;
    var p := ReachProbe(s0, s);
    FailedProbe(p.k, cr, message);
    ReachMove(s0, p, Failing(message));
    t := Apply(p, Failing(message));
    if !AreConditionsEqual(cr.conditions, Wakeup.Unreadable(Worker, message)) {
      Published(p.k, cr, message);
      ReachMove(s0, t, SMOOTH);
      t := Apply(t, SMOOTH);
      EqualIsSameReport(Wakeup.Unreadable(Worker, message), Wakeup.Unreadable(Worker, message));
    }
  }

  lemma InPlaceKept(k: Cluster, k': Cluster, cr: CR, cr': CR)
    requires cr'.spec == cr.spec && cr'.uid == cr.uid
    requires forall c :: Requested(cr.spec, c) ==> Convergence.InPlace(k, cr, c)
    requires forall c :: c in k.comps ==> c in k'.comps && k'.comps[c] == k.comps[c].(health := k'.comps[c].health)
    ensures forall c :: Requested(cr'.spec, c) ==> Convergence.InPlace(k', cr', c)
  {
    forall c | Requested(cr'.spec, c) ensures Convergence.InPlace(k', cr', c) {
      assert Convergence.InPlace(k, cr, c);
    }
  }

  /** A converged cluster whose worker DaemonSet comes to report other numbers, which wakes the operator. */
  lemma ReachReport(spec: Spec) returns (t: State)
    ensures Reaches(EMPTY, t) && t.ctl.Idle? && t.k.queued && Worker in t.k.comps
    ensures t.k.cr.Some? && !t.k.cr.value.deleting && HasFinalizer(t.k.cr.value.finalizers)
    ensures t.k.cr.value.spec == spec
    ensures forall c :: Requested(spec, c) ==> Convergence.InPlace(t.k, t.k.cr.value, c)
  {
    var s := ReachConverged(spec);
    var cr := s.k.cr.value;
    assert Convergence.InPlace(s.k, cr, Worker);
    var o := s.k.comps[Worker];
    var report := Outside(UpdateObject(Worker, o.(health := o.health.(desired := o.health.desired + 1))));
    ReachMove(EMPTY, s, report);
    t := Apply(s, report);
    InPlaceKept(s.k, t.k, cr, cr);
  }

  /**
   The read of the worker DaemonSet fails, is published, and fails once more in the same way: then
   the operator comes to rest with the failure still published, although the DaemonSet is there.
   So NoLostWakeup does not hold of the status without the rule that these reads succeed.
   */
  lemma WrongStatusCanStay(spec: Spec, message: string) returns (t: State)
    ensures Init(EMPTY) && Reaches(EMPTY, t) && t.ctl.Idle? && !t.k.queued
    ensures t.k.cr.Some? && !t.k.cr.value.deleting && !Wakeup.StatusCurrent(t.k, t.k.cr.value) && !Wakeup.Settled(t.k)
    ensures forall c :: Requested(spec, c) ==> Convergence.InPlace(t.k, t.k.cr.value, c)
  {
    var s := ReachReport(spec);
    t := AfterOneFailure(EMPTY, s, message);
    InPlaceKept(s.k, t.k, s.k.cr.value, t.k.cr.value);
    if t.k.queued {
      EqualIsSameReport(Wakeup.Unreadable(Worker, message), Wakeup.Unreadable(Worker, message));
      var v := AfterOneFailure(EMPTY, t, message);
      InPlaceKept(t.k, v.k, t.k.cr.value, v.k.cr.value);
      t := v;
    }
    Wakeup.UnreadableIsWrong(t.k.cr.value.conditions, t.k, spec.topologyUpdater, Worker, message);
  }
}
