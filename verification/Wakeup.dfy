/** No wake-up is lost: when the queue is empty and nothing runs, there is nothing left to do. */
module Wakeup {
  import opened Types
  import opened Status
  import opened Desired
  import opened Finalizers
  import opened Protocol
  import Safety
  import Convergence

  // ---------- rules ----------

  /** The name of the prune job is left to the operator. */
  ghost predicate NoForeignJob(s: State, l: Label) {
    !(l.Outside? && l.a.CreateForeignJob?)
  }

  /** The reads behind the status do not fail; that an object is not found is no failure here. */
  ghost predicate ProbesSucceed(s: State, l: Label) {
    l.Control? && s.ctl.Busy? && s.ctl.pc.Probe? ==> l.ch.fault.Fine?
  }

  // ---------- what there is to achieve ----------

  function ReadingsOf(k: Cluster): Readings {
    Readings(Observe(k, Worker), Observe(k, Master), Observe(k, GC), Observe(k, Topology))
  }

  /** The stored conditions say what the components report now. */
  predicate StatusCurrent(k: Cluster, cr: CR) {
    AreConditionsEqual(cr.conditions, GetConditions(ReadingsOf(k), cr.spec.topologyUpdater, 0))
  }

  /** What is published when a component cannot be read. */
  function Unreadable(c: Component, message: string): seq<Condition> {
    DegradedConditions(ReasonOf(c, FailedGetting), message, 0)
  }

  /** The stored conditions tell of a requested component that could not be read. */
  ghost predicate TellsUnreadable(cr: CR) {
    exists c: Component, message: string ::
      c != WorkerConfig && Requested(cr.spec, c) && AreConditionsEqual(cr.conditions, Unreadable(c, message))
  }

  /** The deletion waits for a prune job that has neither succeeded nor failed. */
  predicate AwaitsJob(k: Cluster, cr: CR) {
    cr.spec.pruneOnDelete && k.job.Some? && k.job.value.succeeded <= 0 && k.job.value.failed <= 0
  }

  ghost predicate Converged(k: Cluster, cr: CR) {
    && HasFinalizer(cr.finalizers)
    && (forall c :: Requested(cr.spec, c) ==> Convergence.InPlace(k, cr, c))
    && StatusCurrent(k, cr)
  }

  ghost predicate TornDown(k: Cluster, cr: CR) {
    && (forall c :: Requested(cr.spec, c) ==> Safety.Unowned(k, c))
    && (!HasFinalizer(cr.finalizers) || AwaitsJob(k, cr))
  }

  /** There is nothing left to do. */
  ghost predicate Settled(k: Cluster) {
    k.cr.Some? ==> if k.cr.value.deleting then TornDown(k, k.cr.value) else Converged(k, k.cr.value)
  }

  /** What the operator has achieved whenever it rests, whatever reads have failed and whoever made the prune job. */
  ghost predicate Achieved(k: Cluster) {
    k.cr.Some? ==>
      var cr := k.cr.value;
      if cr.deleting then
        && (forall c :: Requested(cr.spec, c) ==> Safety.Unowned(k, c))
        && (HasFinalizer(cr.finalizers) ==>
              cr.spec.pruneOnDelete && (k.job.Some? && k.job.value.owner.Nfd? ==> AwaitsJob(k, cr)))
      else
        && HasFinalizer(cr.finalizers)
        && (forall c :: Requested(cr.spec, c) ==> Convergence.InPlace(k, cr, c))
        && (StatusCurrent(k, cr) || TellsUnreadable(cr))
  }

  /** With `clean`, no read behind the status has failed; with `jobs`, the prune job is the operator's. */
  ghost predicate Rested(clean: bool, jobs: bool, k: Cluster) {
    && Achieved(k)
    && (k.cr.Some? && !k.cr.value.deleting && clean ==> Settled(k))
    && (k.cr.Some? && k.cr.value.deleting && jobs ==> Settled(k))
  }

  // ---------- the invariant ----------

  function ProbeRank(c: Component): nat {
    match c
    case Worker => 0
    case Master => 1
    case GC => 2
    case Topology => 3
    case WorkerConfig => 4
  }

  ghost predicate ProbedReady(k: Cluster, c: Component) {
    forall d :: d != WorkerConfig && ProbeRank(d) < ProbeRank(c) ==> ProblemOf(d, Observe(k, d)).None?
  }

  ghost predicate StatusInv(s: State) {
    s.ctl.Busy? ==>
      && (s.ctl.pc.Probe? ==>
            && s.ctl.pc.c != WorkerConfig && Requested(s.ctl.cr.spec, s.ctl.pc.c)
            && (!Convergence.Excused(false, s) ==> ProbedReady(s.k, s.ctl.pc.c)))
      && (s.ctl.pc.Publish? ==>
            WellKinded(s.ctl.pc.conditions) && !AreConditionsEqual(s.ctl.cr.conditions, s.ctl.pc.conditions))
  }

  ghost predicate TeardownInv(jobs: bool, s: State) {
    && (s.ctl.Busy? && Safety.TearingDown(s.ctl.pc) && !s.k.queued ==> s.k.cr == Some(s.ctl.cr))
    && (s.ctl.Busy? && (s.ctl.pc.FindJob? || s.ctl.pc.StartJob?) ==> s.ctl.cr.spec.pruneOnDelete)
    && (jobs && s.k.job.Some? ==> s.k.job.value.owner.Nfd?)
  }

  ghost predicate IdleInv(clean: bool, jobs: bool, s: State) {
    s.ctl.Idle? ==> s.k.queued || Rested(clean, jobs, s.k)
  }

  ghost predicate OwnInv(clean: bool, jobs: bool, s: State) {
    StatusInv(s) && TeardownInv(jobs, s) && IdleInv(clean, jobs, s)
  }

  ghost predicate Inv(clean: bool, jobs: bool, s: State) {
    Safety.Inv(false, false, s) && Convergence.Inv(false, s) && OwnInv(clean, jobs, s)
  }

  ghost predicate Rule(clean: bool, jobs: bool, s: State, l: Label) {
    && Convergence.KeepsReferences(s, l)
    && (clean ==> ProbesSucceed(s, l))
    && (jobs ==> NoForeignJob(s, l))
  }

  // ---------- every move keeps it ----------

  lemma SettledOutside(clean: bool, jobs: bool, s: State, a: Action)
    requires Inv(clean, jobs, s) && Possible(s.k, a) && Rule(clean, jobs, s, Outside(a))
    ensures IdleInv(clean, jobs, Apply(s, Outside(a)))
  {
    if s.ctl.Idle? && !Act(s.k, a).queued && s.k.cr.Some? {
      if s.k.cr.value.deleting {
        TornDownStays(clean, jobs, s, a);
      } else {
        ConvergedStays(clean, jobs, s, a);
      }
    }
  }

  lemma TornDownStays(clean: bool, jobs: bool, s: State, a: Action)
    requires Possible(s.k, a) && Rule(clean, jobs, s, Outside(a)) && TeardownInv(jobs, s) && !Act(s.k, a).queued
    requires s.k.cr.Some? && s.k.cr.value.deleting && Rested(clean, jobs, s.k)
    ensures Act(s.k, a).cr == s.k.cr && Rested(clean, jobs, Act(s.k, a))
  {
    assert forall c :: Requested(s.k.cr.value.spec, c) ==> Safety.Unowned(s.k, c);
  }

  lemma ConvergedStays(clean: bool, jobs: bool, s: State, a: Action)
    requires Possible(s.k, a) && Rule(clean, jobs, s, Outside(a)) && !Act(s.k, a).queued
    requires s.k.cr.Some? && !s.k.cr.value.deleting && Rested(clean, jobs, s.k)
    ensures Act(s.k, a).cr == s.k.cr && Rested(clean, jobs, Act(s.k, a))
  {
    assert forall c :: Requested(s.k.cr.value.spec, c) ==> Convergence.InPlace(s.k, s.k.cr.value, c);
    UntouchedIfQuiet(s, a);
    SameRest(clean, jobs, s.k, Act(s.k, a));
  }

  lemma SameRest(clean: bool, jobs: bool, k: Cluster, k': Cluster)
    requires k.cr.Some? && !k.cr.value.deleting && Rested(clean, jobs, k) && k'.cr == k.cr
    requires forall c :: Requested(k.cr.value.spec, c) ==> GetComponent(k', c) == GetComponent(k, c)
    ensures Rested(clean, jobs, k')
  {
    var cr := k.cr.value;
    OnlyRequestedCount(k, k', cr.spec);
    forall c | Requested(cr.spec, c) ensures Convergence.InPlace(k', cr, c) {
      assert Convergence.InPlace(k, cr, c) && GetComponent(k', c) == GetComponent(k, c);
    }
  }

  /** The conditions depend on nothing but the requested components. */
  lemma OnlyRequestedCount(k: Cluster, k': Cluster, spec: Spec)
    requires forall c :: Requested(spec, c) ==> GetComponent(k', c) == GetComponent(k, c)
    ensures GetConditions(ReadingsOf(k'), spec.topologyUpdater, 0)
         == GetConditions(ReadingsOf(k), spec.topologyUpdater, 0)
  {
    forall c | Requested(spec, c) ensures Observe(k', c) == Observe(k, c) {
      assert GetComponent(k', c) == GetComponent(k, c);
    }
    assert Observe(k', Worker) == Observe(k, Worker);
    assert Observe(k', Master) == Observe(k, Master);
    assert Observe(k', GC) == Observe(k, GC);
    assert spec.topologyUpdater ==> Observe(k', Topology) == Observe(k, Topology);
  }

  /** An action that wakes nobody leaves the objects under NFD control alone. */
  lemma UntouchedIfQuiet(s: State, a: Action)
    requires Possible(s.k, a) && !Act(s.k, a).queued && Convergence.KeepsReferences(s, Outside(a))
    ensures forall c :: c in s.k.comps && s.k.comps[c].owner.Nfd? ==>
              GetComponent(Act(s.k, a), c) == GetComponent(s.k, c)
  {
  }

  lemma OutsideKeeps(clean: bool, jobs: bool, s: State, a: Action)
    requires Inv(clean, jobs, s) && Possible(s.k, a) && Rule(clean, jobs, s, Outside(a))
    ensures Inv(clean, jobs, Apply(s, Outside(a)))
  {
    Safety.OutsideKeeps(false, false, s, a);
    Convergence.OutsideKeeps(s, a);
    SettledOutside(clean, jobs, s, a);
    ProbesOutside(clean, jobs, s, a);
  }

  lemma ProbesOutside(clean: bool, jobs: bool, s: State, a: Action)
    requires Inv(clean, jobs, s) && Possible(s.k, a) && Rule(clean, jobs, s, Outside(a))
    ensures StatusInv(Apply(s, Outside(a)))
  {
    var t := Apply(s, Outside(a));
    if s.ctl.Busy? && s.ctl.pc.Probe? && !Convergence.Excused(false, t) {
      assert !Convergence.Excused(false, s);
      UntouchedIfQuiet(s, a);
      var cr, pc := s.ctl.cr, s.ctl.pc;
      forall d | d != WorkerConfig && ProbeRank(d) < ProbeRank(pc.c)
        ensures ProblemOf(d, Observe(t.k, d)).None?
      {
        NoErrorMeansInPlace(s, d);
        assert GetComponent(t.k, d) == GetComponent(s.k, d);
      }
    }
  }

  /** While the status is computed and nothing has gone wrong, every requested component is in place. */
  lemma NoErrorMeansInPlace(s: State, c: Component)
    requires Convergence.Inv(false, s) && !Convergence.Excused(false, s)
    requires s.ctl.Busy? && (s.ctl.pc.Probe? || s.ctl.pc.Publish?) && Requested(s.ctl.cr.spec, c)
    ensures s.k.cr == Some(s.ctl.cr) && Convergence.InPlace(s.k, s.ctl.cr, c)
  {
    assert Convergence.Processed(s.ctl.pc, s.ctl.errs, c);
    assert !Convergence.Errored(s.ctl.errs, c);
  }

  /** A problem met after the earlier components were found ready decides the conditions. */
  lemma ProbeDecides(k: Cluster, c: Component, topologyUpdater: bool, now: int)
    requires c != WorkerConfig && (c == Topology ==> topologyUpdater) && ProbedReady(k, c)
    ensures var problem := NotAvailableConditions(c, Observe(k, c), now);
      && (problem.Some? ==> GetConditions(ReadingsOf(k), topologyUpdater, now) == problem.value)
      && (problem.None? && NextProbe(c, topologyUpdater).None? ==>
            GetConditions(ReadingsOf(k), topologyUpdater, now) == AvailableConditions(now))
  {
    forall d | d != WorkerConfig && ProbeRank(d) < ProbeRank(c)
      ensures NotAvailableConditions(d, Observe(k, d), now).None?
    {
      assert ProblemOf(d, Observe(k, d)).None?;
    }
    assert ProbeRank(c) > 0 ==> NotAvailableConditions(Worker, Observe(k, Worker), now).None?;
    assert ProbeRank(c) > 1 ==> NotAvailableConditions(Master, Observe(k, Master), now).None?;
    assert ProbeRank(c) > 2 ==> NotAvailableConditions(GC, Observe(k, GC), now).None?;
  }

  lemma ComputedWellKinded(c: Component, rd: Reading, now: int)
    ensures var problem := NotAvailableConditions(c, rd, now);
            problem.Some? ==> WellKinded(problem.value)
    ensures WellKinded(AvailableConditions(now))
  {
  }

  lemma ProbeKeeps(clean: bool, jobs: bool, s: State, ch: Choice)
    requires Inv(clean, jobs, s) && s.ctl.Busy? && s.ctl.pc.Probe? && ch.fault.Fine?
    ensures OwnInv(clean, jobs, StepProbe(s.k, s.ctl.cr, s.ctl.pc.c, s.ctl.errs, ch))
  {
    var cr, c, k := s.ctl.cr, s.ctl.pc.c, s.k;
    var problem := NotAvailableConditions(c, Observe(k, c), ch.now);
    ComputedWellKinded(c, Observe(k, c), ch.now);
    if problem.None? && NextProbe(c, cr.spec.topologyUpdater).Some? {
      assert ProblemOf(c, Observe(k, c)).None?;
    } else {
      if !Convergence.Excused(false, s) { ProbeDecides(k, c, cr.spec.topologyUpdater, ch.now); }
      CompareKeeps(clean, jobs, s, if problem.Some? then problem.value else AvailableConditions(ch.now), ch.now);
    }
  }

  lemma CompareKeeps(clean: bool, jobs: bool, s: State, conditions: seq<Condition>, now: int)
    requires Inv(clean, jobs, s) && s.ctl.Busy? && s.ctl.pc.Probe? && WellKinded(conditions)
    requires !Convergence.Excused(false, s) ==>
      conditions == GetConditions(ReadingsOf(s.k), s.ctl.cr.spec.topologyUpdater, now)
    ensures OwnInv(clean, jobs, Compare(s.k, s.ctl.cr, s.ctl.errs, conditions))
  {
    var cr, k := s.ctl.cr, s.k;
    if AreConditionsEqual(cr.conditions, conditions) && !Convergence.Excused(false, s) {
      TimeIsIgnored(cr.conditions, ReadingsOf(k), cr.spec.topologyUpdater, now, 0);
      forall d | Requested(cr.spec, d) ensures Convergence.InPlace(k, cr, d) { NoErrorMeansInPlace(s, d); }
      NoErrorMeansInPlace(s, Master);
      assert Converged(k, cr);
    }
    ComparedRests(clean, jobs, s, conditions);
  }

  /** After the comparison the Reconcile either publishes, or rests if that is allowed, or comes again. */
  lemma ComparedRests(clean: bool, jobs: bool, s: State, conditions: seq<Condition>)
    requires Inv(clean, jobs, s) && s.ctl.Busy? && s.ctl.pc.Probe? && WellKinded(conditions)
    requires AreConditionsEqual(s.ctl.cr.conditions, conditions) && !Convergence.Excused(false, s) ==>
      Rested(clean, jobs, s.k)
    ensures OwnInv(clean, jobs, Compare(s.k, s.ctl.cr, s.ctl.errs, conditions))
  {
    ComparedGoesOn(s.k, s.ctl.cr, s.ctl.errs, conditions);
  }

  /** A read that fails decides the conditions at once; if they are stored already, the operator may rest on them. */
  lemma FailedProbeKeeps(jobs: bool, s: State, ch: Choice)
    requires Inv(false, jobs, s) && s.ctl.Busy? && s.ctl.pc.Probe? && !ch.fault.Fine?
    ensures OwnInv(false, jobs, StepProbe(s.k, s.ctl.cr, s.ctl.pc.c, s.ctl.errs, ch))
  {
    var cr, c, k := s.ctl.cr, s.ctl.pc.c, s.k;
    var told := NotAvailableConditions(c, Failed(ch.fault.message), ch.now).value;
    ToldAtAnyTime(c, ch.fault.message, ch.now, cr.conditions);
    if AreConditionsEqual(cr.conditions, told) && !Convergence.Excused(false, s) {
      assert TellsUnreadable(cr);
      forall d | Requested(cr.spec, d) ensures Convergence.InPlace(k, cr, d) { NoErrorMeansInPlace(s, d); }
      NoErrorMeansInPlace(s, Master);
      assert Achieved(k);
    }
    ComparedRests(false, jobs, s, told);
  }

  lemma ToldAtAnyTime(c: Component, message: string, now: int, stored: seq<Condition>)
    ensures var told := NotAvailableConditions(c, Failed(message), now);
      && told == Some(DegradedConditions(ReasonOf(c, FailedGetting), message, now))
      && (AreConditionsEqual(stored, told.value) <==> AreConditionsEqual(stored, Unreadable(c, message)))
  {
    BuildersReport(ReasonOf(c, FailedGetting), message, now);
    BuildersReport(ReasonOf(c, FailedGetting), message, 0);
    ReportDecides(stored, DegradedConditions(ReasonOf(c, FailedGetting), message, now), Unreadable(c, message));
  }

  lemma PublishKeeps(clean: bool, jobs: bool, s: State, ch: Choice)
    requires Inv(clean, jobs, s) && s.ctl.Busy? && s.ctl.pc.Publish?
    ensures OwnInv(clean, jobs, Apply(s, Control(ch)))
  {
    UnequalDiffers(s.ctl.cr.conditions, s.ctl.pc.conditions);
    if !Convergence.Excused(false, s) { NoErrorMeansInPlace(s, Master); }
  }

  lemma RemoveKeeps(clean: bool, jobs: bool, s: State, ch: Choice)
    requires Inv(clean, jobs, s) && s.ctl.Busy? && s.ctl.pc.Remove?
    ensures OwnInv(clean, jobs, StepRemove(s.k, s.ctl.cr, s.ctl.pc.c, ch))
  {
  }

  /** When a teardown has passed its last removal, nothing that was asked for is left. */
  lemma NothingOwned(clean: bool, jobs: bool, s: State)
    requires Inv(clean, jobs, s) && s.ctl.Busy? && Safety.TearingDown(s.ctl.pc) && !s.ctl.pc.Remove?
    ensures forall c :: Requested(s.ctl.cr.spec, c) ==> Safety.Unowned(s.k, c)
  {
    assert forall c :: Safety.Removed(s.ctl.pc, c);
    assert forall c :: Requested(s.ctl.cr.spec, c) ==> Safety.Gone(false, s.k, c);
  }

  lemma FindJobKeeps(clean: bool, jobs: bool, s: State, ch: Choice)
    requires Inv(clean, jobs, s) && s.ctl.Busy? && s.ctl.pc.FindJob?
    ensures OwnInv(clean, jobs, StepFindJob(s.k, s.ctl.cr, ch))
  {
    NothingOwned(clean, jobs, s);
  }

  lemma StartJobKeeps(clean: bool, jobs: bool, s: State, ch: Choice)
    requires Inv(clean, jobs, s) && s.ctl.Busy? && s.ctl.pc.StartJob?
    ensures OwnInv(clean, jobs, StepStartJob(s.k, s.ctl.cr, ch))
  {
    NothingOwned(clean, jobs, s);
  }

  lemma DropFinalizerKeeps(clean: bool, jobs: bool, s: State, ch: Choice)
    requires Inv(clean, jobs, s) && s.ctl.Busy? && s.ctl.pc.DropFinalizer?
    ensures OwnInv(clean, jobs, StepDropFinalizer(s.k, s.ctl.cr, ch))
  {
    NothingOwned(clean, jobs, s);
    WithoutKeepsOthers(s.ctl.cr.finalizers);
  }

  lemma FetchKeeps(clean: bool, jobs: bool, s: State, ch: Choice)
    requires Inv(clean, jobs, s) && s.ctl.Fetching?
    ensures OwnInv(clean, jobs, Apply(s, Control(ch)))
  {
  }

  lemma AddFinalizerKeeps(clean: bool, jobs: bool, s: State, ch: Choice)
    requires Inv(clean, jobs, s) && s.ctl.Busy? && s.ctl.pc.AddFinalizer?
    ensures OwnInv(clean, jobs, Apply(s, Control(ch)))
  {
    assert HasFinalizer(WithFinalizer(s.ctl.cr.finalizers));
  }

  lemma ReadKeeps(clean: bool, jobs: bool, s: State, ch: Choice)
    requires Inv(clean, jobs, s) && s.ctl.Busy? && s.ctl.pc.Read?
    ensures OwnInv(clean, jobs, StepRead(s.k, s.ctl.cr, s.ctl.pc.c, s.ctl.errs, ch))
  {
    NextIsQuiet(s.k, s.ctl.cr, s.ctl.pc.c, s.ctl.errs, true);
    NextIsQuiet(s.k, s.ctl.cr, s.ctl.pc.c, s.ctl.errs, false);
  }

  lemma WriteKeeps(clean: bool, jobs: bool, s: State, ch: Choice)
    requires Inv(clean, jobs, s) && s.ctl.Busy? && s.ctl.pc.Write?
    ensures OwnInv(clean, jobs, StepWrite(s.k, s.ctl.cr, s.ctl.pc.c, s.ctl.pc.seen, s.ctl.errs, ch))
  {
    var o := WriteComponent(s.k, s.ctl.cr, s.ctl.pc.c, s.ctl.pc.seen, ch);
    NextIsQuiet(o.k, s.ctl.cr, s.ctl.pc.c, s.ctl.errs, o.err);
  }

  /** The four component handlers lead to another handler, the last one to the first probe. */
  lemma NextIsQuiet(k: Cluster, cr: CR, c: Component, errs: seq<bool>, err: bool)
    requires |errs| == Convergence.HandlerOf(c)
    ensures var t := ComponentDone(k, cr, c, errs, err);
      t.ctl.Busy? && t.k == k && (t.ctl.pc.Read? || t.ctl.pc == Probe(Worker))
  {
  }

  lemma ControlKeeps(clean: bool, jobs: bool, s: State, ch: Choice)
    requires Inv(clean, jobs, s) && !s.ctl.Idle? && Rule(clean, jobs, s, Control(ch))
    ensures Inv(clean, jobs, Apply(s, Control(ch)))
  {
    Safety.ControlKeeps(false, false, s, ch);
    Convergence.ControlKeeps(false, s, ch);
    if s.ctl.Fetching? {
      FetchKeeps(clean, jobs, s, ch);
    } else {
      match s.ctl.pc
      case AddFinalizer => AddFinalizerKeeps(clean, jobs, s, ch);
      case Read(_) => ReadKeeps(clean, jobs, s, ch);
      case Write(_, _) => WriteKeeps(clean, jobs, s, ch);
      case Probe(_) => if ch.fault.Fine? { ProbeKeeps(clean, jobs, s, ch); } else { FailedProbeKeeps(jobs, s, ch); }
      case Publish(_) => PublishKeeps(clean, jobs, s, ch);
      case Remove(_) => RemoveKeeps(clean, jobs, s, ch);
      case FindJob => FindJobKeeps(clean, jobs, s, ch);
      case StartJob => StartJobKeeps(clean, jobs, s, ch);
      case DropFinalizer(_) => DropFinalizerKeeps(clean, jobs, s, ch);
    }
  }

  lemma {:induction false} RunKeeps(clean: bool, jobs: bool, s: State, ls: seq<Label>)
    requires Inv(clean, jobs, s) && IsRun(s, ls)
    requires Along(Convergence.KeepsReferences, s, ls)
    requires clean ==> Along(ProbesSucceed, s, ls)
    requires jobs ==> Along(NoForeignJob, s, ls)
    ensures Inv(clean, jobs, Exec(s, ls))
    decreases |ls|
  {
    if ls != [] {
      match ls[0] {
        case Start =>
        case Restart =>
        case Control(ch) => ControlKeeps(clean, jobs, s, ch);
        case Outside(a) => OutsideKeeps(clean, jobs, s, a);
      }
      RunKeeps(clean, jobs, Apply(s, ls[0]), ls[1..]);
    }
  }

  // ---------- what a failed read leaves behind ----------

  /** Stored conditions that tell of an unreadable component are wrong if it can be read. */
  lemma UnreadableIsWrong(stored: seq<Condition>, k: Cluster, topologyUpdater: bool, c: Component, message: string)
    requires c != WorkerConfig && c in k.comps && AreConditionsEqual(stored, Unreadable(c, message))
    ensures !AreConditionsEqual(stored, GetConditions(ReadingsOf(k), topologyUpdater, 0))
  {
    var rs := ReadingsOf(k);
    var truth := GetConditions(rs, topologyUpdater, 0);
    ConditionsTellTheFirstProblem(rs, topologyUpdater, 0);
    OtherReason(truth, rs, topologyUpdater, c);
    if AreConditionsEqual(stored, truth) {
      SameAnswers(stored, Unreadable(c, message), truth);
    }
  }

  lemma SameAnswers(stored: seq<Condition>, a: seq<Condition>, b: seq<Condition>)
    requires WellKinded(a) && WellKinded(b) && AreConditionsEqual(stored, a) && AreConditionsEqual(stored, b)
    ensures forall i :: 0 <= i < 4 ==> SameReport(a[i], b[i])
  {
    forall i | 0 <= i < 4 ensures SameReport(a[i], b[i]) {
      assert a[i].kind == b[i].kind && Answers(stored, a[i]) && Answers(stored, b[i]);
    }
  }

  /** A component that was read is not what the published conditions say could not be read. */
  lemma OtherReason(truth: seq<Condition>, rs: Readings, topologyUpdater: bool, c: Component)
    requires WellKinded(truth) && c != WorkerConfig && rs.Of(c).Seen?
    requires truth[0].status != True ==> exists d, p :: Blames(truth, rs, topologyUpdater, d, p)
    ensures truth[0].status == True || Shown(truth).reason != ReasonOf(c, FailedGetting)
  {
    ReasonDecodes(c, FailedGetting);
    if truth[0].status != True {
      var d, p :| Blames(truth, rs, topologyUpdater, d, p);
      assert ProblemOf(d, rs.Of(d)) == Some(p);
    }
  }

  /** At rest a live CR has all that can be had but the status, and that exactly if no failed read is on record. */
  lemma SettledUnlessTold(k: Cluster)
    requires Achieved(k) && k.cr.Some? && !k.cr.value.deleting
    ensures Settled(k) <==> !TellsUnreadable(k.cr.value)
  {
    var cr := k.cr.value;
    if TellsUnreadable(cr) {
      var c: Component, message: string :|
        c != WorkerConfig && Requested(cr.spec, c) && AreConditionsEqual(cr.conditions, Unreadable(c, message));
      assert Convergence.InPlace(k, cr, c);
      UnreadableIsWrong(cr.conditions, k, cr.spec.topologyUpdater, c, message);
    }
  }

  /**
   No lost wake-up. In every run, with faults, restarts and outsiders between any two calls, in which
   outsiders leave controller references alone: when the queue is empty and no Reconcile is running,
   a live CR has its finalizer and every component its current spec asks for as desired, and nothing
   is left to do exactly if its conditions do not tell of an unreadable component; a CR under deletion
   has nothing left that it asked to be removed, and if it still holds the finalizer it asks for
   pruning, and a prune job of the operator is unfinished. So nothing is left to do at all for a live
   CR if the reads behind the status succeed, and for a deletion if nobody else makes a prune job.
   */
  lemma NoLostWakeup(s0: State, ls: seq<Label>)
    requires Init(s0) && IsRun(s0, ls) && Along(Convergence.KeepsReferences, s0, ls)
    requires Exec(s0, ls).ctl.Idle? && !Exec(s0, ls).k.queued
    ensures var k := Exec(s0, ls).k;
      && Achieved(k)
      && (k.cr.Some? && !k.cr.value.deleting ==> (Settled(k) <==> !TellsUnreadable(k.cr.value)))
      && (k.cr.Some? && k.cr.value.deleting && !Settled(k) ==>
            HasFinalizer(k.cr.value.finalizers) && (k.job.Some? ==> !k.job.value.owner.Nfd?))
      && (k.cr.Some? && !k.cr.value.deleting && Along(ProbesSucceed, s0, ls) ==> Settled(k))
      && (k.cr.Some? && k.cr.value.deleting && s0.k.job.None? && Along(NoForeignJob, s0, ls) ==> Settled(k))
  {
    Safety.InitInv(false, false, s0);
    RunKeeps(false, false, s0, ls);
    var k := Exec(s0, ls).k;
    if k.cr.Some? && !k.cr.value.deleting { SettledUnlessTold(k); }
    if Along(ProbesSucceed, s0, ls) { RunKeeps(true, false, s0, ls); }
    if s0.k.job.None? && Along(NoForeignJob, s0, ls) { RunKeeps(false, true, s0, ls); }
  }
}
