/**
 The reconcile protocol as a state machine over single API calls. A state is the contents of the
 API server, the one-entry work queue and the point the running Reconcile has reached; a label says
 who moves. Between any two calls of the controller a user, Kubernetes or a restart may move, and
 every call may fail, a failed write with or without having taken effect.
 */
module Protocol {
  import opened Types
  import opened Status
  import opened Desired
  import opened Finalizers

  datatype Cluster = Cluster(
    cr: Option<CR>,
    comps: map<Component, Object>,
    job: Option<Job>,
    nextUid: nat,
    queued: bool)

  /** The next API call of a running Reconcile. */
  datatype Pc =
    | AddFinalizer
    | Read(c: Component)
    | Write(c: Component, seen: Option<Object>)
    | Probe(c: Component)
    | Publish(conditions: seq<Condition>)
    | Remove(c: Component)
    | FindJob
    | StartJob
    | DropFinalizer(found: Option<Job>)

  /** `cr` is the snapshot taken by this Reconcile; `errs` says which handlers have failed so far. */
  datatype Ctl = Idle | Fetching | Busy(cr: CR, pc: Pc, errs: seq<bool>)

  datatype State = State(k: Cluster, ctl: Ctl)

  // ---------- the API server and the watches ----------

  /** Every change to the CR wakes the controller; a deleted CR goes away with its last finalizer. */
  function PutCr(k: Cluster, cr: CR): Cluster {
    if k.cr == Some(cr) then k
    else k.(cr := if cr.deleting && cr.finalizers == [] then None else Some(cr), queued := true)
  }

  /** The watch on owned objects lets an event through when a NodeFeatureDiscovery is the controller. */
  predicate IsControlledByNFD(owner: Owner) {
    owner.Nfd?
  }

  function GetComponent(k: Cluster, c: Component): Option<Object> {
    if c in k.comps then Some(k.comps[c]) else None
  }

  /** A creation is not reported to the controller. */
  function AddComponent(k: Cluster, c: Component, o: Object): Cluster {
    k.(comps := k.comps[c := o])
  }

  /** An update is reported when the object really changes; the filter looks at the new object. */
  function PutComponent(k: Cluster, c: Component, o: Object): Cluster
    requires c in k.comps
  {
    if k.comps[c] == o then k
    else k.(comps := k.comps[c := o], queued := k.queued || IsControlledByNFD(o.owner))
  }

  function DropComponent(k: Cluster, c: Component): Cluster
    requires c in k.comps
  {
    k.(comps := k.comps - {c}, queued := k.queued || IsControlledByNFD(k.comps[c].owner))
  }

  function PutJob(k: Cluster, j: Job): Cluster
    requires k.job.Some?
  {
    if k.job.value == j then k else k.(job := Some(j), queued := k.queued || IsControlledByNFD(j.owner))
  }

  function DropJob(k: Cluster): Cluster
    requires k.job.Some?
  {
    k.(job := None, queued := k.queued || IsControlledByNFD(k.job.value.owner))
  }

  // ---------- single calls of the controller ----------

  /** What happens to a call: it works, or it fails, and if it was a write it may still have landed. */
  datatype Fault = Fine | Lost(message: string) | Landed(message: string)

  /**
   The circumstances of a call: its fault, the time, whether the server takes an update made from
   an outdated copy, and what a patch leaves of an object that was changed since it was read.
   */
  datatype Choice = Choice(fault: Fault, now: int, accept: bool, blend: Object)

  datatype Outcome = Outcome(k: Cluster, err: bool)

  /** Update of the CR from a copy; status and deletion timestamp are not the writer's to change. */
  function UpdateCr(k: Cluster, seen: CR, sent: CR, ch: Choice): Outcome {
    if ch.fault.Lost? || k.cr.None? || k.cr.value.uid != seen.uid || (k.cr.value != seen && !ch.accept) then
      Outcome(k, true)
    else
      Outcome(PutCr(k, k.cr.value.(spec := sent.spec, finalizers := sent.finalizers)), ch.fault.Landed?)
  }

  /** Merge patch of the status: the condition list is replaced as a whole, whatever else changed. */
  function PatchStatus(k: Cluster, conditions: seq<Condition>, ch: Choice): Outcome {
    if ch.fault.Lost? || k.cr.None? then Outcome(k, true)
    else Outcome(PutCr(k, k.cr.value.(conditions := conditions)), ch.fault.Landed?)
  }

  function CreateComponent(k: Cluster, c: Component, want: Object, ch: Choice): Outcome {
    if ch.fault.Lost? || c in k.comps then Outcome(k, true)
    else Outcome(AddComponent(k, c, want.(health := UNREPORTED)), ch.fault.Landed?)
  }

  /**
   Merge patch with the difference between `seen` and `want`. On the object that was read it gives
   what is wanted; on one that has changed since, labels and content may come out mixed, while the
   owner is replaced only if it is part of the difference.
   */
  function Merged(seen: Object, want: Object, current: Object, blend: Object): Object {
    if current.(health := seen.health) == seen then want.(health := current.health)
    else Object(blend.labels, blend.body,
                if seen.owner == want.owner then current.owner else want.owner, current.health)
  }

  function PatchComponent(k: Cluster, c: Component, seen: Object, want: Object, ch: Choice): Outcome {
    if ch.fault.Lost? || c !in k.comps then Outcome(k, true)
    else Outcome(PutComponent(k, c, Merged(seen, want, k.comps[c], ch.blend)), ch.fault.Landed?)
  }

  /** Deletion by name; an object that is already gone is no error. */
  function DeleteComponent(k: Cluster, c: Component, ch: Choice): Outcome {
    if ch.fault.Lost? then Outcome(k, true)
    else Outcome(if c in k.comps then DropComponent(k, c) else k, ch.fault.Landed?)
  }

  function PruneJob(cr: CR): Job {
    Job(cr.spec.operand.image, Nfd(cr.uid), 0, 0)
  }

  function CreateJob(k: Cluster, j: Job, ch: Choice): Outcome {
    if ch.fault.Lost? || k.job.Some? then Outcome(k, true)
    else Outcome(k.(job := Some(j)), ch.fault.Landed?)
  }

  // ---------- the controller ----------

  /** A Reconcile that returns an error is queued again. */
  function Finish(k: Cluster, err: bool): State {
    State(k.(queued := k.queued || err), Idle)
  }

  /** The handlers run in the order master, worker, topology, gc, status, whatever the earlier ones returned. */
  function HandlerDone(k: Cluster, cr: CR, errs: seq<bool>, err: bool): State {
    var all := errs + [err];
    if |all| == 1 then State(k, Busy(cr, Read(WorkerConfig), all))
    else if |all| == 2 then
      if cr.spec.topologyUpdater then State(k, Busy(cr, Read(Topology), all))
      else State(k, Busy(cr, Read(GC), all + [false]))
    else if |all| == 3 then State(k, Busy(cr, Read(GC), all))
    else if |all| == 4 then State(k, Busy(cr, Probe(Worker), all))
    else Finish(k, true in all)
  }

  /** The worker handler goes on to the DaemonSet only if the ConfigMap is in place. */
  function ComponentDone(k: Cluster, cr: CR, c: Component, errs: seq<bool>, err: bool): State {
    if c == WorkerConfig && !err then State(k, Busy(cr, Read(Worker), errs)) else HandlerDone(k, cr, errs, err)
  }

  function StepFetch(k: Cluster, ch: Choice): State {
    if !ch.fault.Fine? then Finish(k, true)
    else if k.cr.None? then Finish(k, false)
    else
      var cr := k.cr.value;
      State(k, Busy(cr, if cr.deleting then Remove(Worker)
                        else if !HasFinalizer(cr.finalizers) then AddFinalizer
                        else Read(Master), []))
  }

  function StepAddFinalizer(k: Cluster, cr: CR, ch: Choice): State {
    var o := UpdateCr(k, cr, cr.(finalizers := WithFinalizer(cr.finalizers)), ch);
    Finish(o.k, o.err)
  }

  /** The first half of create-or-patch: read, fill in what is desired, and see whether that differs. */
  function StepRead(k: Cluster, cr: CR, c: Component, errs: seq<bool>, ch: Choice): State {
    if !ch.fault.Fine? then ComponentDone(k, cr, c, errs, true)
    else
      var seen := GetComponent(k, c);
      if seen.Some? && !CanOwn(seen.value) then ComponentDone(k, cr, c, errs, true)
      else if seen.Some? && Matches(cr, c, seen.value) then ComponentDone(k, cr, c, errs, false)
      else State(k, Busy(cr, Write(c, seen), errs))
  }

  function WriteComponent(k: Cluster, cr: CR, c: Component, seen: Option<Object>, ch: Choice): Outcome {
    if seen.None? then CreateComponent(k, c, AsDesired(cr, c, BLANK), ch)
    else PatchComponent(k, c, seen.value, AsDesired(cr, c, seen.value), ch)
  }

  function StepWrite(k: Cluster, cr: CR, c: Component, seen: Option<Object>, errs: seq<bool>, ch: Choice): State {
    var o := WriteComponent(k, cr, c, seen, ch);
    ComponentDone(o.k, cr, c, errs, o.err)
  }

  function NotFoundText(c: Component): string {
    match c
    case Master => "deployments.apps \"nfd-master\" not found"
    case GC => "deployments.apps \"nfd-gc\" not found"
    case Worker => "daemonsets.apps \"nfd-worker\" not found"
    case Topology => "daemonsets.apps \"nfd-topology-updater\" not found"
    case WorkerConfig => "configmaps \"nfd-worker\" not found"
  }

  function Observe(k: Cluster, c: Component): Reading {
    if c in k.comps then Seen(k.comps[c].health) else Failed(NotFoundText(c))
  }

  function ReadingUnder(k: Cluster, c: Component, fault: Fault): Reading {
    if fault.Fine? then Observe(k, c) else Failed(fault.message)
  }

  /** Once the conditions are known, they are written unless the snapshot already says the same. */
  function Compare(k: Cluster, cr: CR, errs: seq<bool>, conditions: seq<Condition>): State {
    if AreConditionsEqual(cr.conditions, conditions) then HandlerDone(k, cr, errs, false)
    else State(k, Busy(cr, Publish(conditions), errs))
  }

  /** After the comparison either the Reconcile ends, with whatever error the handlers had, or it publishes. */
  lemma ComparedGoesOn(k: Cluster, cr: CR, errs: seq<bool>, conditions: seq<Condition>)
    requires |errs| == 4
    ensures Compare(k, cr, errs, conditions) ==
            if AreConditionsEqual(cr.conditions, conditions) then Finish(k, true in errs)
            else State(k, Busy(cr, Publish(conditions), errs))
  {
    assert true in errs + [false] <==> true in errs;
  }

  function NextProbe(c: Component, topologyUpdater: bool): Option<Component> {
    match c
    case Worker => Some(Master)
    case Master => Some(GC)
    case GC => if topologyUpdater then Some(Topology) else None
    case _ => None
  }

  function StepProbe(k: Cluster, cr: CR, c: Component, errs: seq<bool>, ch: Choice): State {
    var problem := NotAvailableConditions(c, ReadingUnder(k, c, ch.fault), ch.now);
    var next := NextProbe(c, cr.spec.topologyUpdater);
    if problem.Some? then Compare(k, cr, errs, problem.value)
    else if next.Some? then State(k, Busy(cr, Probe(next.value), errs))
    else Compare(k, cr, errs, AvailableConditions(ch.now))
  }

  function StepPublish(k: Cluster, cr: CR, conditions: seq<Condition>, errs: seq<bool>, ch: Choice): State {
    var o := PatchStatus(k, conditions, ch);
    HandlerDone(o.k, cr, errs, o.err)
  }

  function AfterRemove(c: Component, spec: Spec): Pc {
    match c
    case Worker => Remove(WorkerConfig)
    case WorkerConfig => if spec.topologyUpdater then Remove(Topology) else Remove(Master)
    case Topology => Remove(Master)
    case Master => Remove(GC)
    case GC => if spec.pruneOnDelete then FindJob else DropFinalizer(None)
  }

  function StepRemove(k: Cluster, cr: CR, c: Component, ch: Choice): State {
    var o := DeleteComponent(k, c, ch);
    if o.err then Finish(o.k, true) else State(o.k, Busy(cr, AfterRemove(c, cr.spec), []))
  }

  function StepFindJob(k: Cluster, cr: CR, ch: Choice): State {
    if !ch.fault.Fine? then Finish(k, true)
    else if k.job.None? then State(k, Busy(cr, StartJob, []))
    else if k.job.value.failed > 0 then Finish(k, true)
    else if k.job.value.succeeded > 0 then State(k, Busy(cr, DropFinalizer(k.job), []))
    else Finish(k, false)
  }

  function StepStartJob(k: Cluster, cr: CR, ch: Choice): State {
    var o := CreateJob(k, PruneJob(cr), ch);
    Finish(o.k, o.err)
  }

  function StepDropFinalizer(k: Cluster, cr: CR, ch: Choice): State {
    if !HasFinalizer(cr.finalizers) then Finish(k, false)
    else
      var o := UpdateCr(k, cr, cr.(finalizers := WithoutFinalizer(cr.finalizers)), ch);
      Finish(o.k, o.err)
  }

  function StepBusy(k: Cluster, cr: CR, pc: Pc, errs: seq<bool>, ch: Choice): State {
    match pc
    case AddFinalizer => StepAddFinalizer(k, cr, ch)
    case Read(c) => StepRead(k, cr, c, errs, ch)
    case Write(c, seen) => StepWrite(k, cr, c, seen, errs, ch)
    case Probe(c) => StepProbe(k, cr, c, errs, ch)
    case Publish(conditions) => StepPublish(k, cr, conditions, errs, ch)
    case Remove(c) => StepRemove(k, cr, c, ch)
    case FindJob => StepFindJob(k, cr, ch)
    case StartJob => StepStartJob(k, cr, ch)
    case DropFinalizer(_) => StepDropFinalizer(k, cr, ch)
  }

  // ---------- everybody else ----------

  datatype Action =
    | CreateCr(spec: Spec, finalizers: seq<string>, conditions: seq<Condition>)
    | EditCr(spec: Spec, finalizers: seq<string>, conditions: seq<Condition>)
    | DeleteCr
    | CreateObject(c: Component, o: Object)
    | UpdateObject(c: Component, o: Object)
    | DeleteObject(c: Component)
    | CreateForeignJob(j: Job)
    | UpdateJob(j: Job)
    | DeleteJob

  /**
   What others may do at any moment: anything, except to add or remove the operator's finalizer on
   an existing CR, and to name a NodeFeatureDiscovery as the controller of an object it does not own.
   */
  predicate Possible(k: Cluster, a: Action) {
    match a
    case CreateCr(_, finalizers, _) => k.cr.None? && Occurrences(finalizers) <= 1
    case EditCr(_, finalizers, _) => k.cr.Some? && Occurrences(finalizers) == Occurrences(k.cr.value.finalizers)
    case DeleteCr => k.cr.Some?
    case CreateObject(c, o) => c !in k.comps && !o.owner.Nfd?
    case UpdateObject(c, o) => c in k.comps && (o.owner.Nfd? ==> o.owner == k.comps[c].owner)
    case DeleteObject(c) => c in k.comps
    case CreateForeignJob(j) => k.job.None? && !j.owner.Nfd?
    case UpdateJob(j) => k.job.Some? && (j.owner.Nfd? ==> j.owner == k.job.value.owner)
    case DeleteJob => k.job.Some?
  }

  function Act(k: Cluster, a: Action): Cluster
    requires Possible(k, a)
  {
    match a
    case CreateCr(spec, finalizers, conditions) =>
      k.(cr := Some(CR(k.nextUid, spec, finalizers, false, conditions)), nextUid := k.nextUid + 1, queued := true)
    case EditCr(spec, finalizers, conditions) =>
      PutCr(k, k.cr.value.(spec := spec, finalizers := finalizers, conditions := conditions))
    case DeleteCr => PutCr(k, k.cr.value.(deleting := true))
    case CreateObject(c, o) => AddComponent(k, c, o)
    case UpdateObject(c, o) => PutComponent(k, c, o)
    case DeleteObject(c) => DropComponent(k, c)
    case CreateForeignJob(j) => k.(job := Some(j))
    case UpdateJob(j) => PutJob(k, j)
    case DeleteJob => DropJob(k)
  }

  // ---------- runs ----------

  /** Start: the worker takes the entry from the queue. Restart: the operator comes up again and lists the CR. */
  datatype Label = Start | Control(ch: Choice) | Outside(a: Action) | Restart

  predicate Enabled(s: State, l: Label) {
    match l
    case Start => s.ctl.Idle? && s.k.queued
    case Control(_) => !s.ctl.Idle?
    case Outside(a) => Possible(s.k, a)
    case Restart => true
  }

  function Apply(s: State, l: Label): State
    requires Enabled(s, l)
  {
    match l
    case Start => State(s.k.(queued := false), Fetching)
    case Control(ch) =>
      if s.ctl.Fetching? then StepFetch(s.k, ch) else StepBusy(s.k, s.ctl.cr, s.ctl.pc, s.ctl.errs, ch)
    case Outside(a) => s.(k := Act(s.k, a))
    case Restart => State(s.k.(queued := s.k.cr.Some?), Idle)
  }

  /** The operator starts in a namespace that may hold objects of others, but nothing of an NFD CR. */
  ghost predicate Init(s: State) {
    && s.ctl.Idle? && s.k.cr.None?
    && (forall c :: c in s.k.comps ==> !s.k.comps[c].owner.Nfd?)
    && (s.k.job.Some? ==> !s.k.job.value.owner.Nfd?)
  }

  ghost predicate IsRun(s: State, ls: seq<Label>)
    decreases |ls|
  {
    ls == [] || (Enabled(s, ls[0]) && IsRun(Apply(s, ls[0]), ls[1..]))
  }

  ghost function Exec(s: State, ls: seq<Label>): State
    requires IsRun(s, ls)
    decreases |ls|
  {
    if ls == [] then s else Exec(Apply(s, ls[0]), ls[1..])
  }

  /** Every move of the run obeys the rule. */
  ghost predicate Along(rule: (State, Label) -> bool, s: State, ls: seq<Label>)
    requires IsRun(s, ls)
    decreases |ls|
  {
    ls == [] || (rule(s, ls[0]) && Along(rule, Apply(s, ls[0]), ls[1..]))
  }

  lemma {:induction false} RunAppend(s: State, a: seq<Label>, b: seq<Label>)
    requires IsRun(s, a)
    ensures IsRun(s, a + b) <==> IsRun(Exec(s, a), b)
    ensures IsRun(s, a + b) ==> Exec(s, a + b) == Exec(Exec(s, a), b)
    decreases |a|
  {
    if a == [] {
      assert a + b == b;
    } else {
      assert (a + b)[1..] == a[1..] + b;
      RunAppend(Apply(s, a[0]), a[1..], b);
    }
  }

  lemma {:induction false} AlongAppend(rule: (State, Label) -> bool, s: State, a: seq<Label>, b: seq<Label>)
    requires IsRun(s, a) && IsRun(s, a + b) && IsRun(Exec(s, a), b)
    ensures Along(rule, s, a + b) <==> Along(rule, s, a) && Along(rule, Exec(s, a), b)
    decreases |a|
  {
    if a == [] {
      assert a + b == b;
    } else {
      assert (a + b)[1..] == a[1..] + b;
      AlongAppend(rule, Apply(s, a[0]), a[1..], b);
    }
  }

  lemma RunOne(s: State, l: Label)
    requires Enabled(s, l)
    ensures IsRun(s, [l]) && Exec(s, [l]) == Apply(s, l)
  {
    assert [l][1..] == [];
    assert Exec(Apply(s, l), []) == Apply(s, l);
  }

  /** A run up to its i-th move, and that move. */
  lemma RunSplit(s: State, ls: seq<Label>, i: nat)
    requires IsRun(s, ls) && i < |ls|
    ensures IsRun(s, ls[..i]) && IsRun(s, ls[..i + 1])
    ensures Enabled(Exec(s, ls[..i]), ls[i])
    ensures Exec(s, ls[..i + 1]) == Apply(Exec(s, ls[..i]), ls[i])
  {
    RunPrefix(s, ls, i);
    RunPrefix(s, ls, i + 1);
    assert ls[..i + 1] == ls[..i] + [ls[i]];
    RunAppend(s, ls[..i], [ls[i]]);
    RunOne(Exec(s, ls[..i]), ls[i]);
  }

  lemma {:induction false} RunPrefix(s: State, ls: seq<Label>, i: nat)
    requires IsRun(s, ls) && i <= |ls|
    ensures IsRun(s, ls[..i])
    decreases i
  {
    if i > 0 {
      assert ls[..i][1..] == ls[1..][..i - 1];
      RunPrefix(Apply(s, ls[0]), ls[1..], i - 1);
    }
  }

  lemma AlongPrefix(rule: (State, Label) -> bool, s: State, ls: seq<Label>, i: nat)
    requires IsRun(s, ls) && Along(rule, s, ls) && i <= |ls|
    ensures IsRun(s, ls[..i]) && Along(rule, s, ls[..i])
  {
    RunPrefix(s, ls, i);
    assert ls == ls[..i] + ls[i..];
    RunAppend(s, ls[..i], ls[i..]);
    AlongAppend(rule, s, ls[..i], ls[i..]);
  }
}
