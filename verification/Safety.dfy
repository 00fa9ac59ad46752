/**
 What holds in every run, whatever outsiders and faults do: who may own the components, what is
 gone when the finalizer is dropped, and how often the finalizer occurs.
 */
module Safety {
  import opened Types
  import opened Desired
  import opened Finalizers
  import opened Protocol

  // ---------- the rules a theorem may ask of a run ----------

  /** Nobody but the operator creates objects under the component names. */
  ghost predicate NoOutsideCreation(s: State, l: Label) {
    !(l.Outside? && l.a.CreateObject?)
  }

  /** Nobody switches the topology updater off once it is on. */
  ghost predicate TopologyStaysOn(s: State, l: Label) {
    l.Outside? && l.a.EditCr? && s.k.cr.Some? && s.k.cr.value.spec.topologyUpdater ==> l.a.spec.topologyUpdater
  }

  // ---------- the invariant ----------

  predicate Converging(pc: Pc) {
    pc.Read? || pc.Write? || pc.Probe? || pc.Publish?
  }

  predicate TearingDown(pc: Pc) {
    pc.Remove? || pc.FindJob? || pc.StartJob? || pc.DropFinalizer?
  }

  function RemovalRank(c: Component): nat {
    match c
    case Worker => 0
    case WorkerConfig => 1
    case Topology => 2
    case Master => 3
    case GC => 4
  }

  /** This teardown has passed the deletion of `c`. */
  predicate Removed(pc: Pc, c: Component) {
    pc.FindJob? || pc.StartJob? || pc.DropFinalizer? || (pc.Remove? && RemovalRank(c) < RemovalRank(pc.c))
  }

  predicate Unowned(k: Cluster, c: Component) {
    c in k.comps ==> !k.comps[c].owner.Nfd?
  }

  /** `c` is absent, or at most something an outsider has put in its place. */
  predicate Gone(strict: bool, k: Cluster, c: Component) {
    c !in k.comps || (!strict && !k.comps[c].owner.Nfd?)
  }

  predicate Holds(k: Cluster, uid: nat) {
    k.cr.Some? && k.cr.value.uid == uid && HasFinalizer(k.cr.value.finalizers)
  }

  ghost predicate FinalizerInv(s: State) {
    && (s.k.cr.Some? ==> Occurrences(s.k.cr.value.finalizers) <= 1 && s.k.cr.value.uid < s.k.nextUid)
    && (s.ctl.Busy? ==> Occurrences(s.ctl.cr.finalizers) <= 1 && s.ctl.cr.uid < s.k.nextUid)
  }

  ghost predicate CtlInv(s: State) {
    s.ctl.Busy? ==>
      var cr, pc := s.ctl.cr, s.ctl.pc;
      && (pc.AddFinalizer? ==>
            && !cr.deleting && !HasFinalizer(cr.finalizers)
            && !Holds(s.k, cr.uid))
      && (pc.Read? || pc.Write? || pc.Remove? ==> Requested(cr.spec, pc.c))
      && (Converging(pc) ==> !cr.deleting && HasFinalizer(cr.finalizers) && Holds(s.k, cr.uid))
      && (TearingDown(pc) ==> cr.deleting)
      && (pc.DropFinalizer? && cr.spec.pruneOnDelete ==>
            pc.found.Some? && pc.found.value.succeeded > 0 && pc.found.value.failed <= 0)
  }

  /** A component controlled by an NFD CR has that CR alive and still holding its finalizer. */
  ghost predicate OwnedInv(grows: bool, s: State) {
    && (forall c :: c in s.k.comps && s.k.comps[c].owner.Nfd? && (c != Topology || grows) ==>
          Holds(s.k, s.k.comps[c].owner.uid) && (c == Topology ==> s.k.cr.value.spec.topologyUpdater))
    && (grows && s.ctl.Busy? && Converging(s.ctl.pc) && s.ctl.cr.spec.topologyUpdater && s.k.cr.Some? ==>
          s.k.cr.value.spec.topologyUpdater)
  }

  ghost predicate RemovedInv(strict: bool, grows: bool, s: State) {
    s.ctl.Busy? && TearingDown(s.ctl.pc) ==>
      && (forall c :: Removed(s.ctl.pc, c) && Requested(s.ctl.cr.spec, c) ==> Gone(strict, s.k, c))
      && (grows && !s.ctl.cr.spec.topologyUpdater ==> Unowned(s.k, Topology))
  }

  ghost predicate Inv(strict: bool, grows: bool, s: State) {
    FinalizerInv(s) && CtlInv(s) && OwnedInv(grows, s) && RemovedInv(strict, grows, s)
  }

  ghost predicate Rule(strict: bool, grows: bool, s: State, l: Label) {
    (strict ==> NoOutsideCreation(s, l)) && (grows ==> TopologyStaysOn(s, l))
  }

  // ---------- every move keeps it ----------

  lemma InitInv(strict: bool, grows: bool, s: State)
    requires Init(s)
    ensures Inv(strict, grows, s)
  {
  }

  lemma OutsideKeeps(strict: bool, grows: bool, s: State, a: Action)
    requires Inv(strict, grows, s) && Possible(s.k, a) && Rule(strict, grows, s, Outside(a))
    ensures Inv(strict, grows, Apply(s, Outside(a)))
  {
    if a.CreateCr? || a.EditCr? || a.DeleteCr? {
      CrActionKeeps(strict, grows, s, a);
    } else {
      ObjectActionKeeps(strict, grows, s, a);
    }
  }

  lemma CrActionKeeps(strict: bool, grows: bool, s: State, a: Action)
    requires Inv(strict, grows, s) && Possible(s.k, a) && Rule(strict, grows, s, Outside(a))
    requires a.CreateCr? || a.EditCr? || a.DeleteCr?
    ensures Inv(strict, grows, s.(k := Act(s.k, a)))
  {
  }

  lemma ObjectActionKeeps(strict: bool, grows: bool, s: State, a: Action)
    requires Inv(strict, grows, s) && Possible(s.k, a) && Rule(strict, grows, s, Outside(a))
    requires !a.CreateCr? && !a.EditCr? && !a.DeleteCr?
    ensures Inv(strict, grows, s.(k := Act(s.k, a)))
  {
  }

  lemma FetchKeeps(strict: bool, grows: bool, s: State, ch: Choice)
    requires Inv(strict, grows, s) && s.ctl.Fetching?
    ensures Inv(strict, grows, StepFetch(s.k, ch))
  {
  }

  lemma AddFinalizerKeeps(strict: bool, grows: bool, s: State, ch: Choice)
    requires Inv(strict, grows, s) && s.ctl.Busy? && s.ctl.pc.AddFinalizer?
    ensures Inv(strict, grows, StepAddFinalizer(s.k, s.ctl.cr, ch))
  {
  }

  /** After a handler, the Reconcile either ends or goes on converging from the same cluster. */
  lemma DoneShape(k: Cluster, cr: CR, c: Component, errs: seq<bool>, err: bool)
    ensures forall t :: t == HandlerDone(k, cr, errs, err) || t == ComponentDone(k, cr, c, errs, err) ==>
      if t.ctl.Busy?
      then t == State(k, Busy(cr, t.ctl.pc, t.ctl.errs)) && Converging(t.ctl.pc)
           && (t.ctl.pc.Read? ==> Requested(cr.spec, t.ctl.pc.c)) && !t.ctl.pc.Write?
      else t == Finish(k, true in errs + [err])
  {
  }

  lemma GoOnKeeps(strict: bool, grows: bool, s: State, pc: Pc, errs: seq<bool>, err: bool)
    requires Inv(strict, grows, s) && s.ctl.Busy? && Converging(s.ctl.pc) && Converging(pc)
    requires pc.Read? || pc.Write? ==> Requested(s.ctl.cr.spec, pc.c)
    ensures Inv(strict, grows, State(s.k, Busy(s.ctl.cr, pc, errs)))
    ensures Inv(strict, grows, Finish(s.k, err))
  {
  }

  /** Going on from a converging state, with whatever result, keeps the invariant. */
  lemma DoneKeeps(strict: bool, grows: bool, s: State, c: Component, err: bool)
    requires Inv(strict, grows, s) && s.ctl.Busy? && Converging(s.ctl.pc)
    ensures Inv(strict, grows, HandlerDone(s.k, s.ctl.cr, s.ctl.errs, err))
    ensures Inv(strict, grows, ComponentDone(s.k, s.ctl.cr, c, s.ctl.errs, err))
  {
    DoneShape(s.k, s.ctl.cr, c, s.ctl.errs, err);
    var t, u := HandlerDone(s.k, s.ctl.cr, s.ctl.errs, err), ComponentDone(s.k, s.ctl.cr, c, s.ctl.errs, err);
    if t.ctl.Busy? { GoOnKeeps(strict, grows, s, t.ctl.pc, t.ctl.errs, err); }
    if u.ctl.Busy? { GoOnKeeps(strict, grows, s, u.ctl.pc, u.ctl.errs, err); }
    GoOnKeeps(strict, grows, s, Probe(GC), [], true in s.ctl.errs + [err]);
  }

  lemma ReadKeeps(strict: bool, grows: bool, s: State, ch: Choice)
    requires Inv(strict, grows, s) && s.ctl.Busy? && s.ctl.pc.Read?
    ensures Inv(strict, grows, StepRead(s.k, s.ctl.cr, s.ctl.pc.c, s.ctl.errs, ch))
  {
    DoneKeeps(strict, grows, s, s.ctl.pc.c, false);
    DoneKeeps(strict, grows, s, s.ctl.pc.c, true);
    GoOnKeeps(strict, grows, s, Write(s.ctl.pc.c, GetComponent(s.k, s.ctl.pc.c)), s.ctl.errs, false);
  }

  lemma WriteLands(strict: bool, grows: bool, s: State, ch: Choice)
    requires Inv(strict, grows, s) && s.ctl.Busy? && s.ctl.pc.Write?
    ensures Inv(strict, grows, s.(k := WriteComponent(s.k, s.ctl.cr, s.ctl.pc.c, s.ctl.pc.seen, ch).k))
  {
  }

  lemma WriteKeeps(strict: bool, grows: bool, s: State, ch: Choice)
    requires Inv(strict, grows, s) && s.ctl.Busy? && s.ctl.pc.Write?
    ensures Inv(strict, grows, StepWrite(s.k, s.ctl.cr, s.ctl.pc.c, s.ctl.pc.seen, s.ctl.errs, ch))
  {
    var o := WriteComponent(s.k, s.ctl.cr, s.ctl.pc.c, s.ctl.pc.seen, ch);
    WriteLands(strict, grows, s, ch);
    DoneKeeps(strict, grows, s.(k := o.k), s.ctl.pc.c, o.err);
  }

  lemma ProbeKeeps(strict: bool, grows: bool, s: State, ch: Choice)
    requires Inv(strict, grows, s) && s.ctl.Busy? && s.ctl.pc.Probe?
    ensures Inv(strict, grows, StepProbe(s.k, s.ctl.cr, s.ctl.pc.c, s.ctl.errs, ch))
  {
    DoneKeeps(strict, grows, s, Worker, false);
    var t := StepProbe(s.k, s.ctl.cr, s.ctl.pc.c, s.ctl.errs, ch);
    assert (t.ctl.Busy? && (t.ctl.pc.Probe? || t.ctl.pc.Publish?) && t.ctl.cr == s.ctl.cr && t.k == s.k)
      || t == HandlerDone(s.k, s.ctl.cr, s.ctl.errs, false);
  }

  lemma PublishKeeps(strict: bool, grows: bool, s: State, ch: Choice)
    requires Inv(strict, grows, s) && s.ctl.Busy? && s.ctl.pc.Publish?
    ensures Inv(strict, grows, StepPublish(s.k, s.ctl.cr, s.ctl.pc.conditions, s.ctl.errs, ch))
  {
    var o := PatchStatus(s.k, s.ctl.pc.conditions, ch);
    assert Inv(strict, grows, s.(k := o.k));
    DoneKeeps(strict, grows, s.(k := o.k), Master, o.err);
  }

  lemma RemoveKeeps(strict: bool, grows: bool, s: State, ch: Choice)
    requires Inv(strict, grows, s) && s.ctl.Busy? && s.ctl.pc.Remove?
    ensures Inv(strict, grows, StepRemove(s.k, s.ctl.cr, s.ctl.pc.c, ch))
  {
    var o := DeleteComponent(s.k, s.ctl.pc.c, ch);
    assert Inv(strict, grows, s.(k := o.k));
    AfterRemoveKeeps(strict, grows, s.(k := o.k));
  }

  lemma AfterRemoveKeeps(strict: bool, grows: bool, s: State)
    requires Inv(strict, grows, s) && s.ctl.Busy? && s.ctl.pc.Remove?
    ensures Inv(strict, grows, Finish(s.k, true))
    ensures s.ctl.pc.c !in s.k.comps ==>
              Inv(strict, grows, State(s.k, Busy(s.ctl.cr, AfterRemove(s.ctl.pc.c, s.ctl.cr.spec), [])))
  {
  }

  lemma FindJobKeeps(strict: bool, grows: bool, s: State, ch: Choice)
    requires Inv(strict, grows, s) && s.ctl.Busy? && s.ctl.pc.FindJob?
    ensures Inv(strict, grows, StepFindJob(s.k, s.ctl.cr, ch))
  {
  }

  lemma StartJobKeeps(strict: bool, grows: bool, s: State, ch: Choice)
    requires Inv(strict, grows, s) && s.ctl.Busy? && s.ctl.pc.StartJob?
    ensures Inv(strict, grows, StepStartJob(s.k, s.ctl.cr, ch))
  {
  }

  lemma DropFinalizerKeeps(strict: bool, grows: bool, s: State, ch: Choice)
    requires Inv(strict, grows, s) && s.ctl.Busy? && s.ctl.pc.DropFinalizer?
    ensures Inv(strict, grows, StepDropFinalizer(s.k, s.ctl.cr, ch))
  {
    WithoutKeepsOthers(s.ctl.cr.finalizers);
    forall c | c in s.k.comps && (c != Topology || grows) ensures !s.k.comps[c].owner.Nfd? {
      assert Removed(s.ctl.pc, c);
    }
    UnownedKeeps(strict, grows, s.k, s.ctl.cr, ch);
  }

  /** Once nothing is under NFD control any more, the finalizer may go. */
  lemma UnownedKeeps(strict: bool, grows: bool, k: Cluster, cr: CR, ch: Choice)
    requires FinalizerInv(State(k, Idle)) && !HasFinalizer(WithoutFinalizer(cr.finalizers))
    requires forall c :: c in k.comps && (c != Topology || grows) ==> !k.comps[c].owner.Nfd?
    ensures Inv(strict, grows, StepDropFinalizer(k, cr, ch))
  {
  }

  lemma ControlKeeps(strict: bool, grows: bool, s: State, ch: Choice)
    requires Inv(strict, grows, s) && !s.ctl.Idle?
    ensures Inv(strict, grows, Apply(s, Control(ch)))
  {
    if s.ctl.Fetching? {
      FetchKeeps(strict, grows, s, ch);
    } else {
      match s.ctl.pc
      case AddFinalizer => AddFinalizerKeeps(strict, grows, s, ch);
      case Read(_) => ReadKeeps(strict, grows, s, ch);
      case Write(_, _) => WriteKeeps(strict, grows, s, ch);
      case Probe(_) => ProbeKeeps(strict, grows, s, ch);
      case Publish(_) => PublishKeeps(strict, grows, s, ch);
      case Remove(_) => RemoveKeeps(strict, grows, s, ch);
      case FindJob => FindJobKeeps(strict, grows, s, ch);
      case StartJob => StartJobKeeps(strict, grows, s, ch);
      case DropFinalizer(_) => DropFinalizerKeeps(strict, grows, s, ch);
    }
  }

  lemma MoveKeeps(strict: bool, grows: bool, s: State, l: Label)
    requires Inv(strict, grows, s) && Enabled(s, l) && Rule(strict, grows, s, l)
    ensures Inv(strict, grows, Apply(s, l))
  {
    match l
    case Start =>
    case Restart =>
    case Control(ch) => ControlKeeps(strict, grows, s, ch);
    case Outside(a) => OutsideKeeps(strict, grows, s, a);
  }

  lemma {:induction false} RunKeeps(strict: bool, grows: bool, s: State, ls: seq<Label>)
    requires Inv(strict, grows, s) && IsRun(s, ls)
    requires strict ==> Along(NoOutsideCreation, s, ls)
    requires grows ==> Along(TopologyStaysOn, s, ls)
    ensures Inv(strict, grows, Exec(s, ls))
    decreases |ls|
  {
    if ls != [] {
      MoveKeeps(strict, grows, s, ls[0]);
      RunKeeps(strict, grows, Apply(s, ls[0]), ls[1..]);
    }
  }

  // ---------- theorems over whole runs ----------

  /** Every state of every run satisfies the invariant, with the stronger forms where the run obeys the rules. */
  lemma Reachable(s0: State, ls: seq<Label>, i: nat)
    requires Init(s0) && IsRun(s0, ls) && i <= |ls|
    ensures IsRun(s0, ls[..i]) && Inv(false, false, Exec(s0, ls[..i]))
    ensures Along(NoOutsideCreation, s0, ls) ==> Inv(true, false, Exec(s0, ls[..i]))
    ensures Along(TopologyStaysOn, s0, ls) ==> Inv(false, true, Exec(s0, ls[..i]))
  {
    RunPrefix(s0, ls, i);
    InitInv(false, false, s0);
    InitInv(true, false, s0);
    InitInv(false, true, s0);
    RunKeeps(false, false, s0, ls[..i]);
    if Along(NoOutsideCreation, s0, ls) {
      AlongPrefix(NoOutsideCreation, s0, ls, i);
      RunKeeps(true, false, s0, ls[..i]);
    }
    if Along(TopologyStaysOn, s0, ls) {
      AlongPrefix(TopologyStaysOn, s0, ls, i);
      RunKeeps(false, true, s0, ls[..i]);
    }
  }

  /** The move takes the operator's finalizer off the stored CR, or the CR with it. */
  predicate DropsFinalizer(s: State, t: State) {
    && s.k.cr.Some? && HasFinalizer(s.k.cr.value.finalizers)
    && (t.k.cr.None? || !HasFinalizer(t.k.cr.value.finalizers))
  }

  lemma OnlyTeardownDrops(s: State, l: Label)
    requires Inv(false, false, s) && Enabled(s, l) && DropsFinalizer(s, Apply(s, l))
    ensures l.Control? && s.ctl.Busy? && s.ctl.pc.DropFinalizer? && Apply(s, l).k.comps == s.k.comps
  {
    if l.Control? && s.ctl.Busy? && !s.ctl.pc.DropFinalizer? {
      ControlOtherwiseKeepsFinalizer(s, l.ch);
    }
  }

  /** The move leaves the job and, up to its conditions, the CR; a Reconcile that runs on is still converging. */
  predicate GoesOn(k: Cluster, t: State) {
    && t.k.job == k.job && t.k.nextUid == k.nextUid
    && (k.cr.Some? && HasFinalizer(k.cr.value.finalizers) ==> t.k.cr.Some?)
    && (t.k.cr.Some? ==> k.cr.Some? && t.k.cr.value == k.cr.value.(conditions := t.k.cr.value.conditions))
    && (t.ctl.Busy? ==> Converging(t.ctl.pc))
  }

  lemma ReadGoesOn(k: Cluster, cr: CR, c: Component, errs: seq<bool>, ch: Choice)
    ensures GoesOn(k, StepRead(k, cr, c, errs, ch))
  {
    DoneShape(k, cr, c, errs, true);
    DoneShape(k, cr, c, errs, false);
  }

  lemma WriteGoesOn(k: Cluster, cr: CR, c: Component, seen: Option<Object>, errs: seq<bool>, ch: Choice)
    ensures GoesOn(k, StepWrite(k, cr, c, seen, errs, ch))
  {
    var o := WriteComponent(k, cr, c, seen, ch);
    DoneShape(o.k, cr, c, errs, o.err);
  }

  lemma ProbeGoesOn(k: Cluster, cr: CR, c: Component, errs: seq<bool>, ch: Choice)
    ensures GoesOn(k, StepProbe(k, cr, c, errs, ch))
  {
    DoneShape(k, cr, c, errs, false);
  }

  lemma PublishGoesOn(k: Cluster, cr: CR, conditions: seq<Condition>, errs: seq<bool>, ch: Choice)
    ensures GoesOn(k, StepPublish(k, cr, conditions, errs, ch))
  {
    var o := PatchStatus(k, conditions, ch);
    DoneShape(o.k, cr, Worker, errs, o.err);
  }

  lemma ConvergingGoesOn(s: State, ch: Choice)
    requires s.ctl.Busy? && Converging(s.ctl.pc)
    ensures GoesOn(s.k, Apply(s, Control(ch)))
  {
    match s.ctl.pc
    case Read(c) => ReadGoesOn(s.k, s.ctl.cr, c, s.ctl.errs, ch);
    case Write(c, seen) => WriteGoesOn(s.k, s.ctl.cr, c, seen, s.ctl.errs, ch);
    case Probe(c) => ProbeGoesOn(s.k, s.ctl.cr, c, s.ctl.errs, ch);
    case Publish(conditions) => PublishGoesOn(s.k, s.ctl.cr, conditions, s.ctl.errs, ch);
  }

  lemma ControlOtherwiseKeepsFinalizer(s: State, ch: Choice)
    requires s.ctl.Busy? && !s.ctl.pc.DropFinalizer?
    requires s.k.cr.Some? && HasFinalizer(s.k.cr.value.finalizers)
    ensures var t := Apply(s, Control(ch)); t.k.cr.Some? && HasFinalizer(t.k.cr.value.finalizers)
  {
    if Converging(s.ctl.pc) { ConvergingGoesOn(s, ch); }
  }

  /**
   Teardown safety. In every run, with faults and outsiders between any two calls: the move that
   takes the finalizer off is the last call of a Reconcile that saw the deletion; at that moment
   nothing that this Reconcile was asked to remove is under an NFD CR's control, all of it is
   absent unless an outsider has put something in its place, and if pruning was asked for, the
   prune job this Reconcile found had succeeded and not failed.
   */
  lemma TeardownSafety(s0: State, ls: seq<Label>, i: nat)
    requires Init(s0) && IsRun(s0, ls) && i < |ls|
    requires IsRun(s0, ls[..i]) && IsRun(s0, ls[..i + 1])
    requires DropsFinalizer(Exec(s0, ls[..i]), Exec(s0, ls[..i + 1]))
    ensures var s := Exec(s0, ls[..i]);
      && ls[i].Control? && s.ctl.Busy? && s.ctl.pc.DropFinalizer? && s.ctl.cr.deleting
      && Exec(s0, ls[..i + 1]).k.comps == s.k.comps
      && (forall c :: Requested(s.ctl.cr.spec, c) ==> Unowned(s.k, c))
      && (Along(NoOutsideCreation, s0, ls) ==> forall c :: Requested(s.ctl.cr.spec, c) ==> c !in s.k.comps)
      && (s.ctl.cr.spec.pruneOnDelete ==>
            s.ctl.pc.found.Some? && s.ctl.pc.found.value.succeeded > 0 && s.ctl.pc.found.value.failed <= 0)
  {
    RunSplit(s0, ls, i);
    Reachable(s0, ls, i);
    var s := Exec(s0, ls[..i]);
    OnlyTeardownDrops(s, ls[i]);
    assert forall c :: Removed(s.ctl.pc, c);
    assert forall c :: Requested(s.ctl.cr.spec, c) ==> Gone(false, s.k, c);
    if Along(NoOutsideCreation, s0, ls) {
      assert forall c :: Requested(s.ctl.cr.spec, c) ==> Gone(true, s.k, c);
    }
  }

  /**
   Orphan freedom. At every moment a component controlled by an NFD CR has that very CR, alive and
   still holding the finalizer. So once a CR has vanished nothing created for it remains, even if
   it was deleted in the middle of a Reconcile that was still creating. The topology updater's
   DaemonSet is included in runs that never switch it off.
   */
  lemma OrphanFreedom(s0: State, ls: seq<Label>, c: Component)
    requires Init(s0) && IsRun(s0, ls)
    requires c == Topology ==> Along(TopologyStaysOn, s0, ls)
    ensures var k := Exec(s0, ls).k;
      && (c in k.comps && k.comps[c].owner.Nfd? ==> Holds(k, k.comps[c].owner.uid))
      && (k.cr.None? ==> Unowned(k, c))
  {
    assert ls[..|ls|] == ls;
    Reachable(s0, ls, |ls|);
  }

  // ---------- objects whose reference has been taken away ----------

  /** No component but the topology updater's is there without a CR that holds the finalizer. */
  predicate PresentInv(k: Cluster) {
    forall c :: c in k.comps && c != Topology ==> k.cr.Some? && HasFinalizer(k.cr.value.finalizers)
  }

  lemma OnlyWritesAdd(s: State, ch: Choice)
    requires s.ctl.Busy? && !s.ctl.pc.Write?
    ensures Apply(s, Control(ch)).k.comps.Keys <= s.k.comps.Keys
  {
    var cr, errs := s.ctl.cr, s.ctl.errs;
    match s.ctl.pc
    case Read(c) =>
      DoneShape(s.k, cr, c, errs, true);
      DoneShape(s.k, cr, c, errs, false);
    case Probe(_) =>
      DoneShape(s.k, cr, Worker, errs, false);
    case Publish(conditions) =>
      var o := PatchStatus(s.k, conditions, ch);
      DoneShape(o.k, cr, Worker, errs, o.err);
    case _ =>
  }

  lemma PresentControl(s: State, ch: Choice)
    requires Inv(true, false, s) && PresentInv(s.k) && s.ctl.Busy?
    ensures PresentInv(Apply(s, Control(ch)).k)
  {
    var k := Apply(s, Control(ch)).k;
    if s.ctl.pc.DropFinalizer? {
      forall c | c != Topology ensures c !in s.k.comps {
        assert Removed(s.ctl.pc, c) && Requested(s.ctl.cr.spec, c);
        assert Gone(true, s.k, c);
      }
      assert k.comps == s.k.comps;
    } else if s.k.cr.Some? && HasFinalizer(s.k.cr.value.finalizers) {
      ControlOtherwiseKeepsFinalizer(s, ch);
    } else {
      OnlyWritesAdd(s, ch);
      assert forall c :: c in k.comps ==> c in s.k.comps;
    }
  }

  lemma {:induction false} PresentRun(s: State, ls: seq<Label>)
    requires Inv(true, false, s) && PresentInv(s.k) && IsRun(s, ls) && Along(NoOutsideCreation, s, ls)
    ensures PresentInv(Exec(s, ls).k)
    decreases |ls|
  {
    if ls != [] {
      PresentMove(s, ls[0]);
      MoveKeeps(true, false, s, ls[0]);
      PresentRun(Apply(s, ls[0]), ls[1..]);
    }
  }

  lemma PresentMove(s: State, l: Label)
    requires Inv(true, false, s) && PresentInv(s.k) && Enabled(s, l) && NoOutsideCreation(s, l)
    ensures PresentInv(Apply(s, l).k)
  {
    if l.Control? && s.ctl.Busy? { PresentControl(s, l.ch); }
  }

  /**
   If nobody else creates objects under the component names, nothing but the topology updater's
   DaemonSet is there at all without a CR that holds the finalizer, stripped references included.
   */
  lemma NothingPresentWithoutCr(s0: State, ls: seq<Label>)
    requires Init(s0) && s0.k.comps == map[] && IsRun(s0, ls) && Along(NoOutsideCreation, s0, ls)
    ensures var k := Exec(s0, ls).k; k.cr.None? ==> forall c :: c in k.comps ==> c == Topology
  {
    InitInv(true, false, s0);
    PresentRun(s0, ls);
  }

  /** In every state of every run the operator's finalizer is on the CR at most once. */
  lemma FinalizerAtMostOnce(s0: State, ls: seq<Label>)
    requires Init(s0) && IsRun(s0, ls)
    ensures var k := Exec(s0, ls).k; k.cr.Some? ==> Occurrences(k.cr.value.finalizers) <= 1
  {
    assert ls[..|ls|] == ls;
    Reachable(s0, ls, |ls|);
  }

  // ---------- the order of ConfigMap and DaemonSet ----------

  ghost predicate NoOutsideDeletion(s: State, l: Label) {
    !(l.Outside? && l.a.DeleteObject?)
  }

  /** With `strict`, every worker DaemonSet counts, otherwise those under an NFD CR's control. */
  ghost predicate DependencyInv(strict: bool, s: State) {
    && (!Gone(strict, s.k, Worker) ==> WorkerConfig in s.k.comps)
    && (s.ctl.Busy? && (s.ctl.pc.Read? || s.ctl.pc.Write?) && s.ctl.pc.c == Worker ==> WorkerConfig in s.k.comps)
    && (s.ctl.Busy? && Removed(s.ctl.pc, Worker) ==> Gone(strict, s.k, Worker))
  }

  lemma DependencyControl(strict: bool, s: State, ch: Choice)
    requires DependencyInv(strict, s) && s.ctl.Busy?
    ensures DependencyInv(strict, Apply(s, Control(ch)))
  {
    match s.ctl.pc
    case Read(_) => DependencyRead(strict, s, ch);
    case Write(_, _) => DependencyWrite(strict, s, ch);
    case Probe(_) => DependencyStatus(strict, s, ch);
    case Publish(_) => DependencyStatus(strict, s, ch);
    case _ =>
  }

  lemma DependencyRead(strict: bool, s: State, ch: Choice)
    requires DependencyInv(strict, s) && s.ctl.Busy? && s.ctl.pc.Read?
    ensures DependencyInv(strict, StepRead(s.k, s.ctl.cr, s.ctl.pc.c, s.ctl.errs, ch))
  {
    ContinuesWithWorker(s.k, s.ctl.cr, s.ctl.pc.c, s.ctl.errs, true);
    ContinuesWithWorker(s.k, s.ctl.cr, s.ctl.pc.c, s.ctl.errs, false);
  }

  lemma DependencyWrite(strict: bool, s: State, ch: Choice)
    requires DependencyInv(strict, s) && s.ctl.Busy? && s.ctl.pc.Write?
    ensures DependencyInv(strict, StepWrite(s.k, s.ctl.cr, s.ctl.pc.c, s.ctl.pc.seen, s.ctl.errs, ch))
  {
    var o := WriteComponent(s.k, s.ctl.cr, s.ctl.pc.c, s.ctl.pc.seen, ch);
    ContinuesWithWorker(o.k, s.ctl.cr, s.ctl.pc.c, s.ctl.errs, o.err);
  }

  lemma DependencyStatus(strict: bool, s: State, ch: Choice)
    requires DependencyInv(strict, s) && s.ctl.Busy? && (s.ctl.pc.Probe? || s.ctl.pc.Publish?)
    ensures DependencyInv(strict, StepBusy(s.k, s.ctl.cr, s.ctl.pc, s.ctl.errs, ch))
  {
    if s.ctl.pc.Publish? {
      var o := PatchStatus(s.k, s.ctl.pc.conditions, ch);
      ContinuesWithWorker(o.k, s.ctl.cr, Worker, s.ctl.errs, o.err);
    } else {
      ContinuesWithWorker(s.k, s.ctl.cr, Worker, s.ctl.errs, false);
    }
  }

  lemma ContinuesWithWorker(k: Cluster, cr: CR, c: Component, errs: seq<bool>, err: bool)
    ensures forall t :: t == HandlerDone(k, cr, errs, err) || t == ComponentDone(k, cr, c, errs, err) ==>
      && t.k.comps == k.comps
      && (t.ctl.Busy? ==> Converging(t.ctl.pc) && !t.ctl.pc.Write?)
      && (t.ctl.Busy? && t.ctl.pc == Read(Worker) ==> c == WorkerConfig && !err)
  {
  }

  lemma {:induction false} DependencyRun(strict: bool, s: State, ls: seq<Label>)
    requires IsRun(s, ls) && Along(NoOutsideDeletion, s, ls) && DependencyInv(strict, s)
    requires strict ==> Along(NoOutsideCreation, s, ls)
    ensures DependencyInv(strict, Exec(s, ls))
    decreases |ls|
  {
    if ls != [] {
      if ls[0].Control? && s.ctl.Busy? { DependencyControl(strict, s, ls[0].ch); }
      DependencyRun(strict, Apply(s, ls[0]), ls[1..]);
    }
  }

  /**
   Unless outsiders delete things, the operator's worker DaemonSet never lacks the ConfigMap it mounts;
   and if they do not create things either, no worker DaemonSet does, not even one whose controller
   reference has been stripped, provided none did at the start.
   */
  lemma DependencyOrder(s0: State, ls: seq<Label>)
    requires Init(s0) && IsRun(s0, ls) && Along(NoOutsideDeletion, s0, ls)
    ensures var k := Exec(s0, ls).k;
      && (Worker in k.comps && k.comps[Worker].owner.Nfd? ==> WorkerConfig in k.comps)
      && (Along(NoOutsideCreation, s0, ls) && (Worker in s0.k.comps ==> WorkerConfig in s0.k.comps) ==>
            Worker in k.comps ==> WorkerConfig in k.comps)
  {
    DependencyRun(false, s0, ls);
    if Along(NoOutsideCreation, s0, ls) && (Worker in s0.k.comps ==> WorkerConfig in s0.k.comps) {
      DependencyRun(true, s0, ls);
    }
  }
}
