/**
 Repair: what one Reconcile without failing calls makes of a cluster, whatever was stored before and
 whoever else controls some of the objects.
 */
module Repair {
  import opened Types
  import opened Desired
  import opened Finalizers
  import opened Protocol
  import Safety
  import Convergence
  import Quiet

  /** Another controller owns the object. */
  predicate Foreign(k: Cluster, c: Component) {
    c in k.comps && !CanOwn(k.comps[c])
  }

  /** The handlers get to write `c`: the worker handler gives up if it cannot have the ConfigMap. */
  predicate WithinReach(k: Cluster, c: Component) {
    !Foreign(k, c) && (c == Worker ==> !Foreign(k, WorkerConfig))
  }

  /** What is not within reach is as it was at the beginning, and nothing else is in foreign hands. */
  ghost predicate Spared(k0: Cluster, k: Cluster) {
    forall c :: Foreign(k, c) == Foreign(k0, c) && (!WithinReach(k0, c) ==> GetComponent(k, c) == GetComponent(k0, c))
  }

  ghost predicate BusyInv(k0: Cluster, k: Cluster, cr: CR, pc: Pc, errs: seq<bool>) {
    && k.cr == Some(cr)
    && (pc.AddFinalizer? ==> !HasFinalizer(cr.finalizers))
    && (!pc.AddFinalizer? ==> Safety.Converging(pc))
    && ((pc.Read? || pc.Write?) && pc.c == Worker ==> !Foreign(k0, WorkerConfig))
    && (pc.Write? ==> GetComponent(k, pc.c) == pc.seen)
    && (Safety.Converging(pc) ==>
          forall c :: Convergence.Processed(pc, errs, c) && Requested(cr.spec, c) && WithinReach(k0, c) ==>
            Convergence.InPlace(k, cr, c))
  }

  /** `k0` is the cluster before the repair. */
  ghost predicate Inv(k0: Cluster, s: State)
    requires k0.cr.Some?
  {
    && s.k.cr.Some? && !s.k.cr.value.deleting && Quiet.SameDemand(k0.cr.value, s.k.cr.value)
    && Spared(k0, s.k) && Convergence.WellShaped(s.ctl)
    && (s.ctl.Busy? ==> BusyInv(k0, s.k, s.ctl.cr, s.ctl.pc, s.ctl.errs))
  }

  // ---------- every undisturbed move keeps it ----------

  lemma FetchKeeps(k0: Cluster, s: State, ch: Choice)
    requires k0.cr.Some? && Inv(k0, s) && s.ctl.Fetching? && ch.fault.Fine?
    ensures Inv(k0, StepFetch(s.k, ch))
  {
  }

  lemma AddFinalizerKeeps(k0: Cluster, s: State, ch: Choice)
    requires k0.cr.Some? && Inv(k0, s) && s.ctl.Busy? && s.ctl.pc.AddFinalizer? && ch.fault.Fine?
    ensures Inv(k0, StepAddFinalizer(s.k, s.ctl.cr, ch))
  {
    assert HasFinalizer(WithFinalizer(s.ctl.cr.finalizers));
  }

  /** The handler of `c` is through with it: it is in place, or it was not within reach. */
  lemma DoneKeeps(k0: Cluster, s: State, c: Component, err: bool)
    requires k0.cr.Some? && Inv(k0, s) && s.ctl.Busy? && (s.ctl.pc.Read? || s.ctl.pc.Write?) && s.ctl.pc.c == c
    requires if err then Foreign(k0, c) else Convergence.InPlace(s.k, s.ctl.cr, c)
    ensures Inv(k0, ComponentDone(s.k, s.ctl.cr, c, s.ctl.errs, err))
  {
    var cr, pc, errs := s.ctl.cr, s.ctl.pc, s.ctl.errs;
    var t := ComponentDone(s.k, cr, c, errs, err);
    assert !err && c == WorkerConfig ==> !Foreign(s.k, WorkerConfig);
    forall d | Convergence.Processed(t.ctl.pc, t.ctl.errs, d) && Requested(cr.spec, d) && WithinReach(k0, d)
      ensures Convergence.InPlace(s.k, cr, d)
    {
      if d != c && Convergence.HandlerOf(d) < |errs| { assert Convergence.Processed(pc, errs, d); }
    }
  }

  lemma ReadKeeps(k0: Cluster, s: State, ch: Choice)
    requires k0.cr.Some? && Inv(k0, s) && s.ctl.Busy? && s.ctl.pc.Read? && ch.fault.Fine?
    ensures Inv(k0, StepRead(s.k, s.ctl.cr, s.ctl.pc.c, s.ctl.errs, ch))
  {
    var c := s.ctl.pc.c;
    if Foreign(s.k, c) {
      DoneKeeps(k0, s, c, true);
    } else if Convergence.InPlace(s.k, s.ctl.cr, c) {
      DoneKeeps(k0, s, c, false);
    }
  }

  /** A write finds the object as it was read, so it works, and puts it in place. */
  lemma WriteLands(k0: Cluster, s: State, ch: Choice)
    requires k0.cr.Some? && Inv(k0, s) && s.ctl.Busy? && s.ctl.pc.Write? && ch.fault.Fine?
    ensures var o := WriteComponent(s.k, s.ctl.cr, s.ctl.pc.c, s.ctl.pc.seen, ch);
      && !o.err && o.k.cr == s.k.cr && Convergence.InPlace(o.k, s.ctl.cr, s.ctl.pc.c)
      && (forall d :: d != s.ctl.pc.c ==> GetComponent(o.k, d) == GetComponent(s.k, d))
  {
  }

  lemma WriteKeeps(k0: Cluster, s: State, ch: Choice)
    requires k0.cr.Some? && Inv(k0, s) && s.ctl.Busy? && s.ctl.pc.Write? && ch.fault.Fine?
    ensures Inv(k0, StepWrite(s.k, s.ctl.cr, s.ctl.pc.c, s.ctl.pc.seen, s.ctl.errs, ch))
  {
    var cr, c, errs := s.ctl.cr, s.ctl.pc.c, s.ctl.errs;
    var k := WriteComponent(s.k, cr, c, s.ctl.pc.seen, ch).k;
    WriteLands(k0, s, ch);
    assert !Foreign(k, c) && !Foreign(s.k, c) && WithinReach(k0, c);
    forall d ensures Foreign(k, d) == Foreign(s.k, d)
      ensures !WithinReach(k0, d) ==> GetComponent(k, d) == GetComponent(k0, d)
    {
      assert d != c ==> GetComponent(k, d) == GetComponent(s.k, d);
    }
    WrittenKeeps(k0, s, k);
  }

  lemma WrittenKeeps(k0: Cluster, s: State, k: Cluster)
    requires k0.cr.Some? && Inv(k0, s) && s.ctl.Busy? && s.ctl.pc.Write?
    requires k.cr == s.k.cr && Spared(k0, k) && Convergence.InPlace(k, s.ctl.cr, s.ctl.pc.c)
    requires forall d :: d != s.ctl.pc.c ==> GetComponent(k, d) == GetComponent(s.k, d)
    ensures Inv(k0, ComponentDone(k, s.ctl.cr, s.ctl.pc.c, s.ctl.errs, false))
  {
    var cr, c, errs := s.ctl.cr, s.ctl.pc.c, s.ctl.errs;
    var read := State(k, Busy(cr, Read(c), errs));
    forall d | Convergence.Processed(Read(c), errs, d) && Requested(cr.spec, d) && WithinReach(k0, d)
      ensures Convergence.InPlace(k, cr, d)
    {
      assert Convergence.Processed(s.ctl.pc, errs, d);
      assert d != c ==> GetComponent(k, d) == GetComponent(s.k, d);
    }
    DoneKeeps(k0, read, c, false);
  }

  lemma StatusKeeps(k0: Cluster, s: State, ch: Choice)
    requires k0.cr.Some? && Inv(k0, s) && s.ctl.Busy? && s.ctl.pc.Probe?
    ensures Inv(k0, StepProbe(s.k, s.ctl.cr, s.ctl.pc.c, s.ctl.errs, ch))
  {
    var t := StepProbe(s.k, s.ctl.cr, s.ctl.pc.c, s.ctl.errs, ch);
    Safety.DoneShape(s.k, s.ctl.cr, Worker, s.ctl.errs, false);
    if t.ctl.Busy? {
      assert forall d :: Convergence.Processed(t.ctl.pc, t.ctl.errs, d)
                    <==> Convergence.Processed(s.ctl.pc, s.ctl.errs, d);
    }
  }

  lemma PublishKeeps(k0: Cluster, s: State, ch: Choice)
    requires k0.cr.Some? && Inv(k0, s) && s.ctl.Busy? && s.ctl.pc.Publish?
    ensures Inv(k0, StepPublish(s.k, s.ctl.cr, s.ctl.pc.conditions, s.ctl.errs, ch))
  {
    var o := PatchStatus(s.k, s.ctl.pc.conditions, ch);
    assert HandlerDone(o.k, s.ctl.cr, s.ctl.errs, o.err).ctl.Idle?;
  }

  lemma Keeps(k0: Cluster, s: State, l: Label)
    requires k0.cr.Some? && Inv(k0, s) && Enabled(s, l) && Quiet.Undisturbed(s, l)
    ensures Inv(k0, Apply(s, l))
  {
    if l.Control? {
      if s.ctl.Fetching? {
        FetchKeeps(k0, s, l.ch);
      } else {
        match s.ctl.pc
        case AddFinalizer => AddFinalizerKeeps(k0, s, l.ch);
        case Read(_) => ReadKeeps(k0, s, l.ch);
        case Write(_, _) => WriteKeeps(k0, s, l.ch);
        case Probe(_) => StatusKeeps(k0, s, l.ch);
        case Publish(_) => PublishKeeps(k0, s, l.ch);
        case _ =>
      }
    }
  }

  lemma {:induction false} RunKeeps(k0: Cluster, s: State, ls: seq<Label>)
    requires k0.cr.Some? && Inv(k0, s) && IsRun(s, ls) && Along(Quiet.Undisturbed, s, ls)
    ensures Inv(k0, Exec(s, ls))
    decreases |ls|
  {
    if ls != [] {
      Keeps(k0, s, ls[0]);
      RunKeeps(k0, Apply(s, ls[0]), ls[1..]);
    }
  }

  // ---------- the theorems ----------

  /** A run without outsiders and faults from an idle controller with a live CR, and the call that ends a Reconcile. */
  ghost predicate Repairs(s: State, ls: seq<Label>, ch: Choice) {
    && s.ctl.Idle? && s.k.cr.Some? && !s.k.cr.value.deleting
    && IsRun(s, ls) && Along(Quiet.Undisturbed, s, ls) && !Exec(s, ls).ctl.Idle? && ch.fault.Fine?
    && Convergence.EndsConvergence(Exec(s, ls), Apply(Exec(s, ls), Control(ch)))
  }

  ghost function Repaired(s: State, ls: seq<Label>, ch: Choice): Cluster
    requires Repairs(s, ls, ch)
  {
    Apply(Exec(s, ls), Control(ch)).k
  }

  /**
   Repair. Whatever is stored, at the end of a Reconcile without failing calls each requested object
   is what the CR asks for exactly when no other controller owns it, and for the worker DaemonSet
   none owns the ConfigMap either, or the DaemonSet was in place already. The others are untouched.
   */
  lemma RepairExactly(s: State, ls: seq<Label>, ch: Choice)
    requires Repairs(s, ls, ch)
    ensures var k, cr := Repaired(s, ls, ch), s.k.cr.value;
      && (forall c :: Requested(cr.spec, c) ==>
            (Convergence.InPlace(k, cr, c) <==>
               !Foreign(s.k, c)
               && (c == Worker && Foreign(s.k, WorkerConfig) ==> Convergence.InPlace(s.k, cr, Worker))))
      && (forall c :: !WithinReach(s.k, c) ==> GetComponent(k, c) == GetComponent(s.k, c))
  {
    RunKeeps(s.k, s, ls);
    var u, cr := Exec(s, ls), s.k.cr.value;
    Keeps(s.k, u, Control(ch));
    Convergence.EndShape(u, ch);
    var k := Repaired(s, ls, ch);
    forall c | Requested(cr.spec, c)
      ensures Convergence.InPlace(k, cr, c) <==>
        !Foreign(s.k, c) && (c == Worker && Foreign(s.k, WorkerConfig) ==> Convergence.InPlace(s.k, cr, Worker))
    {
      if WithinReach(s.k, c) {
        assert Convergence.Processed(u.ctl.pc, u.ctl.errs, c);
        assert Convergence.InPlace(u.k, u.ctl.cr, c);
      } else {
        assert GetComponent(k, c) == GetComponent(s.k, c);
      }
    }
  }

  /** The part of an object that a CR decides on. */
  function Decided(c: Component, o: Object): Object {
    o.(labels := if c == WorkerConfig then map[] else o.labels, health := UNREPORTED)
  }

  /**
   Any history ends in the same store: two clusters in any two states whatever, repaired for the same
   CR, agree on every requested object within reach, up to what the cluster reports in it and the
   labels that others have put on the ConfigMap.
   */
  lemma HistoryIsForgotten(s1: State, ls1: seq<Label>, ch1: Choice, s2: State, ls2: seq<Label>, ch2: Choice)
    requires Repairs(s1, ls1, ch1) && Repairs(s2, ls2, ch2)
    requires s1.k.cr.value.uid == s2.k.cr.value.uid && s1.k.cr.value.spec == s2.k.cr.value.spec
    ensures var k1, k2 := Repaired(s1, ls1, ch1), Repaired(s2, ls2, ch2);
      forall c :: Requested(s1.k.cr.value.spec, c) && WithinReach(s1.k, c) && WithinReach(s2.k, c) ==>
        c in k1.comps && c in k2.comps && Decided(c, k1.comps[c]) == Decided(c, k2.comps[c])
  {
    RepairExactly(s1, ls1, ch1);
    RepairExactly(s2, ls2, ch2);
  }
}
