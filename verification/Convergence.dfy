/**
 What a converging Reconcile has achieved at each of its calls. One invariant serves two readings.
 Without outsiders, every handler that has returned without error has its objects in place. With
 outsiders, the same holds unless the work queue already holds an entry or an error has occurred,
 either of which brings another Reconcile.
 */
module Convergence {
  import opened Types
  import opened Desired
  import opened Finalizers
  import opened Protocol
  import Safety

  // ---------- rules ----------

  /** Only the controller moves, and it is not restarted; calls may still fail. */
  ghost predicate Alone(s: State, l: Label) {
    l.Start? || l.Control?
  }

  /** Outsiders who change an object leave its controller reference to the NFD CR in place. */
  ghost predicate KeepsReferences(s: State, l: Label) {
    && (l.Outside? && l.a.UpdateObject? && l.a.c in s.k.comps && s.k.comps[l.a.c].owner.Nfd? ==>
          l.a.o.owner == s.k.comps[l.a.c].owner)
    && (l.Outside? && l.a.UpdateJob? && s.k.job.Some? && s.k.job.value.owner.Nfd? ==>
          l.a.j.owner == s.k.job.value.owner)
  }

  // ---------- the invariant ----------

  /** The position of the handler of a component among the five handlers. */
  function HandlerOf(c: Component): nat {
    match c
    case Master => 0
    case WorkerConfig => 1
    case Worker => 1
    case Topology => 2
    case GC => 3
  }

  /** The Reconcile is past the create-or-patch of `c`. */
  predicate Processed(pc: Pc, errs: seq<bool>, c: Component) {
    HandlerOf(c) < |errs| || ((pc.Read? || pc.Write?) && pc.c == Worker && c == WorkerConfig)
  }

  predicate Errored(errs: seq<bool>, c: Component) {
    HandlerOf(c) < |errs| && errs[HandlerOf(c)]
  }

  predicate InPlace(k: Cluster, cr: CR, c: Component) {
    c in k.comps && Matches(cr, c, k.comps[c])
  }

  /** Another Reconcile is certain to follow. */
  predicate Excused(alone: bool, s: State) {
    !alone && (s.k.queued || (s.ctl.Busy? && true in s.ctl.errs))
  }

  predicate WellShaped(ctl: Ctl) {
    ctl.Busy? ==>
      && (ctl.pc.Read? || ctl.pc.Write? ==> |ctl.errs| == HandlerOf(ctl.pc.c) && Requested(ctl.cr.spec, ctl.pc.c))
      && (ctl.pc.Probe? || ctl.pc.Publish? ==> |ctl.errs| == 4)
      && (ctl.pc.Write? && ctl.pc.seen.Some? ==> CanOwn(ctl.pc.seen.value))
  }

  /** The snapshot is current, and what is processed without error is in place. */
  ghost predicate Progress(k: Cluster, cr: CR, pc: Pc, errs: seq<bool>) {
    && k.cr == Some(cr)
    && forall c :: Processed(pc, errs, c) && Requested(cr.spec, c) && !Errored(errs, c) ==> InPlace(k, cr, c)
  }

  /** An object under an NFD CR's control when read is still as it was; one that was not is still not. */
  predicate StillAsSeen(alone: bool, k: Cluster, c: Component, seen: Option<Object>) {
    && (alone || (seen.Some? && seen.value.owner.Nfd?) ==> GetComponent(k, c) == seen)
    && (seen.Some? && !seen.value.owner.Nfd? ==> Safety.Unowned(k, c))
  }

  ghost predicate Inv(alone: bool, s: State) {
    && WellShaped(s.ctl)
    && (s.ctl.Busy? && Safety.Converging(s.ctl.pc) && !Excused(alone, s) ==>
          && Progress(s.k, s.ctl.cr, s.ctl.pc, s.ctl.errs)
          && (s.ctl.pc.Write? ==> StillAsSeen(alone, s.k, s.ctl.pc.c, s.ctl.pc.seen)))
  }

  ghost predicate Rule(alone: bool, s: State, l: Label) {
    if alone then Alone(s, l) else KeepsReferences(s, l)
  }

  // ---------- every move keeps it ----------

  lemma OutsideKeeps(s: State, a: Action)
    requires Inv(false, s) && Possible(s.k, a) && KeepsReferences(s, Outside(a))
    ensures Inv(false, Apply(s, Outside(a)))
  {
  }

  /** What a handler's result adds: its components are processed, in place or counted as failed. */
  lemma DoneKeeps(alone: bool, k: Cluster, cr: CR, pc: Pc, errs: seq<bool>, err: bool, c: Component)
    requires Safety.Converging(pc) && WellShaped(Busy(cr, pc, errs))
    requires !Excused(alone, State(k, Busy(cr, pc, errs))) ==> Progress(k, cr, pc, errs)
    requires pc.Read? || pc.Write? ==> pc.c == c
    requires pc.Read? || pc.Write? ==>
      err || Excused(alone, State(k, Busy(cr, pc, errs))) || InPlace(k, cr, c)
    ensures pc.Read? || pc.Write? ==> Inv(alone, ComponentDone(k, cr, c, errs, err))
    ensures pc.Probe? || pc.Publish? ==> Inv(alone, HandlerDone(k, cr, errs, err))
  {
    if pc.Read? || pc.Write? {
      var t := ComponentDone(k, cr, c, errs, err);
      if t.ctl.Busy? && !Excused(alone, t) {
        forall d | Processed(t.ctl.pc, t.ctl.errs, d) && Requested(cr.spec, d) && !Errored(t.ctl.errs, d)
          ensures InPlace(k, cr, d)
        {
          if d != c && HandlerOf(d) < |errs| {
            assert Processed(pc, errs, d) && !Errored(errs, d);
          }
        }
      }
    }
  }

  lemma ReadKeeps(alone: bool, s: State, ch: Choice)
    requires Inv(alone, s) && s.ctl.Busy? && s.ctl.pc.Read?
    ensures Inv(alone, StepRead(s.k, s.ctl.cr, s.ctl.pc.c, s.ctl.errs, ch))
  {
    var cr, pc, errs := s.ctl.cr, s.ctl.pc, s.ctl.errs;
    DoneKeeps(alone, s.k, cr, pc, errs, true, pc.c);
    if pc.c in s.k.comps && Matches(cr, pc.c, s.k.comps[pc.c]) {
      DoneKeeps(alone, s.k, cr, pc, errs, false, pc.c);
    }
  }

  /** A write that reports success has put the object in place, or has woken the controller. */
  lemma WriteTakes(alone: bool, s: State, ch: Choice)
    requires Inv(alone, s) && s.ctl.Busy? && s.ctl.pc.Write?
    ensures var o := WriteComponent(s.k, s.ctl.cr, s.ctl.pc.c, s.ctl.pc.seen, ch);
      !o.err ==> Excused(alone, s.(k := o.k)) || InPlace(o.k, s.ctl.cr, s.ctl.pc.c)
  {
  }

  lemma WriteKeeps(alone: bool, s: State, ch: Choice)
    requires Inv(alone, s) && s.ctl.Busy? && s.ctl.pc.Write?
    ensures Inv(alone, StepWrite(s.k, s.ctl.cr, s.ctl.pc.c, s.ctl.pc.seen, s.ctl.errs, ch))
  {
    var cr, pc, errs := s.ctl.cr, s.ctl.pc, s.ctl.errs;
    var o := WriteComponent(s.k, cr, pc.c, pc.seen, ch);
    WriteTakes(alone, s, ch);
    DoneKeeps(alone, o.k, cr, pc, errs, o.err, pc.c);
  }

  lemma ProbeKeeps(alone: bool, s: State, ch: Choice)
    requires Inv(alone, s) && s.ctl.Busy? && s.ctl.pc.Probe?
    ensures Inv(alone, StepProbe(s.k, s.ctl.cr, s.ctl.pc.c, s.ctl.errs, ch))
  {
    DoneKeeps(alone, s.k, s.ctl.cr, s.ctl.pc, s.ctl.errs, false, Worker);
    var t := StepProbe(s.k, s.ctl.cr, s.ctl.pc.c, s.ctl.errs, ch);
    assert t == HandlerDone(s.k, s.ctl.cr, s.ctl.errs, false)
      || (t == State(s.k, Busy(s.ctl.cr, t.ctl.pc, s.ctl.errs)) && (t.ctl.pc.Probe? || t.ctl.pc.Publish?));
    if t.ctl.Busy? {
      assert forall c :: Processed(t.ctl.pc, s.ctl.errs, c) <==> Processed(s.ctl.pc, s.ctl.errs, c);
    }
  }

  lemma ControlKeeps(alone: bool, s: State, ch: Choice)
    requires Inv(alone, s) && !s.ctl.Idle?
    ensures Inv(alone, Apply(s, Control(ch)))
  {
    if s.ctl.Busy? {
      match s.ctl.pc
      case Read(_) => ReadKeeps(alone, s, ch);
      case Write(_, _) => WriteKeeps(alone, s, ch);
      case Probe(_) => ProbeKeeps(alone, s, ch);
      case _ =>
    }
  }

  lemma MoveKeeps(alone: bool, s: State, l: Label)
    requires Inv(alone, s) && Enabled(s, l) && Rule(alone, s, l)
    ensures Inv(alone, Apply(s, l))
  {
    match l
    case Start =>
    case Restart =>
    case Control(ch) => ControlKeeps(alone, s, ch);
    case Outside(a) => OutsideKeeps(s, a);
  }

  lemma {:induction false} RunKeeps(alone: bool, s: State, ls: seq<Label>)
    requires Inv(alone, s) && IsRun(s, ls)
    requires if alone then Along(Alone, s, ls) else Along(KeepsReferences, s, ls)
    ensures Inv(alone, Exec(s, ls))
    decreases |ls|
  {
    if ls != [] {
      MoveKeeps(alone, s, ls[0]);
      RunKeeps(alone, Apply(s, ls[0]), ls[1..]);
    }
  }

  // ---------- fault isolation ----------

  /** This move ends a Reconcile that converges. */
  predicate EndsConvergence(s: State, t: State) {
    s.ctl.Busy? && Safety.Converging(s.ctl.pc) && t.ctl.Idle?
  }

  /** What the status handler does in its last call, and whether it returns an error. */
  function StatusOutcome(s: State, ch: Choice): Outcome
    requires s.ctl.Busy?
  {
    if s.ctl.pc.Publish? then PatchStatus(s.k, s.ctl.pc.conditions, ch) else Outcome(s.k, false)
  }

  lemma EndShape(s: State, ch: Choice)
    requires s.ctl.Busy? && WellShaped(s.ctl) && EndsConvergence(s, Apply(s, Control(ch)))
    ensures s.ctl.pc.Probe? || s.ctl.pc.Publish?
    ensures var o := StatusOutcome(s, ch);
      Apply(s, Control(ch)) == Finish(o.k, true in s.ctl.errs + [o.err]) && o.k.comps == s.k.comps
  {
    match s.ctl.pc
    case Read(c) =>
      EarlyHandlersGoOn(s.k, s.ctl.cr, c, s.ctl.errs, true);
      EarlyHandlersGoOn(s.k, s.ctl.cr, c, s.ctl.errs, false);
    case Write(c, seen) =>
      var o := WriteComponent(s.k, s.ctl.cr, c, seen, ch);
      EarlyHandlersGoOn(o.k, s.ctl.cr, c, s.ctl.errs, o.err);
    case _ =>
  }

  lemma EarlyHandlersGoOn(k: Cluster, cr: CR, c: Component, errs: seq<bool>, err: bool)
    requires |errs| == HandlerOf(c)
    ensures ComponentDone(k, cr, c, errs, err).ctl.Busy?
  {
  }

  /**
   Fault isolation. Whatever calls fail, and however, a converging Reconcile runs all five handlers;
   it ends with an error exactly when one of them did; and the objects of every handler that
   returned without error are as the CR wants them, whatever was stored before.
   */
  lemma FaultIsolation(s0: State, ls: seq<Label>, ch: Choice)
    requires s0.ctl.Idle? && IsRun(s0, ls) && Along(Alone, s0, ls) && !Exec(s0, ls).ctl.Idle?
    requires EndsConvergence(Exec(s0, ls), Apply(Exec(s0, ls), Control(ch)))
    ensures var s, t := Exec(s0, ls), Apply(Exec(s0, ls), Control(ch));
      && |s.ctl.errs| == 4
      && t == Finish(StatusOutcome(s, ch).k, true in s.ctl.errs + [StatusOutcome(s, ch).err])
      && forall c :: Requested(s.ctl.cr.spec, c) && !s.ctl.errs[HandlerOf(c)] ==> InPlace(t.k, s.ctl.cr, c)
  {
    RunKeeps(true, s0, ls);
    var s := Exec(s0, ls);
    EndShape(s, ch);
    forall c | Requested(s.ctl.cr.spec, c) && !s.ctl.errs[HandlerOf(c)]
      ensures InPlace(s.k, s.ctl.cr, c)
    {
      assert Processed(s.ctl.pc, s.ctl.errs, c);
    }
  }
}
