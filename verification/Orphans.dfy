/** What a deletion leaves behind, told from the state in which the teardown begins. */
module Orphans {
  import opened Types
  import opened Desired
  import opened Finalizers
  import opened Protocol
  import Safety

  /**
   A deletion that only teardowns are at work on: no Reconcile that creates things is under way, and
   one that removes them, if any, agrees with the CR about the topology updater.
   */
  ghost predicate TeardownAhead(s: State) {
    && s.k.cr.Some? && s.k.cr.value.deleting
    && (s.ctl.Busy? ==>
          && Safety.TearingDown(s.ctl.pc)
          && s.ctl.cr.spec.topologyUpdater == s.k.cr.value.spec.topologyUpdater)
  }

  /**
   Outsiders do not switch the topology updater on or off any more, and neither delete its DaemonSet
   nor take its controller reference away. They may change it otherwise, its reported health included.
   */
  ghost predicate TopologyStaysOwned(s: State, l: Label) {
    l.Outside? ==>
      && (l.a.EditCr? && s.k.cr.Some? ==> l.a.spec.topologyUpdater == s.k.cr.value.spec.topologyUpdater)
      && (l.a.DeleteObject? ==> l.a.c != Topology)
      && (l.a.UpdateObject? && l.a.c == Topology && !Safety.Unowned(s.k, Topology) ==> l.a.o.owner.Nfd?)
  }

  /** The deletion of the CR `uid` is still on, and has not touched a DaemonSet it was not asked to remove. */
  ghost predicate StillOn(uid: nat, asked: bool, unowned: bool, s: State) {
    && TeardownAhead(s) && s.k.cr.value.uid == uid && uid < s.k.nextUid
    && s.k.cr.value.spec.topologyUpdater == asked
    && (s.ctl.Busy? && s.ctl.pc.Remove? ==> Requested(s.ctl.cr.spec, s.ctl.pc.c))
    && (!asked ==> Safety.Unowned(s.k, Topology) == unowned)
  }

  /** The CR `uid` is gone for good. */
  predicate Over(uid: nat, k: Cluster) {
    uid < k.nextUid && (k.cr.Some? ==> k.cr.value.uid > uid)
  }

  lemma OutsideStays(uid: nat, asked: bool, unowned: bool, s: State, a: Action)
    requires StillOn(uid, asked, unowned, s) && Possible(s.k, a) && TopologyStaysOwned(s, Outside(a))
    ensures StillOn(uid, asked, unowned, Apply(s, Outside(a))) || Over(uid, Act(s.k, a))
  {
  }

  lemma RemoveStays(uid: nat, asked: bool, unowned: bool, s: State, ch: Choice)
    requires StillOn(uid, asked, unowned, s) && s.ctl.Busy? && s.ctl.pc.Remove?
    ensures StillOn(uid, asked, unowned, StepRemove(s.k, s.ctl.cr, s.ctl.pc.c, ch))
  {
  }

  lemma JobStays(uid: nat, asked: bool, unowned: bool, s: State, ch: Choice)
    requires StillOn(uid, asked, unowned, s) && s.ctl.Busy? && (s.ctl.pc.FindJob? || s.ctl.pc.StartJob?)
    ensures StillOn(uid, asked, unowned, StepBusy(s.k, s.ctl.cr, s.ctl.pc, s.ctl.errs, ch))
  {
  }

  lemma DropStays(uid: nat, asked: bool, unowned: bool, s: State, ch: Choice)
    requires StillOn(uid, asked, unowned, s) && s.ctl.Busy? && s.ctl.pc.DropFinalizer?
    ensures var t := StepDropFinalizer(s.k, s.ctl.cr, ch); StillOn(uid, asked, unowned, t) || Over(uid, t.k)
  {
  }

  lemma ControlStays(uid: nat, asked: bool, unowned: bool, s: State, ch: Choice)
    requires StillOn(uid, asked, unowned, s) && !s.ctl.Idle?
    ensures var t := Apply(s, Control(ch)); StillOn(uid, asked, unowned, t) || Over(uid, t.k)
  {
    if s.ctl.Busy? {
      match s.ctl.pc
      case Remove(_) => RemoveStays(uid, asked, unowned, s, ch);
      case DropFinalizer(_) => DropStays(uid, asked, unowned, s, ch);
      case _ => JobStays(uid, asked, unowned, s, ch);
    }
  }

  /** No call of the controller makes a CR or gives it another identity. */
  lemma OverStaysControl(uid: nat, s: State, ch: Choice)
    requires Over(uid, s.k) && s.ctl.Busy?
    ensures Over(uid, Apply(s, Control(ch)).k)
  {
    if Safety.Converging(s.ctl.pc) { Safety.ConvergingGoesOn(s, ch); }
  }

  lemma OverStays(uid: nat, s: State, l: Label)
    requires Over(uid, s.k) && Enabled(s, l)
    ensures Over(uid, Apply(s, l).k)
  {
    if l.Control? && s.ctl.Busy? { OverStaysControl(uid, s, l.ch); }
  }

  lemma {:induction false} DeletionGoesOn(uid: nat, asked: bool, unowned: bool, s: State, ls: seq<Label>)
    requires IsRun(s, ls) && Along(TopologyStaysOwned, s, ls)
    requires StillOn(uid, asked, unowned, s) || Over(uid, s.k)
    ensures StillOn(uid, asked, unowned, Exec(s, ls)) || Over(uid, Exec(s, ls).k)
    decreases |ls|
  {
    if ls != [] {
      if Over(uid, s.k) {
        OverStays(uid, s, ls[0]);
      } else {
        match ls[0] {
          case Start =>
          case Restart =>
          case Control(ch) => ControlStays(uid, asked, unowned, s, ch);
          case Outside(a) => OutsideStays(uid, asked, unowned, s, a);
        }
      }
      DeletionGoesOn(uid, asked, unowned, Apply(s, ls[0]), ls[1..]);
    }
  }

  /**
   Whether a deletion leaves something behind is decided when its teardown begins. In every run in
   which the topology DaemonSet stays owned, with faults, retries and restarts: when the finalizer of
   this CR comes off, something under NFD control is left exactly if the topology updater was off then
   and its DaemonSet was there, and nothing but this DaemonSet is.
   */
  lemma OrphanExactly(s0: State, before: seq<Label>, ls: seq<Label>, l: Label)
    requires Init(s0) && IsRun(s0, before) && TeardownAhead(Exec(s0, before))
    requires IsRun(Exec(s0, before), ls) && Along(TopologyStaysOwned, Exec(s0, before), ls)
    requires Enabled(Exec(Exec(s0, before), ls), l)
    requires Safety.DropsFinalizer(Exec(Exec(s0, before), ls), Apply(Exec(Exec(s0, before), ls), l))
    requires Exec(Exec(s0, before), ls).k.cr.value.uid == Exec(s0, before).k.cr.value.uid
    ensures var s, k := Exec(s0, before), Apply(Exec(Exec(s0, before), ls), l).k;
      && ((exists c :: !Safety.Unowned(k, c)) <==>
            !s.k.cr.value.spec.topologyUpdater && !Safety.Unowned(s.k, Topology))
      && (forall c :: !Safety.Unowned(k, c) ==> c == Topology)
  {
    var s, u := Exec(s0, before), Exec(Exec(s0, before), ls);
    assert before[..|before|] == before && (before + ls)[..|before + ls|] == before + ls;
    RunAppend(s0, before, ls);
    Safety.Reachable(s0, before, |before|);
    Safety.Reachable(s0, before + ls, |before + ls|);
    var uid, asked := s.k.cr.value.uid, s.k.cr.value.spec.topologyUpdater;
    DeletionGoesOn(uid, asked, Safety.Unowned(s.k, Topology), s, ls);
    assert StillOn(uid, asked, Safety.Unowned(s.k, Topology), u);
    NothingElseLeft(u, l);
    WhatIsLeft(u.k, Apply(u, l).k, u.ctl.cr.spec);
  }

  lemma WhatIsLeft(k: Cluster, k': Cluster, spec: Spec)
    requires k'.comps == k.comps
    requires forall c :: Requested(spec, c) ==> Safety.Unowned(k, c)
    ensures (exists c :: !Safety.Unowned(k', c)) <==> !spec.topologyUpdater && !Safety.Unowned(k, Topology)
    ensures forall c :: !Safety.Unowned(k', c) ==> c == Topology
  {
    forall c | c != Topology ensures Safety.Unowned(k, c) { assert Requested(spec, c); }
    if spec.topologyUpdater { assert Requested(spec, Topology); }
    assert forall c :: Safety.Unowned(k', c) <==> Safety.Unowned(k, c);
  }

  /** At the drop nothing that the teardown was asked to remove is left. */
  lemma NothingElseLeft(u: State, l: Label)
    requires Safety.Inv(false, false, u) && Enabled(u, l) && Safety.DropsFinalizer(u, Apply(u, l))
    ensures u.ctl.Busy? && Apply(u, l).k.comps == u.k.comps
    ensures forall c :: Requested(u.ctl.cr.spec, c) ==> Safety.Unowned(u.k, c)
  {
    Safety.OnlyTeardownDrops(u, l);
    assert forall c :: Safety.Removed(u.ctl.pc, c);
    assert forall c :: Requested(u.ctl.cr.spec, c) ==> Safety.Gone(false, u.k, c);
  }
}
