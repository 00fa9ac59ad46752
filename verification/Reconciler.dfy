/**
 The operator's methods, call by call, proved to be runs of the protocol: whatever the others do
 between the calls and whichever calls fail, the moves that happen form a run whose last state is
 the state reached. So everything proved of all runs holds of this code.
 */
module Reconciler {
  import opened Types
  import opened Status
  import opened Desired
  import opened Finalizers
  import opened Protocol
  import opened Components
  import opened ApiServer
  import Safety
  import Convergence
  import Wakeup
  import Effects

  function Moves(acts: seq<Action>): seq<Label> {
    seq(|acts|, i requires 0 <= i < |acts| => Outside(acts[i]))
  }

  /** What the others do is a run that leaves the controller where it is. */
  lemma {:induction false} DriftIsRun(k: Cluster, ctl: Ctl, acts: seq<Action>)
    requires IsDrift(k, acts)
    ensures IsRun(State(k, ctl), Moves(acts))
    ensures Exec(State(k, ctl), Moves(acts)) == State(Drift(k, acts), ctl)
    decreases |acts|
  {
    if acts != [] {
      assert Moves(acts)[1..] == Moves(acts[1..]);
      DriftIsRun(Act(k, acts[0]), ctl, acts[1..]);
    }
  }

  lemma OneMore(s: State, ls: seq<Label>, acts: seq<Action>, l: Label)
    requires IsRun(s, ls) && IsDrift(Exec(s, ls).k, acts)
    requires Enabled(State(Drift(Exec(s, ls).k, acts), Exec(s, ls).ctl), l)
    ensures IsRun(s, ls + Moves(acts) + [l])
    ensures Exec(s, ls + Moves(acts) + [l]) == Apply(State(Drift(Exec(s, ls).k, acts), Exec(s, ls).ctl), l)
  {
    var t := Exec(s, ls);
    DriftIsRun(t.k, t.ctl, acts);
    RunAppend(s, ls, Moves(acts));
    var u := Exec(s, ls + Moves(acts));
    RunOne(u, l);
    RunAppend(s, ls + Moves(acts), [l]);
  }

  class Controller {
    const server: Server

    // The run so far, the point reached in it, and whether the worker still has to queue the CR again.
    ghost const start: State
    ghost var log: seq<Label>
    ghost var ctl: Ctl
    ghost var owed: bool

    constructor (server: Server)
      ensures Valid() && fresh(this) && this.server == server && log == [] && ctl.Idle? && !owed
    {
      this.server := server;
      start := State(server.View(), Idle);
      log, ctl, owed := [], Idle, false;
    }

    /** The state of the protocol: a due entry counts as queued. */
    ghost function Now(): State
      reads this, server
    {
      State(server.View().(queued := server.queued || owed), ctl)
    }

    ghost predicate Valid()
      reads this, server
    {
      IsRun(start, log) && Exec(start, log) == Now() && (owed ==> ctl.Idle?)
    }

    /** The run goes on from where it was. */
    twostate predicate Continues()
      reads this, server
    {
      Valid() && old(log) <= log
    }

    /** Enters one call of the controller, and what happened before it, into the run. */
    ghost method Record(before: Cluster, acts: seq<Action>, ch: Choice, err: bool)
      requires IsRun(start, log) && Exec(start, log) == State(before, ctl) && !ctl.Idle?
      requires IsDrift(before, acts)
      requires var t := Apply(State(Drift(before, acts), ctl), Control(ch));
        && t.k == server.View().(queued := server.queued || (t.ctl.Idle? && err))
        && (t.ctl.Idle? ==> err == Effects.ReturnsError(State(Drift(before, acts), ctl), ch))
      modifies this`log, this`ctl, this`owed
      ensures Valid() && log == old(log) + Moves(acts) + [Control(ch)]
      ensures ctl == Apply(State(Drift(before, acts), old(ctl)), Control(ch)).ctl
      ensures owed == (ctl.Idle? && err)
      ensures ctl.Idle? ==> Done() && Exec(start, log[..|log| - 1]) == State(Drift(before, acts), old(ctl))
    {
      OneMore(start, log, acts, Control(ch));
      var t := Apply(State(Drift(before, acts), ctl), Control(ch));
      log := log + Moves(acts) + [Control(ch)];
      ctl := t.ctl;
      owed := ctl.Idle? && err;
      var u := State(Drift(before, acts), old(ctl));
      assert log[..|log| - 1] == old(log) + Moves(acts);
      DriftIsRun(before, old(ctl), acts);
      RunAppend(start, old(log), Moves(acts));
      assert Exec(start, log[..|log| - 1]) == u;
    }

    /** The Reconcile is over, and an error is owed to the queue exactly if its last call is one. */
    ghost predicate Done()
      reads this
    {
      && ctl.Idle? && log != [] && log[|log| - 1].Control? && IsRun(start, log[..|log| - 1])
      && var last := Exec(start, log[..|log| - 1]);
      !last.ctl.Idle? && owed == Effects.ReturnsError(last, log[|log| - 1].ch)
    }

    /** The prune job that the last call of the Reconcile has read. */
    ghost function JobSeen(): Option<Job>
      requires Done()
      reads this
    {
      var last := Exec(start, log[..|log| - 1]);
      if last.ctl.Busy? && last.ctl.pc.FindJob? && log[|log| - 1].ch.fault.Fine? then last.k.job else None
    }

    /** Whether and where the worker stands in a Reconcile of this copy. */
    ghost predicate At(nfd: Instance, pc: Pc, errs: seq<bool>)
      reads this, server, nfd
    {
      Valid() && ctl == Busy(nfd.Value(), pc, errs) && !owed
    }

    // ---------- create or patch ----------

    /** The read half: a copy of the object, filled in; `same` if that changed nothing. */
    method ReadAndFill(c: Component, nfd: Instance)
      returns (err: Option<Error>, seen: Option<Object>, o: Stored, same: bool)
      requires ctl.Busy? && At(nfd, Read(c), ctl.errs) && |ctl.errs| == Convergence.HandlerOf(c)
      modifies this`log, this`ctl, this`owed, server
      ensures Continues() && !owed && fresh(o)
      ensures err.Some? || same ==> ctl == ComponentDone(server.View(), nfd.Value(), c, old(ctl.errs), err.Some?).ctl
      ensures err.None? && !same ==>
        && ctl == Busy(nfd.Value(), Write(c, seen), old(ctl.errs))
        && o.Value() == AsDesired(nfd.Value(), c, if seen.Some? then seen.value else BLANK)
    {
      ghost var errs, cr, before := ctl.errs, nfd.Value(), server.View();
      var r, acts, ch := server.Get(c);
      err, seen, o, same := Fill(c, nfd, r);
      ReadGoesOn(server.View(), cr, c, errs, ch, err.Some?, same);
      Record(before, acts, ch, err.Some?);
    }

    /** Fills in what has been read, or a blank object if there was none. */
    method Fill(c: Component, nfd: Instance, r: Result<Object>)
      returns (err: Option<Error>, seen: Option<Object>, o: Stored, same: bool)
      ensures fresh(o) && seen == (if r.Ok? then Some(r.value) else None)
      ensures err.Some? <==> if r.Ok? then !CanOwn(r.value) else !IsNotFound(r.error)
      ensures err.None? ==> o.Value() == AsDesired(nfd.Value(), c, if seen.Some? then seen.value else BLANK)
      ensures same <==> err.None? && seen.Some? && Matches(nfd.Value(), c, seen.value)
    {
      seen := if r.Ok? then Some(r.value) else None;
      o := new Stored(if r.Ok? then r.value else BLANK);
      if r.Err? && !IsNotFound(r.error) {
        return Some(r.error), seen, o, false;
      }
      err := Mutate(c, nfd, o);
      same := err.None? && seen == Some(o.Value());
    }

    /** The write half. */
    method Save(c: Component, nfd: Instance, seen: Option<Object>, o: Stored) returns (err: Option<Error>)
      requires ctl.Busy? && At(nfd, Write(c, seen), ctl.errs) && |ctl.errs| == Convergence.HandlerOf(c)
      requires o.Value() == AsDesired(nfd.Value(), c, if seen.Some? then seen.value else BLANK)
      modifies this`log, this`ctl, this`owed, server
      ensures Continues() && !owed
      ensures ctl == ComponentDone(server.View(), nfd.Value(), c, old(ctl.errs), err.Some?).ctl
    {
      ghost var errs, cr, before := ctl.errs, nfd.Value(), server.View();
      ghost var acts, ch;
      if seen.Some? {
        err, acts, ch := server.Patch(c, seen.value, o.Value());
      } else {
        err, acts, ch := server.Create(c, o.Value());
      }
      DoneGoesOn(server.View(), cr, c, errs, err.Some?);
      assert Apply(State(Drift(before, acts), ctl), Control(ch)) ==
        ComponentDone(server.View(), cr, c, errs, err.Some?);
      Record(before, acts, ch, err.Some?);
    }

    method CreateOrPatch(c: Component, nfd: Instance) returns (err: Option<Error>)
      requires ctl.Busy? && At(nfd, Read(c), ctl.errs) && |ctl.errs| == Convergence.HandlerOf(c)
      modifies this`log, this`ctl, this`owed, server
      ensures Continues() && !owed
      ensures ctl == ComponentDone(server.View(), nfd.Value(), c, old(ctl.errs), err.Some?).ctl
    {
      var seen, o, same;
      err, seen, o, same := ReadAndFill(c, nfd);
      if err.None? && !same {
        err := Save(c, nfd, seen, o);
      }
      DoneIgnoresCluster(c, nfd.Value(), old(ctl.errs), err.Some?);
    }

    // ---------- the handlers of a live CR ----------

    method HandleMaster(nfd: Instance) returns (err: Option<Error>)
      requires At(nfd, Read(Master), [])
      modifies this`log, this`ctl, this`owed, server
      ensures Continues() && At(nfd, Read(WorkerConfig), [err.Some?])
    {
      err := CreateOrPatch(Master, nfd);
      if err.Some? {
        return Some(Wrapped("failed to reconcile master deployment", err.value));
      }
    }

    method HandleWorker(nfd: Instance) returns (err: Option<Error>)
      requires ctl.Busy? && At(nfd, Read(WorkerConfig), ctl.errs) && |ctl.errs| == 1
      modifies this`log, this`ctl, this`owed, server
      ensures Continues() && AfterWorker(nfd, old(ctl.errs) + [err.Some?])
    {
      err := CreateOrPatch(WorkerConfig, nfd);
      if err.Some? {
        return Some(Wrapped("failed to reconcile worker configmap", err.value));
      }
      err := CreateOrPatch(Worker, nfd);
      if err.Some? {
        return Some(Wrapped("failed to reconcile worker DaemonSet", err.value));
      }
    }

    /** After the worker handler: the topology handler is next, and will make a call or not. */
    ghost predicate AfterWorker(nfd: Instance, errs: seq<bool>)
      reads this, server, nfd
    {
      if nfd.spec.topologyUpdater then At(nfd, Read(Topology), errs) else At(nfd, Read(GC), errs + [false])
    }

    method HandleTopology(nfd: Instance, ghost errs: seq<bool>) returns (err: Option<Error>)
      requires AfterWorker(nfd, errs) && |errs| == 2
      modifies this`log, this`ctl, this`owed, server
      ensures Continues() && At(nfd, Read(GC), errs + [err.Some?])
      ensures !nfd.spec.topologyUpdater ==> err.None? && log == old(log) && server.View() == old(server.View())
    {
      if !nfd.spec.topologyUpdater {
        return None;
      }
      err := CreateOrPatch(Topology, nfd);
      if err.Some? {
        return Some(Wrapped("failed to reconcile topology daemonset", err.value));
      }
    }

    method HandleGC(nfd: Instance) returns (err: Option<Error>)
      requires ctl.Busy? && At(nfd, Read(GC), ctl.errs) && |ctl.errs| == 3
      modifies this`log, this`ctl, this`owed, server
      ensures Continues() && At(nfd, Probe(Worker), old(ctl.errs) + [err.Some?])
    {
      err := CreateOrPatch(GC, nfd);
      if err.Some? {
        return Some(Wrapped("failed to reconcile nfd-gc deployment", err.value));
      }
    }

    // ---------- status ----------

    /** Where the computation of these conditions leads. */
    ghost predicate Computed(nfd: Instance, errs: seq<bool>, conditions: seq<Condition>)
      reads this, server, nfd
    {
      && Valid()
      && ctl == Compare(server.View(), nfd.Value(), errs, conditions).ctl
      && owed == (ctl.Idle? && true in errs) && (ctl.Idle? ==> Done())
    }

    /** Reads one component; the conditions to publish if it is not available. */
    method GetNotAvailableConditions(c: Component, nfd: Instance)
      returns (conditions: Option<seq<Condition>>, now: int)
      requires ctl.Busy? && At(nfd, Probe(c), ctl.errs) && |ctl.errs| == 4
      modifies this`log, this`ctl, this`owed, server
      ensures Continues()
      ensures conditions.Some? ==> Computed(nfd, old(ctl.errs), conditions.value)
      ensures conditions.None? ==>
        var next := NextProbe(c, nfd.spec.topologyUpdater);
        if next.Some? then At(nfd, Probe(next.value), old(ctl.errs))
        else Computed(nfd, old(ctl.errs), AvailableConditions(now))
    {
      ghost var errs, cr, before := ctl.errs, nfd.Value(), server.View();
      var r, acts, ch := server.Get(c);
      var time: int := *;
      now := time;
      ghost var mid := server.View();
      ch := ch.(now := time);
      var rd := match r
        case Ok(o) => Seen(o.health)
        case Err(e) => Failed(if e.Failure? then e.message else NotFoundText(c));
      assert rd == ReadingUnder(mid, c, ch.fault);
      conditions := NotAvailableConditions(c, rd, now);
      ComparedGoesOn(mid, cr, errs, if conditions.Some? then conditions.value else AvailableConditions(now));
      assert Apply(State(mid, ctl), Control(ch)) == StepProbe(mid, cr, c, errs, ch);
      Record(before, acts, ch, true in errs);
    }

    method GetConditions(nfd: Instance) returns (conditions: seq<Condition>)
      requires ctl.Busy? && At(nfd, Probe(Worker), ctl.errs) && |ctl.errs| == 4
      modifies this`log, this`ctl, this`owed, server
      ensures Continues() && Computed(nfd, old(ctl.errs), conditions)
    {
      var found, now := GetNotAvailableConditions(Worker, nfd);
      if found.Some? {
        return found.value;
      }
      found, now := GetNotAvailableConditions(Master, nfd);
      assert old(log) <= log;
      if found.Some? {
        return found.value;
      }
      found, now := GetNotAvailableConditions(GC, nfd);
      assert old(log) <= log;
      if found.Some? {
        return found.value;
      }
      if nfd.spec.topologyUpdater {
        found, now := GetNotAvailableConditions(Topology, nfd);
        if found.Some? {
          return found.value;
        }
      }
      return AvailableConditions(now);
    }

    method HandleStatus(nfd: Instance) returns (err: Option<Error>)
      requires ctl.Busy? && At(nfd, Probe(Worker), ctl.errs) && |ctl.errs| == 4
      modifies this`log, this`ctl, this`owed, server, nfd`conditions
      ensures Continues() && Done() && owed == (true in old(ctl.errs) + [err.Some?])
    {
      ghost var errs, cr := ctl.errs, nfd.Value();
      var conditions := GetConditions(nfd);
      ComparedGoesOn(server.View(), cr, errs, conditions);
      var equal := CompareConditions(nfd.conditions, conditions);
      if equal {
        return None;
      }
      nfd.conditions := conditions;
      ghost var before := server.View();
      ghost var acts, ch;
      err, acts, ch := server.PatchConditions(conditions);
      assert Apply(State(Drift(before, acts), ctl), Control(ch)) ==
        Finish(server.View(), true in errs + [err.Some?]);
      Record(before, acts, ch, true in errs + [err.Some?]);
    }

    // ---------- deletion ----------

    method DeleteComponent(c: Component, nfd: Instance) returns (err: Option<Error>)
      requires At(nfd, Remove(c), [])
      modifies this`log, this`ctl, this`owed, server
      ensures Continues()
      ensures if err.Some? then Done() && owed else At(nfd, AfterRemove(c, nfd.spec), [])
    {
      ghost var before := server.View();
      ghost var acts, ch;
      err, acts, ch := server.Delete(c);
      if err.Some? && IsNotFound(err.value) {
        err := None;
      }
      Record(before, acts, ch, err.Some?);
      if err.Some? {
        return Some(Wrapped("failed to delete", err.value));
      }
    }

    method FinalizeComponents(nfd: Instance) returns (err: Option<Error>)
      requires At(nfd, Remove(Worker), [])
      modifies this`log, this`ctl, this`owed, server
      ensures Continues()
      ensures if err.Some? then Done() && owed else At(nfd, AfterRemove(GC, nfd.spec), [])
    {
      err := FinalizeWorker(nfd);
      if err.Some? {
        return;
      }
      if nfd.spec.topologyUpdater {
        err := DeleteComponent(Topology, nfd);
        if err.Some? {
          return Some(Wrapped("failed to delete topology-updater daemonset", err.value));
        }
      }
      err := DeleteComponent(Master, nfd);
      if err.Some? {
        return Some(Wrapped("failed to delete master deployment", err.value));
      }
      err := DeleteComponent(GC, nfd);
    }

    /** The worker goes before the ConfigMap it mounts. */
    method FinalizeWorker(nfd: Instance) returns (err: Option<Error>)
      requires At(nfd, Remove(Worker), [])
      modifies this`log, this`ctl, this`owed, server
      ensures Continues()
      ensures if err.Some? then Done() && owed else At(nfd, AfterRemove(WorkerConfig, nfd.spec), [])
    {
      err := DeleteComponent(Worker, nfd);
      if err.Some? {
        return Some(Wrapped("failed to delete worker daemonset", err.value));
      }
      err := DeleteComponent(WorkerConfig, nfd);
      if err.Some? {
        return Some(Wrapped("failed to delete worker config map", err.value));
      }
    }

    /** The prune job, with the error wrapped as the caller gets to see it. */
    method FindPruneJob(nfd: Instance) returns (r: Result<Job>)
      requires At(nfd, FindJob, [])
      modifies this`log, this`ctl, this`owed, server
      ensures Continues()
      ensures match r
        case Err(e) => if IsNotFound(e) then At(nfd, StartJob, []) else Done() && owed && JobSeen().None?
        case Ok(j) =>
          if j.failed > 0 then Done() && owed && JobSeen() == Some(j)
          else if j.succeeded > 0 then At(nfd, DropFinalizer(Some(j)), [])
          else Done() && !owed && JobSeen() == Some(j)
    {
      ghost var before := server.View();
      ghost var acts, ch;
      r, acts, ch := server.GetJob();
      Record(before, acts, ch, if r.Ok? then r.value.failed > 0 else !IsNotFound(r.error));
      if r.Err? {
        r := Err(Wrapped("failed to get prune job", r.error));
      }
    }

    method HandlePrune(nfd: Instance) returns (done: bool, err: Option<Error>)
      requires At(nfd, AfterRemove(GC, nfd.spec), [])
      modifies this`log, this`ctl, this`owed, server
      ensures Continues()
      ensures if err.Some? then Done() && owed
              else if done then ctl.Busy? && ctl.pc.DropFinalizer? && At(nfd, ctl.pc, [])
              else Done() && !owed
      ensures ctl.Idle? ==> (done <==> JobSeen().Some? && JobSeen().value.succeeded > 0)
    {
      if !nfd.spec.pruneOnDelete {
        return true, None;
      }
      var r := FindPruneJob(nfd);
      if r.Err? {
        if IsNotFound(r.error) {
          ghost var before := server.View();
          ghost var acts, ch;
          err, acts, ch := server.CreatePruneJob(PruneJob(nfd.Value()));
          Record(before, acts, ch, err.Some?);
          return false, err;
        }
        return false, Some(Wrapped("failed to get nfd-prune job", r.error));
      }
      done := r.value.succeeded > 0;
      err := if r.value.failed > 0 then Some(Failure("prune job's pod has failed")) else None;
    }

    // ---------- finalizers ----------

    method HasNfdFinalizer(nfd: Instance) returns (has: bool)
      ensures has == HasFinalizer(nfd.finalizers)
    {
      has := NFD_FINALIZER in nfd.finalizers;
    }

    method SetFinalizer(nfd: Instance) returns (err: Option<Error>)
      requires At(nfd, AddFinalizer, []) && nfd.version == nfd.Value()
      modifies this`log, this`ctl, this`owed, server, nfd`finalizers
      ensures Continues() && Done() && owed == err.Some?
      ensures nfd.finalizers == WithFinalizer(old(nfd.finalizers))
    {
      ghost var before := server.View();
      nfd.finalizers := nfd.finalizers + [NFD_FINALIZER];
      ghost var acts, ch;
      err, acts, ch := server.Update(nfd.version, nfd.Value());
      Record(before, acts, ch, err.Some?);
    }

    method RemoveFinalizer(nfd: Instance) returns (err: Option<Error>)
      requires ctl.Busy? && ctl.pc.DropFinalizer? && At(nfd, ctl.pc, []) && nfd.version == nfd.Value()
      modifies this`log, this`ctl, this`owed, server, nfd`finalizers
      ensures Continues() && Done() && owed == err.Some?
      ensures nfd.finalizers == WithoutFinalizer(old(nfd.finalizers))
    {
      ghost var before := server.View();
      var kept, updated := FilterFinalizers(nfd.finalizers);
      nfd.finalizers := kept;
      if updated {
        ghost var acts, ch;
        err, acts, ch := server.Update(nfd.version, nfd.Value());
        Record(before, acts, ch, err.Some?);
      } else {
        err := None;
        Record(before, [], Choice(Fine, 0, false, BLANK), false);
      }
    }

    // ---------- reconcile ----------

    /** Where a Reconcile of this copy begins. */
    ghost predicate Begins(nfd: Instance)
      reads this, server, nfd
    {
      && nfd.version == nfd.Value()
      && At(nfd, if nfd.deleting then Remove(Worker)
                 else if !HasFinalizer(nfd.finalizers) then AddFinalizer
                 else Read(Master), [])
    }

    method ReconcileDeleted(nfd: Instance) returns (err: Option<Error>)
      requires Begins(nfd) && nfd.deleting
      modifies this`log, this`ctl, this`owed, server, nfd`finalizers
      ensures Continues() && Done() && owed == err.Some?
    {
      err := FinalizeComponents(nfd);
      if err.Some? {
        return Some(Wrapped("failed to finalize components", err.value));
      }
      var done;
      done, err := HandlePrune(nfd);
      if err.Some? {
        return Some(Wrapped("failed to handle pruning", err.value));
      }
      if !done {
        // called again when the prune job has completed
        return None;
      }
      err := RemoveFinalizer(nfd);
    }

    method ReconcileLive(nfd: Instance) returns (err: Option<Error>)
      requires Begins(nfd) && !nfd.deleting && HasFinalizer(nfd.finalizers)
      modifies this`log, this`ctl, this`owed, server, nfd`conditions
      ensures Continues() && Done() && owed == err.Some?
    {
      var errs: seq<Option<Error>> := [];
      var master := HandleMaster(nfd);
      errs := errs + [master];
      var worker := HandleWorker(nfd);
      errs := errs + [worker];
      ghost var flags := [master.Some?, worker.Some?];
      assert [master.Some?] + [worker.Some?] == flags;
      var topology := HandleTopology(nfd, flags);
      assert old(log) <= log;
      errs := errs + [topology];
      var gc := HandleGC(nfd);
      assert old(log) <= log;
      errs := errs + [gc];
      flags := ctl.errs;
      var status := HandleStatus(nfd);
      errs := errs + [status];
      err := Join(errs);
      JoinedFlags(errs, master, worker, topology, gc, status, flags);
    }

    method Reconcile(nfd: Instance) returns (err: Option<Error>)
      requires Begins(nfd)
      modifies this`log, this`ctl, this`owed, server, nfd`finalizers, nfd`conditions
      ensures Continues() && Done() && owed == err.Some?
    {
      if nfd.deleting {
        err := ReconcileDeleted(nfd);
        return;
      }
      var has := HasNfdFinalizer(nfd);
      if !has {
        err := SetFinalizer(nfd);
        return;
      }
      err := ReconcileLive(nfd);
    }

    // ---------- the worker ----------

    /** Enters the start of a Reconcile into the run. */
    ghost method RecordStart()
      requires Valid() && ctl.Idle? && !owed && server.queued
      modifies this`log, this`ctl
      ensures log == old(log) + [Start] && ctl == Fetching
      ensures IsRun(start, log) && Exec(start, log) == State(server.View().(queued := false), Fetching)
    {
      RunOne(Now(), Start);
      RunAppend(start, log, [Start]);
      log := log + [Start];
      ctl := Fetching;
    }

    /** Takes the entry from the queue and reads the CR it stands for. */
    method TakeEntry() returns (r: Result<CR>)
      requires Valid() && ctl.Idle? && !owed && server.queued
      modifies this`log, this`ctl, this`owed, server
      ensures Continues() && old(log) + [Start] <= log
      ensures match r
        case Ok(cr) =>
          && !owed
          && ctl == Busy(cr, if cr.deleting then Remove(Worker)
                             else if !HasFinalizer(cr.finalizers) then AddFinalizer
                             else Read(Master), [])
        case Err(e) => Done() && owed == !IsNotFound(e)
    {
      RecordStart();
      server.queued := false;
      ghost var before := server.View();
      ghost var acts, ch;
      r, acts, ch := server.GetCr();
      Record(before, acts, ch, r.Err? && !IsNotFound(r.error));
    }

    /** Reconciles the CR of the next entry, if it is there, and queues it again on an error. */
    method ProcessNextWorkItem()
      requires Valid() && ctl.Idle? && !owed && server.queued
      modifies this`log, this`ctl, this`owed, server
      ensures Continues() && ctl.Idle? && !owed
      ensures old(log) + [Start] <= log
    {
      var r := TakeEntry();
      if r.Ok? {
        var nfd := new Instance(r.value);
        var err := Reconcile(nfd);
        assert old(log) + [Start] <= log;
        if err.Some? {
          server.queued := true;
        }
      } else if !IsNotFound(r.error) {
        server.queued := true;
      }
      owed := false;
    }
  }

  lemma JoinedFlags(errs: seq<Option<Error>>, a: Option<Error>, b: Option<Error>, c: Option<Error>,
                    d: Option<Error>, e: Option<Error>, flags: seq<bool>)
    requires errs == [] + [a] + [b] + [c] + [d] + [e]
    requires flags == [a.Some?, b.Some?] + [c.Some?] + [d.Some?]
    ensures (true in flags + [e.Some?]) <==> Join(errs).Some?
  {
    assert errs == [a, b, c, d, e];
    var all := flags + [e.Some?];
    assert all[0] == errs[0].Some? && all[1] == errs[1].Some? && all[2] == errs[2].Some?;
    assert all[3] == errs[3].Some? && all[4] == errs[4].Some?;
  }

  /** `errors.Join`: nil exactly when every error is nil. */
  function Join(errs: seq<Option<Error>>): (err: Option<Error>)
    ensures err.Some? <==> exists i :: 0 <= i < |errs| && errs[i].Some?
  {
    var some := Present(errs);
    if some == [] then None else Some(Joined(some))
  }

  /** The joined error holds every error, in the order in which the handlers ran. */
  lemma {:induction false} PresentAll(a: seq<Option<Error>>, b: seq<Option<Error>>)
    ensures Present(a + b) == Present(a) + Present(b)
    decreases |a|
  {
    if a == [] {
      assert a + b == b;
    } else {
      assert (a + b)[1..] == a[1..] + b;
      PresentAll(a[1..], b);
    }
  }

  lemma PresentOne(e: Option<Error>)
    ensures Present([e]) == if e.Some? then [e.value] else []
  {
    assert [e][1..] == [];
  }

  function Present(errs: seq<Option<Error>>): (some: seq<Error>)
    ensures some == [] <==> forall i :: 0 <= i < |errs| ==> errs[i].None?
  {
    if errs == [] then [] else (if errs[0].Some? then [errs[0].value] else []) + Present(errs[1..])
  }

  lemma DoneGoesOn(k: Cluster, cr: CR, c: Component, errs: seq<bool>, err: bool)
    requires |errs| == Convergence.HandlerOf(c)
    ensures var t := ComponentDone(k, cr, c, errs, err); t.k == k && t.ctl.Busy?
  {
  }

  /** Where a read leads, by whether it failed and whether the object is as desired already. */
  lemma ReadGoesOn(k: Cluster, cr: CR, c: Component, errs: seq<bool>, ch: Choice, err: bool, same: bool)
    requires |errs| == Convergence.HandlerOf(c)
    requires err <==> !ch.fault.Fine? || (c in k.comps && !CanOwn(k.comps[c]))
    requires same <==> !err && c in k.comps && Matches(cr, c, k.comps[c])
    ensures var t := StepRead(k, cr, c, errs, ch);
      && t.k == k && t.ctl.Busy?
      && t == if err || same then ComponentDone(k, cr, c, errs, err)
              else State(k, Busy(cr, Write(c, GetComponent(k, c)), errs))
  {
    DoneGoesOn(k, cr, c, errs, err);
  }

  lemma DoneIgnoresCluster(c: Component, cr: CR, errs: seq<bool>, err: bool)
    ensures forall k, k' :: ComponentDone(k, cr, c, errs, err).ctl == ComponentDone(k', cr, c, errs, err).ctl
  {
  }

  // ---------- what the code inherits from the protocol ----------

  /** Whatever has happened, the objects of a vanished CR are gone, and the finalizer is there at most once. */
  lemma CodeLeavesNoOrphans(operator: Controller, c: Component)
    requires operator.Valid() && Init(operator.start)
    requires c == Topology ==> Along(Safety.TopologyStaysOn, operator.start, operator.log)
    ensures operator.server.cr.None? ==> Safety.Unowned(operator.server.View(), c)
    ensures operator.server.cr.Some? ==> Occurrences(operator.server.cr.value.finalizers) <= 1
  {
    Safety.OrphanFreedom(operator.start, operator.log, c);
    Safety.FinalizerAtMostOnce(operator.start, operator.log);
  }

  /**
   An operator at rest with an empty queue has achieved all there is to achieve, except that the status
   of a live CR may tell of a read that failed, and a deletion may wait for somebody else's job.
   */
  lemma CodeLosesNoWakeup(operator: Controller)
    requires operator.Valid() && Init(operator.start)
    requires Along(Convergence.KeepsReferences, operator.start, operator.log)
    requires operator.ctl.Idle? && !operator.owed && !operator.server.queued
    ensures var k := operator.server.View();
      && Wakeup.Achieved(k)
      && (k.cr.Some? && !k.cr.value.deleting ==> (Wakeup.Settled(k) <==> !Wakeup.TellsUnreadable(k.cr.value)))
      && (k.cr.Some? && k.cr.value.deleting && !Wakeup.Settled(k) ==> k.job.Some? ==> !k.job.value.owner.Nfd?)
    ensures Along(Wakeup.ProbesSucceed, operator.start, operator.log) && operator.server.cr.Some?
            && !operator.server.cr.value.deleting ==>
              Wakeup.Settled(operator.server.View())
    ensures operator.start.k.job.None? && Along(Wakeup.NoForeignJob, operator.start, operator.log)
            && operator.server.cr.Some? && operator.server.cr.value.deleting ==>
              Wakeup.Settled(operator.server.View())
  {
    Wakeup.NoLostWakeup(operator.start, operator.log);
    assert operator.Now().k == operator.server.View();
  }
}
