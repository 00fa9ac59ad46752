/**
 What a single call of the controller does, told from the stores before and after it: which object it
 changes and how, what it leaves alone, when it wakes the operator, and when it is an error.
 */
module Effects {
  import opened Types
  import opened Status
  import opened Desired
  import opened Finalizers
  import opened Protocol
  import Safety
  import Convergence
  import Silence

  // ---------- the stored CR ----------

  /** The server takes an update of the CR that was read as `seen`. */
  predicate Taken(k: Cluster, seen: CR, ch: Choice) {
    && !ch.fault.Lost?
    && k.cr.Some? && k.cr.value.uid == seen.uid
    && (k.cr.value == seen || ch.accept)
  }

  /** No CR is stored that is under deletion and has no finalizer. */
  predicate Kept(k: Cluster) {
    k.cr.Some? ==> !(k.cr.value.deleting && k.cr.value.finalizers == [])
  }

  /** The same finalizers of others, in the same order and each as often. */
  ghost predicate SameOthers(a: seq<string>, b: seq<string>) {
    && WithoutFinalizer(a) == WithoutFinalizer(b)
    && forall f :: f != NFD_FINALIZER ==> multiset(a)[f] == multiset(b)[f]
  }

  ghost predicate OnlyOperators(fs: seq<string>) {
    forall f :: f in fs ==> f == NFD_FINALIZER
  }

  /**
   From `k` to `k'` a finalizer call on the snapshot `cr` has done nothing to the CR, or has written
   the snapshot's spec and finalizers, with the operator's one added at the end or taken out, and left
   the rest. The CR goes away exactly if it is under deletion and nobody else has a finalizer on it.
   */
  ghost predicate FinalizerWritten(k: Cluster, cr: CR, add: bool, k': Cluster)
    requires k.cr.Some?
  {
    && (k'.cr.None? <==> k.cr.value.deleting && !add && OnlyOperators(cr.finalizers))
    && (k'.cr.Some? ==>
          var c, c' := k.cr.value, k'.cr.value;
          && c'.uid == c.uid && c'.deleting == c.deleting && c'.conditions == c.conditions && c'.spec == cr.spec
          && SameOthers(c'.finalizers, cr.finalizers)
          && (if add then c'.finalizers == cr.finalizers + [NFD_FINALIZER] else NFD_FINALIZER !in c'.finalizers))
  }

  lemma WithoutShowsOthers(fs: seq<string>)
    ensures SameOthers(WithoutFinalizer(fs), fs) && NFD_FINALIZER !in WithoutFinalizer(fs)
    ensures WithoutFinalizer(fs) == [] <==> OnlyOperators(fs)
  {
    WithoutKeepsOthers(fs);
    WithoutIdle(WithoutFinalizer(fs));
    forall f | f != NFD_FINALIZER ensures multiset(WithoutFinalizer(fs))[f] == multiset(fs)[f] {
      assert multiset(fs)[NFD_FINALIZER := 0][f] == multiset(fs)[f];
    }
    if WithoutFinalizer(fs) == [] {
      forall f | f in fs ensures f == NFD_FINALIZER { assert multiset(fs)[f] > 0; }
    } else {
      var f := WithoutFinalizer(fs)[0];
      assert f in multiset(WithoutFinalizer(fs));
      assert f in fs;
    }
  }

  lemma AddedShowsOthers(fs: seq<string>)
    ensures SameOthers(fs + [NFD_FINALIZER], fs)
  {
    WithoutAppend(fs, [NFD_FINALIZER]);
    assert [NFD_FINALIZER][1..] == [];
    assert multiset(fs + [NFD_FINALIZER]) == multiset(fs) + multiset([NFD_FINALIZER]);
  }

  lemma DropWrites(k: Cluster, cr: CR, ch: Choice)
    requires HasFinalizer(cr.finalizers)
    ensures var k' := StepDropFinalizer(k, cr, ch).k;
      if Taken(k, cr, ch) && k.cr.Some? then
        FinalizerWritten(k, cr, false, k') || (k'.cr == k.cr && k.cr.value.deleting && k.cr.value.finalizers == [])
      else k'.cr == k.cr
  {
    WithoutShowsOthers(cr.finalizers);
  }

  lemma AddWrites(k: Cluster, cr: CR, ch: Choice)
    ensures var k' := StepAddFinalizer(k, cr, ch).k;
      if Taken(k, cr, ch) && k.cr.Some? then FinalizerWritten(k, cr, true, k') else k'.cr == k.cr
  {
    AddedShowsOthers(cr.finalizers);
  }

  /** One call, and what it does to the stored CR. */
  ghost predicate CrCall(s: State, ch: Choice, k': Cluster)
    requires s.ctl.Busy?
  {
    var k, cr, pc := s.k, s.ctl.cr, s.ctl.pc;
    if (pc.AddFinalizer? || (pc.DropFinalizer? && HasFinalizer(cr.finalizers))) && Taken(k, cr, ch) then
      FinalizerWritten(k, cr, pc.AddFinalizer?, k')
    else if pc.Publish? && !ch.fault.Lost? && k.cr.Some? then
      k'.cr == Some(k.cr.value.(conditions := pc.conditions))
    else k'.cr == k.cr
  }

  lemma CrCalls(s: State, ch: Choice)
    requires s.ctl.Busy? && Kept(s.k)
    ensures CrCall(s, ch, Apply(s, Control(ch)).k)
  {
    var k, cr, errs := s.k, s.ctl.cr, s.ctl.errs;
    match s.ctl.pc
    case AddFinalizer => AddWrites(k, cr, ch);
    case DropFinalizer(_) => if HasFinalizer(cr.finalizers) { DropWrites(k, cr, ch); }
    case Publish(conditions) =>
      var o := PatchStatus(k, conditions, ch);
      Safety.DoneShape(o.k, cr, Worker, errs, o.err);
    case Read(c) =>
      Safety.DoneShape(k, cr, c, errs, true);
      Safety.DoneShape(k, cr, c, errs, false);
    case Write(c, seen) =>
      var o := WriteComponent(k, cr, c, seen, ch);
      Safety.DoneShape(o.k, cr, c, errs, o.err);
    case Probe(_) => Safety.DoneShape(k, cr, Worker, errs, false);
    case _ =>
  }

  lemma KeptByMove(s: State, l: Label)
    requires Kept(s.k) && Enabled(s, l)
    ensures Kept(Apply(s, l).k)
  {
    if l.Control? && s.ctl.Busy? {
      CrCalls(s, l.ch);
      KeptByCall(s, l.ch, Apply(s, l).k);
    }
  }

  lemma KeptByCall(s: State, ch: Choice, k': Cluster)
    requires s.ctl.Busy? && Kept(s.k) && CrCall(s, ch, k')
    ensures Kept(k')
  {
    if k'.cr.Some? && k'.cr.value.finalizers == [] && k'.cr.value.deleting && k'.cr != s.k.cr {
      WithoutShowsOthers(s.ctl.cr.finalizers);
    }
  }

  lemma {:induction false} KeptByRun(s: State, ls: seq<Label>)
    requires Kept(s.k) && IsRun(s, ls)
    ensures Kept(Exec(s, ls).k)
    decreases |ls|
  {
    if ls != [] {
      KeptByMove(s, ls[0]);
      KeptByRun(Apply(s, ls[0]), ls[1..]);
    }
  }

  /**
   The stored CR under the operator's hands. In every run, a call of the controller leaves the CR as it
   is, except that the status handler's last call replaces the conditions, and that the two finalizer
   calls, if the server takes them, write the snapshot's spec and finalizers with the operator's one
   added or taken out. From a current copy nothing else changes, and the finalizers of others stay, in
   order and number; the CR goes away only if it is under deletion and nobody else's are on it.
   */
  lemma CrInGoodHands(s0: State, ls: seq<Label>, ch: Choice)
    requires Init(s0) && IsRun(s0, ls) && Exec(s0, ls).ctl.Busy?
    ensures var s := Exec(s0, ls);
      var k' := Apply(s, Control(ch)).k;
      && CrCall(s, ch, k')
      && (s.k.cr == Some(s.ctl.cr) && k'.cr.Some? ==>
            && k'.cr.value.uid == s.ctl.cr.uid && k'.cr.value.spec == s.ctl.cr.spec
            && SameOthers(k'.cr.value.finalizers, s.ctl.cr.finalizers))
      && (s.k.cr == Some(s.ctl.cr) && k'.cr.None? ==> s.ctl.cr.deleting && OnlyOperators(s.ctl.cr.finalizers))
  {
    KeptByRun(s0, ls);
    CrCalls(Exec(s0, ls), ch);
  }

  // ---------- the conditions on their way to the CR ----------

  /** What is going to be published was computed at the time of the last read, and from what it returned. */
  lemma PublishedIsFresh(s: State, ch: Choice)
    requires s.ctl.Busy? && s.ctl.pc.Probe?
    ensures var t := Apply(s, Control(ch));
      t.ctl.Busy? && t.ctl.pc.Publish? ==>
        var cs := t.ctl.pc.conditions;
        && |cs| == 4 && (forall i :: 0 <= i < 4 ==> cs[i].stamp == ch.now)
        && (cs == AvailableConditions(ch.now)
            || Some(cs) == NotAvailableConditions(s.ctl.pc.c, ReadingUnder(s.k, s.ctl.pc.c, ch.fault), ch.now))
  {
    Safety.DoneShape(s.k, s.ctl.cr, Worker, s.ctl.errs, false);
    NoPublishAfterHandlers(s.k, s.ctl.cr, s.ctl.errs);
  }

  lemma NoPublishAfterHandlers(k: Cluster, cr: CR, errs: seq<bool>)
    ensures var t := HandlerDone(k, cr, errs, false); t.ctl.Busy? ==> !t.ctl.pc.Publish?
  {
  }

  // ---------- components and job ----------

  predicate Wrote(pc: Pc, c: Component) {
    (pc.Write? || pc.Remove?) && pc.c == c
  }

  /** The write has something to do: an object to create, or one to patch. */
  predicate CanWrite(k: Cluster, c: Component, seen: Option<Object>) {
    seen.Some? <==> c in k.comps
  }

  /**
   A call changes at most the one object it is about. A creation does not touch an object that is there,
   and a patch makes none; what it writes is under this CR's control or under whose it was, reports the
   health it did, and is as the CR wants it if the object was as it had been read. The job is made by
   its own call only, and none of the calls changes it.
   */
  lemma OnlyItsOwnObject(s: State, ch: Choice)
    requires s.ctl.Busy?
    ensures var k, k', pc := s.k, Apply(s, Control(ch)).k, s.ctl.pc;
      && (forall c :: !Wrote(pc, c) ==> GetComponent(k', c) == GetComponent(k, c))
      && (pc.Remove? ==> GetComponent(k', pc.c) == if ch.fault.Lost? then GetComponent(k, pc.c) else None)
      && (pc.Write? && (ch.fault.Lost? || !CanWrite(k, pc.c, pc.seen)) ==>
            GetComponent(k', pc.c) == GetComponent(k, pc.c))
      && (pc.Write? && !ch.fault.Lost? && CanWrite(k, pc.c, pc.seen) ==>
            && pc.c in k'.comps
            && k'.comps[pc.c].health == (if pc.c in k.comps then k.comps[pc.c].health else UNREPORTED)
            && (k'.comps[pc.c].owner == Nfd(s.ctl.cr.uid)
                || (pc.c in k.comps && k'.comps[pc.c].owner == k.comps[pc.c].owner))
            && (GetComponent(k, pc.c) == pc.seen ==> Convergence.InPlace(k', s.ctl.cr, pc.c)))
      && (!(pc.StartJob? && !ch.fault.Lost? && k.job.None?) ==> k'.job == k.job)
  {
    var k, cr, errs := s.k, s.ctl.cr, s.ctl.errs;
    match s.ctl.pc
    case Publish(conditions) => PublishLeaves(s, ch);
    case Read(c) =>
      Safety.DoneShape(k, cr, c, errs, true);
      Safety.DoneShape(k, cr, c, errs, false);
    case Write(c, seen) => WriteTouches(s, ch);
    case Probe(_) => Safety.DoneShape(k, cr, Worker, errs, false);
    case _ =>
  }

  lemma PublishLeaves(s: State, ch: Choice)
    requires s.ctl.Busy? && s.ctl.pc.Publish?
    ensures var k' := Apply(s, Control(ch)).k; k'.comps == s.k.comps && k'.job == s.k.job
  {
    var o := PatchStatus(s.k, s.ctl.pc.conditions, ch);
    Safety.DoneShape(o.k, s.ctl.cr, Worker, s.ctl.errs, o.err);
  }

  /** The write to `c` has taken the store from `k` to `k'`. */
  ghost predicate Touched(k: Cluster, k': Cluster, cr: CR, c: Component, seen: Option<Object>, ch: Choice) {
    && k'.job == k.job
    && (forall d :: d != c ==> GetComponent(k', d) == GetComponent(k, d))
    && (ch.fault.Lost? || !CanWrite(k, c, seen) ==> GetComponent(k', c) == GetComponent(k, c))
    && (!ch.fault.Lost? && CanWrite(k, c, seen) ==>
          && c in k'.comps
          && k'.comps[c].health == (if c in k.comps then k.comps[c].health else UNREPORTED)
          && (k'.comps[c].owner == Nfd(cr.uid) || (c in k.comps && k'.comps[c].owner == k.comps[c].owner))
          && (GetComponent(k, c) == seen ==> Convergence.InPlace(k', cr, c)))
  }

  lemma CreateTouches(k: Cluster, cr: CR, c: Component, ch: Choice)
    ensures Touched(k, CreateComponent(k, c, AsDesired(cr, c, BLANK), ch).k, cr, c, None, ch)
  {
  }

  lemma PatchTouches(k: Cluster, cr: CR, c: Component, seen: Object, ch: Choice)
    ensures Touched(k, PatchComponent(k, c, seen, AsDesired(cr, c, seen), ch).k, cr, c, Some(seen), ch)
  {
  }

  lemma WriteTouches(s: State, ch: Choice)
    requires s.ctl.Busy? && s.ctl.pc.Write?
    ensures Touched(s.k, Apply(s, Control(ch)).k, s.ctl.cr, s.ctl.pc.c, s.ctl.pc.seen, ch)
  {
    var k, cr, c, seen := s.k, s.ctl.cr, s.ctl.pc.c, s.ctl.pc.seen;
    var o := WriteComponent(k, cr, c, seen, ch);
    if seen.Some? { PatchTouches(k, cr, c, seen.value, ch); } else { CreateTouches(k, cr, c, ch); }
    assert Touched(k, o.k, cr, c, seen, ch);
    SameStore(o.k, cr, c, s.ctl.errs, o.err);
  }

  lemma SameStore(k: Cluster, cr: CR, c: Component, errs: seq<bool>, err: bool)
    ensures var t := ComponentDone(k, cr, c, errs, err); t.k.comps == k.comps && t.k.job == k.job
  {
  }

  // ---------- errors ----------

  /**
   The last call of a Reconcile makes it return an error. A call that fails does, also if it has taken
   effect, but for the reads behind the status; so does an update that the server does not take, and
   what an earlier handler has returned.
   */
  predicate ReturnsError(s: State, ch: Choice)
    requires !s.ctl.Idle?
  {
    if s.ctl.Fetching? then !ch.fault.Fine?
    else
      match s.ctl.pc
      case AddFinalizer => !ch.fault.Fine? || !Taken(s.k, s.ctl.cr, ch)
      case DropFinalizer(_) => HasFinalizer(s.ctl.cr.finalizers) && (!ch.fault.Fine? || !Taken(s.k, s.ctl.cr, ch))
      case Probe(_) => true in s.ctl.errs
      case Publish(_) => true in s.ctl.errs || !ch.fault.Fine? || s.k.cr.None?
      case FindJob => !ch.fault.Fine? || (s.k.job.Some? && s.k.job.value.failed > 0)
      case StartJob => !ch.fault.Fine? || s.k.job.Some?
      case _ => !ch.fault.Fine?
  }

  // ---------- events ----------

  /**
   What has happened from `k` to `k'` is an event for the operator: the CR has changed, or an object has
   changed and is now controlled by an NFD CR, or one that was so controlled is gone. A creation is none.
   */
  ghost predicate Event(k: Cluster, k': Cluster) {
    || k'.cr != k.cr
    || (exists c :: c in k.comps &&
          if c in k'.comps then k'.comps[c] != k.comps[c] && k'.comps[c].owner.Nfd? else k.comps[c].owner.Nfd?)
    || (k.job.Some? && if k'.job.Some? then k'.job != k.job && k'.job.value.owner.Nfd? else k.job.value.owner.Nfd?)
  }

  lemma OutsideWakes(s: State, a: Action)
    requires Possible(s.k, a)
    ensures Act(s.k, a).queued <==> s.k.queued || Event(s.k, Act(s.k, a))
  {
    var k, k' := s.k, Act(s.k, a);
    match a
    case UpdateObject(c, _) =>
      assert c in k.comps && c in k'.comps;
      assert forall d :: d != c && d in k.comps ==> d in k'.comps && k'.comps[d] == k.comps[d];
    case DeleteObject(c) =>
      assert c in k.comps && c !in k'.comps;
      assert forall d :: d != c && d in k.comps ==> d in k'.comps && k'.comps[d] == k.comps[d];
    case CreateObject(c, _) =>
      assert forall d :: d in k.comps ==> d in k'.comps && k'.comps[d] == k.comps[d];
    case _ =>
  }

  lemma WriteWakes(k: Cluster, cr: CR, c: Component, seen: Option<Object>, ch: Choice)
    ensures var k' := WriteComponent(k, cr, c, seen, ch).k; k'.queued <==> k.queued || Event(k, k')
  {
    var k' := WriteComponent(k, cr, c, seen, ch).k;
    assert forall d :: d != c && d in k.comps ==> d in k'.comps && k'.comps[d] == k.comps[d];
    if c in k.comps && k'.comps[c] != k.comps[c] { assert c in k'.comps; }
  }

  lemma RemoveWakes(k: Cluster, c: Component, ch: Choice)
    ensures var k' := DeleteComponent(k, c, ch).k; k'.queued <==> k.queued || Event(k, k')
  {
    var k' := DeleteComponent(k, c, ch).k;
    assert forall d :: d != c && d in k.comps ==> d in k'.comps && k'.comps[d] == k.comps[d];
    if c in k.comps && c !in k'.comps { assert Event(k, k') <==> k.comps[c].owner.Nfd?; }
  }

  lemma CrWakes(k: Cluster, cr: CR)
    requires k.cr.Some?
    ensures PutCr(k, cr).queued <==> k.queued || Event(k, PutCr(k, cr))
  {
  }

  /** The calls that end a Reconcile or go on to the next, with the queue as it should be. */
  ghost predicate WakesRightly(s: State, ch: Choice, t: State)
    requires !s.ctl.Idle?
  {
    t.k.queued <==> s.k.queued || Event(s.k, t.k) || (t.ctl.Idle? && ReturnsError(s, ch))
  }

  lemma HandlersWake(s: State, ch: Choice)
    requires s.ctl.Busy? && (s.ctl.pc.Read? || s.ctl.pc.Write?) && Convergence.WellShaped(s.ctl)
    ensures WakesRightly(s, ch, Apply(s, Control(ch)))
  {
    var cr, c, errs := s.ctl.cr, s.ctl.pc.c, s.ctl.errs;
    if s.ctl.pc.Read? {
      Convergence.EarlyHandlersGoOn(s.k, cr, c, errs, true);
      Convergence.EarlyHandlersGoOn(s.k, cr, c, errs, false);
      Safety.DoneShape(s.k, cr, c, errs, true);
      Safety.DoneShape(s.k, cr, c, errs, false);
      assert Apply(s, Control(ch)).k == s.k;
    } else {
      var o := WriteComponent(s.k, cr, c, s.ctl.pc.seen, ch);
      WriteWakes(s.k, cr, c, s.ctl.pc.seen, ch);
      Convergence.EarlyHandlersGoOn(o.k, cr, c, errs, o.err);
      Safety.DoneShape(o.k, cr, c, errs, o.err);
      assert Apply(s, Control(ch)).k == o.k;
    }
  }

  lemma StatusWakes(s: State, ch: Choice)
    requires s.ctl.Busy? && (s.ctl.pc.Probe? || s.ctl.pc.Publish?) && Convergence.WellShaped(s.ctl) && Kept(s.k)
    ensures WakesRightly(s, ch, Apply(s, Control(ch)))
  {
    var k, cr, errs := s.k, s.ctl.cr, s.ctl.errs;
    if s.ctl.pc.Publish? {
      var o := PatchStatus(k, s.ctl.pc.conditions, ch);
      if k.cr.Some? { CrWakes(k, k.cr.value.(conditions := s.ctl.pc.conditions)); }
      assert Apply(s, Control(ch)) == Finish(o.k, true in errs + [o.err]);
      assert Event(k, Finish(o.k, true in errs + [o.err]).k) <==> Event(k, o.k);
    } else {
      assert true in errs + [false] <==> true in errs;
      assert HandlerDone(k, cr, errs, false) == Finish(k, true in errs);
    }
  }

  lemma FinalizerWakes(s: State, ch: Choice)
    requires s.ctl.Busy? && (s.ctl.pc.AddFinalizer? || s.ctl.pc.DropFinalizer?) && Kept(s.k)
    ensures WakesRightly(s, ch, Apply(s, Control(ch)))
  {
    var k, cr := s.k, s.ctl.cr;
    if k.cr.Some? {
      CrWakes(k, k.cr.value.(spec := cr.spec, finalizers := WithFinalizer(cr.finalizers)));
      CrWakes(k, k.cr.value.(spec := cr.spec, finalizers := WithoutFinalizer(cr.finalizers)));
    }
  }

  lemma TeardownWakes(s: State, ch: Choice)
    requires s.ctl.Busy? && (s.ctl.pc.Remove? || s.ctl.pc.FindJob? || s.ctl.pc.StartJob?)
    ensures WakesRightly(s, ch, Apply(s, Control(ch)))
  {
    if s.ctl.pc.Remove? { RemoveWakes(s.k, s.ctl.pc.c, ch); }
  }

  /**
   The work queue. In every run, a move queues the CR exactly if it is an event or ends a Reconcile with
   an error, and only taking the entry out and starting anew empty the queue.
   */
  lemma WokenExactly(s0: State, ls: seq<Label>, l: Label)
    requires Init(s0) && IsRun(s0, ls) && Enabled(Exec(s0, ls), l)
    ensures var s, t := Exec(s0, ls), Apply(Exec(s0, ls), l);
      t.k.queued <==>
        match l
        case Start => false
        case Restart => s.k.cr.Some?
        case Outside(_) => s.k.queued || Event(s.k, t.k)
        case Control(ch) => s.k.queued || Event(s.k, t.k) || (t.ctl.Idle? && ReturnsError(s, ch))
  {
    KeptByRun(s0, ls);
    ShapedByRun(s0, ls);
    var s := Exec(s0, ls);
    match l
    case Outside(a) => OutsideWakes(s, a);
    case Control(ch) =>
      if s.ctl.Busy? {
        match s.ctl.pc
        case Read(_) => HandlersWake(s, ch);
        case Write(_, _) => HandlersWake(s, ch);
        case Probe(_) => StatusWakes(s, ch);
        case Publish(_) => StatusWakes(s, ch);
        case AddFinalizer => FinalizerWakes(s, ch);
        case DropFinalizer(_) => FinalizerWakes(s, ch);
        case _ => TeardownWakes(s, ch);
      }
    case _ =>
  }

  lemma {:induction false} ShapedByRun(s: State, ls: seq<Label>)
    requires Convergence.WellShaped(s.ctl) && IsRun(s, ls)
    ensures Convergence.WellShaped(Exec(s, ls).ctl)
    decreases |ls|
  {
    if ls != [] {
      if ls[0].Control? { Silence.CallRunsOut(s, ls[0].ch); }
      ShapedByRun(Apply(s, ls[0]), ls[1..]);
    }
  }
}
