/**
 Owner references, and several NodeFeatureDiscovery objects in one namespace. All of them use the
 same five object names and the same name for the prune job; what keeps them apart is the controller
 reference.
 */
module Ownership {
  import opened Types
  import Desired
  import Protocol

  const NFD_KIND := "NodeFeatureDiscovery"

  datatype OwnerRef = OwnerRef(kind: string, name: string, uid: nat, controller: bool)

  /** The first reference that is marked as the controller. */
  function GetControllerOf(refs: seq<OwnerRef>): (r: Option<OwnerRef>)
    ensures r.Some? ==> r.value.controller && r.value in refs
  {
    if refs == [] then None
    else if refs[0].controller then Some(refs[0])
    else GetControllerOf(refs[1..])
  }

  function Controllers(refs: seq<OwnerRef>): nat {
    if refs == [] then 0 else (if refs[0].controller then 1 else 0) + Controllers(refs[1..])
  }

  predicate SameOwner(a: OwnerRef, b: OwnerRef) {
    a.kind == b.kind && a.name == b.name
  }

  function Upsert(refs: seq<OwnerRef>, ref: OwnerRef): seq<OwnerRef> {
    if refs == [] then [ref]
    else if SameOwner(refs[0], ref) then [ref] + refs[1..]
    else [refs[0]] + Upsert(refs[1..], ref)
  }

  function Reference(name: string, uid: nat): OwnerRef {
    OwnerRef(NFD_KIND, name, uid, true)
  }

  /** None stands for the error that another controller already owns the object. */
  function SetControllerReference(name: string, uid: nat, refs: seq<OwnerRef>): Option<seq<OwnerRef>> {
    var ref := Reference(name, uid);
    var existing := GetControllerOf(refs);
    if existing.Some? && !SameOwner(existing.value, ref) then None else Some(Upsert(refs, ref))
  }

  /** The first reference to the same owner. */
  function FirstTo(refs: seq<OwnerRef>, ref: OwnerRef): (r: Option<OwnerRef>)
    ensures r.Some? ==> SameOwner(r.value, ref)
  {
    if refs == [] then None
    else if SameOwner(refs[0], ref) then Some(refs[0])
    else FirstTo(refs[1..], ref)
  }

  lemma {:induction false} NoController(refs: seq<OwnerRef>)
    ensures GetControllerOf(refs).None? <==> Controllers(refs) == 0
  {
    if refs != [] { NoController(refs[1..]); }
  }

  lemma {:induction false} UpsertCounts(refs: seq<OwnerRef>, ref: OwnerRef)
    requires ref.controller
    ensures var first := FirstTo(refs, ref);
      Controllers(Upsert(refs, ref)) == Controllers(refs) + if first.Some? && first.value.controller then 0 else 1
  {
    if refs != [] && !SameOwner(refs[0], ref) {
      UpsertCounts(refs[1..], ref);
      assert Upsert(refs, ref)[1..] == Upsert(refs[1..], ref);
    } else if refs != [] {
      assert Upsert(refs, ref)[1..] == refs[1..];
    }
  }

  lemma {:induction false} UpsertControls(refs: seq<OwnerRef>, ref: OwnerRef)
    requires ref.controller
    requires var existing := GetControllerOf(refs); existing.Some? ==> SameOwner(existing.value, ref)
    ensures var now := GetControllerOf(Upsert(refs, ref)); now.Some? && SameOwner(now.value, ref)
    ensures GetControllerOf(refs).None? ==> GetControllerOf(Upsert(refs, ref)) == Some(ref)
  {
    if refs != [] && !SameOwner(refs[0], ref) {
      UpsertControls(refs[1..], ref);
      assert Upsert(refs, ref)[1..] == Upsert(refs[1..], ref);
    }
  }

  /**
   Setting the reference fails exactly when a controller of another name or kind is there. When it
   succeeds the CR is the controller, and the only one exactly when the object had no controller
   or the first of its references to this CR was already the controlling one.
   */
  lemma SetReferenceExactly(name: string, uid: nat, refs: seq<OwnerRef>)
    requires Controllers(refs) <= 1
    ensures var ref := Reference(name, uid);
      var existing, result := GetControllerOf(refs), SetControllerReference(name, uid, refs);
      && (result.None? <==> existing.Some? && !SameOwner(existing.value, ref))
      && (result.Some? ==>
            && GetControllerOf(result.value).Some? && SameOwner(GetControllerOf(result.value).value, ref)
            && (Controllers(result.value) == 1 <==>
                  existing.None? || (FirstTo(refs, ref).Some? && FirstTo(refs, ref).value.controller)))
  {
    var ref := Reference(name, uid);
    NoController(refs);
    var existing := GetControllerOf(refs);
    if existing.None? || SameOwner(existing.value, ref) {
      UpsertCounts(refs, ref);
      UpsertControls(refs, ref);
      if existing.None? { FirstControls(refs, ref); }
    }
  }

  lemma {:induction false} FirstControls(refs: seq<OwnerRef>, ref: OwnerRef)
    requires Controllers(refs) == 0
    ensures FirstTo(refs, ref).Some? ==> !FirstTo(refs, ref).value.controller
  {
    if refs != [] { FirstControls(refs[1..], ref); }
  }

  /** A list that names the CR twice, plain reference first, ends up with two controllers. */
  lemma TwoControllers(name: string, uid: nat)
    ensures var refs := [OwnerRef(NFD_KIND, name, uid, false), OwnerRef(NFD_KIND, name, uid, true)];
      && Controllers(refs) == 1
      && SetControllerReference(name, uid, refs).Some?
      && Controllers(SetControllerReference(name, uid, refs).value) == 2
  {
    var a, b := OwnerRef(NFD_KIND, name, uid, false), OwnerRef(NFD_KIND, name, uid, true);
    assert [a, b][1..] == [b] && [b][1..] == [];
    assert Controllers([b]) == 1;
    assert GetControllerOf([a, b]) == GetControllerOf([b]) == Some(b);
    assert Upsert([a, b], b) == [b] + [b];
    assert ([b] + [b])[1..] == [b];
  }

  /** The references to owners other than this one. */
  function OthersThan(refs: seq<OwnerRef>, ref: OwnerRef): seq<OwnerRef> {
    if refs == [] then []
    else (if SameOwner(refs[0], ref) then [] else [refs[0]]) + OthersThan(refs[1..], ref)
  }

  /** The references to other owners stay, in their order, and the list is longer only if the owner is new to it. */
  lemma {:induction false} UpsertKeepsOthers(refs: seq<OwnerRef>, ref: OwnerRef)
    ensures OthersThan(Upsert(refs, ref), ref) == OthersThan(refs, ref) && ref in Upsert(refs, ref)
    ensures |Upsert(refs, ref)| == |refs| + if FirstTo(refs, ref).None? then 1 else 0
  {
    if refs != [] && !SameOwner(refs[0], ref) {
      UpsertKeepsOthers(refs[1..], ref);
      assert Upsert(refs, ref)[1..] == Upsert(refs[1..], ref);
    } else if refs != [] {
      assert Upsert(refs, ref)[1..] == refs[1..];
    } else {
      assert [ref][1..] == [];
    }
  }

  // ---------- lists that name no owner twice ----------

  predicate Unrepeated(refs: seq<OwnerRef>) {
    forall i, j :: 0 <= i < j < |refs| ==> !SameOwner(refs[i], refs[j])
  }

  lemma {:induction false} UpsertUnrepeated(refs: seq<OwnerRef>, ref: OwnerRef)
    requires Unrepeated(refs)
    ensures Unrepeated(Upsert(refs, ref))
    ensures forall r :: r in Upsert(refs, ref) ==> r == ref || r in refs
  {
    if refs != [] && !SameOwner(refs[0], ref) {
      UpsertUnrepeated(refs[1..], ref);
      var rest := Upsert(refs[1..], ref);
      forall j | 0 <= j < |rest| ensures !SameOwner(refs[0], rest[j]) {
        assert rest[j] in rest;
        if rest[j] in refs[1..] {
          var k :| 0 <= k < |refs[1..]| && refs[1..][k] == rest[j];
          assert refs[k + 1] == rest[j];
        }
      }
    }
  }

  lemma {:induction false} UnrepeatedFirst(refs: seq<OwnerRef>, ref: OwnerRef)
    requires Unrepeated(refs) && GetControllerOf(refs).Some? && SameOwner(GetControllerOf(refs).value, ref)
    ensures FirstTo(refs, ref) == GetControllerOf(refs)
  {
    if !refs[0].controller {
      UnrepeatedFirst(refs[1..], ref);
      var k := ControllerIndex(refs[1..]);
      assert refs[k + 1] == GetControllerOf(refs).value;
    }
  }

  lemma {:induction false} ControllerIndex(refs: seq<OwnerRef>) returns (k: nat)
    requires GetControllerOf(refs).Some?
    ensures k < |refs| && refs[k] == GetControllerOf(refs).value
  {
    if refs[0].controller {
      k := 0;
    } else {
      k := ControllerIndex(refs[1..]);
      k := k + 1;
    }
  }

  lemma {:induction false} UpsertSame(refs: seq<OwnerRef>, ref: OwnerRef)
    requires FirstTo(refs, ref) == Some(ref)
    ensures Upsert(refs, ref) == refs
  {
    if !SameOwner(refs[0], ref) { UpsertSame(refs[1..], ref); }
  }

  /** On a list that names no owner twice, setting the reference leaves one controller, the CR, and no other change. */
  lemma SetOnUnrepeated(name: string, uid: nat, refs: seq<OwnerRef>)
    requires Unrepeated(refs) && Controllers(refs) <= 1 && SetControllerReference(name, uid, refs).Some?
    ensures var result := SetControllerReference(name, uid, refs).value;
      && Unrepeated(result) && Controllers(result) == 1
      && GetControllerOf(result) == Some(Reference(name, uid))
      && (GetControllerOf(refs) == Some(Reference(name, uid)) <==> result == refs)
  {
    var ref := Reference(name, uid);
    SetReferenceExactly(name, uid, refs);
    UpsertUnrepeated(refs, ref);
    if GetControllerOf(refs).Some? {
      UnrepeatedFirst(refs, ref);
      UpsertReplaces(refs, ref);
      if GetControllerOf(refs) == Some(ref) { UpsertSame(refs, ref); }
    } else {
      UpsertControls(refs, ref);
    }
  }

  lemma {:induction false} UpsertReplaces(refs: seq<OwnerRef>, ref: OwnerRef)
    requires ref.controller && FirstTo(refs, ref).Some? && FirstTo(refs, ref) == GetControllerOf(refs)
    ensures GetControllerOf(Upsert(refs, ref)) == Some(ref)
  {
    if !SameOwner(refs[0], ref) {
      UpsertReplaces(refs[1..], ref);
      assert Upsert(refs, ref)[1..] == Upsert(refs[1..], ref);
    }
  }

  // ---------- the owner as the protocol sees it ----------

  function OwnerFor(name: string, refs: seq<OwnerRef>): Owner {
    match GetControllerOf(refs)
    case None => Nobody
    case Some(r) => if r.kind == NFD_KIND && r.name == name then Nfd(r.uid) else Other
  }

  /** The test of the watch filter: the controller's kind, whatever its name. */
  predicate ControlledByKind(refs: seq<OwnerRef>) {
    GetControllerOf(refs).Some? && GetControllerOf(refs).value.kind == NFD_KIND
  }

  /**
   The protocol's owner is a faithful view of a reference list. It tells whether the CR can take the
   object over, and whether the object is under this CR's control; the watch filter lets more through,
   namely exactly what a NodeFeatureDiscovery of another name controls, which is queued for that one.
   */
  lemma OwnerIsFaithful(name: string, uid: nat, refs: seq<OwnerRef>, o: Object)
    requires o.owner == OwnerFor(name, refs)
    ensures var result := SetControllerReference(name, uid, refs);
      && (Desired.CanOwn(o) <==> result.Some?)
      && (result.Some? ==> Protocol.IsControlledByNFD(OwnerFor(name, result.value)))
      && (result.Some? && GetControllerOf(refs).None? ==> OwnerFor(name, result.value) == Nfd(uid))
    ensures ControlledByKind(refs) <==>
      Protocol.IsControlledByNFD(o.owner) || (ControlledByKind(refs) && GetControllerOf(refs).value.name != name)
    ensures Protocol.IsControlledByNFD(o.owner) ==> ControlledByKind(refs) && GetControllerOf(refs).value.name == name
  {
    var ref := Reference(name, uid);
    if Desired.CanOwn(o) { UpsertControls(refs, ref); }
  }

  // ---------- many CRs ----------

  /** The names that all CRs of a namespace share: the five components and the prune job. */
  datatype Slot = Comp(c: Component) | Prune

  datatype Entry = Entry(refs: seq<OwnerRef>, body: Body)

  /** The write that a create-or-patch of the CR `name` still owes, with what it has read. */
  datatype Pending = Nothing | Owed(slot: Slot, name: string, uid: nat, seen: Option<Entry>, body: Body)

  /** One worker serves all CRs, so at most one write is owed at a time. */
  datatype Shared = Shared(m: map<Slot, Entry>, pending: Pending)

  /** One call of the operator, or one move of somebody else; those fall between any two calls. */
  datatype Move =
    | ReadFor(name: string, uid: nat, c: Component, body: Body)
    | Write(fault: Protocol.Fault, blend: Body)
    | StartJob(name: string, uid: nat, body: Body, fault: Protocol.Fault)
    | TearDown(name: string, c: Component, fault: Protocol.Fault)
    | GiveUp
    | OutsideEdit(slot: Slot, e: Entry)
    | OutsideCreate(slot: Slot, e: Entry)
    | OutsideDelete(slot: Slot)

  predicate Sound(refs: seq<OwnerRef>) {
    Unrepeated(refs) && Controllers(refs) <= 1
  }

  /**
   The operator reads, starts a job or deletes only when it owes no write. Outsiders may change any
   object, and its references too as long as its controller stays; what they create is not controlled
   by a NodeFeatureDiscovery. The server takes no list that names an owner twice or has two controllers.
   */
  predicate Allowed(s: Shared, v: Move) {
    match v
    case ReadFor(_, _, _, _) => s.pending.Nothing?
    case Write(_, _) => s.pending.Owed?
    case StartJob(_, _, _, _) => s.pending.Nothing?
    case TearDown(_, _, _) => s.pending.Nothing?
    case GiveUp => true
    case OutsideEdit(slot, e) =>
      slot in s.m && Sound(e.refs) && GetControllerOf(e.refs) == GetControllerOf(s.m[slot].refs)
    case OutsideCreate(slot, e) =>
      slot !in s.m && Sound(e.refs) && !ControlledByKind(e.refs)
    case OutsideDelete(_) => true
  }

  /** The first half of create-or-patch: nothing is owed if another controller is there or nothing differs. */
  function Read(s: Shared, name: string, uid: nat, c: Component, body: Body): Pending {
    var seen := if Comp(c) in s.m then Some(s.m[Comp(c)]) else None;
    var refs := SetControllerReference(name, uid, if seen.Some? then seen.value.refs else []);
    if refs.None? || seen == Some(Entry(refs.value, body)) then Nothing
    else Owed(Comp(c), name, uid, seen, body)
  }

  /**
   A merge patch on the object as it is now: a list that differs between what was read and what is
   wanted replaces the whole list; content that was changed meanwhile may come out mixed.
   */
  function Merged(seen: Entry, want: Entry, current: Entry, blend: Body): Entry {
    Entry(if seen.refs == want.refs then current.refs else want.refs,
          if current == seen then want.body else blend)
  }

  function Wanted(p: Pending): seq<OwnerRef>
    requires p.Owed?
  {
    var refs := SetControllerReference(p.name, p.uid, if p.seen.Some? then p.seen.value.refs else []);
    if refs.Some? then refs.value else []
  }

  /** The second half: creates or patches; fails if the object has appeared or vanished meanwhile. */
  function Written(s: Shared, blend: Body): map<Slot, Entry>
    requires s.pending.Owed?
  {
    var p := s.pending;
    var want := Entry(Wanted(p), p.body);
    if p.seen.None? then if p.slot in s.m then s.m else s.m[p.slot := want]
    else if p.slot !in s.m then s.m
    else s.m[p.slot := Merged(p.seen.value, want, s.m[p.slot], blend)]
  }

  function Do(s: Shared, v: Move): Shared
    requires Allowed(s, v)
  {
    match v
    case ReadFor(name, uid, c, body) => s.(pending := Read(s, name, uid, c, body))
    case Write(fault, blend) => Shared(if fault.Lost? then s.m else Written(s, blend), Nothing)
    case StartJob(name, uid, body, fault) =>
      if fault.Lost? || Slot.Prune in s.m then s else s.(m := s.m[Slot.Prune := Entry([Reference(name, uid)], body)])
    case TearDown(_, c, fault) => if fault.Lost? then s else s.(m := s.m - {Comp(c)})
    case GiveUp => s.(pending := Nothing)
    case OutsideEdit(slot, e) => s.(m := s.m[slot := e])
    case OutsideCreate(slot, e) => s.(m := s.m[slot := e])
    case OutsideDelete(slot) => s.(m := s.m - {slot})
  }

  ghost predicate IsHistory(s: Shared, vs: seq<Move>)
    decreases |vs|
  {
    vs == [] || (Allowed(s, vs[0]) && IsHistory(Do(s, vs[0]), vs[1..]))
  }

  ghost function After(s: Shared, vs: seq<Move>): Shared
    requires IsHistory(s, vs)
    decreases |vs|
  {
    if vs == [] then s else After(Do(s, vs[0]), vs[1..])
  }

  /** The move may take the object away. */
  predicate Deletes(v: Move, slot: Slot) {
    (v.TearDown? && Comp(v.c) == slot) || (v.OutsideDelete? && v.slot == slot)
  }

  predicate OwnedBy(s: Shared, slot: Slot, name: string) {
    slot in s.m && ControlledByKind(s.m[slot].refs) && GetControllerOf(s.m[slot].refs).value.name == name
  }

  /** A namespace before the operator's first call: nothing in it is controlled by a NodeFeatureDiscovery. */
  ghost predicate Untouched(s: Shared) {
    && s.pending.Nothing?
    && (forall slot :: slot in s.m ==> Sound(s.m[slot].refs) && !ControlledByKind(s.m[slot].refs))
  }

  /**
   Every list is sound; what is owed was read from a sound list that the CR could take over; and
   nobody but this CR has come to control the object since.
   */
  ghost predicate Inv(s: Shared) {
    && (forall slot :: slot in s.m ==> Sound(s.m[slot].refs))
    && (s.pending.Owed? ==>
          var p := s.pending;
          && (p.seen.Some? ==>
                Sound(p.seen.value.refs) && SetControllerReference(p.name, p.uid, p.seen.value.refs).Some?)
          && (p.slot in s.m && ControlledByKind(s.m[p.slot].refs) ==>
                GetControllerOf(s.m[p.slot].refs).value.name == p.name))
  }

  lemma WantedIsSound(p: Pending)
    requires p.Owed?
    requires p.seen.Some? ==>
      Sound(p.seen.value.refs) && SetControllerReference(p.name, p.uid, p.seen.value.refs).Some?
    ensures Sound(Wanted(p)) && GetControllerOf(Wanted(p)) == Some(Reference(p.name, p.uid))
  {
    var refs := if p.seen.Some? then p.seen.value.refs else [];
    SetOnUnrepeated(p.name, p.uid, refs);
  }

  lemma OneReference(name: string, uid: nat)
    ensures var refs := [Reference(name, uid)]; Sound(refs) && GetControllerOf(refs) == Some(refs[0])
  {
    var refs := [Reference(name, uid)];
    assert refs[1..] == [];
    assert Controllers(refs[1..]) == 0;
  }

  lemma DoKeeps(s: Shared, v: Move)
    requires Inv(s) && Allowed(s, v)
    ensures Inv(Do(s, v))
  {
    match v
    case Write(_, _) => WantedIsSound(s.pending);
    case StartJob(name, uid, _, _) => OneReference(name, uid);
    case _ =>
  }

  /** One move: the CR that controls an object stays its controller, and no other CR changes the object. */
  lemma OwnerSurvives(s: Shared, v: Move, slot: Slot, name: string)
    requires Inv(s) && Allowed(s, v) && OwnedBy(s, slot, name) && !Deletes(v, slot)
    ensures OwnedBy(Do(s, v), slot, name)
    ensures !(v.Write? && s.pending.name == name) && !(v.OutsideEdit? && v.slot == slot) ==>
              Do(s, v).m[slot] == s.m[slot]
  {
    if v.Write? { WantedIsSound(s.pending); }
  }

  lemma {:induction false} HistoryKeeps(s: Shared, vs: seq<Move>)
    requires Inv(s) && IsHistory(s, vs)
    ensures Inv(After(s, vs))
    decreases |vs|
  {
    if vs != [] {
      DoKeeps(s, vs[0]);
      HistoryKeeps(Do(s, vs[0]), vs[1..]);
    }
  }

  lemma {:induction false} OwnerStays(s: Shared, vs: seq<Move>, slot: Slot, name: string)
    requires Inv(s) && IsHistory(s, vs) && OwnedBy(s, slot, name)
    requires forall i :: 0 <= i < |vs| ==> !Deletes(vs[i], slot)
    ensures OwnedBy(After(s, vs), slot, name)
    decreases |vs|
  {
    if vs != [] {
      OwnerSurvives(s, vs[0], slot, name);
      DoKeeps(s, vs[0]);
      OwnerStays(Do(s, vs[0]), vs[1..], slot, name);
    }
  }

  lemma OneController(refs: seq<OwnerRef>)
    requires Sound(refs) && ControlledByKind(refs)
    ensures Controllers(refs) == 1
  {
    NoController(refs);
  }

  /**
   Single ownership. In every history of calls of many CRs' Reconciles, with faults and outsiders
   between any two of them: a component or prune job that a CR controls has that CR as its only
   controller, and keeps it as long as it exists.
   */
  lemma OwnerNeverChanges(s0: Shared, before: seq<Move>, vs: seq<Move>, slot: Slot, name: string)
    requires Untouched(s0) && IsHistory(s0, before) && OwnedBy(After(s0, before), slot, name)
    requires IsHistory(After(s0, before), vs)
    requires forall i :: 0 <= i < |vs| ==> !Deletes(vs[i], slot)
    ensures Controllers(After(s0, before).m[slot].refs) == 1
    ensures var t := After(After(s0, before), vs); OwnedBy(t, slot, name) && Controllers(t.m[slot].refs) == 1
  {
    HistoryKeeps(s0, before);
    var s := After(s0, before);
    HistoryKeeps(s, vs);
    OwnerStays(s, vs, slot, name);
    OneController(s.m[slot].refs);
    OneController(After(s, vs).m[slot].refs);
  }

  /** The CR controls the object under its full identity. */
  predicate OwnedAs(s: Shared, slot: Slot, name: string, uid: nat) {
    slot in s.m && GetControllerOf(s.m[slot].refs) == Some(Reference(name, uid))
  }

  /** What the operator creates, component or prune job, is controlled by the CR it was created for. */
  lemma CreatedIsOwned(s0: Shared, before: seq<Move>, v: Move, slot: Slot)
    requires Untouched(s0) && IsHistory(s0, before) && Allowed(After(s0, before), v)
    requires (v.Write? || v.StartJob?) && slot !in After(s0, before).m && slot in Do(After(s0, before), v).m
    ensures var s := After(s0, before);
      if v.Write? then OwnedAs(Do(s, v), slot, s.pending.name, s.pending.uid)
      else OwnedAs(Do(s, v), slot, v.name, v.uid)
    ensures Controllers(Do(After(s0, before), v).m[slot].refs) == 1
  {
    HistoryKeeps(s0, before);
    var s := After(s0, before);
    DoKeeps(s, v);
    if v.Write? { WantedIsSound(s.pending); } else { OneReference(v.name, v.uid); }
    OneController(Do(s, v).m[slot].refs);
  }

  /** A write lands that replaces the reference by that of a CR of the same name with another uid. */
  predicate TakesOver(s: Shared, v: Move, slot: Slot, name: string, uid: nat) {
    && v.Write? && !v.fault.Lost? && s.pending.Owed? && s.pending.slot == slot
    && s.pending.name == name && s.pending.uid != uid
    && s.pending.seen.Some? && s.pending.seen.value.refs != Wanted(s.pending)
  }

  lemma IdentitySurvivesExactly(s: Shared, v: Move, slot: Slot, name: string, uid: nat)
    requires Inv(s) && Allowed(s, v) && OwnedAs(s, slot, name, uid) && !Deletes(v, slot)
    ensures OwnedAs(Do(s, v), slot, name, uid) <==> !TakesOver(s, v, slot, name, uid)
  {
    if v.Write? { WantedIsSound(s.pending); }
  }

  /** The CR controls the object under its full identity at every moment of the history. */
  ghost predicate AlwaysOwnedAs(s: Shared, vs: seq<Move>, slot: Slot, name: string, uid: nat)
    requires IsHistory(s, vs)
    decreases |vs|
  {
    OwnedAs(s, slot, name, uid) && (vs == [] || AlwaysOwnedAs(Do(s, vs[0]), vs[1..], slot, name, uid))
  }

  ghost predicate NeverTakenOver(s: Shared, vs: seq<Move>, slot: Slot, name: string, uid: nat)
    requires IsHistory(s, vs)
    decreases |vs|
  {
    vs == [] || (!TakesOver(s, vs[0], slot, name, uid) && NeverTakenOver(Do(s, vs[0]), vs[1..], slot, name, uid))
  }

  lemma {:induction false} IdentityStays(s: Shared, vs: seq<Move>, slot: Slot, name: string, uid: nat)
    requires Inv(s) && IsHistory(s, vs) && OwnedAs(s, slot, name, uid)
    requires forall i :: 0 <= i < |vs| ==> !Deletes(vs[i], slot)
    ensures AlwaysOwnedAs(s, vs, slot, name, uid) <==> NeverTakenOver(s, vs, slot, name, uid)
    decreases |vs|
  {
    if vs != [] {
      IdentitySurvivesExactly(s, vs[0], slot, name, uid);
      DoKeeps(s, vs[0]);
      if OwnedAs(Do(s, vs[0]), slot, name, uid) { IdentityStays(Do(s, vs[0]), vs[1..], slot, name, uid); }
    }
  }

  /**
   By uid, the owner of an object that exists stays the same exactly as long as no write lands for a
   CR that has been created again under the same name.
   */
  lemma UidNeverChangesExactly(s0: Shared, before: seq<Move>, vs: seq<Move>, slot: Slot, name: string, uid: nat)
    requires Untouched(s0) && IsHistory(s0, before) && OwnedAs(After(s0, before), slot, name, uid)
    requires IsHistory(After(s0, before), vs)
    requires forall i :: 0 <= i < |vs| ==> !Deletes(vs[i], slot)
    ensures var s := After(s0, before);
      AlwaysOwnedAs(s, vs, slot, name, uid) <==> NeverTakenOver(s, vs, slot, name, uid)
  {
    HistoryKeeps(s0, before);
    IdentityStays(After(s0, before), vs, slot, name, uid);
  }

  /** An object made for a CR, and not taken away with it, is taken over by the next CR of that name. */
  lemma TakenOverByNamesake(c: Component, body: Body, name: string, uid: nat, next: nat)
    requires uid != next
    ensures var s0, slot := Shared(map[], Nothing), Comp(c);
      var made := [ReadFor(name, uid, c, body), Write(Protocol.Fine, body)];
      var again := [ReadFor(name, next, c, body), Write(Protocol.Fine, body)];
      && Untouched(s0) && IsHistory(s0, made) && OwnedAs(After(s0, made), slot, name, uid)
      && IsHistory(After(s0, made), again) && (forall i :: 0 <= i < 2 ==> !Deletes(again[i], slot))
      && OwnedAs(After(After(s0, made), again), slot, name, next)
  {
    var s0, slot := Shared(map[], Nothing), Comp(c);
    OneReference(name, uid);
    OneReference(name, next);
    SetOnUnrepeated(name, uid, []);
    var s1 := CreateStep(s0, c, body, name, uid);
    SetOnUnrepeated(name, next, [Reference(name, uid)]);
    var s2 := CreateStep(s1, c, body, name, next);
  }

  /** A read and the write it owes, with nothing in between. */
  lemma CreateStep(s: Shared, c: Component, body: Body, name: string, uid: nat) returns (t: Shared)
    requires s.pending.Nothing? && Read(s, name, uid, c, body).Owed?
    ensures var vs := [ReadFor(name, uid, c, body), Write(Protocol.Fine, body)];
      IsHistory(s, vs) && After(s, vs) == t
    ensures t == Shared(Written(s.(pending := Read(s, name, uid, c, body)), body), Nothing)
  {
    var r, w := ReadFor(name, uid, c, body), Write(Protocol.Fine, body);
    var u := Do(s, r);
    t := Do(u, w);
    assert [r, w][1..] == [w] && [w][1..] == [];
    assert IsHistory(t, []) && After(t, []) == t;
    assert IsHistory(u, [w]) && After(u, [w]) == t;
  }

  /** No write on behalf of this CR, and no outsider's edit of this object. */
  ghost predicate HandsOff(s: Shared, vs: seq<Move>, slot: Slot, name: string)
    requires IsHistory(s, vs)
    decreases |vs|
  {
    vs == [] ||
      (&& !(vs[0].Write? && s.pending.name == name) && !(vs[0].OutsideEdit? && vs[0].slot == slot)
       && !Deletes(vs[0], slot) && HandsOff(Do(s, vs[0]), vs[1..], slot, name))
  }

  lemma {:induction false} ContentStays(s: Shared, vs: seq<Move>, slot: Slot, name: string)
    requires Inv(s) && IsHistory(s, vs) && OwnedBy(s, slot, name) && HandsOff(s, vs, slot, name)
    ensures slot in After(s, vs).m && After(s, vs).m[slot] == s.m[slot]
    decreases |vs|
  {
    if vs != [] {
      OwnerSurvives(s, vs[0], slot, name);
      DoKeeps(s, vs[0]);
      ContentStays(Do(s, vs[0]), vs[1..], slot, name);
    }
  }

  /** Whatever the Reconciles of other CRs read and write, an owned object stays as it is, references included. */
  lemma ContentIsTheOwners(s0: Shared, before: seq<Move>, vs: seq<Move>, slot: Slot, name: string)
    requires Untouched(s0) && IsHistory(s0, before) && OwnedBy(After(s0, before), slot, name)
    requires IsHistory(After(s0, before), vs) && HandsOff(After(s0, before), vs, slot, name)
    ensures var s, t := After(s0, before), After(After(s0, before), vs);
      slot in t.m && t.m[slot] == s.m[slot]
  {
    HistoryKeeps(s0, before);
    ContentStays(After(s0, before), vs, slot, name);
  }

  /** Teardown goes by name alone: deleting one CR takes away an object that another CR controls. */
  lemma TeardownIgnoresOwner(s: Shared, c: Component, mine: string, other: string)
    requires s.pending.Nothing? && OwnedBy(s, Comp(c), mine) && mine != other
    ensures var v := TearDown(other, c, Protocol.Fine); Allowed(s, v) && Comp(c) !in Do(s, v).m
    ensures forall uid: nat, body :: Read(s, other, uid, c, body) == Nothing
  {
  }

  /** The protocol's merge rule for the owner is the one for reference lists. */
  lemma MergeIsFaithful(name: string, uid: nat, seen: Entry, want: Entry, current: Entry, blend: Body,
                        a: Object, b: Object, c: Object, d: Object)
    requires Sound(seen.refs) && SetControllerReference(name, uid, seen.refs) == Some(want.refs)
    requires a.owner == OwnerFor(name, seen.refs) && b.owner == OwnerFor(name, want.refs)
    requires c.owner == OwnerFor(name, current.refs)
    ensures Protocol.Merged(a, b, c, d).owner == OwnerFor(name, Merged(seen, want, current, blend).refs)
  {
    SetOnUnrepeated(name, uid, seen.refs);
  }
}
