/**
 The generated copy functions of the API types, over slices that can be nil and can be shared, and
 the patch base that the status handler takes with them.
 */
module DeepCopy {
  import opened Types

  // ---------- slices ----------

  /** What a slice holds; None for nil, which is not the empty slice. */
  function Contents<T>(a: array?<T>): Option<seq<T>>
    reads a
  {
    if a == null then None else Some(a[..])
  }

  function Backing<T>(a: array?<T>): set<object> {
    if a == null then {} else {a}
  }

  /** Nil stays nil; anything else is copied element by element into new memory. */
  method CopySlice<T(0)>(a: array?<T>) returns (b: array?<T>)
    ensures Contents(b) == Contents(a)
    ensures b != null ==> fresh(b)
  {
    if a == null {
      return null;
    }
    b := new T[a.Length];
    for i := 0 to a.Length
      invariant b[..i] == a[..i]
    {
      b[i] := a[i];
    }
    assert b[..a.Length] == b[..] && a[..a.Length] == a[..];
  }

  // ---------- values ----------

  datatype OperandValue = OperandValue(
    image: string,
    imagePullPolicy: string,
    servicePort: int,
    workerTolerations: Option<seq<Toleration>>,
    masterTolerations: Option<seq<Toleration>>,
    workerEnvs: Option<seq<EnvVar>>,
    masterEnvs: Option<seq<EnvVar>>)

  datatype SpecValue = SpecValue(
    operand: OperandValue,
    topologyUpdater: bool,
    extraLabelNs: Option<seq<string>>,
    resourceLabels: Option<seq<string>>,
    labelWhiteList: string,
    workerConfig: string,
    pruneOnDelete: bool,
    enableTaints: bool)

  datatype MetaValue = MetaValue(uid: nat, deleting: bool, finalizers: Option<seq<string>>)

  datatype CrValue = CrValue(meta: MetaValue, spec: SpecValue, conditions: Option<seq<Condition>>)

  // ---------- the API type; its embedded structs are part of the same memory ----------

  class NodeFeatureDiscovery {
    // metadata
    var uid: nat
    var deleting: bool
    var finalizers: array?<string>
    // spec.operand
    var image: string
    var imagePullPolicy: string
    var servicePort: int
    var workerTolerations: array?<Toleration>
    var masterTolerations: array?<Toleration>
    var workerEnvs: array?<EnvVar>
    var masterEnvs: array?<EnvVar>
    // spec
    var topologyUpdater: bool
    var extraLabelNs: array?<string>
    var resourceLabels: array?<string>
    var labelWhiteList: string
    var workerConfig: string
    var pruneOnDelete: bool
    var enableTaints: bool
    // status
    var conditions: array?<Condition>

    constructor ()
      ensures Slices() == {}
    {
      finalizers, workerTolerations, masterTolerations, workerEnvs, masterEnvs := null, null, null, null, null;
      extraLabelNs, resourceLabels, conditions := null, null, null;
    }

    function OperandSlices(): set<object>
      reads this
    {
      Backing(workerTolerations) + Backing(masterTolerations) + Backing(workerEnvs) + Backing(masterEnvs)
    }

    function SpecSlices(): set<object>
      reads this
    {
      OperandSlices() + Backing(extraLabelNs) + Backing(resourceLabels)
    }

    function Slices(): set<object>
      reads this
    {
      SpecSlices() + Backing(finalizers) + Backing(conditions)
    }

    /** All memory that can be reached from the object. */
    function Footprint(): set<object>
      reads this
    {
      {this} + Slices()
    }

    function Meta(): MetaValue
      reads this, finalizers
    {
      MetaValue(uid, deleting, Contents(finalizers))
    }

    function Operand(): OperandValue
      reads this, workerTolerations, masterTolerations, workerEnvs, masterEnvs
    {
      OperandValue(image, imagePullPolicy, servicePort, Contents(workerTolerations), Contents(masterTolerations),
                   Contents(workerEnvs), Contents(masterEnvs))
    }

    function Spec(): SpecValue
      reads this, extraLabelNs, resourceLabels, workerTolerations, masterTolerations, workerEnvs, masterEnvs
    {
      SpecValue(Operand(), topologyUpdater, Contents(extraLabelNs), Contents(resourceLabels),
                labelWhiteList, workerConfig, pruneOnDelete, enableTaints)
    }

    function Value(): CrValue
      reads Footprint()
    {
      CrValue(Meta(), Spec(), Contents(conditions))
    }

    /** The slices of this part are nil or newly allocated. */
    twostate predicate FreshOperand()
      reads this
    {
      && (workerTolerations != null ==> fresh(workerTolerations))
      && (masterTolerations != null ==> fresh(masterTolerations))
      && (workerEnvs != null ==> fresh(workerEnvs))
      && (masterEnvs != null ==> fresh(masterEnvs))
    }

    twostate predicate FreshSpec()
      reads this
    {
      && FreshOperand()
      && (extraLabelNs != null ==> fresh(extraLabelNs))
      && (resourceLabels != null ==> fresh(resourceLabels))
    }

    twostate predicate FreshSlices()
      reads this
    {
      && FreshSpec()
      && (finalizers != null ==> fresh(finalizers))
      && (conditions != null ==> fresh(conditions))
    }

    method OperandDeepCopyInto(out: NodeFeatureDiscovery)
      requires out != this
      modifies out`image, out`imagePullPolicy, out`servicePort
      modifies out`workerTolerations, out`masterTolerations, out`workerEnvs, out`masterEnvs
      ensures out.Operand() == Operand() && out.FreshOperand()
    {
      out.image, out.imagePullPolicy, out.servicePort := image, imagePullPolicy, servicePort;
      out.workerTolerations := CopySlice(workerTolerations);
      out.masterTolerations := CopySlice(masterTolerations);
      out.workerEnvs := CopySlice(workerEnvs);
      out.masterEnvs := CopySlice(masterEnvs);
    }

    method SpecDeepCopyInto(out: NodeFeatureDiscovery)
      requires out != this
      modifies out`image, out`imagePullPolicy, out`servicePort
      modifies out`workerTolerations, out`masterTolerations, out`workerEnvs, out`masterEnvs
      modifies out`topologyUpdater, out`extraLabelNs, out`resourceLabels, out`labelWhiteList
      modifies out`workerConfig, out`pruneOnDelete, out`enableTaints
      ensures out.Spec() == Spec() && out.FreshSpec()
    {
      out.topologyUpdater, out.pruneOnDelete, out.enableTaints := topologyUpdater, pruneOnDelete, enableTaints;
      out.labelWhiteList, out.workerConfig := labelWhiteList, workerConfig;
      out.extraLabelNs := CopySlice(extraLabelNs);
      out.resourceLabels := CopySlice(resourceLabels);
      OperandDeepCopyInto(out);
    }

    method DeepCopyInto(out: NodeFeatureDiscovery)
      requires out != this
      modifies out
      ensures out.Meta() == Meta() && out.Spec() == Spec() && Contents(out.conditions) == Contents(conditions)
      ensures out.FreshSlices()
    {
      var fs := CopySlice(finalizers);
      var cs := CopySlice(conditions);
      out.uid, out.deleting, out.finalizers, out.conditions := uid, deleting, fs, cs;
      SpecDeepCopyInto(out);
    }

    /** An equal object, nil slices included, that shares no memory with the original. */
    method DeepCopy() returns (out: NodeFeatureDiscovery)
      ensures out.Value() == Value() && fresh(out.Footprint())
    {
      out := new NodeFeatureDiscovery();
      DeepCopyInto(out);
    }
  }

  // ---------- what the copy is good for ----------

  /** Changes elsewhere, of whatever kind. */
  method ChangeAnything(ghost memory: set<object>, kept: NodeFeatureDiscovery)
    requires kept.Footprint() !! memory
    modifies memory
    ensures kept.Value() == old(kept.Value())
  {
    modify memory;
  }

  /** Whatever is done afterwards to any memory there was before, the copy keeps the value it had. */
  method CopyOutlivesChanges(nfd: NodeFeatureDiscovery, ghost memory: set<object>)
    returns (out: NodeFeatureDiscovery)
    modifies memory
    ensures out.Value() == old(nfd.Value())
  {
    out := nfd.DeepCopy();
    ChangeAnything(memory, out);
  }

  /** Copying the struct alone would not do: a write into one of its slices shows up in the copy. */
  method SharedSliceShowsChanges(nfd: NodeFeatureDiscovery, c: Condition) returns (out: NodeFeatureDiscovery)
    requires nfd.conditions != null && nfd.conditions.Length > 0
    modifies nfd.conditions
    ensures out.conditions != null && out.conditions[..] == old(nfd.conditions[..])[0 := c]
  {
    out := new NodeFeatureDiscovery();
    out.conditions := nfd.conditions;
    nfd.conditions[0] := c;
  }

  // ---------- the status patch ----------

  /** A list as JSON carries it: the empty list is left out like nil. */
  function OmitEmpty<T>(a: Option<seq<T>>): seq<T> {
    if a.None? then [] else a.value
  }

  /** A merge patch from one object to another: the members that differ, each with its new value. */
  datatype Patch = Patch(meta: Option<MetaValue>, spec: Option<SpecValue>, conditions: Option<seq<Condition>>)

  function MergeFrom(a: CrValue, b: CrValue): Patch {
    Patch(if a.meta == b.meta then None else Some(b.meta),
          if a.spec == b.spec then None else Some(b.spec),
          if OmitEmpty(a.conditions) == OmitEmpty(b.conditions) then None else Some(OmitEmpty(b.conditions)))
  }

  function Patched(v: CrValue, p: Patch): CrValue {
    CrValue(if p.meta.Some? then p.meta.value else v.meta,
            if p.spec.Some? then p.spec.value else v.spec,
            if p.conditions.Some? then Some(p.conditions.value) else v.conditions)
  }

  /** Two objects that JSON does not tell apart. */
  predicate SameJson(a: CrValue, b: CrValue) {
    a.meta == b.meta && a.spec == b.spec && OmitEmpty(a.conditions) == OmitEmpty(b.conditions)
  }

  /** Patching the base gives the changed object, and nothing is sent exactly when nothing has changed. */
  lemma PatchRoundTrip(a: CrValue, b: CrValue)
    ensures SameJson(Patched(a, MergeFrom(a, b)), b)
    ensures MergeFrom(a, b) == Patch(None, None, None) <==> SameJson(a, b)
  {
  }

  method AssignConditions(nfd: NodeFeatureDiscovery, conditions: array<Condition>)
    modifies nfd`conditions
    ensures nfd.Value() == old(nfd.Value()).(conditions := Some(conditions[..]))
  {
    nfd.conditions := conditions;
    assert nfd.Operand() == old(nfd.Operand());
  }

  /**
   The end of the status handler. The copy is the object as it was read, although its conditions
   are then assigned; so the patch carries the conditions and nothing else, and leaves everything
   else of any stored object as it is, also what others have changed in the meantime.
   */
  method StatusPatch(nfd: NodeFeatureDiscovery, conditions: array<Condition>) returns (patch: Patch)
    requires conditions[..] != OmitEmpty(Contents(nfd.conditions))
    modifies nfd`conditions
    ensures nfd.Value() == old(nfd.Value()).(conditions := Some(conditions[..]))
    ensures patch == Patch(None, None, Some(conditions[..]))
    ensures forall stored :: Patched(stored, patch) == stored.(conditions := Some(conditions[..]))
  {
    var unmodified := nfd.DeepCopy();
    AssignConditions(nfd, conditions);
    assert unmodified.Value() == old(nfd.Value());
    patch := MergeFrom(unmodified.Value(), nfd.Value());
  }
}
