/** The in-memory copies the operator works on, and the functions that fill in what is desired. */
module Components {
  import opened Types
  import opened Desired
  import MasterArgs

  /** A copy of the CR. `version` is what was read from the server and stands for its resource version. */
  class Instance {
    const version: CR
    const uid: nat
    const spec: Spec
    const deleting: bool
    var finalizers: seq<string>
    var conditions: seq<Condition>

    constructor (cr: CR)
      ensures Value() == cr && version == cr
    {
      version, uid, spec, deleting := cr, cr.uid, cr.spec, cr.deleting;
      finalizers, conditions := cr.finalizers, cr.conditions;
    }

    function Value(): CR
      reads this
    {
      CR(uid, spec, finalizers, deleting, conditions)
    }
  }

  /** A copy of one of the operator's objects. */
  class Stored {
    var labels: map<string, string>
    var body: Body
    var owner: Owner
    var health: Health

    constructor (o: Object)
      ensures Value() == o
    {
      labels, body, owner, health := o.labels, o.body, o.owner, o.health;
    }

    function Value(): Object
      reads this
    {
      Object(labels, body, owner, health)
    }
  }

  const ALREADY_OWNED := Failure("object is already owned by another controller")

  method SetControllerReference(nfd: Instance, o: Stored) returns (err: Option<Error>)
    modifies o`owner
    ensures err.None? <==> !old(o.owner).Other?
    ensures o.owner == if err.None? then Nfd(nfd.uid) else old(o.owner)
  {
    if o.owner.Other? {
      return Some(ALREADY_OWNED);
    }
    o.owner := Nfd(nfd.uid);
    return None;
  }

  method SetMasterDeploymentAsDesired(nfd: Instance, dep: Stored) returns (err: Option<Error>)
    modifies dep
    ensures err.None? <==> CanOwn(old(dep.Value()))
    ensures err.None? ==> dep.Value() == AsDesired(nfd.Value(), Master, old(dep.Value()))
  {
    var args := MasterArgs.GetArgs(nfd.spec);
    dep.labels := map["app" := "nfd-master"];
    dep.body := PodTemplate("nfd-master", nfd.spec.operand.image, PullPolicy(nfd.spec), args,
                            BASIC_ENVS + nfd.spec.operand.masterEnvs,
                            MASTER_TOLERATIONS + nfd.spec.operand.masterTolerations);
    err := SetControllerReference(nfd, dep);
  }

  method SetGCDeploymentAsDesired(nfd: Instance, dep: Stored) returns (err: Option<Error>)
    modifies dep
    ensures err.None? <==> CanOwn(old(dep.Value()))
    ensures err.None? ==> dep.Value() == AsDesired(nfd.Value(), GC, old(dep.Value()))
  {
    dep.labels := map["app" := "nfd"];
    dep.body := PodTemplate("nfd-gc", nfd.spec.operand.image, PULL_ALWAYS, [], BASIC_ENVS, []);
    err := SetControllerReference(nfd, dep);
  }

  method SetWorkerDaemonsetAsDesired(nfd: Instance, ds: Stored) returns (err: Option<Error>)
    modifies ds
    ensures err.None? <==> CanOwn(old(ds.Value()))
    ensures err.None? ==> ds.Value() == AsDesired(nfd.Value(), Worker, old(ds.Value()))
  {
    ds.labels := map["app" := "nfd"];
    ds.body := PodTemplate("nfd-worker", nfd.spec.operand.image, PullPolicy(nfd.spec), [],
                           POD_ENVS + nfd.spec.operand.workerEnvs,
                           WORKER_TOLERATIONS + nfd.spec.operand.workerTolerations);
    err := SetControllerReference(nfd, ds);
  }

  method SetTopologyDaemonsetAsDesired(nfd: Instance, ds: Stored) returns (err: Option<Error>)
    modifies ds
    ensures err.None? <==> CanOwn(old(ds.Value()))
    ensures err.None? ==> ds.Value() == AsDesired(nfd.Value(), Topology, old(ds.Value()))
  {
    ds.labels := map["app" := "nfd"];
    ds.body := PodTemplate("nfd-topology-updater", nfd.spec.operand.image, PullPolicy(nfd.spec),
                           TOPOLOGY_ARGS, TOPOLOGY_ENVS, []);
    err := SetControllerReference(nfd, ds);
  }

  method SetWorkerConfigMapAsDesired(nfd: Instance, cm: Stored) returns (err: Option<Error>)
    modifies cm
    ensures err.None? <==> CanOwn(old(cm.Value()))
    ensures err.None? ==> cm.Value() == AsDesired(nfd.Value(), WorkerConfig, old(cm.Value()))
  {
    cm.body := ConfigData(map["nfd-worker-conf" := nfd.spec.workerConfig]);
    err := SetControllerReference(nfd, cm);
  }

  /** The callback that create-or-patch runs on the copy it has read. */
  method Mutate(c: Component, nfd: Instance, o: Stored) returns (err: Option<Error>)
    modifies o
    ensures err.None? <==> CanOwn(old(o.Value()))
    ensures err.None? ==> o.Value() == AsDesired(nfd.Value(), c, old(o.Value()))
  {
    match c
    case Master => err := SetMasterDeploymentAsDesired(nfd, o);
    case WorkerConfig => err := SetWorkerConfigMapAsDesired(nfd, o);
    case Worker => err := SetWorkerDaemonsetAsDesired(nfd, o);
    case Topology => err := SetTopologyDaemonsetAsDesired(nfd, o);
    case GC => err := SetGCDeploymentAsDesired(nfd, o);
  }
}
