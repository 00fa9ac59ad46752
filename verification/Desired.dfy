/** What the operator wants each of its objects to contain, computed from the CR. */
module Desired {
  import opened Types
  import MasterArgs

  const PULL_ALWAYS := "Always"

  function PullPolicy(spec: Spec): string {
    if spec.operand.imagePullPolicy != "" then spec.operand.imagePullPolicy else PULL_ALWAYS
  }

  const MASTER_TOLERATIONS := [
    Toleration("node-role.kubernetes.io/master", "Equal", "", "NoSchedule"),
    Toleration("node-role.kubernetes.io/control-plane", "Equal", "", "NoSchedule") ]

  const WORKER_TOLERATIONS := [ Toleration("", "Exists", "", "NoSchedule") ]

  const BASIC_ENVS := [ EnvVar("NODE_NAME", "spec.nodeName") ]
  const POD_ENVS := BASIC_ENVS + [ EnvVar("POD_NAME", "metadata.name"), EnvVar("POD_UID", "metadata.uid") ]
  const TOPOLOGY_ENVS := POD_ENVS + [ EnvVar("NODE_ADDRESS", "status.hostIP") ]

  const TOPOLOGY_ARGS := [
    "-podresources-socket=/host-var/lib/kubelet/pod-resources/kubelet.sock",
    "-sleep-interval=3s" ]

  function DesiredBody(spec: Spec, c: Component): Body {
    match c
    case Master =>
      PodTemplate("nfd-master", spec.operand.image, PullPolicy(spec), MasterArgs.Args(spec),
                  BASIC_ENVS + spec.operand.masterEnvs, MASTER_TOLERATIONS + spec.operand.masterTolerations)
    case GC =>
      PodTemplate("nfd-gc", spec.operand.image, PULL_ALWAYS, [], BASIC_ENVS, [])
    case Worker =>
      PodTemplate("nfd-worker", spec.operand.image, PullPolicy(spec), [],
                  POD_ENVS + spec.operand.workerEnvs, WORKER_TOLERATIONS + spec.operand.workerTolerations)
    case Topology =>
      PodTemplate("nfd-topology-updater", spec.operand.image, PullPolicy(spec), TOPOLOGY_ARGS, TOPOLOGY_ENVS, [])
    case WorkerConfig =>
      ConfigData(map["nfd-worker-conf" := spec.workerConfig])
  }

  /** The labels are overwritten, except on the ConfigMap, which keeps those it has. */
  function DesiredLabels(c: Component, labels: map<string, string>): map<string, string> {
    match c
    case Master => map["app" := "nfd-master"]
    case WorkerConfig => labels
    case _ => map["app" := "nfd"]
  }

  /** An object that another controller owns cannot be taken over. */
  predicate CanOwn(o: Object) {
    !o.owner.Other?
  }

  /** The object as the operator wants it: labels, content and owner replaced, the rest kept. */
  function AsDesired(cr: CR, c: Component, o: Object): Object {
    Object(DesiredLabels(c, o.labels), DesiredBody(cr.spec, c), Nfd(cr.uid), o.health)
  }

  /** The object is as this CR wants it. */
  predicate Matches(cr: CR, c: Component, o: Object) {
    o == AsDesired(cr, c, o)
  }

  predicate Requested(spec: Spec, c: Component) {
    c == Topology ==> spec.topologyUpdater
  }

  // ---------- what an object tells of the CR ----------

  /** What a CR can ask of one of its objects; what an object of that kind does not carry is left empty. */
  datatype Settings = Settings(
    image: string,
    pullPolicy: string,
    args: seq<string>,
    tolerations: seq<Toleration>,
    envs: seq<EnvVar>,
    config: string)

  /** The settings that the spec gives for an object. */
  function Given(spec: Spec, c: Component): Settings {
    var image := spec.operand.image;
    var policy := if |spec.operand.imagePullPolicy| == 0 then "Always" else spec.operand.imagePullPolicy;
    match c
    case Master =>
      Settings(image, policy, MasterArgs.Args(spec), spec.operand.masterTolerations, spec.operand.masterEnvs, "")
    case Worker => Settings(image, policy, [], spec.operand.workerTolerations, spec.operand.workerEnvs, "")
    case Topology => Settings(image, policy, [], [], [], "")
    case GC => Settings(image, "Always", [], [], [], "")
    case WorkerConfig => Settings("", "", [], [], [], spec.workerConfig)
  }

  /** Reads the settings off a body: what follows the fixed entries, or the file in the ConfigMap. */
  function ReadBack(c: Component, body: Body): Option<Settings> {
    match body
    case ConfigData(data) =>
      if c == WorkerConfig && data.Keys == {"nfd-worker-conf"}
      then Some(Settings("", "", [], [], [], data["nfd-worker-conf"])) else None
    case PodTemplate(app, image, policy, args, envs, tolerations) =>
      (match c
       case Master =>
         if app == "nfd-master" && |tolerations| >= 2 && |envs| >= 1
         then Some(Settings(image, policy, args, tolerations[2..], envs[1..], "")) else None
       case Worker =>
         if app == "nfd-worker" && args == [] && |tolerations| >= 1 && |envs| >= 3
         then Some(Settings(image, policy, [], tolerations[1..], envs[3..], "")) else None
       case Topology =>
         if app == "nfd-topology-updater" && |args| == 2 && tolerations == [] && |envs| == 4
         then Some(Settings(image, policy, [], [], [], "")) else None
       case GC =>
         if app == "nfd-gc" && args == [] && tolerations == [] && |envs| == 1
         then Some(Settings(image, policy, [], [], [], "")) else None
       case WorkerConfig => None)
    case Unset => None
  }

  /** The fixed entries: the taints that are tolerated anyway and the names and sources of the variables. */
  ghost predicate FixedEntries(c: Component, body: Body) {
    body.PodTemplate? ==>
      var envs, tolerations := body.envs, body.tolerations;
      && |envs| >= 1 && envs[0] == EnvVar("NODE_NAME", "spec.nodeName")
      && (c == Worker || c == Topology ==>
            && |envs| >= 3
            && envs[1] == EnvVar("POD_NAME", "metadata.name") && envs[2] == EnvVar("POD_UID", "metadata.uid"))
      && (c == Topology ==>
            && |envs| >= 4 && envs[3] == EnvVar("NODE_ADDRESS", "status.hostIP")
            && body.args == [ "-podresources-socket=/host-var/lib/kubelet/pod-resources/kubelet.sock",
                              "-sleep-interval=3s" ])
      && (c == Worker ==> |tolerations| >= 1 && tolerations[0] == Toleration("", "Exists", "", "NoSchedule"))
      && (c == Master ==>
            && |tolerations| >= 2
            && tolerations[0] == Toleration("node-role.kubernetes.io/master", "Equal", "", "NoSchedule")
            && tolerations[1] == Toleration("node-role.kubernetes.io/control-plane", "Equal", "", "NoSchedule"))
  }

  /**
   An object that is as the CR wants it carries the CR's settings for it and no others: they can be read
   off it, behind the fixed entries, whatever the lists contain. Its labels are the fixed ones, but those
   of the ConfigMap are its own, and it is under the CR's control.
   */
  lemma SettingsReadBack(cr: CR, c: Component, o: Object)
    requires Matches(cr, c, o)
    ensures ReadBack(c, o.body) == Some(Given(cr.spec, c)) && FixedEntries(c, o.body)
    ensures c != WorkerConfig ==> o.labels == map["app" := if c == Master then "nfd-master" else "nfd"]
    ensures o.owner == Nfd(cr.uid)
  {
    var op := cr.spec.operand;
    assert (MASTER_TOLERATIONS + op.masterTolerations)[2..] == op.masterTolerations;
    assert (BASIC_ENVS + op.masterEnvs)[1..] == op.masterEnvs;
    assert (WORKER_TOLERATIONS + op.workerTolerations)[1..] == op.workerTolerations;
    assert (POD_ENVS + op.workerEnvs)[3..] == op.workerEnvs;
  }

  /** Nothing else of a CR counts: two of them want the same of an object exactly if their settings for it agree. */
  lemma SameWishExactly(a: CR, b: CR, c: Component, o: Object)
    requires a.uid == b.uid
    ensures AsDesired(a, c, o) == AsDesired(b, c, o) <==> Given(a.spec, c) == Given(b.spec, c)
  {
    SettingsReadBack(a, c, AsDesired(a, c, o));
    SettingsReadBack(b, c, AsDesired(b, c, o));
  }

  /** Filling in again changes nothing; the reported health stays, and the ConfigMap keeps its own labels. */
  lemma DesiredIsStable(cr: CR, c: Component, o: Object)
    ensures Matches(cr, c, AsDesired(cr, c, o))
    ensures AsDesired(cr, c, o).health == o.health && AsDesired(cr, WorkerConfig, o).labels == o.labels
  {
  }
}
