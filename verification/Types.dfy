/** The data of the NodeFeatureDiscovery API and of the objects the operator keeps for it. */
module Types {

  datatype Option<+T> = None | Some(value: T)

  /** An API error, as far as the operator looks into it: whether it is, or wraps, NotFound. */
  datatype Error =
    | NotFound
    | Failure(message: string)
    | Wrapped(prefix: string, cause: Error)
    | Joined(causes: seq<Error>)

  datatype Toleration = Toleration(key: string, operator: string, value: string, effect: string)

  datatype EnvVar = EnvVar(name: string, value: string)

  datatype Operand = Operand(
    image: string,
    imagePullPolicy: string,
    servicePort: int,
    workerTolerations: seq<Toleration>,
    masterTolerations: seq<Toleration>,
    workerEnvs: seq<EnvVar>,
    masterEnvs: seq<EnvVar>)

  datatype Spec = Spec(
    operand: Operand,
    topologyUpdater: bool,
    extraLabelNs: seq<string>,
    resourceLabels: seq<string>,
    labelWhiteList: string,
    workerConfig: string,
    pruneOnDelete: bool,
    enableTaints: bool)

  datatype ConditionStatus = True | False | Unknown

  datatype Condition = Condition(
    kind: string,
    status: ConditionStatus,
    reason: string,
    message: string,
    stamp: int)

  /** A NodeFeatureDiscovery object; `deleting` says that its deletion timestamp is set. */
  datatype CR = CR(
    uid: nat,
    spec: Spec,
    finalizers: seq<string>,
    deleting: bool,
    conditions: seq<Condition>)

  /** The five objects the operator keeps, besides the prune job. */
  datatype Component = Master | WorkerConfig | Worker | Topology | GC

  /** The controller among an object's owner references: none, a NodeFeatureDiscovery, or something else. */
  datatype Owner = Nobody | Nfd(uid: nat) | Other

  /** What a DaemonSet (first three) or a Deployment (last) reports about its pods. */
  datatype Health = Health(desired: int, current: int, ready: int, available: int)

  const UNREPORTED := Health(0, 0, 0, 0)

  /** The part of an object that the operator overwrites: a pod template or the data of a ConfigMap. */
  datatype Body =
    | Unset
    | ConfigData(data: map<string, string>)
    | PodTemplate(
        app: string,
        image: string,
        pullPolicy: string,
        args: seq<string>,
        envs: seq<EnvVar>,
        tolerations: seq<Toleration>)

  datatype Object = Object(labels: map<string, string>, body: Body, owner: Owner, health: Health)

  /** An object just constructed by the operator, before it is filled in. */
  const BLANK := Object(map[], Unset, Nobody, UNREPORTED)

  datatype Job = Job(image: string, owner: Owner, succeeded: int, failed: int)
}
