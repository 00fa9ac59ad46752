/**
 The status engine: the four conditions computed from what the components report, and the
 comparison that decides whether the stored conditions have to be written again.
 */
module Status {
  import opened Types

  const AVAILABLE := "Available"
  const UPGRADEABLE := "Upgradeable"
  const PROGRESSING := "Progressing"
  const DEGRADED := "Degraded"

  const FALSE_REASON := "ConditionNotBeingMetCurrently"

  /** Why a component is not available. */
  datatype Kind = FailedGetting | IsDegraded | IsProgressing

  /** The outcome of reading a component: an error text, or the health it reports. */
  datatype Reading = Failed(message: string) | Seen(health: Health)

  datatype Readings = Readings(worker: Reading, master: Reading, gc: Reading, topology: Reading)
  {
    function Of(c: Component): Reading {
      match c
      case Worker => worker
      case Master => master
      case GC => gc
      case Topology => topology
      case WorkerConfig => Seen(UNREPORTED)
    }
  }

  /** The non-availability of a component, with the message published for it. */
  datatype Problem = Problem(kind: Kind, message: string)

  predicate IsDaemonSet(c: Component) {
    c == Worker || c == Topology
  }

  function DaemonSetProblem(h: Health): Option<Problem> {
    if h.desired == 0 then
      Some(Problem(IsDegraded, "number of desired nodes for scheduling is 0"))
    else if h.current == 0 then
      Some(Problem(IsDegraded, "0 nodes have pods scheduled"))
    else if h.ready == h.desired then
      None
    else
      Some(Problem(IsProgressing, "ds is progressing"))
  }

  function DeploymentProblem(h: Health): Option<Problem> {
    if h.available == 0 then Some(Problem(IsDegraded, "number of available pods is 0")) else None
  }

  function ProblemOf(c: Component, rd: Reading): Option<Problem> {
    match rd
    case Failed(message) => Some(Problem(FailedGetting, message))
    case Seen(h) => if IsDaemonSet(c) then DaemonSetProblem(h) else DeploymentProblem(h)
  }

  function ReasonOf(c: Component, kind: Kind): string {
    match c
    case Worker =>
      (match kind
       case FailedGetting => "FailedGettingNFDWorkerDaemonSet"
       case IsDegraded => "NFDWorkerDaemonSetDegraded"
       case IsProgressing => "NFDWorkerDaemonSetProgressing")
    case Topology =>
      (match kind
       case FailedGetting => "FailedGettingNFDTopologyDaemonSet"
       case IsDegraded => "NFDTopologyDaemonSetDegraded"
       case IsProgressing => "NFDTopologyDaemonSetProgressing")
    case Master =>
      (match kind
       case FailedGetting => "FailedGettingNFDMasterDeployment"
       case IsDegraded => "NFDMasterDeploymentDegraded"
       case IsProgressing => "NFDMasterDeploymentProgressing")
    case GC =>
      (match kind
       case FailedGetting => "FailedGettingNFDGCDeployment"
       case IsDegraded => "NFDGCDegraded"
       case IsProgressing => "NFDGCDeploymentProgressing")
    case WorkerConfig => ""
  }

  function AvailableConditions(now: int): seq<Condition> {
    [ Condition(AVAILABLE, True, "AllInstanceComponentsAreDeployedSuccessfuly", "", now),
      Condition(UPGRADEABLE, True, "CanBeUpgraded", "", now),
      Condition(PROGRESSING, False, FALSE_REASON, "", now),
      Condition(DEGRADED, False, FALSE_REASON, "", now) ]
  }

  function DegradedConditions(reason: string, message: string, now: int): seq<Condition> {
    [ Condition(AVAILABLE, False, FALSE_REASON, "", now),
      Condition(UPGRADEABLE, False, FALSE_REASON, "", now),
      Condition(PROGRESSING, False, FALSE_REASON, "", now),
      Condition(DEGRADED, True, reason, message, now) ]
  }

  function ProgressingConditions(reason: string, message: string, now: int): seq<Condition> {
    [ Condition(AVAILABLE, False, FALSE_REASON, "", now),
      Condition(UPGRADEABLE, False, FALSE_REASON, "", now),
      Condition(PROGRESSING, True, reason, message, now),
      Condition(DEGRADED, False, FALSE_REASON, "", now) ]
  }

  /** The conditions published for a component that is not available, if it is not. */
  function NotAvailableConditions(c: Component, rd: Reading, now: int): Option<seq<Condition>> {
    match ProblemOf(c, rd)
    case None => None
    case Some(p) =>
      Some(if p.kind == IsProgressing
           then ProgressingConditions(ReasonOf(c, p.kind), p.message, now)
           else DegradedConditions(ReasonOf(c, p.kind), p.message, now))
  }

  function GetConditions(rs: Readings, topologyUpdater: bool, now: int): seq<Condition> {
    match NotAvailableConditions(Worker, rs.worker, now)
    case Some(conditions) => conditions
    case None =>
      match NotAvailableConditions(Master, rs.master, now)
      case Some(conditions) => conditions
      case None =>
        match NotAvailableConditions(GC, rs.gc, now)
        case Some(conditions) => conditions
        case None =>
          match (if topologyUpdater then NotAvailableConditions(Topology, rs.topology, now) else None)
          case Some(conditions) => conditions
          case None => AvailableConditions(now)
  }

  /** The first condition of the given type, as `meta.FindStatusCondition` finds it. */
  function FindCondition(conditions: seq<Condition>, kind: string): Option<Condition> {
    if conditions == [] then None
    else if conditions[0].kind == kind then Some(conditions[0])
    else FindCondition(conditions[1..], kind)
  }

  /** Equality of two conditions of the same type, up to the timestamp. */
  predicate SameReport(a: Condition, b: Condition) {
    a.status == b.status && a.reason == b.reason && a.message == b.message
  }

  /** The stored list answers a new condition: its first condition of that type says the same. */
  predicate Answers(prev: seq<Condition>, c: Condition) {
    var found := FindCondition(prev, c.kind);
    found.Some? && SameReport(found.value, c)
  }

  predicate AreConditionsEqual(prev: seq<Condition>, next: seq<Condition>) {
    forall i :: 0 <= i < |next| ==> Answers(prev, next[i])
  }

  /** The comparison in the source's form: a scan of the new list that stops at the first difference. */
  method CompareConditions(prev: seq<Condition>, next: seq<Condition>) returns (equal: bool)
    ensures equal <==> AreConditionsEqual(prev, next)
  {
    for i := 0 to |next|
      invariant forall k :: 0 <= k < i ==> Answers(prev, next[k])
    {
      var found := FindCondition(prev, next[i].kind);
      if found.None? {
        return false;
      }
      if found.value.status != next[i].status || found.value.reason != next[i].reason
         || found.value.message != next[i].message {
        return false;
      }
    }
    return true;
  }

  // ---------- AreConditionsEqual on arbitrary lists ----------

  lemma {:induction false} FindReturnsFirst(conditions: seq<Condition>, kind: string)
    ensures var found := FindCondition(conditions, kind);
      if found.None? then
        forall i :: 0 <= i < |conditions| ==> conditions[i].kind != kind
      else
        exists i :: 0 <= i < |conditions| && conditions[i] == found.value && conditions[i].kind == kind
                    && forall j :: 0 <= j < i ==> conditions[j].kind != kind
  {
    if conditions != [] && conditions[0].kind != kind {
      var rest := conditions[1..];
      FindReturnsFirst(rest, kind);
      var found := FindCondition(rest, kind);
      if found.Some? {
        var i :| 0 <= i < |rest| && rest[i] == found.value && rest[i].kind == kind
                 && forall j :: 0 <= j < i ==> rest[j].kind != kind;
        assert conditions[i + 1] == found.value;
        assert forall j :: 0 <= j < i + 1 ==> conditions[j].kind != kind by {
          forall j | 0 <= j < i + 1 ensures conditions[j].kind != kind {
            if j > 0 { assert conditions[j] == rest[j - 1]; }
          }
        }
      } else {
        forall i | 0 <= i < |conditions| ensures conditions[i].kind != kind {
          if i > 0 { assert conditions[i] == rest[i - 1]; }
        }
      }
    }
  }

  /** On all lists, duplicates and strangers included, the comparison is transitive. */
  lemma EqualIsTransitive(a: seq<Condition>, b: seq<Condition>, c: seq<Condition>)
    requires AreConditionsEqual(a, b) && AreConditionsEqual(b, c)
    ensures AreConditionsEqual(a, c)
  {
    forall i | 0 <= i < |c| ensures Answers(a, c[i]) {
      assert Answers(b, c[i]);
      FindReturnsFirst(b, c[i].kind);
      var found := FindCondition(b, c[i].kind).value;
      var j :| 0 <= j < |b| && b[j] == found;
      assert Answers(a, b[j]);
    }
  }

  ghost predicate DistinctKinds(conditions: seq<Condition>) {
    forall i, j :: 0 <= i < j < |conditions| ==> conditions[i].kind != conditions[j].kind
  }

  /** It is reflexive exactly when entries of one type all say the same as the first of them. */
  lemma ReflexiveExactly(a: seq<Condition>)
    ensures AreConditionsEqual(a, a) <==>
            forall i, j :: 0 <= i < j < |a| && a[i].kind == a[j].kind ==> SameReport(a[i], a[j])
  {
    if AreConditionsEqual(a, a) {
      forall i, j | 0 <= i < j < |a| && a[i].kind == a[j].kind
        ensures SameReport(a[i], a[j])
      {
        assert Answers(a, a[i]) && Answers(a, a[j]);
      }
    }
    if forall i, j :: 0 <= i < j < |a| && a[i].kind == a[j].kind ==> SameReport(a[i], a[j]) {
      forall k | 0 <= k < |a| ensures Answers(a, a[k]) {
        FindReturnsFirst(a, a[k].kind);
        var found := FindCondition(a, a[k].kind);
        assert found.Some?;
        var i :| 0 <= i < |a| && a[i] == found.value && a[i].kind == a[k].kind
                 && forall j :: 0 <= j < i ==> a[j].kind != a[k].kind;
        assert i <= k;
      }
    }
  }

  /** The comparison looks in one direction only: what the new list lacks is never noticed. */
  lemma OneDirectionOnly(extra: Condition, next: seq<Condition>)
    requires AreConditionsEqual(next, next) && forall i :: 0 <= i < |next| ==> next[i].kind != extra.kind
    ensures AreConditionsEqual(next + [extra], next) && !AreConditionsEqual(next, next + [extra])
  {
    forall i | 0 <= i < |next| ensures Answers(next + [extra], next[i]) {
      assert Answers(next, next[i]);
      FindInPrefix(next, [extra], next[i].kind);
    }
    FindReturnsFirst(next, extra.kind);
    assert (next + [extra])[|next|] == extra;
    assert !Answers(next, (next + [extra])[|next|]);
  }

  /** What a list without contradictions has to contain so that the comparison holds the other way round. */
  lemma OtherDirectionExactly(prev: seq<Condition>, next: seq<Condition>)
    requires AreConditionsEqual(prev, next) && AreConditionsEqual(prev, prev)
    ensures AreConditionsEqual(next, prev) <==>
            forall i :: 0 <= i < |prev| ==> FindCondition(next, prev[i].kind).Some?
  {
    if forall i :: 0 <= i < |prev| ==> FindCondition(next, prev[i].kind).Some? {
      forall i | 0 <= i < |prev| ensures Answers(next, prev[i]) {
        FindReturnsFirst(next, prev[i].kind);
        var j :| 0 <= j < |next| && next[j] == FindCondition(next, prev[i].kind).value;
        assert Answers(prev, next[j]) && Answers(prev, prev[i]);
      }
    } else {
      var i :| 0 <= i < |prev| && FindCondition(next, prev[i].kind).None?;
      assert !Answers(next, prev[i]);
    }
  }

  lemma {:induction false} FindInPrefix(a: seq<Condition>, b: seq<Condition>, kind: string)
    requires FindCondition(a, kind).Some?
    ensures FindCondition(a + b, kind) == FindCondition(a, kind)
  {
    if a[0].kind != kind {
      assert (a + b)[1..] == a[1..] + b;
      FindInPrefix(a[1..], b, kind);
    }
  }

  // ---------- AreConditionsEqual on what GetConditions produces ----------

  /** A condition list without its timestamps. */
  function Report(conditions: seq<Condition>): seq<Condition> {
    seq(|conditions|, i requires 0 <= i < |conditions| => conditions[i].(stamp := 0))
  }

  ghost predicate WellKinded(cs: seq<Condition>) {
    |cs| == 4 && cs[0].kind == AVAILABLE && cs[1].kind == UPGRADEABLE
    && cs[2].kind == PROGRESSING && cs[3].kind == DEGRADED
  }

  lemma KindsDiffer()
    ensures AVAILABLE != UPGRADEABLE && AVAILABLE != PROGRESSING && AVAILABLE != DEGRADED
    ensures UPGRADEABLE != PROGRESSING && UPGRADEABLE != DEGRADED && PROGRESSING != DEGRADED
  {
    assert UPGRADEABLE[0] != PROGRESSING[0];
  }

  lemma FindInFour(cs: seq<Condition>, i: nat)
    requires WellKinded(cs) && i < 4
    ensures FindCondition(cs, cs[i].kind) == Some(cs[i])
  {
    KindsDiffer();
    assert cs[1..][0] == cs[1] && cs[1..][1..] == cs[2..] && cs[2..][0] == cs[2];
    assert cs[2..][1..] == cs[3..] && cs[3..][0] == cs[3];
    assert FindCondition(cs[3..], DEGRADED) == Some(cs[3]);
    assert FindCondition(cs[2..], cs[2].kind) == Some(cs[2]);
    assert FindCondition(cs[2..], DEGRADED) == FindCondition(cs[3..], DEGRADED);
    assert FindCondition(cs[1..], cs[1].kind) == Some(cs[1]);
  }

  /** Between lists with the four standard types, the comparison is equality up to timestamps. */
  lemma EqualIsSameReport(a: seq<Condition>, b: seq<Condition>)
    requires WellKinded(a) && WellKinded(b)
    ensures AreConditionsEqual(a, b) <==> Report(a) == Report(b)
  {
    forall i | 0 <= i < 4
      ensures Answers(a, b[i]) <==> Report(a)[i] == Report(b)[i]
    {
      FindInFour(a, i);
      assert a[i].kind == b[i].kind;
    }
    if AreConditionsEqual(a, b) {
      forall i | 0 <= i < 4 ensures Report(a)[i] == Report(b)[i] { assert Answers(a, b[i]); }
    }
    if Report(a) == Report(b) {
      forall i | 0 <= i < |b| ensures Answers(a, b[i]) { assert Report(a)[i] == Report(b)[i]; }
    }
  }

  lemma GetConditionsWellKinded(rs: Readings, topologyUpdater: bool, now: int)
    ensures WellKinded(GetConditions(rs, topologyUpdater, now))
  {
  }

  /** On outputs of GetConditions, taken whenever, the comparison is equality of the reports. */
  lemma EqualOnOutputs(rs: Readings, topology: bool, now: int, rs': Readings, topology': bool, now': int)
    ensures var a, b := GetConditions(rs, topology, now), GetConditions(rs', topology', now');
            AreConditionsEqual(a, b) <==> Report(a) == Report(b)
  {
    GetConditionsWellKinded(rs, topology, now);
    GetConditionsWellKinded(rs', topology', now');
    EqualIsSameReport(GetConditions(rs, topology, now), GetConditions(rs', topology', now'));
  }

  lemma BuildersReport(reason: string, message: string, now: int)
    ensures Report(AvailableConditions(now)) == AvailableConditions(0)
    ensures Report(DegradedConditions(reason, message, now)) == DegradedConditions(reason, message, 0)
    ensures Report(ProgressingConditions(reason, message, now)) == ProgressingConditions(reason, message, 0)
  {
  }

  /** Dropping the timestamps gives what would have been computed at time 0. */
  lemma ReportOfOutput(rs: Readings, topologyUpdater: bool, now: int)
    ensures Report(GetConditions(rs, topologyUpdater, now)) == GetConditions(rs, topologyUpdater, 0)
  {
    forall c, rd | NotAvailableConditions(c, rd, now).Some?
      ensures NotAvailableConditions(c, rd, 0).Some?
      ensures Report(NotAvailableConditions(c, rd, now).value) == NotAvailableConditions(c, rd, 0).value
    {
      var p := ProblemOf(c, rd).value;
      BuildersReport(ReasonOf(c, p.kind), p.message, now);
    }
    BuildersReport("", "", now);
  }

  lemma ReportDecides(prev: seq<Condition>, a: seq<Condition>, b: seq<Condition>)
    requires Report(a) == Report(b)
    ensures AreConditionsEqual(prev, a) <==> AreConditionsEqual(prev, b)
  {
    assert |a| == |Report(a)| == |b|;
    forall i | 0 <= i < |a| ensures Answers(prev, a[i]) <==> Answers(prev, b[i]) {
      assert a[i].(stamp := 0) == Report(a)[i] == Report(b)[i] == b[i].(stamp := 0);
      assert a[i].kind == a[i].(stamp := 0).kind == b[i].kind;
      assert SameReport(a[i], a[i].(stamp := 0)) && SameReport(b[i].(stamp := 0), b[i]);
    }
  }

  /** The time of a computation does not matter to the comparison. */
  lemma TimeIsIgnored(prev: seq<Condition>, rs: Readings, topologyUpdater: bool, now: int, now': int)
    ensures AreConditionsEqual(prev, GetConditions(rs, topologyUpdater, now))
            <==> AreConditionsEqual(prev, GetConditions(rs, topologyUpdater, now'))
  {
    ReportOfOutput(rs, topologyUpdater, now);
    ReportOfOutput(rs, topologyUpdater, now');
    ReportDecides(prev, GetConditions(rs, topologyUpdater, now), GetConditions(rs, topologyUpdater, now'));
  }

  /** A computed list that the stored one does not answer is a different list. */
  lemma UnequalDiffers(prev: seq<Condition>, next: seq<Condition>)
    requires WellKinded(next) && !AreConditionsEqual(prev, next)
    ensures prev != next
  {
    EqualIsSameReport(next, next);
  }

  // ---------- What GetConditions says ----------

  predicate Ready(c: Component, rd: Reading) {
    rd.Seen? &&
    if IsDaemonSet(c)
    then rd.health.desired != 0 && rd.health.current != 0 && rd.health.ready == rd.health.desired
    else rd.health.available != 0
  }

  /** The components whose readiness counts, in the order in which problems are reported. */
  function Watched(topologyUpdater: bool): seq<Component> {
    [Worker, Master, GC] + if topologyUpdater then [Topology] else []
  }

  ghost predicate AllReady(rs: Readings, topologyUpdater: bool) {
    forall c :: c in Watched(topologyUpdater) ==> Ready(c, rs.Of(c))
  }

  /** `c` is the first watched component that is not ready. */
  ghost predicate FirstUnready(rs: Readings, topologyUpdater: bool, c: Component) {
    exists k :: 0 <= k < |Watched(topologyUpdater)| && Watched(topologyUpdater)[k] == c
      && !Ready(c, rs.Of(c))
      && forall j :: 0 <= j < k ==> Ready(Watched(topologyUpdater)[j], rs.Of(Watched(topologyUpdater)[j]))
  }

  /** The reading back of a published reason. */
  function DecodeReason(reason: string): Option<(Component, Kind)> {
    if reason == "FailedGettingNFDWorkerDaemonSet" then Some((Worker, FailedGetting))
    else if reason == "NFDWorkerDaemonSetDegraded" then Some((Worker, IsDegraded))
    else if reason == "NFDWorkerDaemonSetProgressing" then Some((Worker, IsProgressing))
    else if reason == "FailedGettingNFDTopologyDaemonSet" then Some((Topology, FailedGetting))
    else if reason == "NFDTopologyDaemonSetDegraded" then Some((Topology, IsDegraded))
    else if reason == "NFDTopologyDaemonSetProgressing" then Some((Topology, IsProgressing))
    else if reason == "FailedGettingNFDMasterDeployment" then Some((Master, FailedGetting))
    else if reason == "NFDMasterDeploymentDegraded" then Some((Master, IsDegraded))
    else if reason == "NFDMasterDeploymentProgressing" then Some((Master, IsProgressing))
    else if reason == "FailedGettingNFDGCDeployment" then Some((GC, FailedGetting))
    else if reason == "NFDGCDegraded" then Some((GC, IsDegraded))
    else if reason == "NFDGCDeploymentProgressing" then Some((GC, IsProgressing))
    else None
  }

  /** The twelve reasons can be told apart, so a reason names one component and one kind of failure. */
  lemma ReasonDecodes(c: Component, kind: Kind)
    requires c != WorkerConfig
    ensures DecodeReason(ReasonOf(c, kind)) == Some((c, kind))
  {
    assert "NFDTopologyDaemonSetProgressing"[0] != "FailedGettingNFDWorkerDaemonSet"[0];
    assert "NFDMasterDeploymentDegraded"[3] != "NFDWorkerDaemonSetDegraded"[3];
    assert "NFDTopologyDaemonSetDegraded"[0] != "FailedGettingNFDGCDeployment"[0];
    assert |"FailedGettingNFDWorkerDaemonSet"| == 31;
    assert |"NFDWorkerDaemonSetDegraded"| == 26;
    assert |"NFDWorkerDaemonSetProgressing"| == 29;
    assert |"FailedGettingNFDTopologyDaemonSet"| == 33;
    assert |"NFDTopologyDaemonSetDegraded"| == 28;
    assert |"NFDTopologyDaemonSetProgressing"| == 31;
    assert |"FailedGettingNFDMasterDeployment"| == 32;
    assert |"NFDMasterDeploymentDegraded"| == 27;
    assert |"NFDMasterDeploymentProgressing"| == 30;
    assert |"FailedGettingNFDGCDeployment"| == 28;
    assert |"NFDGCDegraded"| == 13;
    assert |"NFDGCDeploymentProgressing"| == 26;
    assert "NFDGCDeploymentProgressing"[3] != "NFDWorkerDaemonSetDegraded"[3];
  }

  lemma KindsAreDistinct(cs: seq<Condition>)
    requires WellKinded(cs)
    ensures DistinctKinds(cs)
  {
    KindsDiffer();
  }

  /** The condition of a problem list that says which problem it is. */
  function Shown(cs: seq<Condition>): Condition
    requires |cs| == 4
  {
    if cs[2].status == True then cs[2] else cs[3]
  }

  /** The reading of `c` warrants this problem and no other, told from what was read alone. */
  predicate Warrants(c: Component, rd: Reading, p: Problem) {
    match rd
    case Failed(message) => p == Problem(FailedGetting, message)
    case Seen(h) =>
      if c == Worker || c == Topology then
        || (h.desired == 0 && p == Problem(IsDegraded, "number of desired nodes for scheduling is 0"))
        || (h.desired != 0 && h.current == 0 && p == Problem(IsDegraded, "0 nodes have pods scheduled"))
        || (h.desired != 0 && h.current != 0 && h.ready != h.desired
            && p == Problem(IsProgressing, "ds is progressing"))
      else
        h.available == 0 && p == Problem(IsDegraded, "number of available pods is 0")
  }

  lemma ProblemIsWarranted(c: Component, rd: Reading)
    requires c != WorkerConfig
    ensures forall p :: ProblemOf(c, rd) == Some(p) <==> Warrants(c, rd, p)
    ensures ProblemOf(c, rd).None? <==> Ready(c, rd)
  {
  }

  /** The condition that does not hold, and what the two say that hold when all is well. */
  predicate Standard(c: Condition) {
    if c.status == False then c.reason == "ConditionNotBeingMetCurrently" && c.message == ""
    else if c.kind == "Available" then c.reason == "AllInstanceComponentsAreDeployedSuccessfuly" && c.message == ""
    else if c.kind == "Upgradeable" then c.reason == "CanBeUpgraded" && c.message == ""
    else c.kind == "Progressing" || c.kind == "Degraded"
  }

  lemma BuildersAreStandard(reason: string, message: string, now: int)
    ensures forall i :: 0 <= i < 4 ==>
      && Standard(AvailableConditions(now)[i])
      && Standard(DegradedConditions(reason, message, now)[i])
      && Standard(ProgressingConditions(reason, message, now)[i])
  {
    KindsDiffer();
  }

  /** What the conditions published for a problem look like, whatever the component. */
  ghost predicate ProblemList(cs: seq<Condition>, now: int) {
    && WellKinded(cs)
    && (forall i :: 0 <= i < 4 ==> cs[i].stamp == now && cs[i].status != Unknown && Standard(cs[i]))
    && cs[0].status == False && cs[1].status == False
    && (set i | 0 <= i < 4 && i != 1 && cs[i].status == True) == (if cs[2].status == True then {2} else {3})
  }

  /** It shows the kind and the message of the problem, and names the component. */
  lemma ProblemShown(c: Component, rd: Reading, now: int)
    requires c != WorkerConfig && NotAvailableConditions(c, rd, now).Some?
    ensures var cs, p := NotAvailableConditions(c, rd, now).value, ProblemOf(c, rd).value;
      && ProblemList(cs, now)
      && DecodeReason(Shown(cs).reason) == Some((c, p.kind)) && Shown(cs).message == p.message
      && (p.kind == IsProgressing <==> cs[2].status == True) && (p.kind != IsProgressing <==> cs[3].status == True)
  {
    var p := ProblemOf(c, rd).value;
    BuildersAreStandard(ReasonOf(c, p.kind), p.message, now);
    ReasonDecodes(c, p.kind);
  }

  /** The list blames `c`: the first watched component that is not ready, with its problem. */
  ghost predicate Blames(cs: seq<Condition>, rs: Readings, topologyUpdater: bool, c: Component, p: Problem)
    requires |cs| == 4
  {
    && FirstUnready(rs, topologyUpdater, c)
    && Warrants(c, rs.Of(c), p)
    && DecodeReason(Shown(cs).reason) == Some((c, p.kind))
    && Shown(cs).message == p.message
    && (p.kind == IsProgressing <==> cs[2].status == True) && (p.kind != IsProgressing <==> cs[3].status == True)
  }

  /**
   Whatever the cluster looks like: four distinct types; exactly one of Available, Progressing and
   Degraded holds; Upgradeable agrees with Available; Available holds exactly when every watched
   component is ready; and otherwise the condition that holds names the first component that is
   not ready, in a reason that decodes to nothing else, with the kind of failure and the message that
   the reading warrants. A condition that does not hold says so and no more.
   */
  lemma ConditionsTellTheFirstProblem(rs: Readings, topologyUpdater: bool, now: int)
    ensures var cs := GetConditions(rs, topologyUpdater, now);
      && WellKinded(cs) && DistinctKinds(cs)
      && (forall i :: 0 <= i < 4 ==> cs[i].stamp == now && cs[i].status != Unknown && Standard(cs[i]))
      && (cs[1].status == True <==> cs[0].status == True)
      && |set i | 0 <= i < 4 && i != 1 && cs[i].status == True| == 1
      && (cs[0].status == True <==> AllReady(rs, topologyUpdater))
      && (cs[0].status != True ==> exists c, p :: Blames(cs, rs, topologyUpdater, c, p))
  {
    GetConditionsWellKinded(rs, topologyUpdater, now);
    KindsAreDistinct(GetConditions(rs, topologyUpdater, now));
    var w := Watched(topologyUpdater);
    assert w[0] == Worker && w[1] == Master && w[2] == GC && (topologyUpdater ==> w[3] == Topology);
    var cs := GetConditions(rs, topologyUpdater, now);
    if ProblemOf(Worker, rs.worker).Some? {
      ShownProblem(rs, topologyUpdater, now, 0);
    } else if ProblemOf(Master, rs.master).Some? {
      ShownProblem(rs, topologyUpdater, now, 1);
    } else if ProblemOf(GC, rs.gc).Some? {
      ShownProblem(rs, topologyUpdater, now, 2);
    } else if topologyUpdater && ProblemOf(Topology, rs.topology).Some? {
      ShownProblem(rs, topologyUpdater, now, 3);
    } else {
      AllReadyShows(rs, topologyUpdater, now);
      BuildersAreStandard("", "", now);
    }
  }

  lemma AllReadyShows(rs: Readings, topologyUpdater: bool, now: int)
    requires forall c :: c in Watched(topologyUpdater) ==> ProblemOf(c, rs.Of(c)).None?
    ensures AllReady(rs, topologyUpdater) && GetConditions(rs, topologyUpdater, now) == AvailableConditions(now)
    ensures (set i | 0 <= i < 4 && i != 1 && AvailableConditions(now)[i].status == True) == {0}
  {
    var w := Watched(topologyUpdater);
    forall c | c in w ensures Ready(c, rs.Of(c)) { ProblemIsWarranted(c, rs.Of(c)); }
    assert w[0] in w && w[1] in w && w[2] in w && (topologyUpdater ==> w[3] in w);
  }

  lemma ShownProblem(rs: Readings, topologyUpdater: bool, now: int, k: nat)
    requires k < |Watched(topologyUpdater)|
    requires forall j :: 0 <= j < k ==>
      ProblemOf(Watched(topologyUpdater)[j], rs.Of(Watched(topologyUpdater)[j])).None?
    requires ProblemOf(Watched(topologyUpdater)[k], rs.Of(Watched(topologyUpdater)[k])).Some?
    ensures var cs := GetConditions(rs, topologyUpdater, now);
      && ProblemList(cs, now) && !AllReady(rs, topologyUpdater)
      && exists c, p :: Blames(cs, rs, topologyUpdater, c, p)
  {
    var w := Watched(topologyUpdater);
    assert w[0] == Worker && w[1] == Master && w[2] == GC && (topologyUpdater ==> w[3] == Topology);
    var c := w[k];
    assert c in w;
    forall j | 0 <= j <= k ensures Ready(w[j], rs.Of(w[j])) <==> j < k {
      ProblemIsWarranted(w[j], rs.Of(w[j]));
    }
    var cs := GetConditions(rs, topologyUpdater, now);
    FirstProblemShows(rs, topologyUpdater, now, k);
    ProblemIsWarranted(c, rs.Of(c));
    ProblemShown(c, rs.Of(c), now);
    assert Blames(cs, rs, topologyUpdater, c, ProblemOf(c, rs.Of(c)).value);
  }

  /** The first problem in the watched order decides the whole list. */
  lemma FirstProblemShows(rs: Readings, topologyUpdater: bool, now: int, k: nat)
    requires k < |Watched(topologyUpdater)|
    requires forall j :: 0 <= j < k ==>
      ProblemOf(Watched(topologyUpdater)[j], rs.Of(Watched(topologyUpdater)[j])).None?
    requires ProblemOf(Watched(topologyUpdater)[k], rs.Of(Watched(topologyUpdater)[k])).Some?
    ensures var c := Watched(topologyUpdater)[k];
      Some(GetConditions(rs, topologyUpdater, now)) == NotAvailableConditions(c, rs.Of(c), now)
  {
    var w := Watched(topologyUpdater);
    assert w[0] == Worker && w[1] == Master && w[2] == GC && (topologyUpdater ==> w[3] == Topology);
    if k >= 1 { assert ProblemOf(w[0], rs.Of(w[0])).None?; }
    if k >= 2 { assert ProblemOf(w[1], rs.Of(w[1])).None?; }
    if k >= 3 { assert ProblemOf(w[2], rs.Of(w[2])).None?; }
  }
}
