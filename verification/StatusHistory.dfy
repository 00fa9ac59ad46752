/** The status handler over a sequence of undisturbed calls: when it writes, and what is then stored. */
module StatusHistory {
  import opened Types
  import opened Status

  datatype Log = Log(stored: seq<Condition>, writes: nat)

  /** One call: nothing is written if the stored conditions already say the same. */
  function HandleStatus(log: Log, computed: seq<Condition>): Log {
    if AreConditionsEqual(log.stored, computed) then log else Log(computed, log.writes + 1)
  }

  /** A sequence of calls, starting from no conditions at all; `cs` is what each of them computes. */
  function Replay(cs: seq<seq<Condition>>): Log {
    if cs == [] then Log([], 0) else HandleStatus(Replay(cs[..|cs| - 1]), cs[|cs| - 1])
  }

  /** The report of call `i` differs from that of the call before; the first call has none before. */
  predicate Changes(cs: seq<seq<Condition>>, i: nat)
    requires i < |cs|
  {
    i == 0 || Report(cs[i]) != Report(cs[i - 1])
  }

  function ChangePoints(cs: seq<seq<Condition>>): set<nat> {
    set i: nat | i < |cs| && Changes(cs, i)
  }

  /** `stored` is what was computed at call `k`, the last one at which the report changed. */
  ghost predicate FromLastChange(cs: seq<seq<Condition>>, stored: seq<Condition>, k: nat) {
    && k < |cs| && Changes(cs, k) && stored == cs[k]
    && (forall i :: k < i < |cs| ==> !Changes(cs, i))
  }

  ghost predicate Standard(cs: seq<seq<Condition>>) {
    forall i :: 0 <= i < |cs| ==> WellKinded(cs[i])
  }

  lemma FirstWrite(cs: seq<seq<Condition>>)
    requires |cs| == 1 && Standard(cs)
    ensures Replay(cs) == Log(cs[0], 1) && ChangePoints(cs) == {0} && FromLastChange(cs, cs[0], 0)
  {
    assert !Answers([], cs[0][0]);
    assert cs[..0] == [];
  }

  /** Between changes the report stays what it was at the last one. */
  lemma {:induction false} ReportStays(cs: seq<seq<Condition>>, k: nat, n: nat)
    requires k <= n < |cs| && forall i :: k < i <= n ==> !Changes(cs, i)
    ensures Report(cs[n]) == Report(cs[k])
    decreases n
  {
    if k < n {
      ReportStays(cs, k, n - 1);
      assert !Changes(cs, n);
    }
  }

  /** Against a computed list, the handler writes exactly when the report is another. */
  lemma HandledByReport(log: Log, computed: seq<Condition>)
    requires WellKinded(log.stored) && WellKinded(computed)
    ensures HandleStatus(log, computed) ==
            if Report(log.stored) == Report(computed) then log else Log(computed, log.writes + 1)
  {
    EqualIsSameReport(log.stored, computed);
  }

  lemma PrefixChanges(cs: seq<seq<Condition>>, n: nat)
    requires n == |cs| - 1
    ensures forall i: nat :: i < n ==> (Changes(cs, i) <==> Changes(cs[..n], i))
    ensures ChangePoints(cs) == ChangePoints(cs[..n]) + if Changes(cs, n) then {n} else {}
    ensures n !in ChangePoints(cs[..n])
  {
    forall i: nat | i < n ensures Changes(cs, i) <==> Changes(cs[..n], i) {
      assert cs[..n][i] == cs[i];
      if i > 0 { assert cs[..n][i - 1] == cs[i - 1]; }
    }
  }

  lemma CountChanges(cs: seq<seq<Condition>>, n: nat)
    requires n == |cs| - 1
    ensures |ChangePoints(cs)| == |ChangePoints(cs[..n])| + if Changes(cs, n) then 1 else 0
  {
    PrefixChanges(cs, n);
  }

  lemma NextWrite(cs: seq<seq<Condition>>, n: nat, k: nat, log: Log)
    requires n == |cs| - 1 && Standard(cs) && FromLastChange(cs[..n], log.stored, k)
    ensures HandleStatus(log, cs[n]).writes == log.writes + if Changes(cs, n) then 1 else 0
    ensures FromLastChange(cs, HandleStatus(log, cs[n]).stored, if Changes(cs, n) then n else k)
  {
    PrefixChanges(cs, n);
    assert log.stored == cs[k] && k < n;
    assert WellKinded(cs[k]) && WellKinded(cs[n]);
    forall i | k < i < n ensures !Changes(cs, i) { assert !Changes(cs[..n], i); }
    ReportStays(cs, k, n - 1);
    HandledByReport(log, cs[n]);
  }

  /**
   Starting from no conditions at all, the handler writes exactly as often as the report changes,
   and what is stored, timestamps included, is what was computed at the last change.
   */
  lemma {:induction false} WritesAreChanges(cs: seq<seq<Condition>>)
    requires Standard(cs)
    ensures Replay(cs).writes == |ChangePoints(cs)|
    ensures cs != [] ==> exists k: nat :: FromLastChange(cs, Replay(cs).stored, k)
    decreases |cs|
  {
    if |cs| == 0 {
      assert ChangePoints(cs) == {};
    } else if |cs| == 1 {
      FirstWrite(cs);
    } else {
      var n := |cs| - 1;
      WritesAreChanges(cs[..n]);
      var log := Replay(cs[..n]);
      var k: nat :| FromLastChange(cs[..n], log.stored, k);
      NextWrite(cs, n, k, log);
      CountChanges(cs, n);
      assert Replay(cs) == HandleStatus(log, cs[n]);
    }
  }

  /** What one call finds, and when. */
  datatype Sample = Sample(rs: Readings, topologyUpdater: bool, now: int)

  /** This covers every sequence of clusters the handler may meet, at whatever times. */
  lemma WritesOfTheHandler(xs: seq<Sample>, cs: seq<seq<Condition>>)
    requires |cs| == |xs|
    requires forall i :: 0 <= i < |xs| ==> cs[i] == GetConditions(xs[i].rs, xs[i].topologyUpdater, xs[i].now)
    ensures Replay(cs).writes == |ChangePoints(cs)|
    ensures cs != [] ==> exists k: nat :: FromLastChange(cs, Replay(cs).stored, k)
  {
    forall i | 0 <= i < |cs| ensures WellKinded(cs[i]) {
      GetConditionsWellKinded(xs[i].rs, xs[i].topologyUpdater, xs[i].now);
    }
    WritesAreChanges(cs);
  }
}
