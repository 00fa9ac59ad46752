/** The API server as the operator's client sees it: mutable stores, failing calls, and others who move in between. */
module ApiServer {
  import opened Types
  import opened Protocol

  datatype Result<+T> = Ok(value: T) | Err(error: Error)

  predicate IsNotFound(e: Error) {
    e.NotFound? || (e.Wrapped? && IsNotFound(e.cause))
  }

  ghost predicate IsDrift(k: Cluster, acts: seq<Action>)
    decreases |acts|
  {
    acts == [] || (Possible(k, acts[0]) && IsDrift(Act(k, acts[0]), acts[1..]))
  }

  /** What the others make of the cluster. */
  ghost function Drift(k: Cluster, acts: seq<Action>): Cluster
    requires IsDrift(k, acts)
    decreases |acts|
  {
    if acts == [] then k else Drift(Act(k, acts[0]), acts[1..])
  }

  lemma {:induction false} DriftOn(k: Cluster, acts: seq<Action>, a: Action)
    requires IsDrift(k, acts) && Possible(Drift(k, acts), a)
    ensures IsDrift(k, acts + [a]) && Drift(k, acts + [a]) == Act(Drift(k, acts), a)
    decreases |acts|
  {
    if acts == [] {
      assert [a][1..] == [];
      assert acts + [a] == [a];
    } else {
      assert (acts + [a])[1..] == acts[1..] + [a];
      DriftOn(Act(k, acts[0]), acts[1..], a);
    }
  }

  class Server {
    var cr: Option<CR>
    var components: map<Component, Object>
    var job: Option<Job>
    var nextUid: nat
    var queued: bool

    function View(): Cluster
      reads this
    {
      Cluster(cr, components, job, nextUid, queued)
    }

    method Become(k: Cluster)
      modifies this
      ensures View() == k
    {
      cr, components, job, nextUid, queued := k.cr, k.comps, k.job, k.nextUid, k.queued;
    }

    /** Time passes: users, Kubernetes and other controllers make any number of moves. */
    method Elapse() returns (ghost acts: seq<Action>)
      modifies this
      ensures IsDrift(old(View()), acts) && View() == Drift(old(View()), acts)
    {
      acts := [];
      var n: nat := *;
      while n > 0
        invariant IsDrift(old(View()), acts) && View() == Drift(old(View()), acts)
      {
        var a: Action := *;
        if Possible(View(), a) {
          DriftOn(old(View()), acts, a);
          Become(Act(View(), a));
          acts := acts + [a];
        }
        n := n - 1;
      }
    }

    /** The circumstances of the next call. */
    method Circumstances() returns (ch: Choice)
    {
      ch := *;
    }

    method GetCr() returns (r: Result<CR>, ghost acts: seq<Action>, ghost ch: Choice)
      modifies this
      ensures IsDrift(old(View()), acts) && View() == Drift(old(View()), acts)
      ensures if !ch.fault.Fine? then r.Err? && !IsNotFound(r.error)
              else if View().cr.Some? then r == Ok(View().cr.value)
              else r == Err(NotFound)
    {
      acts := Elapse();
      var c := Circumstances();
      ch := c;
      if !c.fault.Fine? {
        r := Err(Failure(c.fault.message));
      } else if cr.Some? {
        r := Ok(cr.value);
      } else {
        r := Err(NotFound);
      }
    }

    method Get(c: Component) returns (r: Result<Object>, ghost acts: seq<Action>, ghost ch: Choice)
      modifies this
      ensures IsDrift(old(View()), acts) && View() == Drift(old(View()), acts)
      ensures if !ch.fault.Fine? then r == Err(Failure(ch.fault.message))
              else if c in View().comps then r == Ok(View().comps[c])
              else r == Err(NotFound)
    {
      acts := Elapse();
      var x := Circumstances();
      ch := x;
      if !x.fault.Fine? {
        r := Err(Failure(x.fault.message));
      } else if c in components {
        r := Ok(components[c]);
      } else {
        r := Err(NotFound);
      }
    }

    method GetJob() returns (r: Result<Job>, ghost acts: seq<Action>, ghost ch: Choice)
      modifies this
      ensures IsDrift(old(View()), acts) && View() == Drift(old(View()), acts)
      ensures if !ch.fault.Fine? then r == Err(Failure(ch.fault.message))
              else if View().job.Some? then r == Ok(View().job.value)
              else r == Err(NotFound)
    {
      acts := Elapse();
      var x := Circumstances();
      ch := x;
      if !x.fault.Fine? {
        r := Err(Failure(x.fault.message));
      } else if job.Some? {
        r := Ok(job.value);
      } else {
        r := Err(NotFound);
      }
    }

    method Create(c: Component, o: Object) returns (err: Option<Error>, ghost acts: seq<Action>, ghost ch: Choice)
      modifies this
      ensures IsDrift(old(View()), acts)
      ensures var out := CreateComponent(Drift(old(View()), acts), c, o, ch);
              View() == out.k && err.Some? == out.err
    {
      acts := Elapse();
      var x := Circumstances();
      ch := x;
      var out := CreateComponent(View(), c, o, x);
      Become(out.k);
      err := if out.err then Some(Failure("create")) else None;
    }

    /** The patch carries the difference between what was read and what is wanted. */
    method Patch(c: Component, seen: Object, want: Object)
      returns (err: Option<Error>, ghost acts: seq<Action>, ghost ch: Choice)
      modifies this
      ensures IsDrift(old(View()), acts)
      ensures var out := PatchComponent(Drift(old(View()), acts), c, seen, want, ch);
              View() == out.k && err.Some? == out.err
    {
      acts := Elapse();
      var x := Circumstances();
      ch := x;
      var out := PatchComponent(View(), c, seen, want, x);
      Become(out.k);
      err := if out.err then Some(Failure("patch")) else None;
    }

    /** Deletion reports an absent object; whether that is an error is for the caller to say. */
    method Delete(c: Component) returns (err: Option<Error>, ghost acts: seq<Action>, ghost ch: Choice)
      modifies this
      ensures IsDrift(old(View()), acts)
      ensures var mid := Drift(old(View()), acts);
        var out := DeleteComponent(mid, c, ch);
        && View() == out.k
        && ((err.Some? && !IsNotFound(err.value)) == out.err)
        && (ch.fault.Fine? && c !in mid.comps ==> err == Some(NotFound))
    {
      acts := Elapse();
      var x := Circumstances();
      ch := x;
      var out := DeleteComponent(View(), c, x);
      err := if out.err then Some(Failure("delete")) else if c !in components then Some(NotFound) else None;
      Become(out.k);
    }

    method Update(seen: CR, sent: CR) returns (err: Option<Error>, ghost acts: seq<Action>, ghost ch: Choice)
      modifies this
      ensures IsDrift(old(View()), acts)
      ensures var out := UpdateCr(Drift(old(View()), acts), seen, sent, ch);
              View() == out.k && err.Some? == out.err
    {
      acts := Elapse();
      var x := Circumstances();
      ch := x;
      var out := UpdateCr(View(), seen, sent, x);
      Become(out.k);
      err := if out.err then Some(Failure("update")) else None;
    }

    method PatchConditions(conditions: seq<Condition>)
      returns (err: Option<Error>, ghost acts: seq<Action>, ghost ch: Choice)
      modifies this
      ensures IsDrift(old(View()), acts)
      ensures var out := PatchStatus(Drift(old(View()), acts), conditions, ch);
              View() == out.k && err.Some? == out.err
    {
      acts := Elapse();
      var x := Circumstances();
      ch := x;
      var out := PatchStatus(View(), conditions, x);
      Become(out.k);
      err := if out.err then Some(Failure("patch status")) else None;
    }

    method CreatePruneJob(j: Job) returns (err: Option<Error>, ghost acts: seq<Action>, ghost ch: Choice)
      modifies this
      ensures IsDrift(old(View()), acts)
      ensures var out := CreateJob(Drift(old(View()), acts), j, ch);
              View() == out.k && err.Some? == out.err
    {
      acts := Elapse();
      var x := Circumstances();
      ch := x;
      var out := CreateJob(View(), j, x);
      Become(out.k);
      err := if out.err then Some(Failure("create job")) else None;
    }
  }
}
