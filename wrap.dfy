/**
 * The caller side (`wrap`, src/wrap.ts): the job counter, the table of
 * active jobs, the correlation of responses to jobs, the reject-all on a
 * worker error, and the proxy object built from discovery.
 *
 * The state is first described as a value (`Table`) with one step function
 * per handler; the class `Caller` holds the same state in fields and its
 * methods are proved to perform exactly those steps.
 */
module Wrap {
  import opened Messages

  /** An active job: the request it sent (its resolve and reject callbacks
      are modelled by the `settled` log of the table). */
  datatype Job = Job(request: Request)

  /** The caller's state: the next id, the active jobs in creation order,
      how each finished job settled (keyed by id), and the requests posted
      to the worker. */
  datatype Table = Table(jobId: nat, active: seq<Job>, settled: map<int, Outcome>, outbox: seq<Request>)

  /** The ids of a job list, position by position */
  function Ids(jobs: seq<Job>): (ids: seq<int>)
    ensures |ids| == |jobs|
    ensures forall i | 0 <= i < |jobs| :: ids[i] == jobs[i].request.id
  {
    seq(|jobs|, i requires 0 <= i < |jobs| => jobs[i].request.id)
  }

  predicate Distinct(ids: seq<int>) {
    forall i, j | 0 <= i < j < |ids| :: ids[i] != ids[j]
  }

  /** `findIndex`: the first position holding `id`, or -1 */
  function IndexOf(ids: seq<int>, id: int): (k: int)
    ensures -1 <= k < |ids|
    ensures k == -1 <==> id !in ids
    ensures 0 <= k ==> ids[k] == id && id !in ids[..k]
  {
    if ids == [] then -1
    else if ids[0] == id then 0
    else
      var k := IndexOf(ids[1..], id);
      assert ids[..k + 1 + 1] == [ids[0]] + ids[1..][..k + 1];
      if k == -1 then -1 else k + 1
  }

  /** The table's invariant. Ids are handed out as 0, 1, 2, ...; request `i`
      is the `i`-th posted message; every issued id is either still active
      (once) or settled, never both. */
  predicate Inv(t: Table) {
    && Distinct(Ids(t.active))
    && |t.outbox| == t.jobId
    && (forall i | 0 <= i < |t.outbox| :: t.outbox[i].id == i)
    && (forall job | job in t.active ::
          0 <= job.request.id < t.jobId && t.outbox[job.request.id] == job.request)
    && (forall id | id in t.settled :: 0 <= id < t.jobId && id !in Ids(t.active))
    && (forall id | 0 <= id < t.jobId :: id in t.settled || id in Ids(t.active))
  }

  /** The state before any job */
  function Empty(): Table {
    Table(0, [], map[], [])
  }

  /** `createJob`: a request with the next id is appended to the active jobs and posted */
  function Create(t: Table, action: string, payload: seq<Value>): (u: Table)
    ensures u.jobId == t.jobId + 1 && u.settled == t.settled
    ensures |u.outbox| == |t.outbox| + 1 && |u.active| == |t.active| + 1
    ensures u.outbox[..|t.outbox|] == t.outbox && u.active[..|t.active|] == t.active
    ensures u.outbox[|t.outbox|] == u.active[|t.active|].request
    ensures u.outbox[|t.outbox|] == Request(t.jobId, action, payload)
  {
    var req := Request(t.jobId, action, payload);
    Table(t.jobId + 1, t.active + [Job(req)], t.settled, t.outbox + [req])
  }

  /** `worker.onmessage`: the first job with the response's id is spliced
      out and settled with the response; an unknown id changes nothing. */
  function Receive(t: Table, r: Response): (u: Table)
    ensures u.jobId == t.jobId && u.outbox == t.outbox
    ensures r.id !in Ids(t.active) ==> u == t
    ensures r.id in Ids(t.active) ==>
      |u.active| == |t.active| - 1 && r.id in u.settled && u.settled[r.id] == OutcomeOf(r)
  {
    var k := IndexOf(Ids(t.active), r.id);
    if k < 0 then t
    else t.(active := t.active[..k] + t.active[k + 1..], settled := t.settled[r.id := OutcomeOf(r)])
  }

  /** `worker.onerror`: every active job is rejected with the error, and none remains */
  function Fail(t: Table, error: Value): (u: Table)
    ensures u.active == [] && u.jobId == t.jobId && u.outbox == t.outbox
    ensures forall id | id in Ids(t.active) :: id in u.settled && u.settled[id] == Rejected(error)
    ensures forall id | id in u.settled :: id in t.settled || id in Ids(t.active)
  {
    t.(active := [], settled := t.settled + RejectAll(t.active, error))
  }

  /** Every given job rejected with one error */
  function RejectAll(jobs: seq<Job>, error: Value): map<int, Outcome> {
    map id | id in Ids(jobs) :: Rejected(error)
  }

  /** Rejecting one more job extends the rejections by its id. */
  lemma RejectStep(settled: map<int, Outcome>, jobs: seq<Job>, i: nat, error: Value)
    requires i < |jobs|
    ensures (settled + RejectAll(jobs[..i], error))[jobs[i].request.id := Rejected(error)]
         == settled + RejectAll(jobs[..i + 1], error)
  {
    assert jobs[..i + 1] == jobs[..i] + [jobs[i]];
    assert Ids(jobs[..i + 1]) == Ids(jobs[..i]) + [jobs[i].request.id];
  }

  /** Responses handled one after the other, in arrival order */
  function ReceiveAll(t: Table, rs: seq<Response>): Table
    decreases |rs|
  {
    if rs == [] then t else ReceiveAll(Receive(t, rs[0]), rs[1..])
  }

  /** The jobs without the ones with a given id, in their original order */
  function Without(jobs: seq<Job>, id: int): (r: seq<Job>)
    ensures |r| <= |jobs|
  {
    if jobs == [] then []
    else if jobs[0].request.id == id then Without(jobs[1..], id)
    else [jobs[0]] + Without(jobs[1..], id)
  }

  lemma InvEmpty()
    ensures Inv(Empty())
  {
  }

  /** A new job gets the current counter as its id, an id never issued
      before and so neither active nor settled; the invariant is kept. */
  lemma CreateFresh(t: Table, action: string, payload: seq<Value>)
    requires Inv(t)
    ensures t.jobId !in Ids(t.active) && t.jobId !in t.settled
    ensures Inv(Create(t, action, payload))
  {
    var u := Create(t, action, payload);
    assert Ids(u.active) == Ids(t.active) + [t.jobId];
    forall id | 0 <= id < u.jobId ensures id in u.settled || id in Ids(u.active) {
      if id < t.jobId && id !in t.settled {
        assert id in Ids(t.active);
      }
    }
  }

  /** Splicing out the only job with a given id is filtering that id out. */
  lemma {:induction false} SpliceIsWithout(jobs: seq<Job>, k: nat, id: int)
    requires k < |jobs| && jobs[k].request.id == id
    requires forall i | 0 <= i < |jobs| && i != k :: jobs[i].request.id != id
    ensures jobs[..k] + jobs[k + 1..] == Without(jobs, id)
  {
    if k == 0 {
      assert jobs[..0] + jobs[1..] == jobs[1..];
      forall i | 0 <= i < |jobs[1..]| ensures jobs[1..][i].request.id != id {
        assert jobs[1..][i] == jobs[i + 1];
      }
      WithoutAbsent(jobs[1..], id);
    } else {
      var rest := jobs[1..];
      assert jobs[0].request.id != id;
      assert Without(jobs, id) == [jobs[0]] + Without(rest, id);
      forall i | 0 <= i < |rest| && i != k - 1 ensures rest[i].request.id != id {
        assert rest[i] == jobs[i + 1];
      }
      SpliceIsWithout(rest, k - 1, id);
      assert jobs[..k] == [jobs[0]] + rest[..k - 1];
      assert jobs[k + 1..] == rest[k - 1 + 1..];
    }
  }

  /** Filtering out an id that does not occur changes nothing. */
  lemma {:induction false} WithoutAbsent(jobs: seq<Job>, id: int)
    requires forall i | 0 <= i < |jobs| :: jobs[i].request.id != id
    ensures Without(jobs, id) == jobs
  {
    if jobs != [] {
      assert jobs[0].request.id != id;
      WithoutAbsent(jobs[1..], id);
    }
  }

  /** A response for an active job removes exactly that job, keeps the
      others in order, and settles it with the response's payload:
      fulfilled on `'success'`, rejected otherwise. */
  lemma ReceiveMatched(t: Table, r: Response)
    requires Inv(t) && r.id in Ids(t.active)
    ensures Receive(t, r).active == Without(t.active, r.id)
    ensures |Receive(t, r).active| == |t.active| - 1
    ensures Receive(t, r).settled == t.settled[r.id := OutcomeOf(r)]
    ensures r.kind == Success ==> Receive(t, r).settled[r.id] == Fulfilled(r.payload)
    ensures r.kind == Error ==> Receive(t, r).settled[r.id] == Rejected(r.payload)
    ensures Receive(t, r).jobId == t.jobId && Receive(t, r).outbox == t.outbox
  {
    var k := IndexOf(Ids(t.active), r.id);
    assert t.active[k].request.id == r.id;
    forall i | 0 <= i < |t.active| && i != k ensures t.active[i].request.id != r.id {
      assert Ids(t.active)[i] == t.active[i].request.id;
    }
    SpliceIsWithout(t.active, k, r.id);
  }

  /** A response whose id is not active (never issued, or already settled)
      is dropped: nothing changes. A named corollary of `Receive`'s own
      contract, for use in the lemmas about runs of responses. */
  lemma ReceiveUnknown(t: Table, r: Response)
    requires r.id !in Ids(t.active)
    ensures Receive(t, r) == t
  {
  }

  /** A second response for a finished job is dropped, so a job settles at
      most once and keeps its first outcome. */
  lemma SettleAtMostOnce(t: Table, r: Response)
    requires Inv(t) && r.id in t.settled
    ensures Receive(t, r) == t
  {
  }

  /** Splicing one job out of a list with distinct ids keeps the ids
      distinct and removes exactly that job's id. */
  lemma SpliceIds(a: seq<Job>, k: nat)
    requires k < |a| && Distinct(Ids(a))
    ensures Distinct(Ids(a[..k] + a[k + 1..]))
    ensures forall x :: x in Ids(a[..k] + a[k + 1..]) <==> x in Ids(a) && x != a[k].request.id
    ensures forall job | job in a[..k] + a[k + 1..] :: job in a
  {
    var b := a[..k] + a[k + 1..];
    assert forall i | 0 <= i < |b| :: b[i] == a[if i < k then i else i + 1];
    forall i, j | 0 <= i < j < |b| ensures Ids(b)[i] != Ids(b)[j] {
      assert Ids(b)[i] == Ids(a)[if i < k then i else i + 1];
      assert Ids(b)[j] == Ids(a)[if j < k then j else j + 1];
    }
    forall x ensures x in Ids(b) <==> x in Ids(a) && x != a[k].request.id {
      if x in Ids(b) {
        var i :| 0 <= i < |b| && Ids(b)[i] == x;
        assert Ids(a)[if i < k then i else i + 1] == x;
      }
      if x in Ids(a) && x != a[k].request.id {
        var i :| 0 <= i < |a| && Ids(a)[i] == x;
        assert i != k;
        assert Ids(b)[if i < k then i else i - 1] == x;
      }
    }
  }

  /** Handling a response keeps the invariant. */
  lemma ReceiveKeepsInv(t: Table, r: Response)
    requires Inv(t)
    ensures Inv(Receive(t, r))
  {
    var k := IndexOf(Ids(t.active), r.id);
    if k >= 0 {
      SpliceIds(t.active, k);
      var u := Receive(t, r);
      assert t.active[k].request.id == r.id;
      assert t.active[k] in t.active;
      assert forall id | id in u.settled :: 0 <= id < u.jobId && id !in Ids(u.active);
      assert forall id | 0 <= id < u.jobId :: id in u.settled || id in Ids(u.active);
    }
  }

  /** A response for another id leaves an active job active. */
  lemma ReceiveOther(t: Table, r: Response, id: int)
    requires Inv(t) && id in Ids(t.active) && r.id != id
    ensures id in Ids(Receive(t, r).active)
  {
    var k := IndexOf(Ids(t.active), r.id);
    if k >= 0 {
      SpliceIds(t.active, k);
      assert t.active[k].request.id == r.id;
    }
  }

  /** A worker error rejects every active job with that error, leaves no
      active job, keeps earlier outcomes, and keeps the invariant. */
  lemma FailRejectsAll(t: Table, error: Value)
    requires Inv(t)
    ensures Fail(t, error).active == []
    ensures forall id | id in Ids(t.active) :: Fail(t, error).settled[id] == Rejected(error)
    ensures forall id | id in t.settled :: Fail(t, error).settled[id] == t.settled[id]
    ensures Fail(t, error).settled.Keys == t.settled.Keys + set id | id in Ids(t.active)
    ensures Inv(Fail(t, error))
  {
  }

  /** Once settled, a job stays settled with the same outcome and never
      becomes active again, whatever responses follow. */
  lemma {:induction false} SettledStays(t: Table, rs: seq<Response>, id: int)
    requires Inv(t) && id in t.settled
    ensures Inv(ReceiveAll(t, rs))
    ensures id in ReceiveAll(t, rs).settled && ReceiveAll(t, rs).settled[id] == t.settled[id]
    ensures id !in Ids(ReceiveAll(t, rs).active)
    decreases |rs|
  {
    if rs != [] {
      ReceiveKeepsInv(t, rs[0]);
      SettledStays(Receive(t, rs[0]), rs[1..], id);
    }
  }

  /** The ids of a response sequence */
  function ResponseIds(rs: seq<Response>): (ids: seq<int>)
    ensures |ids| == |rs|
    ensures forall i | 0 <= i < |rs| :: ids[i] == rs[i].id
  {
    seq(|rs|, i requires 0 <= i < |rs| => rs[i].id)
  }

  /** The first position of `id` in a sequence is found one step later in its tail. */
  lemma IndexOfTail(ids: seq<int>, id: int)
    requires ids != [] && ids[0] != id
    ensures var k1 := IndexOf(ids[1..], id); IndexOf(ids, id) == if k1 < 0 then -1 else k1 + 1
  {
  }

  /** Correlation: whatever order responses arrive in, an active job settles
      with the outcome of the first response carrying its own id; while no
      such response has arrived it stays active. */
  lemma {:induction false} Correlation(t: Table, rs: seq<Response>, id: int)
    requires Inv(t) && id in Ids(t.active)
    ensures var k := IndexOf(ResponseIds(rs), id); var u := ReceiveAll(t, rs);
      if k < 0 then id in Ids(u.active) && id !in u.settled
      else id !in Ids(u.active) && id in u.settled && u.settled[id] == OutcomeOf(rs[k])
    decreases |rs|
  {
    if rs != [] {
      ReceiveKeepsInv(t, rs[0]);
      if rs[0].id == id {
        CorrelationHit(t, rs, id);
      } else {
        ReceiveOther(t, rs[0], id);
        Correlation(Receive(t, rs[0]), rs[1..], id);
        CorrelationMiss(t, rs, id);
      }
    }
  }

  /** The first response carries the job's own id: it settles the job for good. */
  lemma CorrelationHit(t: Table, rs: seq<Response>, id: int)
    requires Inv(t) && id in Ids(t.active) && rs != [] && rs[0].id == id
    ensures var u := ReceiveAll(t, rs);
      id !in Ids(u.active) && id in u.settled && u.settled[id] == OutcomeOf(rs[0])
    ensures IndexOf(ResponseIds(rs), id) == 0
  {
    ReceiveKeepsInv(t, rs[0]);
    ReceiveMatched(t, rs[0]);
    SettledStays(Receive(t, rs[0]), rs[1..], id);
  }

  /** The first response carries another id: the search goes on in the tail. */
  lemma CorrelationMiss(t: Table, rs: seq<Response>, id: int)
    requires rs != [] && rs[0].id != id
    ensures var k1 := IndexOf(ResponseIds(rs[1..]), id);
      && ReceiveAll(t, rs) == ReceiveAll(Receive(t, rs[0]), rs[1..])
      && IndexOf(ResponseIds(rs), id) == (if k1 < 0 then -1 else k1 + 1)
      && (k1 >= 0 ==> rs[k1 + 1] == rs[1..][k1])
  {
    assert ResponseIds(rs[1..]) == ResponseIds(rs)[1..];
    IndexOfTail(ResponseIds(rs), id);
  }

  /** `Without` is a filter: it keeps exactly the jobs with other ids. */
  lemma {:induction false} WithoutMembers(jobs: seq<Job>, id: int, job: Job)
    ensures job in Without(jobs, id) <==> job in jobs && job.request.id != id
  {
    if jobs != [] {
      WithoutMembers(jobs[1..], id, job);
      assert jobs == [jobs[0]] + jobs[1..];
    }
  }

  /** Handling a run of responses keeps the invariant and the counter. */
  lemma {:induction false} ReceiveAllKeepsInv(t: Table, rs: seq<Response>)
    requires Inv(t)
    ensures Inv(ReceiveAll(t, rs)) && ReceiveAll(t, rs).jobId == t.jobId
    decreases |rs|
  {
    if rs != [] {
      ReceiveKeepsInv(t, rs[0]);
      ReceiveAllKeepsInv(Receive(t, rs[0]), rs[1..]);
    }
  }

  /** Handling `a + b` is handling `a`, then `b`. */
  lemma {:induction false} ReceiveAllAppend(t: Table, a: seq<Response>, b: seq<Response>)
    ensures ReceiveAll(t, a + b) == ReceiveAll(ReceiveAll(t, a), b)
    decreases |a|
  {
    if a != [] {
      assert a + b != [] && (a + b)[0] == a[0];
      assert (a + b)[1..] == a[1..] + b;
      ReceiveAllAppend(Receive(t, a[0]), a[1..], b);
    } else {
      assert a + b == b;
    }
  }

  /** A response carrying an id that was never issued, arriving anywhere in
      a run of responses, changes nothing about how any job settles. */
  lemma StrayResponseHarmless(t: Table, before: seq<Response>, stray: Response, after: seq<Response>)
    requires Inv(t) && (stray.id < 0 || stray.id >= t.jobId)
    ensures ReceiveAll(t, before + [stray] + after) == ReceiveAll(t, before + after)
  {
    ReceiveAllKeepsInv(t, before);
    var mid := ReceiveAll(t, before);
    assert stray.id !in Ids(mid.active) by {
      forall i | 0 <= i < |mid.active| ensures Ids(mid.active)[i] != stray.id {
        assert mid.active[i] in mid.active;
      }
    }
    ReceiveUnknown(mid, stray);
    ReceiveAllAppend(t, before + [stray], after);
    ReceiveAllAppend(t, before, [stray]);
    ReceiveAllAppend(t, before, after);
  }

  /** A late response for a job that has already settled, arriving anywhere
      in a run of responses, changes nothing about how any job settles. */
  lemma StaleResponseHarmless(t: Table, before: seq<Response>, stale: Response, after: seq<Response>)
    requires Inv(t) && stale.id in t.settled
    ensures ReceiveAll(t, before + [stale] + after) == ReceiveAll(t, before + after)
  {
    SettledStays(t, before, stale.id);
    var mid := ReceiveAll(t, before);
    ReceiveUnknown(mid, stale);
    ReceiveAllAppend(t, before + [stale], after);
    ReceiveAllAppend(t, before, [stale]);
    ReceiveAllAppend(t, before, after);
  }

  /** The key under which the proxy object holds its termination function */
  const Terminate: string := "terminate"

  /** A member of the proxy object: a function posting `{action, payload: args}`,
      or `terminate`, which only ends the worker. */
  datatype Proxy = Call(action: string) | Terminator

  /** The proxy object built from a list of discovered names */
  ghost predicate IsWrapperFor(wrapper: map<string, Proxy>, names: seq<string>) {
    && wrapper.Keys == (set n | n in names) + {Terminate}
    && (forall k | k in wrapper :: wrapper[k] == if k == Terminate then Terminator else Call(k))
  }

  /** Building the proxy object: one proxy per discovered name (line by line,
      a later name overwriting an equal earlier one), then `terminate`. */
  method BuildWrapper(names: seq<string>) returns (wrapper: map<string, Proxy>)
    ensures IsWrapperFor(wrapper, names)
  {
    wrapper := map[];
    for i := 0 to |names|
      invariant wrapper.Keys == set n | n in names[..i]
      invariant forall k | k in wrapper :: wrapper[k] == Call(k)
    {
      assert names[..i + 1] == names[..i] + [names[i]];
      wrapper := wrapper[names[i] := Call(names[i])];
    }
    assert names[..|names|] == names;
    wrapper := wrapper[Terminate := Terminator];
  }

  /** The result of `wrap`: still awaiting discovery, rejected, or the proxy object */
  datatype WrapResult = Pending | Failed(error: Value) | Ready(wrapper: map<string, Proxy>)

  /** The TypeError `forEach` throws when the discovery result is not a list of names */
  function NotAList(): Value {
    ErrorObject("TypeError", "functionality.forEach is not a function")
  }

  /** `findIndex` over the active jobs, as the linear search it performs */
  method FindIndex(jobs: seq<Job>, id: int) returns (k: int)
    ensures k == IndexOf(Ids(jobs), id)
    ensures k == -1 <==> forall i | 0 <= i < |jobs| :: jobs[i].request.id != id
    ensures 0 <= k ==> k < |jobs| && jobs[k].request.id == id && forall i | 0 <= i < k :: jobs[i].request.id != id
  {
    k := 0;
    while k < |jobs| && jobs[k].request.id != id
      invariant 0 <= k <= |jobs|
      invariant forall i | 0 <= i < k :: jobs[i].request.id != id
    {
      k := k + 1;
    }
    if k == |jobs| {
      k := -1;
    }
    if k >= 0 {
      assert Ids(jobs)[..k] == Ids(jobs[..k]);
    }
  }

  /** The caller-side state of one `wrap` call, held in fields that its
      handlers update in place. */
  class Caller {
    var jobId: nat
    var activeJobs: seq<Job>
    var settled: map<int, Outcome>
    var outbox: seq<Request>
    /** How many responses were reported as answering a nonexistent job */
    ghost var anomalies: nat

    function State(): Table
      reads this
    {
      Table(jobId, activeJobs, settled, outbox)
    }

    predicate Valid()
      reads this
    {
      Inv(State())
    }

    /** `wrap` up to its first `await`: the discovery job is created, so it
        takes id 0 and is the first message posted. */
    constructor ()
      ensures Valid()
      ensures jobId == 1 && settled == map[] && anomalies == 0
      ensures outbox == [Request(0, GetFunctionality, [])]
      ensures activeJobs == [Job(Request(0, GetFunctionality, []))]
      ensures State() == Create(Empty(), GetFunctionality, [])
    {
      jobId := 0;
      activeJobs := [];
      settled := map[];
      outbox := [];
      anomalies := 0;
      new;
      InvEmpty();
      var _ := CreateJob(GetFunctionality, []);
    }

    /** `createJob`: post a request with the next id and record it as active */
    method CreateJob(action: string, payload: seq<Value>) returns (req: Request)
      requires Valid()
      modifies this
      ensures Valid()
      ensures req == Request(old(jobId), action, payload)
      ensures jobId == old(jobId) + 1
      ensures req.id !in Ids(old(activeJobs)) && req.id !in old(settled)
      ensures activeJobs == old(activeJobs) + [Job(req)]
      ensures outbox == old(outbox) + [req]
      ensures settled == old(settled) && anomalies == old(anomalies)
      ensures State() == Create(old(State()), action, payload)
    {
      CreateFresh(State(), action, payload);
      req := Request(jobId, action, payload);
      jobId := jobId + 1;
      activeJobs := activeJobs + [Job(req)];
      outbox := outbox + [req];
    }

    /** `worker.onmessage` */
    method OnMessage(resp: Response)
      requires Valid()
      modifies this
      ensures Valid()
      ensures State() == Receive(old(State()), resp)
      ensures jobId == old(jobId) && outbox == old(outbox)
      ensures resp.id in Ids(old(activeJobs)) ==>
        && activeJobs == Without(old(activeJobs), resp.id)
        && settled == old(settled)[resp.id := OutcomeOf(resp)]
        && anomalies == old(anomalies)
      ensures resp.id !in Ids(old(activeJobs)) ==>
        activeJobs == old(activeJobs) && settled == old(settled) && anomalies == old(anomalies) + 1
    {
      ghost var before := State();
      ReceiveKeepsInv(before, resp);
      var jobIndex := FindIndex(activeJobs, resp.id);
      if jobIndex < 0 {
        anomalies := anomalies + 1;
        return;
      } else {
        ReceiveMatched(before, resp);
        var job := activeJobs[jobIndex];
        activeJobs := activeJobs[..jobIndex] + activeJobs[jobIndex + 1..];
        if resp.kind == Success {
          settled := settled[job.request.id := Fulfilled(resp.payload)];
        } else {
          settled := settled[job.request.id := Rejected(resp.payload)];
        }
      }
    }

    /** `worker.onerror`: take all active jobs out, then reject each with the error */
    method OnError(error: Value)
      requires Valid()
      modifies this
      ensures Valid()
      ensures State() == Fail(old(State()), error)
      ensures activeJobs == [] && jobId == old(jobId) && outbox == old(outbox) && anomalies == old(anomalies)
      ensures forall id | id in Ids(old(activeJobs)) :: settled[id] == Rejected(error)
      ensures forall id | id in old(settled) :: settled[id] == old(settled)[id]
    {
      ghost var before := State();
      var jobs := activeJobs;
      activeJobs := [];
      for i := 0 to |jobs|
        invariant settled == old(settled) + RejectAll(jobs[..i], error)
        invariant activeJobs == [] && jobId == old(jobId) && outbox == old(outbox) && anomalies == old(anomalies)
      {
        RejectStep(old(settled), jobs, i, error);
        settled := settled[jobs[i].request.id := Rejected(error)];
      }
      assert jobs[..|jobs|] == jobs;
      assert State() == Fail(before, error);
      FailRejectsAll(before, error);
    }

    /** The rest of `wrap`, once the discovery job has settled: rejected
        discovery rejects `wrap`; a list of names gives the proxy object. */
    method AwaitDiscovery() returns (r: WrapResult)
      requires Valid()
      ensures r.Pending? <==> 0 !in settled
      ensures 0 in settled && settled[0].Rejected? ==> r == Failed(settled[0].reason)
      ensures 0 in settled && settled[0].Fulfilled? && DecodeNames(settled[0].value).None? ==> r == Failed(NotAList())
      ensures 0 in settled && settled[0].Fulfilled? && DecodeNames(settled[0].value).Some? ==>
        r.Ready? && IsWrapperFor(r.wrapper, DecodeNames(settled[0].value).value)
    {
      if 0 !in settled {
        r := Pending;
      } else {
        match settled[0] {
          case Rejected(e) =>
            r := Failed(e);
          case Fulfilled(v) =>
            match DecodeNames(v) {
              case None =>
                r := Failed(NotAList());
              case Some(functionality) =>
                var wrapper := BuildWrapper(functionality);
                r := Ready(wrapper);
            }
        }
      }
    }

    /** Calling a member of the proxy object: a proxy creates a job for its
        action with the arguments as payload; `terminate` sends nothing. */
    method Invoke(p: Proxy, args: seq<Value>) returns (req: Option<Request>)
      requires Valid()
      modifies this
      ensures Valid()
      ensures p.Call? ==> req == Some(Request(old(jobId), p.action, args)) && State() == Create(old(State()), p.action, args)
      ensures p.Terminator? ==> req == None && State() == old(State())
    {
      match p {
        case Call(fname) =>
          var sent := CreateJob(fname, args);
          req := Some(sent);
        case Terminator =>
          req := None;
      }
    }
  }
}
