/**
 * Both sides together: a caller's job answered by the worker's `onmessage`
 * settles with the outcome the worker computed, discovery yields exactly the
 * exposed names, and out-of-order answers still reach their own calls.
 */
module Protocol {
  import opened Messages
  import opened Expose
  import opened Wrap

  /** The id a new job takes is found at the end of the active list. */
  lemma IndexOfLast(ids: seq<int>, id: int)
    requires id !in ids
    ensures IndexOf(ids + [id], id) == |ids|
  {
  }

  /** One proxy call answered by the worker: the call's promise settles with
      exactly what the worker's `try`/`catch` produced, the other jobs stay
      as they were, and the invariant holds. */
  lemma CallRoundTrip(t: Table, reg: Registry, functions: Functions, action: string, args: seq<Value>)
    requires Inv(t)
    ensures var req := Request(t.jobId, action, args);
      var after := Receive(Create(t, action, args), Dispatch(reg, functions, req));
      && Create(t, action, args).outbox[t.jobId] == req
      && t.jobId in after.settled
      && after.settled[t.jobId] == Evaluate(reg, functions, req)
      && after.settled == t.settled[t.jobId := Evaluate(reg, functions, req)]
      && after.active == t.active
      && Inv(after)
  {
    var req := Request(t.jobId, action, args);
    var u := Create(t, action, args);
    var resp := Dispatch(reg, functions, req);
    CreateFresh(t, action, args);
    assert Ids(u.active) == Ids(t.active) + [t.jobId];
    IndexOfLast(Ids(t.active), t.jobId);
    assert u.active[..|t.active|] == t.active;
    OutcomeRoundTrip(req.id, Evaluate(reg, functions, req), resp);
    ReceiveKeepsInv(u, resp);
  }

  /** Discovery: the first message the caller posts, answered by the worker,
      fulfils job 0 with a list the caller reads back as exactly the
      exposed names. */
  lemma DiscoveryYieldsFunctionality(reg: Registry, functions: Functions)
    ensures var start := Create(Empty(), GetFunctionality, []);
      var after := Receive(start, Dispatch(reg, functions, start.outbox[0]));
      && start.outbox[0] == Request(0, GetFunctionality, [])
      && after.active == []
      && after.settled == map[0 := Fulfilled(NamesValue(Functionality(reg)))]
      && DecodeNames(after.settled[0].value) == Some(Functionality(reg))
  {
    NamesRoundTrip(Functionality(reg));
    var start := Create(Empty(), GetFunctionality, []);
    assert Ids(start.active) == [0];
  }

  /** The proxy object built from discovery has a member for exactly the
      function-valued keys of the exposed object, and `terminate`. */
  lemma WrapperKeys(reg: Registry, wrapper: map<string, Proxy>)
    requires IsWrapperFor(wrapper, Functionality(reg))
    ensures forall k :: k in wrapper <==> Exposed(reg, k) || k == Terminate
    ensures forall k | k in wrapper && k != Terminate :: wrapper[k] == Call(k)
  {
  }

  /** Many calls in flight, answered by the worker in any order: every call
      that gets its answer settles with the outcome the worker computed for
      that call's own request. */
  lemma CallsCorrelate(t: Table, reg: Registry, functions: Functions, rs: seq<Response>, id: int)
    requires Inv(t) && id in Ids(t.active)
    requires forall m | 0 <= m < |rs| ::
      0 <= rs[m].id < |t.outbox| && rs[m] == Dispatch(reg, functions, t.outbox[rs[m].id])
    requires id in ResponseIds(rs)
    ensures id in ReceiveAll(t, rs).settled
    ensures ReceiveAll(t, rs).settled[id] == Evaluate(reg, functions, t.outbox[id])
  {
    Correlation(t, rs, id);
    var k := IndexOf(ResponseIds(rs), id);
    assert rs[k].id == id;
    OutcomeRoundTrip(id, Evaluate(reg, functions, t.outbox[id]), rs[k]);
  }
}
