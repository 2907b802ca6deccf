/**
 * The worker side (`expose`, src/expose.ts): a registry of named values, the
 * discovery filter, the execution of one request and the one response that
 * every request receives.
 */
module Expose {
  import opened Messages

  /** The value a registry key holds: a function (identified by `fn`, which
      the implementation table `Functions` interprets) or anything else. */
  datatype Entry = Callable(fn: nat) | NotCallable(v: Value)

  /** One own property of the exposed object */
  datatype Property = Property(key: string, value: Entry)

  /** The exposed object, as its properties in `Object.keys` order */
  type Registry = seq<Property>

  /** What invoking a registered function does: return a plain value, throw,
      or return a promise that eventually settles. */
  datatype CallResult = Returned(v: Value) | Threw(e: Value) | ReturnedPromise(settles: Outcome)

  /** The registered functions' behaviour, treated as an oracle */
  type Functions = (nat, seq<Value>) -> CallResult

  /** Property keys of an object are distinct. */
  predicate DistinctKeys(reg: Registry) {
    forall i, j | 0 <= i < j < |reg| :: reg[i].key != reg[j].key
  }

  /** `typeof functions[key] === 'function'` for an own property `key` */
  ghost predicate Exposed(reg: Registry, key: string) {
    exists i | 0 <= i < |reg| :: reg[i].key == key && reg[i].value.Callable?
  }

  /** `_getFunctionality`: the keys whose value is a function, in key order */
  function Functionality(reg: Registry): (names: seq<string>)
    ensures |names| <= |reg|
    ensures forall k :: k in names <==> Exposed(reg, k)
  {
    if reg == [] then []
    else
      var rest := Functionality(reg[1..]);
      assert forall k :: Exposed(reg, k) <==> (reg[0].key == k && reg[0].value.Callable?) || Exposed(reg[1..], k) by {
        forall k ensures Exposed(reg, k) ==> (reg[0].key == k && reg[0].value.Callable?) || Exposed(reg[1..], k) {
          if Exposed(reg, k) {
            var i :| 0 <= i < |reg| && reg[i].key == k && reg[i].value.Callable?;
            if i > 0 { assert reg[1..][i - 1] == reg[i]; }
          }
        }
        forall k ensures Exposed(reg[1..], k) ==> Exposed(reg, k) {
          if Exposed(reg[1..], k) {
            var i :| 0 <= i < |reg[1..]| && reg[1..][i].key == k && reg[1..][i].value.Callable?;
            assert reg[i + 1] == reg[1..][i];
          }
        }
      }
      if reg[0].value.Callable? then [reg[0].key] + rest else rest
  }

  /** `idx` lists, in increasing order, the positions of the function-valued
      properties of `reg`, and `names` holds their keys in that order. */
  ghost predicate OrderedFilter(reg: Registry, names: seq<string>, idx: seq<nat>) {
    && |idx| == |names|
    && (forall m | 0 <= m < |idx| :: idx[m] < |reg| && reg[idx[m]].value.Callable? && names[m] == reg[idx[m]].key)
    && (forall m, n | 0 <= m < n < |idx| :: idx[m] < idx[n])
    && (forall i | 0 <= i < |reg| && reg[i].value.Callable? :: i in idx)
  }

  /** Positions in `reg[1..]` shifted by one are positions in `reg`. */
  lemma ShiftFilter(reg: Registry, names: seq<string>, rest: seq<nat>) returns (shifted: seq<nat>)
    requires reg != [] && OrderedFilter(reg[1..], names, rest)
    ensures |shifted| == |names|
    ensures forall m | 0 <= m < |shifted| ::
      0 < shifted[m] < |reg| && reg[shifted[m]].value.Callable? && names[m] == reg[shifted[m]].key
    ensures forall m, n | 0 <= m < n < |shifted| :: shifted[m] < shifted[n]
    ensures forall i | 1 <= i < |reg| && reg[i].value.Callable? :: i in shifted
  {
    shifted := seq(|rest|, m requires 0 <= m < |rest| => rest[m] + 1);
    forall m | 0 <= m < |shifted|
      ensures 0 < shifted[m] < |reg| && reg[shifted[m]].value.Callable? && names[m] == reg[shifted[m]].key
    {
      assert reg[shifted[m]] == reg[1..][rest[m]];
    }
    forall i | 1 <= i < |reg| && reg[i].value.Callable? ensures i in shifted {
      assert reg[1..][i - 1] == reg[i];
      assert i - 1 in rest;
      var m :| 0 <= m < |rest| && rest[m] == i - 1;
      assert shifted[m] == i;
    }
  }

  /** A function-valued first property goes in front of the shifted positions. */
  lemma PrependFilter(reg: Registry, names: seq<string>, shifted: seq<nat>) returns (idx: seq<nat>)
    requires reg != [] && reg[0].value.Callable? && |shifted| == |names|
    requires forall m | 0 <= m < |shifted| ::
      0 < shifted[m] < |reg| && reg[shifted[m]].value.Callable? && names[m] == reg[shifted[m]].key
    requires forall m, n | 0 <= m < n < |shifted| :: shifted[m] < shifted[n]
    requires forall i | 1 <= i < |reg| && reg[i].value.Callable? :: i in shifted
    ensures OrderedFilter(reg, [reg[0].key] + names, idx)
  {
    idx := [0] + shifted;
    var all := [reg[0].key] + names;
    assert forall m | 0 < m < |idx| :: idx[m] == shifted[m - 1] && all[m] == names[m - 1];
  }

  /** `Functionality` is exactly the ordered sub-sequence of the registry's
      function-valued keys: `idx` lists their positions in increasing order. */
  lemma {:induction false} FunctionalityIsOrderedFilter(reg: Registry) returns (idx: seq<nat>)
    ensures |idx| == |Functionality(reg)|
    ensures forall m | 0 <= m < |idx| ::
      idx[m] < |reg| && reg[idx[m]].value.Callable? && Functionality(reg)[m] == reg[idx[m]].key
    ensures forall m, n | 0 <= m < n < |idx| :: idx[m] < idx[n]
    ensures forall i | 0 <= i < |reg| && reg[i].value.Callable? :: i in idx
  {
    if reg == [] {
      idx := [];
    } else {
      var rest := FunctionalityIsOrderedFilter(reg[1..]);
      var tail := Functionality(reg[1..]);
      var shifted := ShiftFilter(reg, tail, rest);
      if reg[0].value.Callable? {
        assert Functionality(reg) == [reg[0].key] + tail;
        idx := PrependFilter(reg, tail, shifted);
      } else {
        idx := shifted;
        assert Functionality(reg) == tail;
      }
    }
  }

  /** With distinct keys (as for any object), no name is listed twice. */
  lemma {:induction false} FunctionalityDistinct(reg: Registry)
    requires DistinctKeys(reg)
    ensures forall m, n | 0 <= m < n < |Functionality(reg)| :: Functionality(reg)[m] != Functionality(reg)[n]
  {
    var idx := FunctionalityIsOrderedFilter(reg);
    forall m, n | 0 <= m < n < |Functionality(reg)| ensures Functionality(reg)[m] != Functionality(reg)[n] {
      assert idx[m] < idx[n];
    }
  }

  /** `functions[key]` for an own property: the first property with that key */
  function Lookup(reg: Registry, key: string): (r: Option<Entry>)
    ensures r.None? <==> forall i | 0 <= i < |reg| :: reg[i].key != key
    ensures r.Some? ==> exists i | 0 <= i < |reg| :: reg[i] == Property(key, r.value)
  {
    if reg == [] then None
    else if reg[0].key == key then Some(reg[0].value)
    else
      var r := Lookup(reg[1..], key);
      assert r.Some? ==> exists i | 0 <= i < |reg[1..]| :: reg[1..][i] == Property(key, r.value);
      assert forall i | 0 <= i < |reg[1..]| :: reg[1..][i] == reg[i + 1];
      r
  }

  /** Whether `functions[action](...args)` calls a function rather than throwing */
  predicate Invocable(reg: Registry, action: string) {
    Lookup(reg, action).Some? && Lookup(reg, action).value.Callable?
  }

  /** A function-valued key is invocable and is exactly a discovered name. */
  lemma InvocableIsExposed(reg: Registry, action: string)
    requires DistinctKeys(reg)
    ensures Invocable(reg, action) <==> action in Functionality(reg)
  {
    if Invocable(reg, action) {
      var i :| 0 <= i < |reg| && reg[i] == Property(action, Lookup(reg, action).value);
      assert Exposed(reg, action);
    }
    if action in Functionality(reg) {
      assert Exposed(reg, action);
      var i :| 0 <= i < |reg| && reg[i].key == action && reg[i].value.Callable?;
      var j :| 0 <= j < |reg| && reg[j] == Property(action, Lookup(reg, action).value);
      assert i == j;
    }
  }

  /** The TypeError that calling a missing or non-function property throws */
  function NotAFunction(action: string): Value {
    ErrorObject("TypeError", action + " is not a function")
  }

  /** How the promise that `exec` returns, or the exception it throws, settles:
      a plain value is wrapped by `Promise.resolve`, a returned promise is
      passed on. */
  function Settle(c: CallResult): (o: Outcome)
    ensures o.Fulfilled? <==> c.Returned? || (c.ReturnedPromise? && c.settles.Fulfilled?)
    ensures c.Returned? ==> o == Fulfilled(c.v)
    ensures c.Threw? ==> o == Rejected(c.e)
    ensures c.ReturnedPromise? ==> o == c.settles
  {
    match c
    case Returned(v) => Fulfilled(v)
    case Threw(e) => Rejected(e)
    case ReturnedPromise(s) => s
  }

  /** `exec`: look the action up and call it with the payload as arguments */
  function Exec(reg: Registry, functions: Functions, req: Request): (o: Outcome)
    ensures !Invocable(reg, req.action) ==> o == Rejected(NotAFunction(req.action))
    ensures Invocable(reg, req.action) ==> o == Settle(functions(Lookup(reg, req.action).value.fn, req.payload))
  {
    match Lookup(reg, req.action)
    case Some(Callable(f)) => Settle(functions(f, req.payload))
    case _ => Rejected(NotAFunction(req.action))
  }

  /** The result of the `try` block of `onmessage`, or the error its `catch` receives */
  function Evaluate(reg: Registry, functions: Functions, req: Request): (o: Outcome)
    ensures o.Fulfilled? <==>
      req.action == GetFunctionality ||
      (Invocable(reg, req.action) && Settle(functions(Lookup(reg, req.action).value.fn, req.payload)).Fulfilled?)
    ensures req.action == GetFunctionality ==> o.value == NamesValue(Functionality(reg))
  {
    if req.action == GetFunctionality then Fulfilled(NamesValue(Functionality(reg)))
    else Exec(reg, functions, req)
  }

  /** The one response `onmessage` posts for a request */
  function Dispatch(reg: Registry, functions: Functions, req: Request): (r: Response)
    ensures r.id == req.id
    ensures req.action == GetFunctionality ==> r == Response(req.id, Success, NamesValue(Functionality(reg)))
    ensures req.action != GetFunctionality && !Invocable(reg, req.action) ==>
      r == Response(req.id, Error, NotAFunction(req.action))
    ensures req.action != GetFunctionality && Invocable(reg, req.action) ==>
      match functions(Lookup(reg, req.action).value.fn, req.payload)
      case Returned(v) => r == Response(req.id, Success, v)
      case Threw(e) => r == Response(req.id, Error, e)
      case ReturnedPromise(Fulfilled(v)) => r == Response(req.id, Success, v)
      case ReturnedPromise(Rejected(e)) => r == Response(req.id, Error, e)
  {
    ToResponse(req.id, Evaluate(reg, functions, req))
  }

  /** Discovery is answered from the registry alone: no registered function
      is invoked, so the functions' behaviour cannot change the answer. */
  lemma DiscoveryInvokesNothing(reg: Registry, f: Functions, g: Functions, req: Request)
    requires req.action == GetFunctionality
    ensures Dispatch(reg, f, req) == Dispatch(reg, g, req)
    ensures Dispatch(reg, f, req).kind == Success
  {
  }

  /** The worker: the exposed object, its functions' behaviour, and the
      messages posted back to the caller so far. */
  class Worker {
    const registry: Registry
    const functions: Functions
    var outbox: seq<Response>

    constructor (registry: Registry, functions: Functions)
      ensures this.registry == registry && this.functions == functions
      ensures outbox == []
    {
      this.registry := registry;
      this.functions := functions;
      outbox := [];
    }

    /** `onSuccess`: post a success response for the request */
    method OnSuccess(req: Request, result: Value)
      modifies this
      ensures outbox == old(outbox) + [Response(req.id, Success, result)]
    {
      outbox := outbox + [Response(req.id, Success, result)];
    }

    /** `onError`: post an error response for the request */
    method OnError(req: Request, error: Value)
      modifies this
      ensures outbox == old(outbox) + [Response(req.id, Error, error)]
    {
      outbox := outbox + [Response(req.id, Error, error)];
    }

    /** `onmessage`, run to completion as one step: exactly one response,
        carrying the request's id, is posted. */
    method OnMessage(req: Request)
      modifies this
      ensures |outbox| == |old(outbox)| + 1 && outbox[..|old(outbox)|] == old(outbox)
      ensures outbox[|outbox| - 1] == Dispatch(registry, functions, req)
      ensures outbox[|outbox| - 1].id == req.id
    {
      var result := Evaluate(registry, functions, req);
      match result {
        case Fulfilled(v) => OnSuccess(req, v);
        case Rejected(e) => OnError(req, e);
      }
    }
  }
}
