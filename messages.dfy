/**
 * The two wire messages of the worker RPC protocol (src/types.ts), the way a
 * promise settles, and the encoding of the discovery answer (a list of names).
 */
module Messages {

  datatype Option<+T> = None | Some(value: T)

  /** A structurally cloned value. The protocol never looks inside payloads,
      except for the list of names returned by discovery. */
  datatype Value =
    | Undefined
    | Bool(b: bool)
    | Num(n: int)
    | Str(s: string)
    | Arr(items: seq<Value>)
    | ErrorObject(name: string, message: string)

  /** The reserved action answered by the worker itself */
  const GetFunctionality: string := "_getFunctionality"

  /** Message sent to the worker: `{id, action, payload}` */
  datatype Request = Request(id: int, action: string, payload: seq<Value>)

  /** `response.type`: exactly `'success'` or `'error'` */
  datatype ResponseType = Success | Error

  /** Message received from the worker: `{id, type, payload}` */
  datatype Response = Response(id: int, kind: ResponseType, payload: Value)

  /** The terminal state of a promise: resolved with a value or rejected with a reason */
  datatype Outcome = Fulfilled(value: Value) | Rejected(reason: Value)

  /** The response the worker posts once a request's result is known:
      `onSuccess` for a fulfilled result, `onError` for a caught error. */
  function ToResponse(id: int, o: Outcome): (r: Response)
    ensures r.id == id
  {
    match o
    case Fulfilled(v) => Response(id, Success, v)
    case Rejected(e) => Response(id, Error, e)
  }

  /** How the caller settles the matching job: `'success'` resolves with the
      payload, anything else rejects with it. */
  function OutcomeOf(r: Response): (o: Outcome)
    ensures o.Fulfilled? <==> r.kind == Success
    ensures o == Fulfilled(r.payload) || o == Rejected(r.payload)
  {
    if r.kind == Success then Fulfilled(r.payload) else Rejected(r.payload)
  }

  /** The caller recovers exactly the outcome the worker saw, and no
      information of a response is lost in the reverse direction. */
  lemma OutcomeRoundTrip(id: int, o: Outcome, r: Response)
    ensures OutcomeOf(ToResponse(id, o)) == o
    ensures ToResponse(r.id, OutcomeOf(r)) == r
  {
  }

  /** The array of strings `_getFunctionality` returns */
  function NamesValue(names: seq<string>): (v: Value)
    ensures v.Arr? && |v.items| == |names|
    ensures forall i | 0 <= i < |names| :: v.items[i] == Str(names[i])
  {
    Arr(seq(|names|, i requires 0 <= i < |names| => Str(names[i])))
  }

  /** Reading a discovery payload `as string[]`; `None` when it is not an
      array of strings. */
  function DecodeNames(v: Value): (r: Option<seq<string>>)
    ensures r.Some? <==> v.Arr? && forall i | 0 <= i < |v.items| :: v.items[i].Str?
    ensures r.Some? ==> |r.value| == |v.items| && forall i | 0 <= i < |v.items| :: v.items[i] == Str(r.value[i])
  {
    if v.Arr? && forall i | 0 <= i < |v.items| :: v.items[i].Str? then
      Some(seq(|v.items|, i requires 0 <= i < |v.items| && v.items[i].Str? => v.items[i].s))
    else
      None
  }

  /** The caller reads back exactly the list of names the worker sent. */
  lemma NamesRoundTrip(names: seq<string>)
    ensures DecodeNames(NamesValue(names)) == Some(names)
  {
    var d := DecodeNames(NamesValue(names));
    assert d.value == names;
  }
}
