/**
 * proxy_iron.go: turns an HTTP request (its form and its JSON body) into the
 * argument list `Dispatch` expects, then dispatches. JSON decoding is not
 * modelled: it is given as functions that yield a value or an error's text.
 */
module IronDispatch {
  import opened Wrappers
  import opened Strings
  import opened Envelope
  import opened Requests
  import opened KvArgs
  import opened Services

  /**
   * `encoding/json` as the materialiser uses it: the body decoded as an object, as
   * one value of a declared type, or as an array whose elements are decoded into
   * the given slots (one result per element the array has).
   */
  datatype Json = Json(
    UnmarshalObject: seq<byte> -> Result<map<string, Value>, string>,
    UnmarshalInto: (seq<byte>, GoType) -> Result<Value, string>,
    UnmarshalArray: (seq<byte>, seq<GoType>) -> Result<seq<Value>, string>)

  /**
   * The slot values after decoding an array into them: an element per slot while
   * the array lasts, the zero value of the slot's type after it; surplus elements
   * reach no slot.
   */
  function Slots(params: seq<GoType>, decoded: seq<Value>): (vs: seq<Value>)
    ensures |vs| == |params|
    ensures forall i | 0 <= i < |params| ::
      vs[i] == if i < |decoded| then decoded[i] else Zero(TypeString(params[i]))
  {
    seq(|params|, i requires 0 <= i < |params| => if i < |decoded| then decoded[i] else Zero(TypeString(params[i])))
  }

  /** Decoded values as arguments. */
  function ValueArgs(vals: seq<Value>): (args: seq<Arg>)
    ensures |args| == |vals| && forall i | 0 <= i < |vals| :: args[i] == ValueArg(vals[i])
  {
    seq(|vals|, i requires 0 <= i < |vals| => ValueArg(vals[i]))
  }

  /**
   * `parseEasyKvReqArgs`: one container holding the form's first values,
   * overridden key by key by the body's top-level object; an empty body adds nothing.
   */
  function EasyKvArgs(form: map<string, seq<string>>, body: seq<byte>, json: Json): (r: Result<seq<Arg>, string>)
    ensures |body| == 0 ==> r == Success([EasyKvArg(FormFirstValues(form))])
    ensures |body| != 0 && json.UnmarshalObject(body).Failure? ==> r == Failure(json.UnmarshalObject(body).error)
    ensures |body| != 0 && json.UnmarshalObject(body).Success? ==>
      r == Success([EasyKvArg(FormFirstValues(form) + json.UnmarshalObject(body).value)])
  {
    if |body| == 0 then Success([EasyKvArg(FormFirstValues(form))])
    else
      match json.UnmarshalObject(body)
      case Failure(e) => Failure(e)
      case Success(obj) => Success([EasyKvArg(FormFirstValues(form) + obj)])
  }

  /**
   * The parameter slots after decoding a non-empty body into them: the whole body
   * for a single slot, the elements of an array otherwise.
   */
  function DecodedValues(params: seq<GoType>, body: seq<byte>, json: Json): (r: Result<seq<Value>, string>)
    ensures r.Success? ==> |r.value| == |params|
    ensures |params| == 1 ==> r.Failure? == json.UnmarshalInto(body, params[0]).Failure?
    ensures |params| != 1 ==> r.Failure? == json.UnmarshalArray(body, params).Failure?
    ensures |params| == 1 && r.Success? ==> r.value == [json.UnmarshalInto(body, params[0]).value]
    ensures |params| != 1 && r.Success? ==> r.value == Slots(params, json.UnmarshalArray(body, params).value)
  {
    if |params| == 1 then
      match json.UnmarshalInto(body, params[0])
      case Success(v) => Success([v])
      case Failure(e) => Failure(e)
    else
      match json.UnmarshalArray(body, params)
      case Success(vs) => Success(Slots(params, vs))
      case Failure(e) => Failure(e)
  }

  /**
   * `parseNormalReqArgs`: the `UrlKvReqArgs` container from the form when the
   * service takes one, then, for a non-empty body, one value per parameter slot.
   */
  function NormalArgs(s: ProxyService, form: map<string, seq<string>>, body: seq<byte>, json: Json): (r: Result<seq<Arg>, string>)
    ensures var head := if s.IsHasUrlKvReqArgs then [UrlKvArg(FormFirstValues(form))] else [];
      && (|body| == 0 ==> r == Success(head))
      && (r.Success? ==> |r.value| >= |head| && r.value[..|head|] == head)
      && (|body| != 0 && r.Success? ==> |r.value| == |head| + |s.Params|)
      && (|body| != 0 ==> r.Failure? == DecodedValues(s.Params, body, json).Failure?)
      && (|body| != 0 && r.Success? ==> r.value == head + ValueArgs(DecodedValues(s.Params, body, json).value))
  {
    var head := if s.IsHasUrlKvReqArgs then [UrlKvArg(FormFirstValues(form))] else [];
    if |body| == 0 then Success(head)
    else
      match DecodedValues(s.Params, body, json)
      case Failure(e) => Failure(e)
      case Success(vals) => Success(head + ValueArgs(vals))
  }

  /** The argument list for a service, or the decoding error. */
  function Materialise(s: ProxyService, form: map<string, seq<string>>, body: seq<byte>, json: Json): Result<seq<Arg>, string> {
    if s.IsHasEasyKvReqArgs then EasyKvArgs(form, body, json) else NormalArgs(s, form, body, json)
  }

  /** What `DispatchWithIronRequest` answers, given the hook groups `Dispatch` picks. */
  function IronSpec(services: map<string, ProxyService>, before: seq<BeforeHook>, after: seq<AfterHook>,
                    path: string, reqCtx: Value, req: HttpRequest, json: Json): (r: IResponse)
    ensures path !in services ==> r == AsIResponse(NotFoundResponse(path))
    ensures path in services && req.Body.Failure? ==> r == AsIResponse(ErrorResponse(CodeErr, req.Body.error))
    ensures path in services && req.Body.Success? && Materialise(services[path], req.Form, req.Body.value, json).Failure? ==>
      r == AsIResponse(ErrorResponse(CodeErr, Materialise(services[path], req.Form, req.Body.value, json).error))
  {
    if path !in services then AsIResponse(NotFoundResponse(path))
    else
      match req.Body
      case Failure(e) => AsIResponse(ErrorResponse(CodeErr, e))
      case Success(bytes) =>
        match Materialise(services[path], req.Form, bytes, json)
        case Failure(e) => AsIResponse(ErrorResponse(CodeErr, e))
        case Success(args) => DispatchSpec(services, before, after, path, reqCtx, args)
  }

  /**
   * For a service as registration builds it, a successful decoding of a non-empty
   * body gives exactly as many positional values as it has parameters, so the
   * arity check of `Dispatch` passes; with an empty body it passes exactly when
   * the service takes no positional parameter or takes an `EasyKvReqArgs`.
   */
  lemma MaterialisedArity(s: ProxyService, form: map<string, seq<string>>, body: seq<byte>, json: Json)
    requires WellFormed(s)
    requires Materialise(s, form, body, json).Success?
    ensures var args := Materialise(s, form, body, json).value;
      |body| != 0 ==> |s.Params| == ServiceParamsLen(s, args)
    ensures var args := Materialise(s, form, body, json).value;
      |body| == 0 ==> (|s.Params| == ServiceParamsLen(s, args) <==> s.IsHasEasyKvReqArgs || |s.Params| == 0)
  {
  }

  /** `parseEasyKvReqArgs`, on a fresh container that `MergeIronRequest` and `MergeKv` fill in place. */
  method ParseEasyKvReqArgs(req: Request, body: seq<byte>, json: Json) returns (res: Result<seq<Arg>, string>)
    ensures res == EasyKvArgs(req.R.Form, body, json)
  {
    var made := MakeEasyKvReqArgs([]);
    assert WellPaired([]);
    var reqArgs := made.value;
    reqArgs.UrlKvReqArgs.MergeIronRequest(req);
    assert reqArgs.UrlKvReqArgs.m == FormFirstValues(req.R.Form);
    if |body| != 0 {
      var decoded := json.UnmarshalObject(body);
      if decoded.Failure? {
        return Failure(decoded.error);
      }
      var _ := MergeKv(reqArgs, decoded.value);
      assert reqArgs.UrlKvReqArgs.m == FormFirstValues(req.R.Form) + decoded.value;
    }
    return Success([EasyKvArg(reqArgs.UrlKvReqArgs.m)]);
  }

  /** The slot values of `parseNormalReqArgs`: a zero value per parameter, then the body decoded into them. */
  method DecodeSlots(params: seq<GoType>, body: seq<byte>, json: Json) returns (res: Result<seq<Value>, string>)
    ensures res == DecodedValues(params, body, json)
  {
    var values := new Value[|params|](_ => Nil);
    for i := 0 to values.Length
      invariant forall j | 0 <= j < i :: values[j] == Zero(TypeString(params[j]))
    {
      values[i] := Zero(TypeString(params[i]));
    }
    if values.Length == 1 {
      var decoded := json.UnmarshalInto(body, params[0]);
      if decoded.Failure? {
        return Failure(decoded.error);
      }
      values[0] := decoded.value;
      assert values[..] == [decoded.value];
    } else {
      var decoded := json.UnmarshalArray(body, params);
      if decoded.Failure? {
        return Failure(decoded.error);
      }
      var vs := decoded.value;
      for i := 0 to values.Length
        invariant forall j | 0 <= j < values.Length ::
          values[j] == if j < i && j < |vs| then vs[j] else Zero(TypeString(params[j]))
      {
        if i < |vs| {
          values[i] := vs[i];
        }
      }
      assert values[..] == Slots(params, vs);
    }
    return Success(values[..]);
  }

  /**
   * `parseNormalReqArgs`: the optional `UrlKvReqArgs` container, then the decoded
   * slot values appended in order.
   */
  method ParseNormalReqArgs(s: ProxyService, req: Request, body: seq<byte>, json: Json) returns (res: Result<seq<Arg>, string>)
    ensures res == NormalArgs(s, req.R.Form, body, json)
  {
    var elems: seq<Arg> := [];
    if s.IsHasUrlKvReqArgs {
      var made := MakeUrlKvReqArgs([]);
      assert WellPaired([]);
      var kv := made.value;
      kv.MergeIronRequest(req);
      assert kv.m == FormFirstValues(req.R.Form);
      elems := [UrlKvArg(kv.m)];
    }
    if |body| == 0 {
      return Success(elems);
    }
    var decoded := DecodeSlots(s.Params, body, json);
    if decoded.Failure? {
      return Failure(decoded.error);
    }
    var values := decoded.value;
    ghost var head := elems;
    for i := 0 to |values|
      invariant elems == head + ValueArgs(values[..i])
    {
      assert values[..i + 1] == values[..i] + [values[i]];
      elems := elems + [ValueArg(values[i])];
    }
    assert values[..|values|] == values;
    return Success(elems);
  }

  /**
   * `DispatchWithIronRequest`: the not-found check before the body is read, the
   * body read, the argument list, then `Dispatch`; `beforeKey` and `afterKey` name
   * the hook groups `Dispatch` picked.
   */
  method DispatchWithIronRequest(p: Proxy, path: string, reqCtx: Value, req: Request, json: Json)
    returns (r: IResponse, ghost beforeKey: Option<string>, ghost afterKey: Option<string>)
    requires p.Valid()
    ensures ChosenGroup(p.HookBeforeServiceTable, path, beforeKey)
    ensures ChosenGroup(p.HookAfterServiceTable, path, afterKey)
    ensures r == IronSpec(p.ServiceTable, Group(p.HookBeforeServiceTable, beforeKey),
                          Group(p.HookAfterServiceTable, afterKey), path, reqCtx, req.R, json)
    ensures path !in p.ServiceTable ==> r == AsIResponse(NotFoundResponse(path))
    ensures path in p.ServiceTable && req.R.Body.Failure? ==> r == AsIResponse(ErrorResponse(CodeErr, req.R.Body.error))
    ensures path in p.ServiceTable && req.R.Body.Success? && |req.R.Body.value| != 0
            && Materialise(p.ServiceTable[path], req.R.Form, req.R.Body.value, json).Success?
            && RunBefore(Group(p.HookBeforeServiceTable, beforeKey), path, reqCtx, None,
                         Materialise(p.ServiceTable[path], req.R.Form, req.R.Body.value, json).value).1 ==>
      var s := p.ServiceTable[path];
      var args := Materialise(s, req.R.Form, req.R.Body.value, json).value;
      r == RunAfter(Group(p.HookAfterServiceTable, afterKey), path,
                    Normalise(s.Function(CallArgs(s, reqCtx, args))), reqCtx, args)
  {
    beforeKey := SomeGroup(p.HookBeforeServiceTable, path);
    afterKey := SomeGroup(p.HookAfterServiceTable, path);
    if !p.IsServiceExists(path) {
      return AsIResponse(NotFoundResponse(path)), beforeKey, afterKey;
    }
    if req.R.Body.Failure? {
      return AsIResponse(ErrorResponse(CodeErr, req.R.Body.error)), beforeKey, afterKey;
    }
    var reqArgBytes := req.R.Body.value;
    var service := p.ServiceTable[path];
    var parsed;
    if service.IsHasEasyKvReqArgs {
      parsed := ParseEasyKvReqArgs(req, reqArgBytes, json);
    } else {
      parsed := ParseNormalReqArgs(service, req, reqArgBytes, json);
    }
    if parsed.Failure? {
      return AsIResponse(ErrorResponse(CodeErr, parsed.error)), beforeKey, afterKey;
    }
    MaterialisedArity(service, req.R.Form, reqArgBytes, json);
    r, beforeKey, afterKey := p.Dispatch(path, reqCtx, parsed.value);
  }
}
