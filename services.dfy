/**
 * proxy.go: the service registry and dispatcher. Reflection is replaced by
 * datatypes: a registered handler carries its declared parameter types and its
 * behaviour as a function from arguments to typed results; hooks are functions
 * too. The tables are the fields of a `Proxy` object, written in place.
 */
module Services {
  import opened Wrappers
  import opened Strings
  import opened Envelope

  /** `ErrCmdNotFound`'s text. */
  const ErrCmdNotFound: string := "command not found."

  /** `ErrCmdParamInvalid`'s text. */
  const ErrCmdParamInvalid: string := "command params invalid."

  /** A declared parameter type, as far as registration tells types apart. */
  datatype GoType =
    | EasyKvReqArgsType
    | UrlKvReqArgsType
    | KvMapType
    | Named(name: string)

  /** `reflect.Type.String()`. */
  function TypeString(t: GoType): string {
    match t
    case EasyKvReqArgsType => "iron.EasyKvReqArgs"
    case UrlKvReqArgsType => "iron.UrlKvReqArgs"
    case KvMapType => "map[string]interface {}"
    case Named(n) => n
  }

  /** An argument given to `Dispatch` (`LowReqArgs`): a key-value container or a plain value. */
  datatype Arg =
    | UrlKvArg(kv: map<string, Value>)
    | EasyKvArg(kv: map<string, Value>)
    | ValueArg(v: Value)

  /** One result of a service call with its declared type: `error` (nil or a message), or another type. */
  datatype Output = Err(err: Option<string>) | Val(v: Value)

  /** `reflect.Value.Interface()` of a result: a nil `error` is the nil interface. */
  function Interface(o: Output): Value {
    match o
    case Err(None) => Nil
    case Err(Some(msg)) => ErrorValue(msg)
    case Val(v) => v
  }

  /** What `RegisterService` is given: a function with its parameter types and behaviour, or another kind of value. */
  datatype Handler =
    | Func(typeName: string, ins: seq<GoType>, call: seq<Arg> -> seq<Output>)
    | NotFunc(typeName: string)

  /** `ProxyService`: the descriptor registration records. */
  datatype ProxyService = ProxyService(
    FunctionName: string,
    Function: seq<Arg> -> seq<Output>,
    Params: seq<GoType>,
    IsHasReqeustContext: bool,
    IsHasEasyKvReqArgs: bool,
    IsHasUrlKvReqArgs: bool)

  /** `ProxyBeforeServiceHook`: sees the path, the context, the response so far and the arguments. */
  type BeforeHook = (string, Value, IResponse, seq<Arg>) -> (IResponse, bool)

  /** `ProxyAfterServiceHook`: rewrites the response. */
  type AfterHook = (string, IResponse, Value, seq<Arg>) -> IResponse

  /** Whether a parameter type names a request context: its name ends in "Context". */
  predicate IsContext(t: GoType) {
    HasSuffix(TypeString(t), "Context")
  }

  /** Where the parameters after an optional leading context start. */
  function ArgStart(ins: seq<GoType>): nat {
    if |ins| > 0 && IsContext(ins[0]) then 1 else 0
  }

  /** Whether an `EasyKvReqArgs` parameter comes right after the optional context. */
  predicate HasEasyKv(ins: seq<GoType>) {
    |ins| > ArgStart(ins) && ins[ArgStart(ins)] == EasyKvReqArgsType
  }

  /** What registering `h` records, or the message it panics with. */
  function Describe(h: Handler): Result<ProxyService, string> {
    match h
    case NotFunc(n) => Failure("Proxy Router failed, handler is not func, service:" + n)
    case Func(n, ins, call) =>
      var start := ArgStart(ins);
      var ctx := start == 1;
      if HasEasyKv(ins) then
        if |ins| > start + 1 then
          Failure("Proxy Router failed, service has EasyKvReqArgs, do not set other params, service:" + n)
        else Success(ProxyService(n, call, [KvMapType], ctx, true, false))
      else
        var url := |ins| > start && ins[start] == UrlKvReqArgsType;
        var rest := if url then start + 1 else start;
        Success(ProxyService(n, call, ins[rest..], ctx, false, url))
  }

  /** The descriptors registration can produce: an `EasyKvReqArgs` service has the one map slot and nothing else. */
  predicate WellFormed(s: ProxyService) {
    s.IsHasEasyKvReqArgs ==> s.Params == [KvMapType] && !s.IsHasUrlKvReqArgs
  }

  /**
   * Registration panics exactly on a non-function, or on a function with
   * parameters after its `EasyKvReqArgs`.
   */
  lemma DescribePanics(h: Handler)
    ensures Describe(h).Failure? <==>
      h.NotFunc? || (HasEasyKv(h.ins) && |h.ins| > ArgStart(h.ins) + 1)
  {
  }

  /**
   * A successful registration records the declared parameters minus a leading
   * context and minus a `UrlKvReqArgs` right after it; an `EasyKvReqArgs`
   * parameter becomes the one map slot; each flag is set exactly when its
   * container sits right after the optional context; the result is well formed.
   */
  lemma DescribeParams(h: Handler)
    requires Describe(h).Success?
    ensures var s := Describe(h).value;
      && WellFormed(s)
      && s.FunctionName == h.typeName && s.Function == h.call
      && s.IsHasReqeustContext == (|h.ins| > 0 && IsContext(h.ins[0]))
      && s.IsHasEasyKvReqArgs == HasEasyKv(h.ins)
      && s.IsHasUrlKvReqArgs == (!HasEasyKv(h.ins) && |h.ins| > ArgStart(h.ins) && h.ins[ArgStart(h.ins)] == UrlKvReqArgsType)
      && (s.IsHasEasyKvReqArgs ==> |h.ins| == ArgStart(h.ins) + 1 && h.ins[ArgStart(h.ins)] == EasyKvReqArgsType)
      && (!s.IsHasEasyKvReqArgs ==>
            h.ins == h.ins[..ArgStart(h.ins)]
                     + (if s.IsHasUrlKvReqArgs then [UrlKvReqArgsType] else [])
                     + s.Params)
  {
    var s := Describe(h).value;
    var start := ArgStart(h.ins);
    assert h.Func?;
    if HasEasyKv(h.ins) {
      assert s == ProxyService(h.typeName, h.call, [KvMapType], start == 1, true, false);
    } else {
      var url := |h.ins| > start && h.ins[start] == UrlKvReqArgsType;
      assert s == ProxyService(h.typeName, h.call, h.ins[(if url then start + 1 else start)..], start == 1, false, url);
    }
    if !s.IsHasEasyKvReqArgs {
      if s.IsHasUrlKvReqArgs {
        assert h.ins == h.ins[..start] + [h.ins[start]] + h.ins[start + 1..];
      } else {
        assert h.ins == h.ins[..start] + h.ins[start..];
      }
    }
  }

  /** A `UrlKvReqArgs` followed by an `EasyKvReqArgs` is accepted, the latter as an ordinary positional parameter. */
  lemma DescribeUrlThenEasy(n: string, call: seq<Arg> -> seq<Output>)
    ensures Describe(Func(n, [UrlKvReqArgsType, EasyKvReqArgsType], call))
         == Success(ProxyService(n, call, [EasyKvReqArgsType], false, false, true))
  {
    var ins := [UrlKvReqArgsType, EasyKvReqArgsType];
    assert !IsContext(ins[0]) by {
      assert TypeString(ins[0]) == "iron.UrlKvReqArgs";
      assert TypeString(ins[0])[|TypeString(ins[0])| - 7..] != "Context";
    }
    assert ins[1..] == [EasyKvReqArgsType];
  }

  // -------------------------------------------------------------- dispatch

  /**
   * The text of an error that xerrors built with `%w` away from the end of its
   * format: the formatted message, then ": " and the wrapped error's own text.
   */
  function WrappedErrorText(msg: string, wrapped: string): string {
    msg + ": " + wrapped
  }

  /**
   * The envelope for a path with no service, whose text is that of
   * `xerrors.Errorf("%w,path:%s", ErrCmdNotFound, path)`: it starts with
   * `ErrCmdNotFound`, holds the path after ",path:", and repeats
   * `ErrCmdNotFound` after ": " at the end.
   */
  function NotFoundResponse(path: string): (r: Response)
    ensures r.common.Code == CodeErr && r.Data == Nil
    ensures HasPrefix(r.common.Error, ErrCmdNotFound + ",path:")
    ensures HasSuffix(r.common.Error, ": " + ErrCmdNotFound)
    ensures |r.common.Error| == |ErrCmdNotFound + ",path:"| + |path| + |": " + ErrCmdNotFound|
    ensures r.common.Error[|ErrCmdNotFound + ",path:"|..|r.common.Error| - |": " + ErrCmdNotFound|] == path
  {
    var head := ErrCmdNotFound + ",path:";
    var tail := ": " + ErrCmdNotFound;
    var text := WrappedErrorText(ErrCmdNotFound + ",path:" + path, ErrCmdNotFound);
    assert text == head + path + tail;
    assert text[..|head|] == head;
    assert text[|text| - |tail|..] == tail;
    assert text[|head|..|text| - |tail|] == path;
    ErrorResponse(CodeErr, text)
  }

  /** The arguments the service is called with: the context first when it takes one, then the given ones. */
  function CallArgs(s: ProxyService, reqCtx: Value, reqArgs: seq<Arg>): seq<Arg> {
    (if s.IsHasReqeustContext then [ValueArg(reqCtx)] else []) + reqArgs
  }

  /**
   * Runs before-hooks in order, each seeing the previous one's response; the
   * first that says stop ends the run with its response.
   */
  function RunBefore(hooks: seq<BeforeHook>, path: string, reqCtx: Value, resp: IResponse, reqArgs: seq<Arg>): (IResponse, bool)
    decreases |hooks|
  {
    if hooks == [] then (resp, true)
    else
      var out := hooks[0](path, reqCtx, resp, reqArgs);
      if !out.1 then (out.0, false) else RunBefore(hooks[1..], path, reqCtx, out.0, reqArgs)
  }

  /** Runs after-hooks in order, each rewriting the previous response. */
  function RunAfter(hooks: seq<AfterHook>, path: string, resp: IResponse, reqCtx: Value, reqArgs: seq<Arg>): IResponse
    decreases |hooks|
  {
    if hooks == [] then resp else RunAfter(hooks[1..], path, hooks[0](path, resp, reqCtx, reqArgs), reqCtx, reqArgs)
  }

  /** A group of before-hooks extended at the end runs the old group, then, unless stopped, the new hooks. */
  lemma {:induction false} RunBeforeAppend(h1: seq<BeforeHook>, h2: seq<BeforeHook>, path: string, reqCtx: Value, resp: IResponse, reqArgs: seq<Arg>)
    ensures RunBefore(h1 + h2, path, reqCtx, resp, reqArgs) ==
      var r := RunBefore(h1, path, reqCtx, resp, reqArgs);
      if r.1 then RunBefore(h2, path, reqCtx, r.0, reqArgs) else r
    decreases |h1|
  {
    if h1 == [] {
      assert h1 + h2 == h2;
    } else {
      assert (h1 + h2)[0] == h1[0];
      assert (h1 + h2)[1..] == h1[1..] + h2;
      var out := h1[0](path, reqCtx, resp, reqArgs);
      if out.1 {
        RunBeforeAppend(h1[1..], h2, path, reqCtx, out.0, reqArgs);
      }
    }
  }

  /** A stopped run of before-hooks was stopped by one hook, every hook before it having let the call go on. */
  lemma {:induction false} RunBeforeStopped(hooks: seq<BeforeHook>, path: string, reqCtx: Value, resp: IResponse, reqArgs: seq<Arg>)
    returns (i: nat, at: IResponse)
    requires !RunBefore(hooks, path, reqCtx, resp, reqArgs).1
    ensures i < |hooks|
    ensures RunBefore(hooks[..i], path, reqCtx, resp, reqArgs) == (at, true)
    ensures hooks[i](path, reqCtx, at, reqArgs) == (RunBefore(hooks, path, reqCtx, resp, reqArgs).0, false)
    decreases |hooks|
  {
    var out := hooks[0](path, reqCtx, resp, reqArgs);
    if !out.1 {
      i, at := 0, resp;
    } else {
      var j, a := RunBeforeStopped(hooks[1..], path, reqCtx, out.0, reqArgs);
      i, at := j + 1, a;
      assert hooks[..i][0] == hooks[0];
      assert hooks[..i][1..] == hooks[1..][..j];
    }
  }

  /** Running two groups of after-hooks one after the other is running their concatenation. */
  lemma {:induction false} RunAfterAppend(h1: seq<AfterHook>, h2: seq<AfterHook>, path: string, resp: IResponse, reqCtx: Value, reqArgs: seq<Arg>)
    ensures RunAfter(h1 + h2, path, resp, reqCtx, reqArgs)
         == RunAfter(h2, path, RunAfter(h1, path, resp, reqCtx, reqArgs), reqCtx, reqArgs)
    decreases |h1|
  {
    if h1 == [] {
      assert h1 + h2 == h2;
    } else {
      assert (h1 + h2)[0] == h1[0];
      assert (h1 + h2)[1..] == h1[1..] + h2;
      RunAfterAppend(h1[1..], h2, path, h1[0](path, resp, reqCtx, reqArgs), reqCtx, reqArgs);
    }
  }

  /** The dynamic values of results. */
  function Interfaces(outs: seq<Output>): (vs: seq<Value>)
    ensures |vs| == |outs| && forall i | 0 <= i < |outs| :: vs[i] == Interface(outs[i])
  {
    seq(|outs|, i requires 0 <= i < |outs| => Interface(outs[i]))
  }

  /** The code and error text a trailing `error` result gives: failure with its message, or success. */
  function ErrorStatus(e: Option<string>): RespCommon {
    if e.Some? then RespCommon(CodeErr, e.value) else RespCommon(CodeOk, "")
  }

  /**
   * How the results of a call become the response. A first result that implements
   * `IResponse` (a `Response`, or `RespCommon` or a struct embedding it) is returned as it
   * is; in every other case the framework builds a `Response`.
   */
  function Normalise(outs: seq<Output>): (r: IResponse)
    ensures r.Some?
    ensures (outs == [] || !Interface(outs[0]).RespValue?) ==> r.value.Resp?
    ensures outs == [] ==> r == AsIResponse(Response(RespCommon(CodeOk, ""), Nil))
    ensures outs != [] && Interface(outs[0]).RespValue? ==> r == Some(Interface(outs[0]).resp)
    ensures |outs| == 1 && Interface(outs[0]).ErrorValue? ==>
      r == AsIResponse(ErrorResponse(CodeErr, Interface(outs[0]).msg))
    ensures |outs| == 1 && !Interface(outs[0]).RespValue? && !Interface(outs[0]).ErrorValue? ==>
      r == AsIResponse(Response(RespCommon(CodeOk, ""), Interface(outs[0])))
    ensures |outs| >= 2 && !Interface(outs[0]).RespValue? ==>
      && (outs[|outs| - 1].Err? ==> r.value.env.common == ErrorStatus(outs[|outs| - 1].err))
      && (!outs[|outs| - 1].Err? ==> r.value.env.common == RespCommon(0, ""))
      && (r.value.env.Data == if |outs| == 2 && outs[1].Err? then Interface(outs[0])
                          else List(Interfaces(outs[..|outs| - 1])))
  {
    if outs == [] then AsIResponse(Response(RespCommon(CodeOk, ""), Nil))
    else
      var first := Interface(outs[0]);
      if first.RespValue? then Some(first.resp)
      else if |outs| == 1 then
        if first.ErrorValue? then AsIResponse(ErrorResponse(CodeErr, first.msg))
        else AsIResponse(Response(RespCommon(CodeOk, ""), first))
      else
        var last := outs[|outs| - 1];
        if last.Err? then
          AsIResponse(Response(ErrorStatus(last.err),
                        if |outs| == 2 then first else List(Interfaces(outs[..|outs| - 1]))))
        else AsIResponse(Response(RespCommon(0, ""), List(Interfaces(outs[..|outs| - 1]))))
  }

  /**
   * What `GetErrorStr` and `GetError` report on the envelope built from a call's
   * results (unless the first result is itself an envelope, passed through): an
   * error only with `CODE_ERR`, its text the message of the single or trailing
   * `error`; a nil trailing `error` or none at all reports no error.
   */
  lemma NormaliseGetError(outs: seq<Output>)
    requires outs == [] || !Interface(outs[0]).RespValue?
    ensures GetError(Normalise(outs).value.env.common).Some? ==> Normalise(outs).value.env.common.Code == CodeErr
    ensures Normalise(outs).value.env.common.Code == CodeOk ==>
      GetError(Normalise(outs).value.env.common).None? && GetErrorStr(Normalise(outs).value.env.common) == ""
    ensures |outs| == 1 && Interface(outs[0]).ErrorValue? ==>
      GetErrorStr(Normalise(outs).value.env.common) == Interface(outs[0]).msg
    ensures |outs| >= 2 && outs[|outs| - 1].Err? && outs[|outs| - 1].err.Some? ==>
      GetErrorStr(Normalise(outs).value.env.common) == outs[|outs| - 1].err.value
      && Normalise(outs).value.env.common.Code == CodeErr
    ensures |outs| >= 2 && (!outs[|outs| - 1].Err? || outs[|outs| - 1].err.None?) ==>
      GetError(Normalise(outs).value.env.common).None? && Normalise(outs).value.env.common.Code == CodeOk
  {
  }

  /** The parameter count a call must match: the arguments minus the `UrlKvReqArgs` container. */
  function ServiceParamsLen(s: ProxyService, reqArgs: seq<Arg>): int {
    |reqArgs| - (if s.IsHasUrlKvReqArgs then 1 else 0)
  }

  /**
   * What `Dispatch` answers, given the before- and after-hook groups that the walk
   * over the hook tables picked for the path.
   */
  function DispatchSpec(services: map<string, ProxyService>, before: seq<BeforeHook>, after: seq<AfterHook>,
                        path: string, reqCtx: Value, reqArgs: seq<Arg>): (r: IResponse)
    ensures path !in services ==> r == AsIResponse(NotFoundResponse(path))
    ensures path in services && RunBefore(before, path, reqCtx, None, reqArgs).1
            && |services[path].Params| != ServiceParamsLen(services[path], reqArgs) ==>
      r == AsIResponse(ErrorResponse(CodeErr, ErrCmdParamInvalid))
    ensures path in services && !RunBefore(before, path, reqCtx, None, reqArgs).1 ==>
      r == RunBefore(before, path, reqCtx, None, reqArgs).0
  {
    if path !in services then AsIResponse(NotFoundResponse(path))
    else
      var s := services[path];
      var b := RunBefore(before, path, reqCtx, None, reqArgs);
      if !b.1 then b.0
      else if |s.Params| != ServiceParamsLen(s, reqArgs) then AsIResponse(ErrorResponse(CodeErr, ErrCmdParamInvalid))
      else RunAfter(after, path, Normalise(s.Function(CallArgs(s, reqCtx, reqArgs))), reqCtx, reqArgs)
  }

  /**
   * The service is called only when its path is registered, no before-hook stops
   * the call and the arity matches; otherwise the answer does not depend on it.
   */
  lemma DispatchCallsOnlyWhenReady(services: map<string, ProxyService>, before: seq<BeforeHook>, after: seq<AfterHook>,
                                   path: string, reqCtx: Value, reqArgs: seq<Arg>, f: seq<Arg> -> seq<Output>)
    requires path in services
    requires !RunBefore(before, path, reqCtx, None, reqArgs).1
          || |services[path].Params| != ServiceParamsLen(services[path], reqArgs)
    ensures DispatchSpec(services[path := services[path].(Function := f)], before, after, path, reqCtx, reqArgs)
         == DispatchSpec(services, before, after, path, reqCtx, reqArgs)
  {
  }

  /** Which key's group a walk over a hook table picks: one whose key is a prefix of the path, or none if there is none. */
  predicate ChosenGroup<H>(table: map<string, seq<H>>, path: string, key: Option<string>) {
    (key.Some? ==> key.value in table && HasPrefix(path, key.value))
    && (key.None? ==> forall k | k in table :: !HasPrefix(path, k))
  }

  /** The hooks of the chosen group. */
  function Group<H>(table: map<string, seq<H>>, key: Option<string>): seq<H> {
    if key.Some? && key.value in table then table[key.value] else []
  }

  /** Some group choice; a dispatch that stops early never walks the table, and any choice describes it. */
  ghost function SomeGroup<H>(table: map<string, seq<H>>, path: string): (key: Option<string>)
    ensures ChosenGroup(table, path, key)
  {
    if exists k | k in table :: HasPrefix(path, k) then
      var k :| k in table && HasPrefix(path, k); Some(k)
    else None
  }

  /** The walk over a hook table that stops at the first key (in map order) that prefixes the path. */
  method FindGroup<H>(table: map<string, seq<H>>, path: string) returns (key: Option<string>)
    ensures ChosenGroup(table, path, key)
  {
    var keys := table.Keys;
    while keys != {}
      invariant keys <= table.Keys
      invariant forall k | k in table.Keys - keys :: !HasPrefix(path, k)
      decreases keys
    {
      var k :| k in keys;
      if HasPrefix(path, k) {
        return Some(k);
      }
      keys := keys - {k};
    }
    return None;
  }

  /** The response-building part of `Dispatch`, with its append loops. */
  method NormaliseOutputs(out: seq<Output>) returns (resp: IResponse)
    ensures resp == Normalise(out)
  {
    if |out| == 0 {
      return AsIResponse(Response(RespCommon(CodeOk, ""), Nil));
    }
    var first := Interface(out[0]);
    if first.RespValue? {
      return Some(first.resp);
    }
    if |out| == 1 {
      if first.ErrorValue? {
        return AsIResponse(Response(RespCommon(CodeErr, first.msg), Nil));
      }
      return AsIResponse(Response(RespCommon(CodeOk, ""), first));
    }
    var errCode := 0;
    var errStr := "";
    var last := out[|out| - 1];
    var ret: seq<Value> := [];
    var index := 0;
    if last.Err? {
      if last.err.Some? {
        errCode, errStr := CodeErr, last.err.value;
      } else {
        errCode, errStr := CodeOk, "";
      }
      if |out| == 2 {
        return AsIResponse(Response(RespCommon(errCode, errStr), first));
      }
    }
    while index < |out| - 1
      invariant 0 <= index <= |out| - 1
      invariant ret == Interfaces(out[..index])
    {
      ret := ret + [Interface(out[index])];
      index := index + 1;
    }
    return AsIResponse(Response(RespCommon(errCode, errStr), List(ret)));
  }

  /** The loop at the end of registration: appends the parameter types from `first` on. */
  method AppendParams(ins: seq<GoType>, first: nat, params: seq<GoType>) returns (ret: seq<GoType>)
    requires first <= |ins|
    ensures ret == params + ins[first..]
  {
    ret := params;
    var i := first;
    while i < |ins|
      invariant first <= i <= |ins|
      invariant ret == params + ins[first..i]
    {
      ret := ret + [ins[i]];
      i := i + 1;
    }
    assert ins[first..i] == ins[first..];
  }

  /** Every descriptor `Describe` builds is well formed. */
  lemma DescribeWellFormed(h: Handler)
    requires Describe(h).Success?
    ensures WellFormed(Describe(h).value)
  {
    DescribeParams(h);
  }

  /** The inspection `RegisterService` makes of a handler, before it stores anything. */
  method BuildService(handler: Handler) returns (res: Result<ProxyService, string>)
    ensures res == Describe(handler)
  {
    if handler.NotFunc? {
      return Failure("Proxy Router failed, handler is not func, service:" + handler.typeName);
    }
    var ins := handler.ins;
    var ctx := |ins| > 0 && HasSuffix(TypeString(ins[0]), "Context");
    var start := if ctx then 1 else 0;
    assert start == ArgStart(ins);
    var params: seq<GoType> := [];
    var easy := false;
    if |ins| > start && ins[start] == EasyKvReqArgsType {
      easy := true;
      params := params + [KvMapType];
      start := start + 1;
    }
    if easy && |ins| > start {
      return Failure("Proxy Router failed, service has EasyKvReqArgs, do not set other params, service:" + handler.typeName);
    }
    var url := false;
    if |ins| > start && ins[start] == UrlKvReqArgsType {
      url := true;
      start := start + 1;
    }
    params := AppendParams(ins, start, params);
    if easy {
      assert ins[start..] == [];
      assert HasEasyKv(ins) && params == [KvMapType] && !url;
    } else {
      assert !HasEasyKv(ins) && params == ins[start..];
    }
    assert ctx == (ArgStart(ins) == 1);
    return Success(ProxyService(handler.typeName, handler.call, params, ctx, easy, url));
  }

  /** `Dispatch`'s argument array: the context first when the service takes one, then the arguments, by index. */
  method FillArgs(s: ProxyService, reqCtx: Value, reqArgs: seq<Arg>) returns (args: seq<Arg>)
    ensures args == CallArgs(s, reqCtx, reqArgs)
  {
    var size := if s.IsHasReqeustContext then |reqArgs| + 1 else |reqArgs|;
    var paramArr := new Arg[size](_ => ValueArg(Nil));
    var arrIndex := 0;
    if s.IsHasReqeustContext {
      paramArr[arrIndex] := ValueArg(reqCtx);
      arrIndex := arrIndex + 1;
    }
    var argsIndex := 0;
    while argsIndex < |reqArgs|
      invariant 0 <= argsIndex <= |reqArgs|
      invariant arrIndex == argsIndex + (if s.IsHasReqeustContext then 1 else 0)
      invariant paramArr[..arrIndex] == CallArgs(s, reqCtx, reqArgs[..argsIndex])
    {
      paramArr[arrIndex] := reqArgs[argsIndex];
      assert paramArr[..arrIndex + 1] == paramArr[..arrIndex] + [reqArgs[argsIndex]];
      assert reqArgs[..argsIndex + 1] == reqArgs[..argsIndex] + [reqArgs[argsIndex]];
      arrIndex := arrIndex + 1;
      argsIndex := argsIndex + 1;
    }
    assert reqArgs[..argsIndex] == reqArgs;
    assert paramArr[..] == paramArr[..arrIndex];
    return paramArr[..];
  }

  /** The loop over one group of before-hooks, returning as soon as one says stop. */
  method ApplyBefore(hooks: seq<BeforeHook>, path: string, reqCtx: Value, reqArgs: seq<Arg>)
    returns (resp: IResponse, isContinue: bool)
    ensures (resp, isContinue) == RunBefore(hooks, path, reqCtx, None, reqArgs)
  {
    resp := None;
    var h := 0;
    while h < |hooks|
      invariant 0 <= h <= |hooks|
      invariant RunBefore(hooks, path, reqCtx, None, reqArgs) == RunBefore(hooks[h..], path, reqCtx, resp, reqArgs)
    {
      assert hooks[h..][1..] == hooks[h + 1..];
      var hookOut := hooks[h](path, reqCtx, resp, reqArgs);
      resp := hookOut.0;
      if !hookOut.1 {
        return resp, false;
      }
      h := h + 1;
    }
    return resp, true;
  }

  /** The loop over one group of after-hooks. */
  method ApplyAfter(hooks: seq<AfterHook>, path: string, resp0: IResponse, reqCtx: Value, reqArgs: seq<Arg>)
    returns (resp: IResponse)
    ensures resp == RunAfter(hooks, path, resp0, reqCtx, reqArgs)
  {
    resp := resp0;
    var h := 0;
    while h < |hooks|
      invariant 0 <= h <= |hooks|
      invariant RunAfter(hooks, path, resp0, reqCtx, reqArgs) == RunAfter(hooks[h..], path, resp, reqCtx, reqArgs)
    {
      assert hooks[h..][1..] == hooks[h + 1..];
      resp := hooks[h](path, resp, reqCtx, reqArgs);
      h := h + 1;
    }
  }

  /** `Proxy`: the service table and the two hook tables, keyed by path. */
  class Proxy {
    var HookBeforeServiceTable: map<string, seq<BeforeHook>>
    var HookAfterServiceTable: map<string, seq<AfterHook>>
    var ServiceTable: map<string, ProxyService>

    /** Every registered service is as registration builds it. */
    predicate Valid()
      reads this
    {
      forall p | p in ServiceTable :: WellFormed(ServiceTable[p])
    }

    /** `Init`: three empty tables. */
    method Init()
      modifies this
      ensures HookBeforeServiceTable == map[] && HookAfterServiceTable == map[] && ServiceTable == map[]
      ensures Valid()
    {
      HookBeforeServiceTable := map[];
      HookAfterServiceTable := map[];
      ServiceTable := map[];
    }

    /**
     * `RegisterService`: builds the descriptor by walking the parameter list and
     * stores it under `path`, replacing only that path's entry; a panic leaves
     * everything as it was.
     */
    method RegisterService(path: string, handler: Handler) returns (panicked: Option<string>)
      modifies this
      ensures Describe(handler).Failure? ==>
        panicked == Some(Describe(handler).error) && ServiceTable == old(ServiceTable)
      ensures Describe(handler).Success? ==>
        panicked == None && ServiceTable == old(ServiceTable)[path := Describe(handler).value]
      ensures HookBeforeServiceTable == old(HookBeforeServiceTable)
      ensures HookAfterServiceTable == old(HookAfterServiceTable)
      ensures old(Valid()) ==> Valid()
    {
      var built := BuildService(handler);
      if built.Failure? {
        return Some(built.error);
      }
      DescribeWellFormed(handler);
      ghost var table := ServiceTable;
      ServiceTable := ServiceTable[path := built.value];
      assert forall p | p in ServiceTable :: ServiceTable[p] == built.value || ServiceTable[p] == table[p];
      return None;
    }

    /** `HookBeforeService`: appends `hook` to the path's before-hooks, earlier ones kept in order. */
    method HookBeforeService(path: string, hook: BeforeHook)
      modifies this
      ensures HookBeforeServiceTable ==
        old(HookBeforeServiceTable)[path := Group(old(HookBeforeServiceTable), Some(path)) + [hook]]
      ensures HookAfterServiceTable == old(HookAfterServiceTable) && ServiceTable == old(ServiceTable)
    {
      var arr := if path in HookBeforeServiceTable then HookBeforeServiceTable[path] else [];
      arr := arr + [hook];
      HookBeforeServiceTable := HookBeforeServiceTable[path := arr];
    }

    /** `HookAfterService`: appends `hook` to the path's after-hooks, earlier ones kept in order. */
    method HookAfterService(path: string, hook: AfterHook)
      modifies this
      ensures HookAfterServiceTable ==
        old(HookAfterServiceTable)[path := Group(old(HookAfterServiceTable), Some(path)) + [hook]]
      ensures HookBeforeServiceTable == old(HookBeforeServiceTable) && ServiceTable == old(ServiceTable)
    {
      var arr := if path in HookAfterServiceTable then HookAfterServiceTable[path] else [];
      arr := arr + [hook];
      HookAfterServiceTable := HookAfterServiceTable[path := arr];
    }

    /** `IsServiceExists`: whether a service is registered under `path`. */
    predicate IsServiceExists(path: string)
      reads this
    {
      path in ServiceTable
    }

    /**
     * `Dispatch`: the not-found check, the argument array, the before-hooks of one
     * matching group, the arity check, the call, the normalisation and the
     * after-hooks of one matching group. `beforeKey` and `afterKey` name the
     * groups the map walks picked.
     */
    method Dispatch(path: string, reqCtx: Value, reqArgs: seq<Arg>)
      returns (r: IResponse, ghost beforeKey: Option<string>, ghost afterKey: Option<string>)
      ensures ChosenGroup(HookBeforeServiceTable, path, beforeKey)
      ensures ChosenGroup(HookAfterServiceTable, path, afterKey)
      ensures r == DispatchSpec(ServiceTable, Group(HookBeforeServiceTable, beforeKey),
                                Group(HookAfterServiceTable, afterKey), path, reqCtx, reqArgs)
      ensures path !in ServiceTable ==> r == AsIResponse(NotFoundResponse(path))
      ensures path in ServiceTable && (forall k | k in HookBeforeServiceTable :: !HasPrefix(path, k))
              && |ServiceTable[path].Params| != ServiceParamsLen(ServiceTable[path], reqArgs) ==>
        r == AsIResponse(ErrorResponse(CodeErr, ErrCmdParamInvalid))
    {
      if !IsServiceExists(path) {
        var err := WrappedErrorText(ErrCmdNotFound + ",path:" + path, ErrCmdNotFound);
        r := AsIResponse(ErrorResponse(CodeErr, err));
        beforeKey := SomeGroup(HookBeforeServiceTable, path);
        afterKey := SomeGroup(HookAfterServiceTable, path);
        return;
      }
      var service := ServiceTable[path];
      var args := FillArgs(service, reqCtx, reqArgs);
      var serviceParamsLen := |reqArgs|;
      if service.IsHasUrlKvReqArgs {
        serviceParamsLen := serviceParamsLen - 1;
      }

      var bk := FindGroup(HookBeforeServiceTable, path);
      beforeKey := bk;
      var resp, isContinue := ApplyBefore(Group(HookBeforeServiceTable, bk), path, reqCtx, reqArgs);
      if !isContinue {
        r := resp;
        afterKey := SomeGroup(HookAfterServiceTable, path);
        return;
      }

      if |service.Params| != serviceParamsLen {
        r := AsIResponse(ErrorResponse(CodeErr, ErrCmdParamInvalid));
        afterKey := SomeGroup(HookAfterServiceTable, path);
        return;
      }

      var out := service.Function(args);
      resp := NormaliseOutputs(out);

      var ak := FindGroup(HookAfterServiceTable, path);
      afterKey := ak;
      r := ApplyAfter(Group(HookAfterServiceTable, ak), path, resp, reqCtx, reqArgs);
    }
  }

  /**
   * A before-hook added with `HookBeforeService` runs after the path's earlier
   * hooks, and only when none of them stopped the call.
   */
  lemma AddedBeforeHookRunsLast(table: map<string, seq<BeforeHook>>, key: string, hook: BeforeHook,
                                path: string, reqCtx: Value, reqArgs: seq<Arg>)
    ensures var added := table[key := Group(table, Some(key)) + [hook]];
      var r := RunBefore(Group(table, Some(key)), path, reqCtx, None, reqArgs);
      RunBefore(Group(added, Some(key)), path, reqCtx, None, reqArgs)
        == if r.1 then hook(path, reqCtx, r.0, reqArgs) else r
  {
    var old_ := Group(table, Some(key));
    RunBeforeAppend(old_, [hook], path, reqCtx, None, reqArgs);
    var r := RunBefore(old_, path, reqCtx, None, reqArgs);
    if r.1 {
      var out := hook(path, reqCtx, r.0, reqArgs);
      assert RunBefore([hook], path, reqCtx, r.0, reqArgs) == (if !out.1 then (out.0, false) else RunBefore([], path, reqCtx, out.0, reqArgs));
    }
  }
}
