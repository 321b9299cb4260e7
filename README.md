# iron: a verified model of the service proxy, router, hooks and options

iron is a small Go web framework. Its core is a **service proxy**: a service is
any Go function, registered under a path. `DispatchWithIronRequest` turns an
HTTP request into the function's arguments. It reads the form and decodes the
JSON body into an `EasyKvReqArgs` map, a `UrlKvReqArgs` map or the declared
positional parameters. `Dispatch` then runs the before-hooks of the first hook
group whose key prefixes the path, checks the arity and calls the function. It
normalises the results into the `Response{Code, Error, Data}` envelope and runs
the after-hooks. Around the proxy sit four other parts:

- the router (`ServeMux`): longest pattern wins, implicit `/tree` → `/tree/`
  redirects, host-qualified patterns first, and `cleanPath`;
- the HTTP hook lists and their prefix/exclusion test;
- the request wrapper and its form accessors;
- options sanitising and view registration.

The Dafny modules follow the source files:

| module | file | source |
|---|---|---|
| `Strings` | strings.dfy | the standard-library string and number functions the core calls: `strings.Index/Split/Join/TrimSpace/HasPrefix/HasSuffix`, `strconv.ParseInt/ParseUint/FormatInt`, UTF-8 encoding |
| `Paths` | paths.dfy | `path.Clean` and `filepath.Join` (lexical) |
| `Envelope` | envelope.dfy | response.go, Go dynamic values, `json.Marshal` of the envelope |
| `Requests` | requests.dfy | request.go (`class Request`) |
| `KvArgs` | kvargs.dfy | urlkvreq.go and easykvreq.go (`class KvMap`, the shared Go map) |
| `Services` | services.dfy | proxy.go (`class Proxy`) |
| `IronDispatch` | irondispatch.dfy | proxy_iron.go |
| `Hooks` | hooks.dfy | hook.go (types and `IsRequestURIMatchHookBase`) |
| `Mux` | mux.dfy | mux.go (`class ServeMux`) and `muxEntry`/`RedirectHandler` of http.go |
| `Settings` | settings.dfy | options.go |
| `Views` | views.dfy | view.go |
| `Servers` | servers.dfy | the `Server` methods of hook.go, options.go and view.go (`class Server`) |

Modelling choices:

- **Reflection.** A registered handler is a datatype carrying its declared
  parameter types (`GoType`) and its behaviour as a function from arguments to
  typed results (`Output`). Hooks are functions too.
- **Go map iteration.** Where the code walks a map and stops at the first key
  that qualifies, the model picks any qualifying key (`:|`). Hook groups and the
  router's equal-length ties are chosen this way. The methods return the chosen
  key as a ghost out-parameter, and their contracts hold whatever the choice.
- **Panics.** A panic is returned as `Some(message)`; the one raised by a service call on ill-typed arguments is not modelled (see "Left out"). An operation that can fail
  returns a `Result`.
- **The environment.** JSON decoding, the body read, `os.Getwd`, opening the log
  file and the clock are inputs: values or functions passed in.

Where the framework's documented behaviour and the code differ, the model
follows the code:

- **Registration.** A service whose parameters are `UrlKvReqArgs` followed by
  `EasyKvReqArgs` is accepted. The code checks for `EasyKvReqArgs` only right
  after the optional context, so a later one becomes an ordinary positional
  parameter (`Services.DescribeUrlThenEasy`).
- **The envelope.** An empty `Error` does not imply `Code == 0`. A service whose
  trailing `error` has the message `""` yields `Code == -1` with an empty
  `Error`. `GetError` looks only at the text (`Envelope.GetError`).
- **Other `IResponse` implementers.** `RespCommon` has `GetErrorStr` with a value
  receiver, so `RespCommon` itself and any struct embedding it are `IResponse`
  values too. A service that returns one gets it back unchanged, not wrapped as
  `Data` (`Envelope.Implementer`, `Services.Normalise`).
- **`RemoteIp`.** This is the remote address up to its first `:`, so a
  bracketed IPv6 address yields `"["` (`Requests.RemoteIpOfBracketed`).

## Model

| member | source | states |
|---|---|---|
| Strings.IndexOf | mux.go:60 | `strings.Index` for one character: -1 exactly when the character is absent, otherwise a position holding it with no earlier occurrence |
| Strings.TrimSpace | request.go:88 | the trimmed text is no longer than the input and neither starts nor ends with white space |
| Strings.TrimSpaceIsSlice | options.go:91 | trimming removes only white space: the input is white space, then the trimmed text, then white space |
| Strings.TrimSpaceIdempotent | request.go:88 | trimming twice is trimming once |
| Strings.Split | options.go:89 | `strings.Split` yields at least one piece, and no piece contains the separator |
| Strings.JoinSplit | options.go:89 | joining the pieces with the separator gives the input back |
| Strings.SplitJoin | options.go:89 | splitting a join of separator-free pieces gives the pieces back |
| Strings.SplitLength | options.go:89 | there is one more piece than there are separators |
| Strings.SplitFirst | request.go:32 | the first piece is the text before the first separator, or the whole input when there is none |
| Strings.ParseUint64 | request.go:153 | `strconv.ParseUint(s, 10, 64)` succeeds exactly on a non-empty all-digit string whose value fits in 64 bits, and yields that value; a failure names `ParseUint` and the input |
| Strings.ParseInt64 | request.go:123 | a failure of `strconv.ParseInt` names `ParseInt` and the whole input |
| Strings.ParseFormatUint64 | request.go:153 | parsing the decimal rendering of any `uint64` gives it back |
| Strings.ParseFormatInt64 | request.go:167 | parsing the decimal rendering of any `int64`, negative ones included, gives it back |
| Strings.ParseUintRejectsSign | request.go:153 | `ParseUint` rejects any text with a leading `+` or `-`, `-0` included |
| Strings.ParseIntPlusSign | request.go:123 | `ParseInt` accepts an explicit `+` and reads the same number |
| Strings.Utf8Encode | request.go:79 | `[]byte(s)` has between one and four bytes per character |
| Strings.Utf8Append | request.go:79 | the encoding of a concatenation is the concatenation of the encodings |
| Strings.Utf8Ascii | request.go:79 | an ASCII string is encoded as one byte per character, each byte its code |
| Paths.CleanRootedShape | mux.go:99 | `path.Clean` of a rooted path starts with `/`, and ends with `/` only when it is the root |
| Paths.CleanRootedIdempotent | mux.go:99 | cleaning a cleaned rooted path changes nothing |
| Paths.CleanTrailingSlash | mux.go:99-104 | a trailing `/` does not change what a rooted path cleans to |
| Paths.JoinPathLastElement | options.go:50-52 | `filepath.Join(dir, "view")` for a non-empty directory ends with `view` and stays rooted when the directory is |
| Envelope.GetErrorStr | response.go:21-23 | `GetErrorStr` returns the stored error text unchanged |
| Envelope.GetError | response.go:25-30 | `GetError` is nil exactly when the error text is empty; otherwise the error is formatted from that text |
| Envelope.EscapeRoundTrip | response.go:9-12 | every `Error` text survives `json.Marshal`'s string escaping (as in Go 1.22 and later, with `\b` and `\f`): reading the escaped literal back gives the text |
| Envelope.MarshalKeepsNilData | response.go:16-19 | a nil payload is written as `"Data":null`, not dropped |
| Envelope.MarshalSuccessPlain | response.go:9-19 | a success with a plain string payload is written `{"Code":0,"Error":"","Data":"<payload>"}` |
| Requests.FirstValue | request.go:75-78 | a field has a first value exactly when it is present with at least one value, and that value is the first one |
| Requests.RemoteIpOf | request.go:32 | `RemoteIp` is a prefix of the remote address with no `:`, followed in the address by `:` when shorter |
| Requests.RemoteIpOfHostPort | request.go:32 | a `host:port` address yields its host, whatever the port holds |
| Requests.RemoteIpOfBracketed | request.go:32 | a bracketed IPv6 address yields only `"["` |
| Requests.TrimFirst | request.go:88 | writing back the trimmed first value changes only that value of that field; a field without a value is left as it is |
| Requests.TrimFirstIdempotent | request.go:82-90 | writing back the trimmed value a second time changes nothing more |
| Requests.Request.Init | request.go:29-36 | `Init` keeps the request, takes `RemoteIp` from the remote address, sets the clock reading and empties the scratch maps |
| Requests.Request.MustFormBytes | request.go:73-80 | the untrimmed first value as UTF-8 bytes, or the default when the field has no value |
| Requests.Request.MustFormString | request.go:82-90 | the trimmed first value or the default; the form afterwards holds the trimmed value, and nothing else in the request changes |
| Requests.Request.FormString | request.go:92-100 | as `MustFormString`, but a missing field gives `""` and the error `"<key> not exists"` |
| Requests.Request.FormInt | request.go:116-129 | succeeds exactly when the first value parses as a base-10 `int64`, with that value; otherwise -1, with `"<key> not exists"` or the parse error's own text |
| Requests.Request.MustFormInt | request.go:131-144 | the parsed first value, or the default when the field is missing or does not parse |
| Requests.Request.MustFormUint64 | request.go:146-158 | the first value parsed as unsigned, or the default |
| Requests.Request.MustFormInt64 | request.go:160-172 | the parsed first value, or the default |
| Requests.Request.FormInt64 | request.go:174-186 | as `FormInt`, but a parse failure is reported as `"<key> not int"` |
| Requests.FormIntRoundTrip | request.go:116-186 | every signed integer accessor reads back the decimal rendering of an `int64` |
| Requests.MustFormUint64Sign | request.go:146-158 | `MustFormUint64` reads back an unsigned rendering, and gives the default for a negative one |
| Requests.FormIntRejectsPadding | request.go:116-144 | the integer accessors do not trim: a value with leading white space fails to parse |
| Requests.TrimThenParse | request.go:82-129 | after `MustFormString` has written back the trimmed value, `FormInt` succeeds on a field it failed on before |
| KvArgs.FormFirstValues | urlkvreq.go:17-25 | the merged keys are exactly the fields with a value, each mapped to its first value as a string |
| KvArgs.MakeUrlKvReqArgsAsWritten | urlkvreq.go:9-15 | the code as written succeeds only on an empty argument list, with an empty table |
| KvArgs.MakeUrlKvReqArgs | urlkvreq.go:9-15 | (corrected) succeeds exactly on alternating string keys and values, and builds the table those pairs describe |
| KvArgs.PairsKeys | urlkvreq.go:11-13 | the table's keys are exactly the strings at even positions |
| KvArgs.PairsLookup | urlkvreq.go:11-13 | a key maps to the value after its last occurrence |
| KvArgs.KvMap.FromMap | urlkvreq.go:10 | a new table holds exactly the given entries |
| KvArgs.KvMap.MergeIronRequest | urlkvreq.go:17-25 | the table becomes the old table overridden by the form's first values; fields without a value add nothing |
| KvArgs.KvMap.MustFormString | urlkvreq.go:27-33 | the stored value when it is a non-empty string, otherwise the default |
| KvArgs.KvMap.MustFormInt64 | urlkvreq.go:49-61 | an `int64` value as it is, a string that parses as signed base-10; otherwise the default |
| KvArgs.KvMap.MustFormUint64 | urlkvreq.go:63-75 | a `uint64` value as it is, a string that parses as unsigned; otherwise the default |
| KvArgs.KvMap.MustFormInt | urlkvreq.go:77-89 | an `int` value as it is, a string that parses; a JSON number (`float64`) and every other type give the default |
| KvArgs.MakeEasyKvReqArgs | easykvreq.go:7-11 | wraps a fresh table built as `MakeUrlKvReqArgs` builds it |
| KvArgs.MergeKv | easykvreq.go:13-18 | the shared table becomes the old table overridden by `kv`, and the same container is returned |
| KvArgs.AccessorsReadRendering | urlkvreq.go:49-89 | the table's integer accessors read back a stored decimal rendering; the unsigned one gives the default for a negative rendering |
| KvArgs.MergedAccessorsAgree | urlkvreq.go:17-89 | after the merge, the table's integer accessors agree with the request's on every field that has a value, and its string accessor returns the value untrimmed |
| Services.DescribePanics | proxy.go:55-96 | registration panics exactly on a non-function, or on a function with parameters after its `EasyKvReqArgs` |
| Services.DescribeParams | proxy.go:63-108 | the recorded parameters are the declared ones minus a leading context and minus a `UrlKvReqArgs` right after it; an `EasyKvReqArgs` service records only the map slot; the context flag is set exactly when the first parameter's type name ends in `Context`, and each container flag exactly when its container sits right after the optional context |
| Services.DescribeWellFormed | proxy.go:83-96 | every descriptor registration builds is well formed |
| Services.DescribeUrlThenEasy | proxy.go:84-104 | `UrlKvReqArgs` then `EasyKvReqArgs` is accepted, the latter as a positional parameter |
| Services.BuildService | proxy.go:50-108 | the step-by-step inspection yields exactly the descriptor, or the panic message |
| Services.AppendParams | proxy.go:106-108 | the loop appends the declared parameter types from the start index on, in order |
| Services.Proxy.Init | proxy.go:42-47 | three empty tables, and the registry invariant holds |
| Services.Proxy.RegisterService | proxy.go:49-111 | on success, only the path's entry is replaced, by the built descriptor; a panic changes nothing; the hook tables are untouched and the invariant is kept |
| Services.Proxy.HookBeforeService | proxy.go:113-120 | appends the hook to the path's group, earlier hooks kept in order; nothing else changes |
| Services.Proxy.HookAfterService | proxy.go:122-129 | the same for after-hooks |
| Services.AddedBeforeHookRunsLast | proxy.go:113-120 | a hook added to a group runs after the earlier ones, and only when none of them stopped the call |
| Services.NotFoundResponse | proxy.go:139-145 | the answer for an unknown path has `CODE_ERR`, no data, and the text of `xerrors.Errorf("%w,path:%s", ErrCmdNotFound, path)`: `ErrCmdNotFound + ",path:"`, then exactly the path, then `": " + ErrCmdNotFound`, since a `%w` away from the end of the format makes xerrors append the wrapped error's text |
| Services.FillArgs | proxy.go:152-168 | the argument array is the context first when the service takes one, then every given argument in order |
| Services.FindGroup | proxy.go:182-192 | the map walk picks a key that prefixes the path, or none exactly when no key does |
| Services.ApplyBefore | proxy.go:184-189 | the hook loop runs the hooks in order and stops at the first that says stop |
| Services.RunBeforeAppend | proxy.go:184-189 | running two groups of before-hooks in sequence is running them one after the other, unless the first stops |
| Services.RunBeforeStopped | proxy.go:184-189 | a stopped run was stopped by one hook, and every hook before it let the call go on |
| Services.ApplyAfter | proxy.go:272-274 | the after-hook loop threads the response through the hooks in order |
| Services.RunAfterAppend | proxy.go:270-277 | running concatenated after-hooks is running the groups one after the other |
| Services.Interfaces | proxy.go:249-251 | the dynamic values of the results, one per result, in order |
| Services.Normalise | proxy.go:210-266 | no results give success with no data; a first result that implements `IResponse` (a `Response`, or `RespCommon` itself or a struct embedding it) is returned unchanged, with no `Data` added; in every other case a `Response` is built: a single non-nil `error` gives `CODE_ERR` with its text and no data; a trailing `error` sets the code and text, with data the first result or the list of the others; otherwise code 0 and the list |
| Services.NormaliseGetError | proxy.go:210-266 | on an envelope built from a call's results, `GetError` reports an error only with `CODE_ERR` and with the text of the single or trailing non-nil `error`; a nil trailing `error`, or none, reports no error and code 0 |
| Services.NormaliseOutputs | proxy.go:202-266 | the result-building code with its append loops computes exactly `Normalise` |
| Services.DispatchSpec | proxy.go:131-280 | not found → the not-found envelope; a stopping before-hook → its response; an arity mismatch → `ErrCmdParamInvalid` |
| Services.DispatchCallsOnlyWhenReady | proxy.go:182-203 | when a before-hook stops or the arity does not match, the answer does not depend on the service function |
| Services.Proxy.Dispatch | proxy.go:131-280 | picks a hook group of each table whose key prefixes the path (or none if none does) and answers exactly `DispatchSpec` for those groups; an unknown path always gets the not-found envelope, and an arity mismatch with no matching before-hook group gets `ErrCmdParamInvalid` |
| IronDispatch.Slots | proxy_iron.go:69-90 | one value per parameter: the array element while the array lasts, the zero value of the slot's type after it |
| IronDispatch.ValueArgs | proxy_iron.go:88-90 | one positional argument per decoded value, in order |
| IronDispatch.EasyKvArgs | proxy_iron.go:36-54 | one container holding the form's first values, overridden by the body's object; an empty body adds nothing; a decoding error is passed on |
| IronDispatch.DecodedValues | proxy_iron.go:69-86 | a single slot receives the whole body decoded as its type; several slots receive the body's array elements by position, the zero value of their type after the array ends; it fails exactly when that decoding fails |
| IronDispatch.NormalArgs | proxy_iron.go:56-92 | the `UrlKvReqArgs` container first when the service takes one; an empty body adds nothing; otherwise the decoded slot values follow as positional arguments in `Params` order, or the decoding error is returned |
| IronDispatch.IronSpec | proxy_iron.go:11-109 | unknown path → not found, checked before the body is read; a body read error or decoding error → `CODE_ERR` with its text |
| IronDispatch.MaterialisedArity | proxy_iron.go:56-92 | for a registered service, a decoded non-empty body always passes `Dispatch`'s arity check; an empty body passes it exactly for an `EasyKvReqArgs` service or one with no positional parameters |
| IronDispatch.ParseEasyKvReqArgs | proxy_iron.go:36-54 | the in-place merges into a fresh container produce exactly `EasyKvArgs` |
| IronDispatch.DecodeSlots | proxy_iron.go:69-86 | the zero-initialised slot array after decoding holds exactly `DecodedValues` |
| IronDispatch.ParseNormalReqArgs | proxy_iron.go:56-92 | the appends produce exactly `NormalArgs` |
| IronDispatch.DispatchWithIronRequest | proxy_iron.go:11-109 | answers exactly `IronSpec` for the hook groups `Dispatch` picks; an unknown path gets the not-found envelope and a failed body read its error, whatever the hooks; for a registry built by registration, a decoded non-empty body always passes the arity check, so unless a before-hook stops, the answer is the after-hooks applied to the normalised results of calling the service |
| Hooks.IsRequestURIMatchHookBase | hook.go:63-81 | true exactly when no exclusion prefix excludes the URI and the match prefix is empty or starts it |
| Hooks.ExclusionWins | hook.go:67-73 | a URI strictly below an exclusion prefix never matches, whatever the match prefix |
| Hooks.ExclusionIsStrict | hook.go:69 | an exclusion prefix equal to the whole URI does not exclude it |
| Hooks.MatchIsPrefix | hook.go:75-78 | with no exclusions, a hook applies exactly to the URIs that start with its match prefix |
| Hooks.MoreExclusionsMatchLess | hook.go:67-73 | more exclusion prefixes never make a hook apply to more URIs |
| Servers.Server.HookBeforeServeRequest | hook.go:33-41 | appends one hook with the given prefix, exclusions and function; nothing else changes |
| Servers.Server.HookBeforeHttpHandle | hook.go:43-51 | the same, for the before-handle list |
| Servers.Server.HookAfterHttpHandle | hook.go:53-61 | the same, for the after-handle list |
| Servers.Server.LoadOptions | options.go:34-41 | the options are replaced by their sanitised form exactly when sanitising succeeds; otherwise they are kept |
| Servers.Server.AssignView | view.go:31-40 | the path's view becomes a fresh unparsed view of `ViewFilenames`; other paths and the rest of the server are unchanged |
| Views.ViewFilenames | view.go:32-38 | each name in order under the view directory, stopping at the first empty name |
| Views.ViewFilenamesStopAtEmpty | view.go:33-36 | names after the first empty one are ignored |
| Settings.TrimAll | options.go:90-92 | each piece trimmed, position by position |
| Settings.WhiteList | options.go:87-93 | nil for an empty string; otherwise the comma-separated pieces, each trimmed of white space: one entry per comma plus one, each free of commas and without white space at either end |
| Settings.Sanitized | options.go:43-96 | `BaseDir` is the working directory; `RunMode` is kept if known, else `dev`; auto-refresh is on exactly outside `proc`; `ServeType` is kept if known, else `server`; `SiteViewDir` defaults to `<BaseDir>/view`; the white list is parsed; nothing else changes |
| Settings.SanitizedIdempotent | options.go:43-96 | sanitising sanitised options changes nothing |
| Settings.SplitTrimmed | options.go:89-92 | the in-place trimming loop over the split pieces yields `TrimAll` of them |
| Settings.SanitizeOptions | options.go:43-96 | fails with the `Getwd` error first, then with the log-open error when a log path is set; fails exactly in those cases; otherwise yields `Sanitized` |
| Mux.PathMatchPrefix | mux.go:67-89 | a pattern matches only paths that start with it (less a trailing `*`); the empty pattern matches nothing |
| Mux.PathMatchSubtree | mux.go:85-88 | a pattern matches itself, and a pattern ending in `/` matches its whole subtree |
| Mux.PathMatchExact | mux.go:85-87 | a pattern ending in neither `/` nor `*` matches exactly one path |
| Mux.CleanPath | mux.go:92-106 | the canonical path is rooted, and ends in `/` exactly when it is the root or the input did |
| Mux.CleanPathIdempotent | mux.go:92-106 | cleaning a canonical path changes nothing, so the router redirects at most once |
| Mux.RedirectTarget | mux.go:56-61 | the redirect target is the rooted tail of the pattern after any host name |
| Mux.HandleError | mux.go:33-41 | `Handle` panics exactly on an empty pattern, a nil handler or a second explicit registration |
| Mux.Registered | mux.go:43-63 | the explicit entry is stored under the pattern; a redirect to the pattern's path is installed under `/tree` for `/tree/` unless that key is explicit; every other entry is kept |
| Mux.RegisteredKeepsInvariant | mux.go:43-63 | registration keeps the table's shape and adds exactly the pattern to the explicit ones |
| Mux.RegisteredHosts | mux.go:45-47 | after registration, `hosts` is true exactly when some explicit pattern names a host |
| Mux.Insert | mux.go:43-63 | the two table writes produce exactly `Registered` |
| Mux.ServeMux.NewServeMux | mux.go:24-27 | an empty table, no host patterns, and the server's not-found handler |
| Mux.ServeMux.Handle | mux.go:29-64 | panics as `HandleError` says, changing nothing; otherwise the table becomes `Registered`, `hosts` is updated and the invariant is kept |
| Mux.ServeMux.Match | mux.go:110-123 | no handler exactly when no pattern matches; otherwise a longest matching pattern's handler and its entry's pattern |
| Mux.ServeMux.Handler | mux.go:125-140 | a longest host+path match when some pattern names a host, else a longest path match, else the not-found handler |
| Mux.RegisteredPathWins | mux.go:110-123 | a registered path is its own longest match, unless the same path with `*` appended is registered too |

## Left out

- `ServeMux.ServeHTTP` and `ServeMux.Handler(r)`, and `Server.Render`: they need the HTTP server, templates and the response writer. The router's `NotFoundHandler` is a field of the mux, not read through the owning server.
- `Request.Redirect`, `ApiOutput`, `ApiOutputSuccess`, `Render`, `SaveFile`, `DecodeBodyJSONData`, `prepareForm`: these are response writing, file I/O and form parsing. The form is taken as already parsed.
- `FormFloat64` and `UrlKvReqArgs.MustFormFloat64`: floating point is not modelled. A JSON number is kept as its literal text.
- `LoadOptionsFile` is file I/O plus JSON decoding. The `Options.Log` file handle is not modelled: opening the log file is an input, and so are `os.Getwd` and closing any previous handle.
- JSON decoding is given as functions. `encoding/json` and `strconv.Quote` are modelled only for the cases the envelope and the parse-error texts use: printable text and the string escapes. Invalid UTF-8 is not modelled.
- The hook functions of hook.go and the services and hooks of proxy.go are known by identity, or as pure functions. They cannot mutate shared state, and a panic inside them is not modelled.
- Locks (`sync.RWMutex`) and concurrency.
- Services.Proxy.Dispatch: does not model the panic of `reflect.Value.Call` when an argument does not fit its declared parameter type, or when a service that takes a context gets a nil `reqCtx` (a zero `reflect.Value`). Values carry no run-time Go type in this model, so the service function is applied to whatever arguments it is given.
- Envelope.Implementer: a type that implements `GetErrorStr` itself, without embedding `RespCommon`, is not modelled. Neither is a nil `*Response` in an `IResponse` (a non-nil interface holding a nil pointer). An implementer other than `Response` is kept with its `RespCommon` and an opaque tag, so its other fields, and how `json.Marshal` writes it, are not modelled.
- Sharing of a `*View` between holders: a view is stored as a value.
- Go `int` is taken to be 64 bits wide.
- String lengths are counted in characters, not UTF-8 bytes. This changes no prefix test. For the router's longest match it can change only which of two equal-length patterns wins, which the model leaves open anyway.
- Services.DispatchSpec: states the error and hook outcomes outright; the successful path is stated through `Normalise` and the after-hooks, whose own properties are proved separately.
- IronDispatch.IronSpec: states the error outcomes outright; on success it is `DispatchSpec` of the decoded arguments, whose properties are given by `EasyKvArgs`, `NormalArgs` and `MaterialisedArity`.
- Strings.ParseInt64: its own contract states only the error's attribution; the value it reads is stated by `ParseFormatInt64`, `ParseIntPlusSign` and the `ParseUint64` contract it relies on.

## Findings

| source | as written | input that shows it | evidently intended | confidence | as-written member | corrected member |
|---|---|---|---|---|---|---|
| urlkvreq.go:11-13 | the loop steps by one (`i += 1`) but reads `kvArr[i+1]` and asserts `kvArr[i]` is a string, so every non-empty call panics: on the last index, or on a non-string value in key position | `MakeUrlKvReqArgs("a", "b")`: index 1 reads `kvArr[2]` | step by two over key/value pairs (`i += 2`) | not executed | KvArgs.MakeUrlKvReqArgsAsWritten | KvArgs.MakeUrlKvReqArgs |
