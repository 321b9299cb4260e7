/**
 * request.go: the per-request wrapper `Request` and its form accessors. The form
 * is taken as already parsed (`Form` maps a field to its values); parsing it, the
 * response writer, templates and uploads are not part of this model.
 */
module Requests {
  import opened Wrappers
  import opened Strings
  import opened Envelope

  /** The parts of `*http.Request` the framework reads; `Body` is what reading the body gives, or the read error. */
  datatype HttpRequest = HttpRequest(
    RemoteAddr: string,
    RequestURI: string,
    Form: map<string, seq<string>>,
    Body: Result<seq<byte>, string>)

  /** The first value of a form field, if it has one (a missing field reads as an empty list). */
  function FirstValue(form: map<string, seq<string>>, key: string): (v: Option<string>)
    ensures v.Some? <==> key in form && |form[key]| > 0
    ensures v.Some? ==> v.value == form[key][0]
  {
    if key in form && |form[key]| > 0 then Some(form[key][0]) else None
  }

  /** The remote address up to its first ':', or all of it when there is none. */
  function RemoteIpOf(addr: string): (ip: string)
    ensures HasPrefix(addr, ip) && ':' !in ip
    ensures |ip| < |addr| ==> addr[|ip|] == ':'
  {
    SplitFirst(addr, ':');
    Split(addr, ':')[0]
  }

  /** A `host:port` address yields its host, whatever the port holds. */
  lemma RemoteIpOfHostPort(host: string, port: string)
    requires ':' !in host
    ensures RemoteIpOf(host + ":" + port) == host
  {
    var addr := host + ":" + port;
    assert addr == host + [':'] + port;
    IndexOfAfter(host, ':', port);
    SplitFirst(addr, ':');
    assert addr[..|host|] == host;
  }

  /** An IPv6 address in brackets yields only the opening bracket. */
  lemma RemoteIpOfBracketed(rest: string)
    ensures RemoteIpOf("[::" + rest) == "["
  {
    var addr := "[::" + rest;
    assert addr == "[" + [':'] + (":" + rest);
    RemoteIpOfHostPort("[", ":" + rest);
  }

  /** The form after the first value of `key`, if any, is replaced by its trimmed text. */
  function TrimFirst(form: map<string, seq<string>>, key: string): (f: map<string, seq<string>>)
    ensures f.Keys == form.Keys
    ensures forall k | k in form && k != key :: f[k] == form[k]
    ensures FirstValue(form, key).None? ==> f == form
    ensures FirstValue(form, key).Some? ==>
      FirstValue(f, key) == Some(TrimSpace(form[key][0])) && f[key][1..] == form[key][1..]
  {
    if FirstValue(form, key).None? then form
    else form[key := form[key][0 := TrimSpace(form[key][0])]]
  }

  /** Trimming the same field twice changes nothing more. */
  lemma TrimFirstIdempotent(form: map<string, seq<string>>, key: string)
    ensures TrimFirst(TrimFirst(form, key), key) == TrimFirst(form, key)
  {
    if FirstValue(form, key).Some? {
      var f := TrimFirst(form, key);
      TrimSpaceIdempotent(form[key][0]);
      assert f[key][0 := TrimSpace(f[key][0])] == f[key];
    }
  }

  /**
   * `Request`: the HTTP request, the client's IP, two scratch maps for the
   * handlers and the arrival time in Unix seconds.
   */
  class Request {
    var R: HttpRequest
    var RemoteIp: string
    var V: map<string, Value>
    var ViewData: map<string, Value>
    var Now: int

    /** `Init`: keeps the request, takes the IP from `RemoteAddr`; `now` is the clock reading. */
    constructor Init(r: HttpRequest, now: int)
      ensures R == r && RemoteIp == RemoteIpOf(r.RemoteAddr)
      ensures V == map[] && ViewData == map[] && Now == now
    {
      R := r;
      var parts := Split(r.RemoteAddr, ':');
      RemoteIp := parts[0];
      Now := now;
      V := map[];
      ViewData := map[];
    }

    /** `MustFormBytes`: the untrimmed first value as UTF-8 bytes, or the default. */
    function MustFormBytes(key: string, defaultRet: seq<byte>): (ret: seq<byte>)
      reads this
      ensures FirstValue(R.Form, key).None? ==> ret == defaultRet
      ensures FirstValue(R.Form, key).Some? ==> ret == Utf8Encode(R.Form[key][0])
    {
      var v := if key in R.Form then R.Form[key] else [];
      if |v| == 0 then defaultRet else Utf8Encode(v[0])
    }

    /** `MustFormString`: the trimmed first value, written back into the form, or the default. */
    method MustFormString(key: string, defaultRet: string) returns (ret: string)
      modifies this
      ensures FirstValue(old(R.Form), key).None? ==> ret == defaultRet
      ensures FirstValue(old(R.Form), key).Some? ==> ret == TrimSpace(old(R.Form)[key][0])
      ensures R == old(R).(Form := TrimFirst(old(R.Form), key))
      ensures RemoteIp == old(RemoteIp) && V == old(V) && ViewData == old(ViewData) && Now == old(Now)
    {
      var v := if key in R.Form then R.Form[key] else [];
      if |v| == 0 {
        return defaultRet;
      }
      v := v[0 := TrimSpace(v[0])];
      R := R.(Form := R.Form[key := v]);
      return v[0];
    }

    /** `FormString`: like `MustFormString`, but a missing field is an error. */
    method FormString(key: string) returns (ret: string, err: Option<string>)
      modifies this
      ensures FirstValue(old(R.Form), key).None? ==> ret == "" && err == Some(key + " not exists")
      ensures FirstValue(old(R.Form), key).Some? ==> ret == TrimSpace(old(R.Form)[key][0]) && err == None
      ensures R == old(R).(Form := TrimFirst(old(R.Form), key))
      ensures RemoteIp == old(RemoteIp) && V == old(V) && ViewData == old(ViewData) && Now == old(Now)
    {
      var v := if key in R.Form then R.Form[key] else [];
      if |v| == 0 {
        return "", Some(key + " not exists");
      }
      v := v[0 := TrimSpace(v[0])];
      R := R.(Form := R.Form[key := v]);
      return v[0], None;
    }

    /**
     * `FormInt`: the untrimmed first value read as a base-10 64-bit integer; -1 and
     * an error when the field is missing or the text does not parse, in which case
     * the parse error itself is passed on.
     */
    function FormInt(key: string): (r: (int, Option<string>))
      reads this
      ensures r.1.None? <==> FirstValue(R.Form, key).Some? && ParseInt64(R.Form[key][0]).Success?
      ensures r.1.None? ==> r.0 == ParseInt64(R.Form[key][0]).value
      ensures r.1.Some? ==> r.0 == -1
      ensures FirstValue(R.Form, key).None? ==> r.1 == Some(key + " not exists")
      ensures FirstValue(R.Form, key).Some? && ParseInt64(R.Form[key][0]).Failure? ==>
        r.1 == Some(NumErrorText(ParseInt64(R.Form[key][0]).error))
    {
      var v := if key in R.Form then R.Form[key] else [];
      if |v| == 0 then (-1, Some(key + " not exists"))
      else
        match ParseInt64(v[0])
        case Success(n) => (n, None)
        case Failure(e) => (-1, Some(NumErrorText(e)))
    }

    /** `FormInt64`: as `FormInt`, but a parse failure is reported as `"<key> not int"`. */
    function FormInt64(key: string): (r: (int64, Option<string>))
      reads this
      ensures r.1.None? <==> FirstValue(R.Form, key).Some? && ParseInt64(R.Form[key][0]).Success?
      ensures r.1.None? ==> r.0 == ParseInt64(R.Form[key][0]).value
      ensures r.1.Some? ==> r.0 == -1
      ensures FirstValue(R.Form, key).None? ==> r.1 == Some(key + " not exists")
      ensures FirstValue(R.Form, key).Some? && ParseInt64(R.Form[key][0]).Failure? ==> r.1 == Some(key + " not int")
    {
      var v := if key in R.Form then R.Form[key] else [];
      if |v| == 0 then (-1, Some(key + " not exists"))
      else
        match ParseInt64(v[0])
        case Success(n) => (n, None)
        case Failure(_) => (-1, Some(key + " not int"))
    }

    /** `MustFormInt`: the parsed first value, or the default when it is missing or does not parse. */
    function MustFormInt(key: string, defaultRet: int): (ret: int)
      reads this
      ensures FirstValue(R.Form, key).Some? && ParseInt64(R.Form[key][0]).Success? ==>
        ret == ParseInt64(R.Form[key][0]).value
      ensures !(FirstValue(R.Form, key).Some? && ParseInt64(R.Form[key][0]).Success?) ==> ret == defaultRet
    {
      var v := if key in R.Form then R.Form[key] else [];
      if |v| == 0 then defaultRet
      else
        match ParseInt64(v[0])
        case Success(n) => n
        case Failure(_) => defaultRet
    }

    /** `MustFormInt64`: as `MustFormInt`, for `int64`. */
    function MustFormInt64(key: string, defaultRet: int64): (ret: int64)
      reads this
      ensures FirstValue(R.Form, key).Some? && ParseInt64(R.Form[key][0]).Success? ==>
        ret == ParseInt64(R.Form[key][0]).value
      ensures !(FirstValue(R.Form, key).Some? && ParseInt64(R.Form[key][0]).Success?) ==> ret == defaultRet
    {
      var v := if key in R.Form then R.Form[key] else [];
      if |v| == 0 then defaultRet
      else
        match ParseInt64(v[0])
        case Success(n) => n
        case Failure(_) => defaultRet
    }

    /** `MustFormUint64`: the first value read as an unsigned base-10 number, or the default. */
    function MustFormUint64(key: string, defaultRet: uint64): (ret: uint64)
      reads this
      ensures FirstValue(R.Form, key).Some? && ParseUint64(R.Form[key][0]).Success? ==>
        ret == ParseUint64(R.Form[key][0]).value
      ensures !(FirstValue(R.Form, key).Some? && ParseUint64(R.Form[key][0]).Success?) ==> ret == defaultRet
    {
      var v := if key in R.Form then R.Form[key] else [];
      if |v| == 0 then defaultRet
      else
        match ParseUint64(v[0])
        case Success(n) => n
        case Failure(_) => defaultRet
    }
  }

  /** Every integer accessor reads back the decimal rendering of an `int64` it finds as the first value. */
  lemma FormIntRoundTrip(req: Request, key: string, n: int64, d: int64)
    requires FirstValue(req.R.Form, key) == Some(FormatInt(n))
    ensures req.FormInt(key) == (n as int, None)
    ensures req.FormInt64(key) == (n, None)
    ensures req.MustFormInt(key, d) == n && req.MustFormInt64(key, d) == n
  {
    ParseFormatInt64(n);
  }

  /** `MustFormUint64` reads back a non-negative rendering and refuses a signed one. */
  lemma MustFormUint64Sign(req: Request, key: string, n: uint64, d: uint64)
    requires FirstValue(req.R.Form, key) == Some(FormatNat(n)) || FirstValue(req.R.Form, key) == Some("-" + FormatNat(n))
    ensures req.MustFormUint64(key, d) == if req.R.Form[key][0][0] == '-' then d else n
  {
    var s := req.R.Form[key][0];
    if s == FormatNat(n) {
      ParseFormatUint64(n);
      assert IsDigit(s[0]);
    } else {
      ParseUintRejectsSign(s);
    }
  }

  /** The integer accessors do not trim: padding makes them fail. */
  lemma FormIntRejectsPadding(req: Request, key: string, s: string, d: int)
    requires FirstValue(req.R.Form, key) == Some(" " + s)
    ensures req.FormInt(key).0 == -1 && req.FormInt(key).1.Some?
    ensures req.MustFormInt(key, d) == d
  {
    var v := " " + s;
    assert !IsDigit(v[0]) && v[0] != '+' && v[0] != '-';
  }

  lemma TrimSpacePadded(s: string)
    requires s != [] && !IsSpace(s[0]) && !IsSpace(s[|s| - 1])
    ensures TrimSpace(" " + s + " ") == s
  {
    var p := " " + s + " ";
    assert p[1..] == s + " ";
    assert TrimLeft(p) == s + " ";
    assert (s + " ")[..|s|] == s;
  }

  /**
   * `MustFormString` writes the trimmed value back into the form, so an integer
   * accessor that failed on the padded value succeeds once the field was read as a
   * string: `before` is the request before, `after` the same request after the call.
   */
  lemma TrimThenParse(before: Request, after: Request, key: string, n: int64)
    requires FirstValue(before.R.Form, key) == Some(" " + FormatInt(n) + " ")
    requires after.R.Form == TrimFirst(before.R.Form, key)
    ensures before.FormInt(key).1.Some?
    ensures after.FormInt(key) == (n as int, None)
  {
    var f := FormatInt(n);
    assert " " + f + " " == " " + (f + " ");
    FormIntRejectsPadding(before, key, f + " ", -1);
    FormatIntEnds(n);
    TrimSpacePadded(f);
    FormIntRoundTrip(after, key, n, -1);
  }

  /** A decimal rendering starts with a sign or a digit and ends with a digit. */
  lemma FormatIntEnds(n: int)
    ensures FormatInt(n) != [] && !IsSpace(FormatInt(n)[0]) && !IsSpace(FormatInt(n)[|FormatInt(n)| - 1])
  {
    var f := FormatInt(n);
    if n < 0 {
      var d := FormatNat(-n);
      assert f == "-" + d;
      assert f[|f| - 1] == d[|d| - 1];
      assert IsDigit(d[|d| - 1]);
    } else {
      assert IsDigit(f[0]) && IsDigit(f[|f| - 1]);
    }
  }
}
