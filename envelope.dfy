/**
 * The response envelope of response.go: `RespCommon{Code, Error}` and
 * `Response{RespCommon, Data}`, the Go values (`interface{}`) it can carry, and
 * how `encoding/json` writes it out.
 */
module Envelope {
  import opened Wrappers
  import opened Strings

  /** `CODE_OK`: the code of a successful call (it serialises as `"Code":0`). */
  const CodeOk: int := 0

  /** `CODE_ERR`: the generic failure code (-1, the code the 404 handler also uses). */
  const CodeErr: int := -1

  /**
   * A Go dynamic value (`interface{}`), as far as the framework looks inside it:
   * nil, strings, the integer and boolean kinds the accessors switch on, a JSON
   * number decoded into `float64` (kept as its literal: floating point is not modelled),
   * slices, string-keyed maps, error values, values that implement `IResponse`, the
   * zero value of a declared type, and any other value as an opaque tag of its type.
   */
  datatype Value =
    | Nil
    | Str(s: string)
    | Bool(b: bool)
    | Int(i: int64)
    | Int64(i64: int64)
    | Uint64(u: uint64)
    | Float64(literal: string)
    | List(items: seq<Value>)
    | Object(fields: map<string, Value>)
    | ErrorValue(msg: string)
    | RespValue(resp: Implementer)
    | Zero(typeName: string)
    | Opaque(typeName: string, id: nat)

  /** `RespCommon`: the code and the error text. */
  datatype RespCommon = RespCommon(Code: int, Error: string)

  /** `Response`: `RespCommon` embedded, and the payload `Data`. */
  datatype Response = Response(common: RespCommon, Data: Value)

  /**
   * A non-nil value of a type with `GetErrorStr()`: the framework's `Response` (or
   * `*Response`), or another type that gets the method from `RespCommon`, namely
   * `RespCommon` itself or a struct that embeds it. Such a value is kept with its type
   * name, its embedded `RespCommon` and a tag `id` for the fields this model does not follow.
   */
  datatype Implementer =
    | Resp(env: Response)
    | Other(typeName: string, common: RespCommon, id: nat)

  /** `IResponse`: an implementer, or the nil interface. */
  type IResponse = Option<Implementer>

  /** A `Response` built by the framework, held as an `IResponse`. */
  function AsIResponse(r: Response): IResponse {
    Some(Resp(r))
  }

  /** The error `xerrors.Errorf(format)` builds; its text is `format` rendered by `fmt` with no arguments. */
  datatype FormattedError = FormattedError(format: string)

  /** The envelope with the given code and error text and no payload. */
  function ErrorResponse(code: int, msg: string): (r: Response)
    ensures r.common.Code == code && r.common.Error == msg && r.Data == Nil
  {
    Response(RespCommon(code, msg), Nil)
  }

  /** `RespCommon.GetErrorStr`: the error text as stored. */
  function GetErrorStr(c: RespCommon): (s: string)
    ensures s == c.Error
  {
    c.Error
  }

  /** `RespCommon.GetError`: nil exactly when the error text is empty. */
  function GetError(c: RespCommon): (e: Option<FormattedError>)
    ensures e.None? <==> c.Error == ""
    ensures e.Some? ==> e.value.format == c.Error
  {
    if c.Error == "" then None else Some(FormattedError(c.Error))
  }

  // ------------------------------------------------------------ JSON output

  function HexDigit(d: nat): (c: char)
    requires d < 16
  {
    if d < 10 then ('0' as int + d) as char else ('a' as int + d - 10) as char
  }

  /** Four lower-case hexadecimal digits of `n`. */
  function Hex4(n: nat): (s: string)
    requires n < 0x10000
    ensures |s| == 4
  {
    [HexDigit(n / 16 / 16 / 16), HexDigit(n / 16 / 16 % 16), HexDigit(n / 16 % 16), HexDigit(n % 16)]
  }

  /**
   * How `encoding/json` (Go 1.22 and later) writes one character inside a string
   * literal, with HTML escaping as `json.Marshal` does: `"` and `\`, newline,
   * carriage return, tab, backspace and form feed get short escapes, other control characters, `<`, `>`, `&`, U+2028
   * and U+2029 get `\uXXXX`, everything else is written as it is.
   */
  function EscapeChar(c: char): string {
    if c == '"' then "\\\""
    else if c == '\\' then "\\\\"
    else if c == '\n' then "\\n"
    else if c == '\r' then "\\r"
    else if c == '\t' then "\\t"
    else if c == '\U{0008}' then "\\b"
    else if c == '\U{000C}' then "\\f"
    else if (c as int) < 0x20 || c == '<' || c == '>' || c == '&' || c == '\U{2028}' || c == '\U{2029}'
    then "\\u" + Hex4(c as int)
    else [c]
  }

  /** The inside of the JSON string literal for `s`. */
  function EscapeJson(s: string): string {
    if s == [] then "" else EscapeChar(s[0]) + EscapeJson(s[1..])
  }

  /** The value of a hexadecimal digit, in either case. */
  function HexValue(c: char): (r: Option<nat>)
    ensures r.Some? ==> r.value < 16
  {
    if '0' <= c <= '9' then Some(c as int - '0' as int)
    else if 'a' <= c <= 'f' then Some(c as int - 'a' as int + 10)
    else if 'A' <= c <= 'F' then Some(c as int - 'A' as int + 10)
    else None
  }

  /** The value of four hexadecimal digits, most significant first. */
  function Hex4Value(s: string): (r: Option<nat>)
    requires |s| == 4
    ensures r.Some? ==> r.value < 0x10000
  {
    match (HexValue(s[0]), HexValue(s[1]), HexValue(s[2]), HexValue(s[3]))
    case (Some(a), Some(b), Some(c), Some(d)) => Some(((a * 16 + b) * 16 + c) * 16 + d)
    case _ => None
  }

  /** The character a two-character escape `\e` stands for. */
  function SimpleEscape(e: char): Option<char> {
    if e == '"' || e == '\\' || e == '/' then Some(e)
    else if e == 'n' then Some('\n')
    else if e == 'r' then Some('\r')
    else if e == 't' then Some('\t')
    else if e == 'b' then Some('\U{0008}')
    else if e == 'f' then Some('\U{000C}')
    else None
  }

  /** Reads the inside of a JSON string literal back (surrogate pairs are not accepted). */
  function UnescapeJson(s: string): Option<string>
    decreases |s|
  {
    if s == [] then Some("")
    else if s[0] != '\\' then
      match UnescapeJson(s[1..])
      case Some(rest) => Some([s[0]] + rest)
      case None => None
    else if |s| < 2 then None
    else
      var e := s[1];
      var simple := SimpleEscape(e);
      if simple.Some? then
        match UnescapeJson(s[2..])
        case Some(rest) => Some([simple.value] + rest)
        case None => None
      else if e == 'u' && |s| >= 6 then
        match Hex4Value(s[2..6])
        case None => None
        case Some(n) =>
          if 0xD800 <= n < 0xE000 then None
          else
            match UnescapeJson(s[6..])
            case Some(rest) => Some([n as char] + rest)
            case None => None
      else None
  }

  lemma HexRoundTrip(n: nat)
    requires n < 0x10000
    ensures Hex4Value(Hex4(n)) == Some(n)
  {
    var h := Hex4(n);
    var q1 := n / 16;
    var q2 := q1 / 16;
    var q3 := q2 / 16;
    assert n == q1 * 16 + n % 16;
    assert q1 == q2 * 16 + q1 % 16;
    assert q2 == q3 * 16 + q2 % 16;
    assert q3 < 16;
    assert HexValue(h[0]) == Some(q3);
    assert HexValue(h[1]) == Some(q2 % 16);
    assert HexValue(h[2]) == Some(q1 % 16);
    assert HexValue(h[3]) == Some(n % 16);
  }

  /** Reading back one escaped character and then the rest. */
  lemma UnescapeChar(c: char, rest: string)
    ensures UnescapeJson(EscapeChar(c) + rest) ==
      match UnescapeJson(rest) case Some(r) => Some([c] + r) case None => None
  {
    var s := EscapeChar(c) + rest;
    if c == '"' || c == '\\' || c == '\n' || c == '\r' || c == '\t' || c == '\U{0008}' || c == '\U{000C}' {
      assert s[2..] == rest;
    } else if (c as int) < 0x20 || c == '<' || c == '>' || c == '&' || c == '\U{2028}' || c == '\U{2029}' {
      assert s[2..6] == Hex4(c as int);
      HexRoundTrip(c as int);
      assert s[6..] == rest;
      assert (c as int) as char == c;
    } else {
      assert s[1..] == rest;
    }
  }

  /** Every string survives the trip through a JSON string literal. */
  lemma {:induction false} EscapeRoundTrip(s: string)
    ensures UnescapeJson(EscapeJson(s)) == Some(s)
  {
    if s != [] {
      EscapeRoundTrip(s[1..]);
      UnescapeChar(s[0], EscapeJson(s[1..]));
      assert [s[0]] + s[1..] == s;
    }
  }

  /**
   * `json.Marshal` of a value, as far as this model follows it: nil, strings,
   * booleans and integers; `other` stands for `encoding/json` on everything else.
   */
  function EncodeValue(v: Value, other: Value -> string): string {
    match v
    case Nil => "null"
    case Str(s) => "\"" + EscapeJson(s) + "\""
    case Bool(b) => if b then "true" else "false"
    case Int(i) => FormatInt(i)
    case Int64(i) => FormatInt(i)
    case Uint64(u) => FormatInt(u)
    case _ => other(v)
  }

  /** `json.Marshal(resp)`: the keys `Code`, `Error`, `Data` in that order, `Data` even when nil. */
  function MarshalResponse(r: Response, other: Value -> string): string {
    "{\"Code\":" + FormatInt(r.common.Code)
    + ",\"Error\":\"" + EscapeJson(r.common.Error)
    + "\",\"Data\":" + EncodeValue(r.Data, other) + "}"
  }

  /** A nil payload is written as `"Data":null`, not dropped. */
  lemma MarshalKeepsNilData(r: Response, other: Value -> string)
    requires r.Data == Nil
    ensures HasSuffix(MarshalResponse(r, other), ",\"Data\":null}")
  {
  }

  /** Characters `encoding/json` writes as they are. */
  predicate Plain(c: char) {
    c != '"' && c != '\\' && (c as int) >= 0x20 && c != '<' && c != '>' && c != '&'
    && c != '\U{2028}' && c != '\U{2029}'
  }

  /** Text without special characters is written unchanged. */
  lemma {:induction false} EscapePlain(s: string)
    requires forall i | 0 <= i < |s| :: Plain(s[i])
    ensures EscapeJson(s) == s
  {
    if s != [] {
      assert Plain(s[0]);
      EscapePlain(s[1..]);
      assert [s[0]] + s[1..] == s;
    }
  }

  /** The fields before the payload of a success envelope: code 0 and an empty error. */
  lemma SuccessHead()
    ensures "{\"Code\":" + FormatInt(CodeOk) + ",\"Error\":\"" + EscapeJson("") + "\",\"Data\":"
         == "{\"Code\":0,\"Error\":\"\",\"Data\":"
  {
    assert FormatInt(CodeOk) == "0";
    assert EscapeJson("") == "";
  }

  /** Quoting a payload at the end of an envelope. */
  lemma QuotedTail(head: string, d: string)
    ensures head + ("\"" + d + "\"") + "}" == head + "\"" + d + "\"}"
  {
  }

  /** A successful call whose result is a plain string: the envelope with code 0, empty error and the string as data. */
  lemma MarshalSuccessPlain(d: string, other: Value -> string)
    requires forall i | 0 <= i < |d| :: Plain(d[i])
    ensures MarshalResponse(Response(RespCommon(CodeOk, ""), Str(d)), other)
         == "{\"Code\":0,\"Error\":\"\",\"Data\":" + "\"" + d + "\"}"
  {
    SuccessHead();
    EscapePlain(d);
    QuotedTail("{\"Code\":0,\"Error\":\"\",\"Data\":", d);
  }
}
