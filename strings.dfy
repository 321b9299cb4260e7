/**
 * The pieces of Go's `strings` and `strconv` packages that the framework relies on:
 * prefix and suffix tests, `TrimSpace`, `Split` on a one-character separator, and
 * base-10 parsing and formatting of 64-bit integers.
 *
 * A Go string is modelled as the sequence of its Unicode code points.
 */
module Strings {
  import opened Wrappers

  /** Go `int64`, and Go `int` on the 64-bit platforms the framework runs on. */
  type int64 = x: int | -0x8000_0000_0000_0000 <= x < 0x8000_0000_0000_0000

  /** Go `uint64`. */
  type uint64 = x: int | 0 <= x < 0x1_0000_0000_0000_0000

  const MaxUint64: int := 0xFFFF_FFFF_FFFF_FFFF
  const Int64Cutoff: int := 0x8000_0000_0000_0000

  // ---------------------------------------------------------------- prefixes

  /** `strings.HasPrefix(s, prefix)`. */
  predicate HasPrefix(s: string, prefix: string) {
    |prefix| <= |s| && s[..|prefix|] == prefix
  }

  /** `strings.HasSuffix(s, suffix)`. */
  predicate HasSuffix(s: string, suffix: string) {
    |suffix| <= |s| && s[|s| - |suffix|..] == suffix
  }

  /** `strings.IndexByte(s, c)`: the first index of `c`, or -1. */
  function IndexOf(s: string, c: char): (i: int)
    ensures -1 <= i < |s|
    ensures 0 <= i ==> s[i] == c && c !in s[..i]
    ensures i < 0 ==> c !in s
  {
    if s == [] then -1
    else if s[0] == c then 0
    else
      var j := IndexOf(s[1..], c);
      if j < 0 then -1 else j + 1
  }

  // ------------------------------------------------------------- white space

  /** `unicode.IsSpace`: the Latin-1 spaces and the other code points with the Unicode White_Space property. */
  predicate IsSpace(c: char) {
    || c == '\t' || c == '\n' || c == '\U{000B}' || c == '\U{000C}' || c == '\r' || c == ' '
    || c == '\U{0085}' || c == '\U{00A0}' || c == '\U{1680}'
    || ('\U{2000}' <= c <= '\U{200A}')
    || c == '\U{2028}' || c == '\U{2029}' || c == '\U{202F}' || c == '\U{205F}' || c == '\U{3000}'
  }

  /** Removes the leading white space of `s`. */
  function TrimLeft(s: string): (r: string)
    ensures HasSuffix(s, r)
    ensures r == [] || !IsSpace(r[0])
    ensures forall i | 0 <= i < |s| - |r| :: IsSpace(s[i])
  {
    if s != [] && IsSpace(s[0]) then TrimLeft(s[1..]) else s
  }

  /** Removes the trailing white space of `s`. */
  function TrimRight(s: string): (r: string)
    ensures HasPrefix(s, r)
    ensures r == [] || !IsSpace(r[|r| - 1])
    ensures forall i | |r| <= i < |s| :: IsSpace(s[i])
  {
    if s != [] && IsSpace(s[|s| - 1]) then TrimRight(s[..|s| - 1]) else s
  }

  /** `strings.TrimSpace(s)`. */
  function TrimSpace(s: string): (r: string)
    ensures |r| <= |s|
    ensures r == [] || (!IsSpace(r[0]) && !IsSpace(r[|r| - 1]))
  {
    TrimRight(TrimLeft(s))
  }

  /** A prefix of the suffix of `s` from `i` is the slice of `s` from `i`. */
  lemma PrefixOfSuffix(s: string, i: nat, r: string)
    requires i <= |s| && HasPrefix(s[i..], r)
    ensures i + |r| <= |s| && s[i..i + |r|] == r
  {
    assert s[i..][..|r|] == s[i..i + |r|];
  }

  /** White space after a prefix of the suffix from `i` is white space in `s`. */
  lemma SpaceAfterSlice(s: string, i: nat, n: nat)
    requires i + n <= |s|
    requires forall k | n <= k < |s| - i :: IsSpace(s[i..][k])
    ensures forall j | i + n <= j < |s| :: IsSpace(s[j])
  {
    forall j | i + n <= j < |s| ensures IsSpace(s[j]) {
      assert s[j] == s[i..][j - i];
    }
  }

  /** Where `TrimSpace` cut: `s` is white space, then `TrimSpace(s)`, then white space. */
  lemma TrimSpaceIsSlice(s: string) returns (i: nat)
    ensures i + |TrimSpace(s)| <= |s|
    ensures s[i..i + |TrimSpace(s)|] == TrimSpace(s)
    ensures forall j | 0 <= j < i :: IsSpace(s[j])
    ensures forall j | i + |TrimSpace(s)| <= j < |s| :: IsSpace(s[j])
  {
    var l := TrimLeft(s);
    i := |s| - |l|;
    var r := TrimRight(l);
    assert TrimSpace(s) == r;
    assert l == s[i..];
    PrefixOfSuffix(s, i, r);
    SpaceAfterSlice(s, i, |r|);
  }

  /** Trimming twice is trimming once. */
  lemma TrimSpaceIdempotent(s: string)
    ensures TrimSpace(TrimSpace(s)) == TrimSpace(s)
  {
    var t := TrimSpace(s);
    assert TrimLeft(t) == t;
    assert TrimRight(t) == t;
  }

  // ----------------------------------------------------------------- Split

  /** `strings.Split(s, string(sep))`: the pieces between the separators, at least one. */
  function Split(s: string, sep: char): (parts: seq<string>)
    ensures |parts| >= 1
    ensures forall i | 0 <= i < |parts| :: sep !in parts[i]
    decreases |s|
  {
    var i := IndexOf(s, sep);
    if i < 0 then [s]
    else
      var rest := Split(s[i + 1..], sep);
      var parts := [s[..i]] + rest;
      assert forall j | 0 <= j < |parts| :: sep !in parts[j] by {
        forall j | 0 <= j < |parts| ensures sep !in parts[j] {
          if j > 0 {
            assert parts[j] == rest[j - 1];
          }
        }
      }
      parts
  }

  /** `strings.Join(parts, string(sep))`. */
  function Join(parts: seq<string>, sep: char): string {
    if |parts| == 0 then ""
    else if |parts| == 1 then parts[0]
    else parts[0] + [sep] + Join(parts[1..], sep)
  }

  /** The number of occurrences of `c` in `s`. */
  function Count(s: string, c: char): nat {
    if s == [] then 0 else (if s[0] == c then 1 else 0) + Count(s[1..], c)
  }

  lemma {:induction false} CountAppend(a: string, b: string, c: char)
    ensures Count(a + b, c) == Count(a, c) + Count(b, c)
  {
    if a != [] {
      assert (a + b)[1..] == a[1..] + b;
      CountAppend(a[1..], b, c);
    } else {
      assert a + b == b;
    }
  }

  lemma {:induction false} CountAbsent(s: string, c: char)
    requires c !in s
    ensures Count(s, c) == 0
  {
    if s != [] {
      assert c !in s[1..];
      CountAbsent(s[1..], c);
    }
  }

  /** A split at a separator: the piece before it, then the split of the rest. */
  lemma SplitAt(s: string, sep: char)
    requires IndexOf(s, sep) >= 0
    ensures IndexOf(s, sep) < |s|
    ensures Split(s, sep) == [s[..IndexOf(s, sep)]] + Split(s[IndexOf(s, sep) + 1..], sep)
  {
  }

  /** Joining a piece in front of at least one more. */
  lemma JoinCons(head: string, tail: seq<string>, sep: char)
    requires |tail| >= 1
    ensures Join([head] + tail, sep) == head + [sep] + Join(tail, sep)
  {
    assert ([head] + tail)[1..] == tail;
  }

  /** Joining the pieces of a split gives the string back. */
  lemma {:induction false} JoinSplit(s: string, sep: char)
    ensures Join(Split(s, sep), sep) == s
    decreases |s|
  {
    var i := IndexOf(s, sep);
    if i >= 0 {
      SplitAt(s, sep);
      var rest := s[i + 1..];
      JoinSplit(rest, sep);
      JoinCons(s[..i], Split(rest, sep), sep);
      assert s == s[..i] + [sep] + rest;
    }
  }

  /** Splitting a join of separator-free pieces gives the pieces back. */
  lemma {:induction false} SplitJoin(parts: seq<string>, sep: char)
    requires |parts| >= 1
    requires forall i | 0 <= i < |parts| :: sep !in parts[i]
    ensures Split(Join(parts, sep), sep) == parts
    decreases |parts|
  {
    var s := Join(parts, sep);
    if |parts| == 1 {
      assert IndexOf(s, sep) < 0;
    } else {
      var rest := Join(parts[1..], sep);
      assert s == parts[0] + [sep] + rest;
      IndexOfAfter(parts[0], sep, rest);
      SplitAt(s, sep);
      assert s[..|parts[0]|] == parts[0];
      assert s[|parts[0]| + 1..] == rest;
      SplitJoin(parts[1..], sep);
      assert parts == [parts[0]] + parts[1..];
    }
  }

  /** The first separator of `a + [c] + b` is the one after `a` when `a` holds none. */
  lemma {:induction false} IndexOfAfter(a: string, c: char, b: string)
    requires c !in a
    ensures IndexOf(a + [c] + b, c) == |a|
  {
    var s := a + [c] + b;
    if a != [] {
      assert s[0] == a[0] != c;
      assert s[1..] == a[1..] + [c] + b;
      IndexOfAfter(a[1..], c, b);
    }
  }

  /** Appending a piece to a join adds a separator and the piece. */
  lemma {:induction false} JoinAppend(parts: seq<string>, x: string, sep: char)
    ensures Join(parts + [x], sep) == if parts == [] then x else Join(parts, sep) + [sep] + x
    decreases |parts|
  {
    if |parts| > 1 {
      assert (parts + [x])[1..] == parts[1..] + [x];
      JoinAppend(parts[1..], x, sep);
    } else if |parts| == 1 {
      assert (parts + [x])[1..] == [x];
    }
  }

  /** A string with a separator appended splits into its own pieces and an empty last piece. */
  lemma SplitAppendSep(s: string, sep: char)
    ensures Split(s + [sep], sep) == Split(s, sep) + [""]
  {
    var parts := Split(s, sep);
    JoinSplit(s, sep);
    JoinAppend(parts, "", sep);
    assert Join(parts + [""], sep) == s + [sep];
    var ext := parts + [""];
    assert forall i | 0 <= i < |ext| :: sep !in ext[i] by {
      forall i | 0 <= i < |ext| ensures sep !in ext[i] {
        if i < |parts| { assert ext[i] == parts[i]; }
      }
    }
    SplitJoin(ext, sep);
  }

  /** A string, a separator and a separator-free piece split into the string's pieces and that piece. */
  lemma SplitAppendPiece(s: string, sep: char, x: string)
    requires sep !in x
    ensures Split(s + [sep] + x, sep) == Split(s, sep) + [x]
  {
    var parts := Split(s, sep);
    JoinSplit(s, sep);
    JoinAppend(parts, x, sep);
    var ext := parts + [x];
    assert forall i | 0 <= i < |ext| :: sep !in ext[i] by {
      forall i | 0 <= i < |ext| ensures sep !in ext[i] {
        if i < |parts| { assert ext[i] == parts[i]; }
      }
    }
    SplitJoin(ext, sep);
  }

  /** `Split` yields one more piece than there are separators. */
  lemma {:induction false} SplitLength(s: string, sep: char)
    ensures |Split(s, sep)| == Count(s, sep) + 1
    decreases |s|
  {
    var i := IndexOf(s, sep);
    if i < 0 {
      CountAbsent(s, sep);
    } else {
      SplitAt(s, sep);
      SplitLength(s[i + 1..], sep);
      CountAtFirst(s, i, sep);
    }
  }

  /** Counting through the first occurrence of `c`, at `i`. */
  lemma CountAtFirst(s: string, i: nat, c: char)
    requires i < |s| && s[i] == c && c !in s[..i]
    ensures Count(s, c) == Count(s[i + 1..], c) + 1
  {
    var rest := s[i + 1..];
    assert s == s[..i] + ([c] + rest);
    CountAppend(s[..i], [c] + rest, c);
    CountAbsent(s[..i], c);
    assert ([c] + rest)[1..] == rest;
  }

  /** The first piece of a split is the text before the first separator, or all of `s`. */
  lemma SplitFirst(s: string, sep: char)
    ensures sep !in s ==> Split(s, sep)[0] == s
    ensures sep in s ==> Split(s, sep)[0] == s[..IndexOf(s, sep)] && sep !in Split(s, sep)[0]
  {
  }

  // ------------------------------------------------------- decimal numbers

  predicate IsDigit(c: char) {
    '0' <= c <= '9'
  }

  predicate AllDigits(s: string) {
    forall i | 0 <= i < |s| :: IsDigit(s[i])
  }

  function DigitValue(c: char): nat
    requires IsDigit(c)
  {
    (c as int) - ('0' as int)
  }

  function DigitChar(d: nat): (c: char)
    requires d < 10
    ensures IsDigit(c) && DigitValue(c) == d
  {
    (('0' as int) + d) as char
  }

  /** The number a string of decimal digits denotes, most significant digit first. */
  function DecimalValue(s: string): nat
    requires AllDigits(s)
  {
    if s == [] then 0 else DecimalValue(s[..|s| - 1]) * 10 + DigitValue(s[|s| - 1])
  }

  /** The length of the longest all-digit prefix of `s`. */
  function DigitPrefixLength(s: string): (k: nat)
    ensures k <= |s|
    ensures AllDigits(s[..k])
    ensures k < |s| ==> !IsDigit(s[k])
  {
    if s == [] || !IsDigit(s[0]) then 0
    else
      var k := DigitPrefixLength(s[1..]);
      assert s[..k + 1] == [s[0]] + s[1..][..k];
      k + 1
  }

  /** `strconv.FormatUint(n, 10)`: the shortest decimal rendering of `n`. */
  function FormatNat(n: nat): (s: string)
    ensures 1 <= |s| && AllDigits(s)
  {
    if n < 10 then [DigitChar(n)] else FormatNat(n / 10) + [DigitChar(n % 10)]
  }

  /** `strconv.FormatInt(n, 10)`, which is also how `%v` prints an integer. */
  function FormatInt(n: int): string {
    if n < 0 then "-" + FormatNat(-n) else FormatNat(n)
  }

  /** The way a `strconv.ParseInt`/`ParseUint` call fails. */
  datatype NumErrorKind = ErrSyntax | ErrRange

  /** `*strconv.NumError`: the function, its input and the reason. */
  datatype NumError = NumError(Func: string, Num: string, Err: NumErrorKind)

  /** `NumError.Error()`. */
  function NumErrorText(e: NumError): string {
    "strconv." + e.Func + ": parsing " + Quote(e.Num) + ": "
    + (match e.Err case ErrSyntax => "invalid syntax" case ErrRange => "value out of range")
  }

  /** `strconv.Quote` for printable text: quotes, with `"` and `\` escaped. */
  function Quote(s: string): string {
    "\"" + QuoteBody(s) + "\""
  }

  function QuoteBody(s: string): string {
    if s == [] then ""
    else (if s[0] == '"' || s[0] == '\\' then ['\\', s[0]] else [s[0]]) + QuoteBody(s[1..])
  }

  /**
   * `strconv.ParseUint(s, 10, 64)`. Digits are read left to right: a prefix of digits
   * whose value passes 2^64-1 is a range error even if a non-digit follows; otherwise
   * any non-digit, or the empty string, is a syntax error. No sign is accepted.
   */
  function ParseUint64(s: string): (r: Result<uint64, NumError>)
    ensures r.Success? <==> s != [] && AllDigits(s) && DecimalValue(s) <= MaxUint64
    ensures r.Success? ==> r.value == DecimalValue(s)
    ensures r.Failure? ==> r.error.Func == "ParseUint" && r.error.Num == s
  {
    if s == [] then Failure(NumError("ParseUint", s, ErrSyntax))
    else
      var k := DigitPrefixLength(s);
      assert k == |s| ==> s[..k] == s;
      if DecimalValue(s[..k]) > MaxUint64 then Failure(NumError("ParseUint", s, ErrRange))
      else if k < |s| then Failure(NumError("ParseUint", s, ErrSyntax))
      else assert s[..k] == s; Success(DecimalValue(s))
  }

  /**
   * `strconv.ParseInt(s, 10, 64)`: an optional `+` or `-`, then what `ParseUint` accepts,
   * within [-2^63, 2^63-1]; errors name `ParseInt` and the whole input.
   */
  function ParseInt64(s: string): (r: Result<int64, NumError>)
    ensures r.Failure? ==> r.error.Func == "ParseInt" && r.error.Num == s
  {
    if s == [] then Failure(NumError("ParseInt", s, ErrSyntax))
    else
      var neg := s[0] == '-';
      var digits := if s[0] == '+' || s[0] == '-' then s[1..] else s;
      match ParseUint64(digits)
      case Failure(e) => Failure(NumError("ParseInt", s, e.Err))
      case Success(un) =>
        if !neg && un >= Int64Cutoff then Failure(NumError("ParseInt", s, ErrRange))
        else if neg && un > Int64Cutoff then Failure(NumError("ParseInt", s, ErrRange))
        else
          var n: int := if neg then -(un as int) else un;
          Success(n)
  }

  lemma {:induction false} DecimalValueOfFormat(n: nat)
    ensures DecimalValue(FormatNat(n)) == n
  {
    if n >= 10 {
      var s := FormatNat(n);
      assert s[..|s| - 1] == FormatNat(n / 10);
      DecimalValueOfFormat(n / 10);
    }
  }

  /** Parsing the decimal rendering of a `uint64` gives it back. */
  lemma ParseFormatUint64(n: uint64)
    ensures ParseUint64(FormatNat(n)) == Success(n)
  {
    DecimalValueOfFormat(n);
  }

  /** Parsing the decimal rendering of an `int64` gives it back. */
  lemma ParseFormatInt64(n: int64)
    ensures ParseInt64(FormatInt(n)) == Success(n)
  {
    var m: int := n;
    if m < 0 {
      ParseFormatNegative(-m);
    } else {
      ParseFormatUint64(m);
      assert IsDigit(FormatNat(m)[0]);
    }
  }

  lemma ParseFormatNegative(k: nat)
    requires 0 < k <= Int64Cutoff
    ensures ParseInt64("-" + FormatNat(k)) == Success(-(k as int))
  {
    var s := "-" + FormatNat(k);
    assert s[0] == '-';
    assert s[1..] == FormatNat(k);
    ParseFormatUint64(k);
  }

  /** `ParseUint` rejects every signed string, `-0` included. */
  lemma ParseUintRejectsSign(s: string)
    requires s != [] && (s[0] == '-' || s[0] == '+')
    ensures ParseUint64(s).Failure?
  {
    assert !IsDigit(s[0]);
  }

  /** `ParseInt` accepts an explicit `+` and reads the same number as without it. */
  lemma ParseIntPlusSign(n: int64)
    requires 0 <= n
    ensures ParseInt64("+" + FormatNat(n)) == Success(n)
  {
    assert ("+" + FormatNat(n))[1..] == FormatNat(n);
    ParseFormatUint64(n);
  }
  // ------------------------------------------------------------------ UTF-8

  /** A byte. */
  type byte = x: int | 0 <= x < 0x100

  /** The UTF-8 encoding of one character. */
  function Utf8Char(c: char): (b: seq<byte>)
    ensures 1 <= |b| <= 4
    ensures |b| == 1 <==> (c as int) < 0x80
    ensures |b| == 1 ==> b[0] == c as int
    ensures |b| > 1 ==> 0xC0 <= b[0] && forall i | 1 <= i < |b| :: 0x80 <= b[i] < 0xC0
  {
    var n := c as int;
    if n < 0x80 then [n]
    else if n < 0x800 then [0xC0 + n / 0x40, 0x80 + n % 0x40]
    else if n < 0x10000 then [0xE0 + n / 0x1000, 0x80 + n / 0x40 % 0x40, 0x80 + n % 0x40]
    else [0xF0 + n / 0x40000, 0x80 + n / 0x1000 % 0x40, 0x80 + n / 0x40 % 0x40, 0x80 + n % 0x40]
  }

  /**
   * `[]byte(s)`: the UTF-8 encoding of `s` (RFC 3629), each character encoded by
   * `Utf8Char` in turn; `Utf8Append` and `Utf8Ascii` state its structure.
   */
  function Utf8Encode(s: string): (b: seq<byte>)
    ensures |s| <= |b| <= 4 * |s|
  {
    if s == [] then [] else Utf8Char(s[0]) + Utf8Encode(s[1..])
  }

  /** Encoding a concatenation encodes the parts one after the other. */
  lemma {:induction false} Utf8Append(a: string, b: string)
    ensures Utf8Encode(a + b) == Utf8Encode(a) + Utf8Encode(b)
  {
    if a == [] {
      assert a + b == b;
    } else {
      assert (a + b)[1..] == a[1..] + b;
      Utf8Append(a[1..], b);
    }
  }

  /** An ASCII string is encoded one byte per character, each byte its code. */
  lemma {:induction false} Utf8Ascii(s: string)
    requires forall i | 0 <= i < |s| :: (s[i] as int) < 0x80
    ensures |Utf8Encode(s)| == |s|
    ensures forall i | 0 <= i < |s| :: Utf8Encode(s)[i] == s[i] as int
  {
    if s != [] {
      Utf8Ascii(s[1..]);
      forall i | 1 <= i < |s| ensures Utf8Encode(s)[i] == s[i] as int {
        assert s[1..][i - 1] == s[i];
      }
    }
  }
}
