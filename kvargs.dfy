/**
 * urlkvreq.go and easykvreq.go: the key-value argument containers a service can
 * declare. `UrlKvReqArgs` is a Go map, so every copy of it shares one table: the
 * model keeps that table in an object, `KvMap`, and `EasyKvReqArgs` holds a
 * reference to one.
 */
module KvArgs {
  import opened Wrappers
  import opened Strings
  import opened Envelope
  import opened Requests

  /** The first value of every form field that has one, as a string value. */
  function FormFirstValues(form: map<string, seq<string>>): (kv: map<string, Value>)
    ensures forall k :: k in kv <==> FirstValue(form, k).Some?
    ensures forall k | k in kv :: k in form && |form[k]| > 0 && kv[k] == Str(form[k][0])
  {
    map k | k in form && |form[k]| > 0 :: Str(form[k][0])
  }

  /** The same, restricted to the fields in `keys`. */
  function FormFirstValuesOn(form: map<string, seq<string>>, keys: set<string>): map<string, Value> {
    map k | k in keys && k in form && |form[k]| > 0 :: Str(form[k][0])
  }

  lemma FormFirstValuesOnAdd(form: map<string, seq<string>>, done: set<string>, k: string)
    requires k in form
    ensures FormFirstValuesOn(form, done + {k})
         == FormFirstValuesOn(form, done) + (if |form[k]| > 0 then map[k := Str(form[k][0])] else map[])
  {
  }

  /**
   * `MakeUrlKvReqArgs` as written: the loop steps by one and reads `kvArr[i+1]`
   * with a string assertion on `kvArr[i]`, so it panics (`None`) on every
   * non-empty argument list and returns an empty table on the empty one.
   */
  method MakeUrlKvReqArgsAsWritten(kvArr: seq<Value>) returns (ret: Option<map<string, Value>>)
    ensures ret.Some? <==> kvArr == []
    ensures ret.Some? ==> ret.value == map[]
  {
    var m: map<string, Value> := map[];
    var i := 0;
    while i < |kvArr|
      invariant 0 <= i <= |kvArr|
      invariant i == 0 || i < |kvArr|
      invariant i == 0 ==> m == map[]
    {
      if !kvArr[i].Str? {
        return None;
      }
      if i + 1 >= |kvArr| {
        return None;
      }
      m := m[kvArr[i].s := kvArr[i + 1]];
      i := i + 1;
    }
    return Some(m);
  }

  /** The calls `MakeUrlKvReqArgs` can serve as intended: keys and values alternate, keys are strings. */
  predicate WellPaired(kvArr: seq<Value>) {
    |kvArr| % 2 == 0 && forall i | 0 <= i < |kvArr| && i % 2 == 0 :: kvArr[i].Str?
  }

  lemma WellPairedPrefix(kvArr: seq<Value>, j: nat)
    requires WellPaired(kvArr) && j <= |kvArr| && j % 2 == 0
    ensures WellPaired(kvArr[..j])
  {
  }

  /** The table the pairs build, a later pair overriding an earlier one with the same key. */
  function Pairs(kvArr: seq<Value>): map<string, Value>
    requires WellPaired(kvArr)
    decreases |kvArr|
  {
    if kvArr == [] then map[]
    else
      var n := |kvArr|;
      WellPairedPrefix(kvArr, n - 2);
      Pairs(kvArr[..n - 2])[kvArr[n - 2].s := kvArr[n - 1]]
  }

  /** The keys of `Pairs` are exactly the strings at even positions. */
  lemma {:induction false} PairsKeys(kvArr: seq<Value>, k: string)
    requires WellPaired(kvArr)
    ensures k in Pairs(kvArr) <==> exists i | 0 <= i < |kvArr| && i % 2 == 0 :: kvArr[i] == Str(k)
    decreases |kvArr|
  {
    if kvArr != [] {
      var n := |kvArr|;
      WellPairedPrefix(kvArr, n - 2);
      PairsKeys(kvArr[..n - 2], k);
      if k in Pairs(kvArr) && k != kvArr[n - 2].s {
        var i :| 0 <= i < n - 2 && i % 2 == 0 && kvArr[..n - 2][i] == Str(k);
        assert kvArr[i] == Str(k);
      }
      if exists i | 0 <= i < n && i % 2 == 0 :: kvArr[i] == Str(k) {
        var i :| 0 <= i < n && i % 2 == 0 && kvArr[i] == Str(k);
        if i < n - 2 {
          assert kvArr[..n - 2][i] == Str(k);
        }
      }
    }
  }

  /** A key maps to the value after its last occurrence. */
  lemma {:induction false} PairsLookup(kvArr: seq<Value>, i: nat)
    requires WellPaired(kvArr) && i < |kvArr| && i % 2 == 0
    requires forall j | i < j < |kvArr| && j % 2 == 0 :: kvArr[j] != kvArr[i]
    ensures kvArr[i].s in Pairs(kvArr) && Pairs(kvArr)[kvArr[i].s] == kvArr[i + 1]
    decreases |kvArr|
  {
    var n := |kvArr|;
    WellPairedPrefix(kvArr, n - 2);
    if i < n - 2 {
      var pre := kvArr[..n - 2];
      assert kvArr[n - 2] != kvArr[i];
      assert forall j | i < j < |pre| && j % 2 == 0 :: pre[j] != pre[i] by {
        forall j | i < j < |pre| && j % 2 == 0 ensures pre[j] != pre[i] {
          assert pre[j] == kvArr[j];
        }
      }
      PairsLookup(pre, i);
    }
  }

  /** `UrlKvReqArgs`: a shared table from names to values. */
  class KvMap {
    var m: map<string, Value>

    /** `make(map[string]interface{})`, or a table filled from given pairs. */
    constructor FromMap(init: map<string, Value>)
      ensures m == init
    {
      m := init;
    }

    /** `MergeIronRequest`: stores the first value of every form field that has one; nothing else changes. */
    method MergeIronRequest(ir: Request)
      modifies this
      ensures m == old(m) + FormFirstValues(ir.R.Form)
    {
      var form := ir.R.Form;
      var keys := form.Keys;
      ghost var done: set<string> := {};
      while keys != {}
        invariant keys <= form.Keys && done == form.Keys - keys
        invariant m == old(m) + FormFirstValuesOn(form, done)
        decreases keys
      {
        var k :| k in keys;
        FormFirstValuesOnAdd(form, done, k);
        if |form[k]| > 0 {
          m := m[k := Str(form[k][0])];
        }
        keys := keys - {k};
        done := done + {k};
      }
      assert FormFirstValuesOn(form, done) == FormFirstValues(form);
    }

    /** `MustFormString`: the stored value when it is a non-empty string, otherwise the default. */
    function MustFormString(key: string, defaultRet: string): (ret: string)
      reads this
      ensures key in m && m[key].Str? && m[key].s != "" ==> ret == m[key].s
      ensures !(key in m && m[key].Str? && m[key].s != "") ==> ret == defaultRet
    {
      if key in m && m[key].Str? && m[key].s != "" then m[key].s else defaultRet
    }

    /**
     * `MustFormInt64`: an `int64` value as it is, a string parsed as a signed
     * base-10 number; the default for a missing key, a failed parse or any other type.
     */
    function MustFormInt64(key: string, defaultRet: int64): (ret: int64)
      reads this
      ensures key in m && m[key].Int64? ==> ret == m[key].i64
      ensures key in m && m[key].Str? && ParseInt64(m[key].s).Success? ==> ret == ParseInt64(m[key].s).value
      ensures !(key in m && (m[key].Int64? || (m[key].Str? && ParseInt64(m[key].s).Success?))) ==> ret == defaultRet
    {
      if key !in m then defaultRet
      else
        match m[key]
        case Int64(i) => i
        case Str(s) => (match ParseInt64(s) case Success(n) => n case Failure(_) => defaultRet)
        case _ => defaultRet
    }

    /** `MustFormUint64`: as `MustFormInt64`, with `uint64` values and an unsigned parse. */
    function MustFormUint64(key: string, defaultRet: uint64): (ret: uint64)
      reads this
      ensures key in m && m[key].Uint64? ==> ret == m[key].u
      ensures key in m && m[key].Str? && ParseUint64(m[key].s).Success? ==> ret == ParseUint64(m[key].s).value
      ensures !(key in m && (m[key].Uint64? || (m[key].Str? && ParseUint64(m[key].s).Success?))) ==> ret == defaultRet
    {
      if key !in m then defaultRet
      else
        match m[key]
        case Uint64(u) => u
        case Str(s) => (match ParseUint64(s) case Success(n) => n case Failure(_) => defaultRet)
        case _ => defaultRet
    }

    /**
     * `MustFormInt`: an `int` value as it is, a string parsed as a signed base-10
     * number; every other type, a JSON number (`float64`) included, gives the default.
     */
    function MustFormInt(key: string, defaultRet: int): (ret: int)
      reads this
      ensures key in m && m[key].Int? ==> ret == m[key].i
      ensures key in m && m[key].Str? && ParseInt64(m[key].s).Success? ==> ret == ParseInt64(m[key].s).value
      ensures key in m && m[key].Float64? ==> ret == defaultRet
      ensures !(key in m && (m[key].Int? || (m[key].Str? && ParseInt64(m[key].s).Success?))) ==> ret == defaultRet
    {
      if key !in m then defaultRet
      else
        match m[key]
        case Int(i) => i
        case Str(s) => (match ParseInt64(s) case Success(n) => n case Failure(_) => defaultRet)
        case _ => defaultRet
    }
  }

  /**
   * `MakeUrlKvReqArgs` as intended: walks the arguments two at a time, key then
   * value; it still panics (`None`) on an odd count or a non-string key.
   */
  method MakeUrlKvReqArgs(kvArr: seq<Value>) returns (ret: Option<KvMap>)
    ensures ret.Some? <==> WellPaired(kvArr)
    ensures ret.Some? ==> fresh(ret.value) && ret.value.m == Pairs(kvArr)
  {
    var m: map<string, Value> := map[];
    var i := 0;
    while i < |kvArr|
      invariant 0 <= i <= |kvArr| && i % 2 == 0
      invariant WellPaired(kvArr[..i]) && m == Pairs(kvArr[..i])
    {
      if !kvArr[i].Str? || i + 1 >= |kvArr| {
        assert !WellPaired(kvArr) by {
          if i + 1 >= |kvArr| { assert |kvArr| % 2 == 1; }
        }
        return None;
      }
      m := m[kvArr[i].s := kvArr[i + 1]];
      assert kvArr[..i + 2][..i] == kvArr[..i];
      i := i + 2;
    }
    assert kvArr[..i] == kvArr;
    var t := new KvMap.FromMap(m);
    return Some(t);
  }

  /** `EasyKvReqArgs`: a struct embedding a `UrlKvReqArgs`, so copies share its table. */
  datatype EasyKvReqArgs = EasyKvReqArgs(UrlKvReqArgs: KvMap)

  /** `MakeEasyKvReqArgs`: wraps the table `MakeUrlKvReqArgs` builds. */
  method MakeEasyKvReqArgs(kvArr: seq<Value>) returns (ret: Option<EasyKvReqArgs>)
    ensures ret.Some? <==> WellPaired(kvArr)
    ensures ret.Some? ==> fresh(ret.value.UrlKvReqArgs) && ret.value.UrlKvReqArgs.m == Pairs(kvArr)
  {
    var t := MakeUrlKvReqArgs(kvArr);
    if t.None? {
      return None;
    }
    return Some(EasyKvReqArgs(t.value));
  }

  /**
   * `MergeKv`: writes every entry of `kv` into the shared table, so the caller's
   * container changes too; it returns the same container.
   */
  method MergeKv(p: EasyKvReqArgs, kv: map<string, Value>) returns (ret: EasyKvReqArgs)
    modifies p.UrlKvReqArgs
    ensures ret == p
    ensures p.UrlKvReqArgs.m == old(p.UrlKvReqArgs.m) + kv
  {
    var t := p.UrlKvReqArgs;
    var keys := kv.Keys;
    while keys != {}
      invariant keys <= kv.Keys
      invariant t.m == old(t.m) + (map k | k in kv.Keys - keys :: kv[k])
      decreases keys
    {
      var k :| k in keys;
      t.m := t.m[k := kv[k]];
      keys := keys - {k};
    }
    assert (map k | k in kv.Keys - keys :: kv[k]) == kv;
    return p;
  }

  /** The integer accessors read back the decimal rendering of a number stored as a string. */
  lemma AccessorsReadRendering(p: KvMap, key: string, n: int64, d: int64, du: uint64)
    requires key in p.m && p.m[key] == Str(FormatInt(n))
    ensures p.MustFormInt64(key, d) == n && p.MustFormInt(key, d) == n
    ensures n >= 0 ==> p.MustFormUint64(key, du) == n
    ensures n < 0 ==> p.MustFormUint64(key, du) == du
  {
    ParseFormatInt64(n);
    var m: int := n;
    if m >= 0 {
      ParseFormatUint64(m);
    } else {
      assert FormatInt(n)[0] == '-';
      ParseUintRejectsSign(FormatInt(n));
    }
  }

  /**
   * After `MergeIronRequest`, the integer accessors of the table agree with those of
   * the request on every field that has a value; the string accessors differ: the
   * table's does not trim and turns an empty value into the default.
   */
  lemma MergedAccessorsAgree(p: KvMap, ir: Request, key: string, d: int64)
    requires FirstValue(ir.R.Form, key).Some?
    requires key in p.m && p.m[key] == Str(ir.R.Form[key][0])
    ensures p.MustFormInt64(key, d) == ir.MustFormInt64(key, d)
    ensures p.MustFormInt(key, d) == ir.MustFormInt(key, d)
    ensures p.MustFormString(key, "") == ir.R.Form[key][0]
  {
  }
}
