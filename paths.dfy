/**
 * Go's lexical path cleaning (`path.Clean`, and `filepath.Join` on a system whose
 * separator is `/`), which the router and the options use. Nothing here reads the
 * file system.
 */
module Paths {
  import opened Strings

  /** A path element that survives cleaning unchanged. */
  predicate Normal(e: string) {
    e != "" && e != "." && e != ".." && '/' !in e
  }

  predicate AllNormal(elems: seq<string>) {
    forall i | 0 <= i < |elems| :: Normal(elems[i])
  }

  predicate NoSlash(elems: seq<string>) {
    forall i | 0 <= i < |elems| :: '/' !in elems[i]
  }

  /**
   * Walks the elements left to right over a stack of kept elements: empty and `.`
   * elements vanish; `..` drops the element before it, and where there is none it
   * vanishes at the root of a rooted path and is kept in a relative one.
   */
  function Resolve(elems: seq<string>, rooted: bool, stack: seq<string>): seq<string>
    decreases |elems|
  {
    if elems == [] then stack
    else
      var e := elems[0];
      var next :=
        if e == "" || e == "." then stack
        else if e == ".." then
          if |stack| > 0 && stack[|stack| - 1] != ".." then stack[..|stack| - 1]
          else if rooted then stack
          else stack + [".."]
        else stack + [e];
      Resolve(elems[1..], rooted, next)
  }

  /** The elements `Clean` keeps. */
  function CleanElements(p: string): seq<string> {
    Resolve(Split(p, '/'), p != [] && p[0] == '/', [])
  }

  /** `path.Clean(p)`. */
  function Clean(p: string): string {
    if p == "" then "."
    else if p[0] == '/' then "/" + Join(CleanElements(p), '/')
    else
      var out := Join(CleanElements(p), '/');
      if out == "" then "." else out
  }

  /** `filepath.Join(dir, name)` with `/` as the separator: empty parts are ignored and the result is cleaned. */
  function JoinPath(dir: string, name: string): string {
    if dir == "" && name == "" then ""
    else if dir == "" then Clean(name)
    else if name == "" then Clean(dir)
    else Clean(dir + "/" + name)
  }

  lemma {:induction false} ResolveAppend(a: seq<string>, b: seq<string>, rooted: bool, stack: seq<string>)
    ensures Resolve(a + b, rooted, stack) == Resolve(b, rooted, Resolve(a, rooted, stack))
    decreases |a|
  {
    if a == [] {
      assert a + b == b;
    } else {
      assert (a + b)[0] == a[0];
      assert (a + b)[1..] == a[1..] + b;
      var e := a[0];
      var next :=
        if e == "" || e == "." then stack
        else if e == ".." then
          if |stack| > 0 && stack[|stack| - 1] != ".." then stack[..|stack| - 1]
          else if rooted then stack
          else stack + [".."]
        else stack + [e];
      ResolveAppend(a[1..], b, rooted, next);
    }
  }

  /** Normal elements are pushed as they are. */
  lemma {:induction false} ResolveNormal(elems: seq<string>, rooted: bool, stack: seq<string>)
    requires AllNormal(elems)
    ensures Resolve(elems, rooted, stack) == stack + elems
    decreases |elems|
  {
    if elems != [] {
      assert Normal(elems[0]);
      ResolveNormal(elems[1..], rooted, stack + [elems[0]]);
      assert stack + [elems[0]] + elems[1..] == stack + elems;
    }
  }

  /** In a rooted path the kept elements are all normal. */
  lemma {:induction false} ResolveRootedNormal(elems: seq<string>, stack: seq<string>)
    requires NoSlash(elems) && AllNormal(stack)
    ensures AllNormal(Resolve(elems, true, stack))
    decreases |elems|
  {
    if elems != [] {
      var e := elems[0];
      assert '/' !in e;
      var next :=
        if e == "" || e == "." then stack
        else if e == ".." then
          if |stack| > 0 && stack[|stack| - 1] != ".." then stack[..|stack| - 1]
          else stack
        else stack + [e];
      assert AllNormal(next);
      assert NoSlash(elems[1..]) by {
        forall i | 0 <= i < |elems[1..]| ensures '/' !in elems[1..][i] {
          assert elems[1..][i] == elems[i + 1];
        }
      }
      ResolveRootedNormal(elems[1..], next);
    }
  }

  lemma CleanElementsRootedNormal(p: string)
    requires p != [] && p[0] == '/'
    ensures AllNormal(CleanElements(p))
  {
    ResolveRootedNormal(Split(p, '/'), []);
  }

  /** A join of normal elements does not end in `/`, and is empty only when there are none. */
  lemma {:induction false} JoinNormalEnd(elems: seq<string>)
    requires AllNormal(elems)
    ensures elems == [] <==> Join(elems, '/') == ""
    ensures elems != [] ==> Join(elems, '/')[|Join(elems, '/')| - 1] != '/'
    ensures '/' !in Join(elems, '/') ==> |elems| <= 1
    decreases |elems|
  {
    if |elems| == 1 {
      assert Normal(elems[0]);
    } else if |elems| > 1 {
      assert Normal(elems[0]);
      JoinNormalEnd(elems[1..]);
      var j := Join(elems, '/');
      assert j == elems[0] + ['/'] + Join(elems[1..], '/');
      assert j[|elems[0]|] == '/';
    }
  }

  /** A cleaned rooted path starts with `/` and ends with `/` only when it is the root. */
  lemma CleanRootedShape(p: string)
    requires p != [] && p[0] == '/'
    ensures Clean(p) != [] && Clean(p)[0] == '/'
    ensures Clean(p)[|Clean(p)| - 1] == '/' ==> Clean(p) == "/"
  {
    CleanElementsRootedNormal(p);
    JoinNormalEnd(CleanElements(p));
  }

  /** A rooted path's elements are `""` followed by what comes after the first `/`. */
  lemma SplitRooted(elems: seq<string>)
    requires AllNormal(elems)
    ensures Split("/" + Join(elems, '/'), '/') == [""] + (if elems == [] then [""] else elems)
  {
    var parts := if elems == [] then [""] else elems;
    assert Join(parts, '/') == Join(elems, '/');
    assert "/" + Join(elems, '/') == Join([""] + parts, '/') by {
      assert ([""] + parts)[1..] == parts;
    }
    assert NoSlash([""] + parts) by {
      forall i | 0 <= i < |[""] + parts| ensures '/' !in ([""] + parts)[i] {
        if i > 0 { assert ([""] + parts)[i] == parts[i - 1]; }
      }
    }
    SplitJoin([""] + parts, '/');
  }

  /** The rooted path built from normal elements cleans back to those elements. */
  lemma RootedJoinElements(elems: seq<string>)
    requires AllNormal(elems)
    ensures CleanElements("/" + Join(elems, '/')) == elems
  {
    var q := "/" + Join(elems, '/');
    SplitRooted(elems);
    var parts := if elems == [] then [""] else elems;
    assert Split(q, '/') == [""] + parts;
    ResolveAppend([""], parts, true, []);
    if elems == [] {
      assert Resolve([""], true, []) == [];
    } else {
      ResolveNormal(elems, true, []);
    }
  }

  /** Cleaning a cleaned rooted path changes nothing. */
  lemma CleanRootedIdempotent(p: string)
    requires p != [] && p[0] == '/'
    ensures Clean(Clean(p)) == Clean(p)
  {
    var elems := CleanElements(p);
    CleanElementsRootedNormal(p);
    RootedJoinElements(elems);
    var q := Clean(p);
    assert q == "/" + Join(elems, '/');
    assert q[0] == '/';
  }

  /** A trailing `/` on a rooted path does not change what it cleans to. */
  lemma CleanTrailingSlash(p: string)
    requires p != [] && p[0] == '/'
    ensures Clean(p + "/") == Clean(p)
  {
    var q := p + "/";
    assert q == p + ['/'];
    SplitAppendSep(p, '/');
    ResolveAppend(Split(p, '/'), [""], true, []);
    assert q[0] == '/';
    assert CleanElements(q) == CleanElements(p);
  }

  /** Appending a normal element to a path appends it to the elements the path cleans to. */
  lemma CleanElementsAppend(dir: string, name: string)
    requires dir != "" && Normal(name)
    ensures CleanElements(dir + "/" + name) == Resolve(Split(dir, '/'), dir[0] == '/', []) + [name]
  {
    var p := dir + "/" + name;
    assert p == dir + ['/'] + name;
    SplitAppendPiece(dir, '/', name);
    assert p[0] == dir[0];
    var rooted := dir[0] == '/';
    ResolveAppend(Split(dir, '/'), [name], rooted, []);
    var st := Resolve(Split(dir, '/'), rooted, []);
    assert Resolve([name], rooted, st) == st + [name];
  }

  /** Elements joined with a last element `name` end with `name`. */
  lemma JoinEndsWith(st: seq<string>, name: string)
    requires name != ""
    ensures Join(st + [name], '/') != ""
    ensures HasSuffix(Join(st + [name], '/'), name)
  {
    JoinAppend(st, name, '/');
  }

  /** Joining `name` to a non-empty directory ends the cleaned result with the element `name`. */
  lemma JoinPathLastElement(dir: string, name: string)
    requires dir != "" && Normal(name)
    ensures HasSuffix(JoinPath(dir, name), name)
    ensures dir[0] == '/' ==> JoinPath(dir, name)[0] == '/'
  {
    var p := dir + "/" + name;
    assert p != "" && p[0] == dir[0];
    CleanElementsAppend(dir, name);
    var st := Resolve(Split(dir, '/'), dir[0] == '/', []);
    JoinEndsWith(st, name);
    var out := Join(st + [name], '/');
    assert Join(CleanElements(p), '/') == out;
    if dir[0] == '/' {
      assert JoinPath(dir, name) == "/" + out;
    } else {
      assert JoinPath(dir, name) == out;
    }
  }
}
