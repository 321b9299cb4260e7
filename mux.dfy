/**
 * mux.go: the router. Each pattern maps to an entry; registering `/tree/` also
 * installs an implicit permanent redirect from `/tree`; a request path is served
 * by the longest pattern that matches it, host-qualified patterns first.
 */
module Mux {
  import opened Wrappers
  import opened Strings
  import opened Paths

  /** `http.StatusMovedPermanently`. */
  const StatusMovedPermanently: int := 301

  /**
   * A `Handler`: one the application registered (known by its identity), or the
   * `redirectHandler` that `RedirectHandler(url, code)` builds.
   */
  datatype HandlerRef = UserHandler(id: nat) | RedirectHandler(url: string, code: int)

  /** `muxEntry`. */
  datatype MuxEntry = MuxEntry(explicit: bool, h: HandlerRef, pattern: string)

  // ------------------------------------------------------------ pathMatch

  /** `pathMatch`: `*` matches all, `x*` its prefix, `x/` its subtree, anything else itself. */
  predicate PathMatch(pattern: string, path: string) {
    if |pattern| == 0 then false
    else
      var n := |pattern|;
      if pattern == "*" then true
      else if pattern[n - 1] == '*' && HasPrefix(path, pattern[..n - 1]) then true
      else if pattern[n - 1] != '/' then pattern == path
      else |path| >= n && path[..n] == pattern
  }

  /** A pattern only matches paths that start with it, less a trailing `*`; the empty pattern matches nothing. */
  lemma PathMatchPrefix(pattern: string, path: string)
    requires PathMatch(pattern, path)
    ensures pattern != ""
    ensures pattern[|pattern| - 1] != '*' ==> HasPrefix(path, pattern)
    ensures pattern[|pattern| - 1] == '*' ==> HasPrefix(path, pattern[..|pattern| - 1])
  {
  }

  /** Every non-empty pattern matches itself, and a pattern ending in `/` matches its whole subtree. */
  lemma PathMatchSubtree(pattern: string, rest: string)
    requires pattern != ""
    ensures PathMatch(pattern, pattern)
    ensures pattern[|pattern| - 1] == '/' ==> PathMatch(pattern, pattern + rest)
  {
    assert (pattern + rest)[..|pattern|] == pattern;
  }

  /** A pattern ending in neither `/` nor `*` matches exactly one path. */
  lemma PathMatchExact(pattern: string, path: string)
    requires pattern != "" && pattern[|pattern| - 1] != '/' && pattern[|pattern| - 1] != '*'
    ensures PathMatch(pattern, path) <==> path == pattern
  {
  }

  // ------------------------------------------------------------ cleanPath

  /**
   * `cleanPath`: the canonical rooted form of a path: `.` and `..` resolved,
   * repeated slashes folded, a trailing slash kept.
   */
  function CleanPath(p: string): (r: string)
    ensures r != "" && r[0] == '/'
    ensures r[|r| - 1] == '/' <==> r == "/" || (p != "" && p[|p| - 1] == '/')
  {
    if p == "" then "/"
    else
      var q := if p[0] != '/' then "/" + p else p;
      CleanRootedShape(q);
      var np := Clean(q);
      if q[|q| - 1] == '/' && np != "/" then np + "/" else np
  }

  /** Cleaning a clean path changes nothing (so the router redirects at most once). */
  lemma CleanPathIdempotent(p: string)
    ensures CleanPath(CleanPath(p)) == CleanPath(p)
  {
    var r := CleanPath(p);
    if p == "" {
      SplitRooted([]);
      assert "/" + Join([], '/') == "/";
      assert Clean("/") == "/";
    } else {
      var q := if p[0] != '/' then "/" + p else p;
      var np := Clean(q);
      CleanRootedShape(q);
      CleanRootedIdempotent(q);
      assert np != "" && np[0] == '/';
      if q[|q| - 1] == '/' && np != "/" {
        assert r == np + "/";
        CleanTrailingSlash(np);
        assert Clean(r) == np;
        assert r[|r| - 1] == '/';
        assert CleanPath(r) == np + "/";
      } else {
        assert r == np;
        assert Clean(r) == r;
        assert r[|r| - 1] == '/' ==> r == "/";
        assert CleanPath(r) == r;
      }
    }
  }

  // ------------------------------------------------------------ registration

  /** The path of a pattern, with a leading host name stripped; the implicit redirect's target. */
  function RedirectTarget(pattern: string): (r: string)
    requires pattern != "" && pattern[|pattern| - 1] == '/'
    ensures r != "" && r[0] == '/' && HasSuffix(pattern, r)
    ensures '/' !in pattern[..|pattern| - |r|]
    ensures pattern[0] == '/' ==> r == pattern
  {
    if pattern[0] != '/' then
      var i := IndexOf(pattern, '/');
      assert pattern[..|pattern| - |pattern[i..]|] == pattern[..i];
      pattern[i..]
    else pattern
  }

  /** Why `Handle` panics, if it does. */
  function HandleError(m: map<string, MuxEntry>, pattern: string, handler: Option<HandlerRef>): (err: Option<string>)
    ensures err.None? <==> pattern != "" && handler.Some? && !(pattern in m && m[pattern].explicit)
  {
    if pattern == "" then Some("http: invalid pattern " + pattern)
    else if handler.None? then Some("http: nil handler")
    else if pattern in m && m[pattern].explicit then Some("http: multiple registrations for " + pattern)
    else None
  }

  /** `pattern` ends in `/` and its parent key holds no explicit entry, so a redirect is installed there. */
  predicate AddsRedirect(m: map<string, MuxEntry>, pattern: string)
    requires pattern != ""
  {
    var short := pattern[..|pattern| - 1];
    pattern[|pattern| - 1] == '/' && !(short in m && m[short].explicit)
  }

  /** The table after `Handle(pattern, h)` succeeds. */
  function Registered(m: map<string, MuxEntry>, pattern: string, h: HandlerRef): (r: map<string, MuxEntry>)
    requires pattern != ""
    ensures pattern in r && r[pattern] == MuxEntry(true, h, pattern)
    ensures AddsRedirect(m, pattern) ==>
      var short := pattern[..|pattern| - 1];
      short in r && r[short] == MuxEntry(false, RedirectHandler(RedirectTarget(pattern), StatusMovedPermanently), pattern)
    ensures forall k | k in m && k != pattern && !(AddsRedirect(m, pattern) && k == pattern[..|pattern| - 1]) ::
      k in r && r[k] == m[k]
    ensures r.Keys == m.Keys + {pattern} + (if AddsRedirect(m, pattern) then {pattern[..|pattern| - 1]} else {})
  {
    var m1 := m[pattern := MuxEntry(true, h, pattern)];
    if AddsRedirect(m, pattern) then
      m1[pattern[..|pattern| - 1] := MuxEntry(false, RedirectHandler(RedirectTarget(pattern), StatusMovedPermanently), pattern)]
    else m1
  }

  /**
   * The table's shape: an explicit entry is stored under its own non-empty
   * pattern; an implicit one sits under `k` only as the permanent redirect for an
   * explicit `k/`.
   */
  ghost predicate TableInvariant(m: map<string, MuxEntry>) {
    forall k | k in m :: EntryShape(m, k)
  }

  /** The shape of the entry under `k`. */
  ghost predicate EntryShape(m: map<string, MuxEntry>, k: string)
    requires k in m
  {
    && (m[k].explicit ==> k != "" && m[k].pattern == k)
    && (!m[k].explicit ==>
          && m[k].pattern == k + "/" && m[k].pattern in m && m[m[k].pattern].explicit
          && m[k].h == RedirectHandler(RedirectTarget(m[k].pattern), StatusMovedPermanently))
  }

  /** The explicitly registered patterns. */
  function ExplicitKeys(m: map<string, MuxEntry>): set<string> {
    set k | k in m && m[k].explicit
  }

  /** A pattern that names a host. */
  predicate HostPattern(k: string) {
    k != "" && k[0] != '/'
  }

  /** A successful registration leaves every entry, old or new, in shape. */
  lemma RegisteredEntryShape(m: map<string, MuxEntry>, pattern: string, h: HandlerRef, k: string)
    requires TableInvariant(m)
    requires HandleError(m, pattern, Some(h)).None?
    requires k in Registered(m, pattern, h)
    ensures EntryShape(Registered(m, pattern, h), k)
  {
    var r := Registered(m, pattern, h);
    var short := pattern[..|pattern| - 1];
    var added := AddsRedirect(m, pattern);
    if k == pattern {
    } else if added && k == short {
      assert k + "/" == pattern;
    } else {
      assert k in m && r[k] == m[k];
      assert EntryShape(m, k);
      if !m[k].explicit {
        var up := m[k].pattern;
        assert up in m && m[up].explicit;
        assert up != pattern;
        assert !(added && up == short);
        assert r[up] == m[up];
      }
    }
  }

  /** A successful registration adds exactly its pattern to the explicit ones. */
  lemma RegisteredExplicitKeys(m: map<string, MuxEntry>, pattern: string, h: HandlerRef)
    requires HandleError(m, pattern, Some(h)).None?
    ensures ExplicitKeys(Registered(m, pattern, h)) == ExplicitKeys(m) + {pattern}
  {
    var r := Registered(m, pattern, h);
    var short := pattern[..|pattern| - 1];
    var added := AddsRedirect(m, pattern);
    forall k | k in ExplicitKeys(r) ensures k in ExplicitKeys(m) + {pattern} {
      if k != pattern {
        assert !(added && k == short);
        assert r[k] == m[k];
      }
    }
    forall k | k in ExplicitKeys(m) + {pattern} ensures k in ExplicitKeys(r) {
      if k != pattern {
        assert !(added && k == short);
        assert r[k] == m[k];
      }
    }
  }

  /** A successful registration keeps the table's shape and adds exactly its pattern to the explicit ones. */
  lemma RegisteredKeepsInvariant(m: map<string, MuxEntry>, pattern: string, h: HandlerRef)
    requires TableInvariant(m)
    requires HandleError(m, pattern, Some(h)).None?
    ensures TableInvariant(Registered(m, pattern, h))
    ensures ExplicitKeys(Registered(m, pattern, h)) == ExplicitKeys(m) + {pattern}
  {
    forall k | k in Registered(m, pattern, h) ensures EntryShape(Registered(m, pattern, h), k) {
      RegisteredEntryShape(m, pattern, h, k);
    }
    RegisteredExplicitKeys(m, pattern, h);
  }

  /** After a successful registration some explicit pattern names a host exactly when one did before or the new one does. */
  lemma RegisteredHosts(m: map<string, MuxEntry>, pattern: string, h: HandlerRef, hosts: bool)
    requires TableInvariant(m)
    requires HandleError(m, pattern, Some(h)).None?
    requires hosts <==> exists k | k in ExplicitKeys(m) :: HostPattern(k)
    ensures (hosts || pattern[0] != '/') <==> exists k | k in ExplicitKeys(Registered(m, pattern, h)) :: HostPattern(k)
  {
    RegisteredKeepsInvariant(m, pattern, h);
    if pattern[0] != '/' {
      assert HostPattern(pattern) && pattern in ExplicitKeys(Registered(m, pattern, h));
    }
  }

  /**
   * The table update of `Handle` once its checks pass: the explicit entry, then
   * the redirect under the parent key when it holds no explicit entry.
   */
  method Insert(m: map<string, MuxEntry>, pattern: string, h: HandlerRef) returns (table: map<string, MuxEntry>)
    requires pattern != ""
    ensures table == Registered(m, pattern, h)
  {
    table := m[pattern := MuxEntry(true, h, pattern)];
    var n := |pattern|;
    assert pattern[..n - 1] != pattern;
    if n > 0 && pattern[n - 1] == '/' && !(pattern[..n - 1] in table && table[pattern[..n - 1]].explicit) {
      var path := pattern;
      if pattern[0] != '/' {
        path := pattern[IndexOf(pattern, '/')..];
      }
      table := table[pattern[..n - 1] := MuxEntry(false, RedirectHandler(path, StatusMovedPermanently), pattern)];
    }
  }

  // ------------------------------------------------------------ matching

  /** `k` is a longest pattern of `m` matching `path`. */
  ghost predicate LongestMatch(m: map<string, MuxEntry>, path: string, k: string) {
    k in m && PathMatch(k, path) && forall k' | k' in m && PathMatch(k', path) :: |k'| <= |k|
  }

  /** No pattern of `m` matches `path`. */
  ghost predicate NoMatch(m: map<string, MuxEntry>, path: string) {
    forall k | k in m :: !PathMatch(k, path)
  }

  /**
   * `ServeMux`: the table, whether some pattern names a host, and the owning
   * server's `NotFoundHandler` (possibly nil), which `handler` falls back to.
   */
  class ServeMux {
    var m: map<string, MuxEntry>
    var hosts: bool
    var NotFoundHandler: Option<HandlerRef>

    ghost predicate Valid()
      reads this
    {
      TableInvariant(m) && (hosts <==> exists k | k in ExplicitKeys(m) :: HostPattern(k))
    }

    /** `NewServeMux`: an empty table. */
    constructor NewServeMux(notFound: Option<HandlerRef>)
      ensures Valid()
      ensures m == map[] && !hosts && NotFoundHandler == notFound
    {
      m := map[];
      hosts := false;
      NotFoundHandler := notFound;
    }

    /** `Handle`: registers `handler` for `pattern`; the panic is returned as its message. */
    method Handle(pattern: string, handler: Option<HandlerRef>) returns (panicked: Option<string>)
      requires Valid()
      modifies this
      ensures Valid()
      ensures panicked == HandleError(old(m), pattern, handler)
      ensures panicked.Some? ==> m == old(m) && hosts == old(hosts)
      ensures panicked.None? ==>
        m == Registered(old(m), pattern, handler.value) && hosts == (old(hosts) || pattern[0] != '/')
      ensures NotFoundHandler == old(NotFoundHandler)
    {
      if pattern == "" {
        return Some("http: invalid pattern " + pattern);
      }
      if handler.None? {
        return Some("http: nil handler");
      }
      if pattern in m && m[pattern].explicit {
        return Some("http: multiple registrations for " + pattern);
      }
      RegisteredKeepsInvariant(m, pattern, handler.value);
      RegisteredHosts(m, pattern, handler.value, hosts);
      m := Insert(m, pattern, handler.value);
      if pattern[0] != '/' {
        hosts := true;
      }
      return None;
    }

    /** `match`: a longest matching pattern's handler and its entry's pattern, found by a walk over the table. */
    method Match(path: string) returns (h: Option<HandlerRef>, pattern: string, ghost best: string)
      ensures h.None? <==> NoMatch(m, path)
      ensures h.None? ==> pattern == ""
      ensures h.Some? ==> LongestMatch(m, path, best) && h == Some(m[best].h) && pattern == m[best].pattern
    {
      var n := 0;
      h, pattern, best := None, "", "";
      var rest := m.Keys;
      ghost var seen: set<string> := {};
      while rest != {}
        invariant rest + seen == m.Keys && rest !! seen
        invariant h.None? ==> pattern == "" && forall k | k in seen :: !PathMatch(k, path)
        invariant h.Some? ==>
          && best in seen && PathMatch(best, path) && n == |best|
          && h == Some(m[best].h) && pattern == m[best].pattern
          && forall k | k in seen && PathMatch(k, path) :: |k| <= n
        decreases rest
      {
        var k :| k in rest;
        rest := rest - {k};
        seen := seen + {k};
        if !PathMatch(k, path) {
          continue;
        }
        if h.None? || |k| > n {
          n := |k|;
          h, pattern, best := Some(m[k].h), m[k].pattern, k;
        }
      }
    }

    /**
     * `handler`: the longest match for host and path when some pattern names a
     * host, else the longest match for the path, else the not-found handler.
     */
    method Handler(host: string, path: string) returns (h: Option<HandlerRef>, pattern: string, ghost best: Option<string>)
      ensures hosts && !NoMatch(m, host + path) ==>
        best.Some? && LongestMatch(m, host + path, best.value) && h == Some(m[best.value].h) && pattern == m[best.value].pattern
      ensures !(hosts && !NoMatch(m, host + path)) && !NoMatch(m, path) ==>
        best.Some? && LongestMatch(m, path, best.value) && h == Some(m[best.value].h) && pattern == m[best.value].pattern
      ensures !(hosts && !NoMatch(m, host + path)) && NoMatch(m, path) ==>
        best.None? && h == NotFoundHandler && pattern == ""
      ensures (!hosts || NoMatch(m, host + path)) && NoMatch(m, path) ==> h == NotFoundHandler && pattern == ""
    {
      h, pattern, best := None, "", None;
      if hosts {
        ghost var k;
        h, pattern, k := Match(host + path);
        if h.Some? {
          best := Some(k);
        }
      }
      if h.None? {
        ghost var k;
        h, pattern, k := Match(path);
        if h.Some? {
          best := Some(k);
        }
      }
      if h.None? {
        h, pattern := NotFoundHandler, "";
      }
    }
  }

  /**
   * A registered path is its own longest match unless the table also holds the
   * same path with `*` appended.
   */
  lemma RegisteredPathWins(m: map<string, MuxEntry>, p: string)
    requires p in m && p != "" && p[|p| - 1] != '*' && p + "*" !in m
    ensures LongestMatch(m, p, p)
  {
    PathMatchSubtree(p, "");
    forall k | k in m && PathMatch(k, p) ensures |k| <= |p| {
      PathMatchPrefix(k, p);
      if k[|k| - 1] == '*' {
        var stem := k[..|k| - 1];
        assert k == stem + "*";
        assert p[..|p|] == p;
      }
    }
  }
}
