/**
 * hook.go: the server's hook lists and the test that decides whether a hook
 * applies to a request URI (a match prefix, minus exclusion prefixes).
 */
module Hooks {
  import opened Strings
  import opened Requests

  /**
   * A hook function (`func(*Request) bool` and the like), known by its identity:
   * hooks run in `ServeHTTP`, which is not part of this model.
   */
  datatype HookFunc = HookFunc(id: nat)

  /** `HookBase`. */
  datatype HookBase = HookBase(MatchPrefix: string, ExcludePrefix: seq<string>, Func: HookFunc)

  datatype HookBeforeServeRequest = BeforeServeRequest(base: HookBase)
  datatype HookBeforeHttpHandle = BeforeHttpHandle(base: HookBase)
  datatype HookAfterHttpHandle = AfterHttpHandle(base: HookBase)

  /** `Hook`: the hook lists of each phase, in registration order. */
  datatype Hook = Hook(
    BeforeServeRequest: seq<HookBeforeServeRequest>,
    BeforeHttpHandles: seq<HookBeforeHttpHandle>,
    ErrorRecovers: seq<HookFunc>,
    AfterHttpHandles: seq<HookAfterHttpHandle>,
    UrlRewrite: seq<HookFunc>)

  /** An exclusion prefix excludes a URI that is strictly longer than it and starts with it. */
  predicate ExcludedBy(uri: string, prefix: string) {
    |uri| > |prefix| && uri[..|prefix|] == prefix
  }

  /** Whether a hook applies: no exclusion prefix excludes the URI, and the match prefix is empty or starts it. */
  predicate MatchesHook(uri: string, hb: HookBase) {
    (forall i | 0 <= i < |hb.ExcludePrefix| :: !ExcludedBy(uri, hb.ExcludePrefix[i]))
    && (hb.MatchPrefix == "" || (|uri| >= |hb.MatchPrefix| && uri[..|hb.MatchPrefix|] == hb.MatchPrefix))
  }

  /**
   * `IsRequestURIMatchHookBase`: walks the exclusion prefixes, then checks the
   * match prefix. The mux it is called on plays no part.
   */
  method IsRequestURIMatchHookBase(ir: Request, hookBase: HookBase) returns (matched: bool)
    ensures matched == MatchesHook(ir.R.RequestURI, hookBase)
  {
    var uri := ir.R.RequestURI;
    var handleMatchPrefixLen := |hookBase.MatchPrefix|;
    var reqURILen := |uri|;
    if |hookBase.ExcludePrefix| > 0 {
      for i := 0 to |hookBase.ExcludePrefix|
        invariant forall j | 0 <= j < i :: !ExcludedBy(uri, hookBase.ExcludePrefix[j])
      {
        var prefix := hookBase.ExcludePrefix[i];
        if reqURILen > |prefix| && uri[..|prefix|] == prefix {
          return false;
        }
      }
    }
    if hookBase.MatchPrefix == "" || (reqURILen >= handleMatchPrefixLen && uri[..handleMatchPrefixLen] == hookBase.MatchPrefix) {
      return true;
    }
    return false;
  }

  /** A URI strictly below one of the exclusion prefixes never matches, whatever the match prefix. */
  lemma ExclusionWins(uri: string, hb: HookBase, i: nat)
    requires i < |hb.ExcludePrefix| && ExcludedBy(uri, hb.ExcludePrefix[i])
    ensures !MatchesHook(uri, hb)
  {
  }

  /** An exclusion prefix equal to the whole URI does not exclude it: the comparison is strict. */
  lemma ExclusionIsStrict(uri: string, matchPrefix: string, f: HookFunc)
    ensures MatchesHook(uri, HookBase(matchPrefix, [uri], f)) <==> matchPrefix == "" || HasPrefix(uri, matchPrefix)
  {
  }

  /** With no exclusion prefixes, a hook applies exactly to the URIs that start with its match prefix. */
  lemma MatchIsPrefix(uri: string, matchPrefix: string, f: HookFunc)
    ensures MatchesHook(uri, HookBase(matchPrefix, [], f)) <==> HasPrefix(uri, matchPrefix)
  {
  }

  /** More exclusion prefixes never make a hook apply to more URIs. */
  lemma MoreExclusionsMatchLess(uri: string, hb: HookBase, more: seq<string>)
    requires MatchesHook(uri, hb.(ExcludePrefix := hb.ExcludePrefix + more))
    ensures MatchesHook(uri, hb)
  {
    var ext := hb.ExcludePrefix + more;
    forall i | 0 <= i < |hb.ExcludePrefix| ensures !ExcludedBy(uri, hb.ExcludePrefix[i]) {
      assert ext[i] == hb.ExcludePrefix[i];
    }
  }
}
