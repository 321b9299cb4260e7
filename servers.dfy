/**
 * The parts of `Server` that hook.go, options.go and view.go update: the hook
 * lists, the options and the views by path.
 */
module Servers {
  import opened Wrappers
  import opened Hooks
  import opened Views
  import opened Settings

  class Server {
    var Options: Options
    var views: map<string, View>
    var Hook: Hook

    /** `HookBeforeServeRequest`: appends one hook to the before-serve-request list. */
    method HookBeforeServeRequest(matchPrefix: string, hookFunc: HookFunc, excludePrefix: seq<string>)
      modifies this
      ensures Hook == old(Hook).(BeforeServeRequest := old(Hook.BeforeServeRequest)
        + [BeforeServeRequest(HookBase(matchPrefix, excludePrefix, hookFunc))])
      ensures Options == old(Options) && views == old(views)
    {
      Hook := Hook.(BeforeServeRequest := Hook.BeforeServeRequest
        + [BeforeServeRequest(HookBase(matchPrefix, excludePrefix, hookFunc))]);
    }

    /** `HookBeforeHttpHandle`: appends one hook to the before-handle list. */
    method HookBeforeHttpHandle(matchPrefix: string, hookFunc: HookFunc, excludePrefix: seq<string>)
      modifies this
      ensures Hook == old(Hook).(BeforeHttpHandles := old(Hook.BeforeHttpHandles)
        + [BeforeHttpHandle(HookBase(matchPrefix, excludePrefix, hookFunc))])
      ensures Options == old(Options) && views == old(views)
    {
      Hook := Hook.(BeforeHttpHandles := Hook.BeforeHttpHandles
        + [BeforeHttpHandle(HookBase(matchPrefix, excludePrefix, hookFunc))]);
    }

    /** `HookAfterHttpHandle`: appends one hook to the after-handle list. */
    method HookAfterHttpHandle(matchPrefix: string, hookFunc: HookFunc, excludePrefix: seq<string>)
      modifies this
      ensures Hook == old(Hook).(AfterHttpHandles := old(Hook.AfterHttpHandles)
        + [AfterHttpHandle(HookBase(matchPrefix, excludePrefix, hookFunc))])
      ensures Options == old(Options) && views == old(views)
    {
      Hook := Hook.(AfterHttpHandles := Hook.AfterHttpHandles
        + [AfterHttpHandle(HookBase(matchPrefix, excludePrefix, hookFunc))]);
    }

    /** `loadOptions`: the options are replaced only when sanitising succeeds. */
    method LoadOptions(options: Options, getwd: Result<string, string>, logOpenError: Option<string>)
      returns (err: Option<string>)
      modifies this
      ensures err.None? <==> getwd.Success? && (options.LogPath == "" || logOpenError.None?)
      ensures err.None? ==> Options == Sanitized(options, getwd.value)
      ensures err.Some? ==> Options == old(Options)
      ensures views == old(views) && Hook == old(Hook)
    {
      var sanitized;
      err, sanitized := SanitizeOptions(options, getwd, logOpenError);
      if err.Some? {
        return err;
      }
      Options := sanitized;
      return None;
    }

    /**
     * `AssignView`: stores for `path` a fresh, unparsed view of the names under
     * the view directory, up to the first empty name.
     */
    method AssignView(path: string, viewNames: seq<string>)
      modifies this
      ensures views == old(views)[path := View(ViewFilenames(Options.SiteViewDir, viewNames), None)]
      ensures Options == old(Options) && Hook == old(Hook)
    {
      var viewFilenames: seq<string> := [];
      var i := 0;
      while i < |viewNames|
        invariant 0 <= i <= |viewNames|
        invariant forall j | 0 <= j < i :: viewNames[j] != ""
        invariant |viewFilenames| == i
        invariant forall j | 0 <= j < i :: viewFilenames[j] == Options.SiteViewDir + "/" + viewNames[j]
      {
        if viewNames[i] == "" {
          break;
        }
        viewFilenames := viewFilenames + [Options.SiteViewDir + "/" + viewNames[i]];
        i := i + 1;
      }
      assert i == |viewNames| || viewNames[i] == "";
      ghost var expected := ViewFilenames(Options.SiteViewDir, viewNames);
      assert |expected| == i;
      assert viewFilenames == expected;
      views := views[path := View(viewFilenames, None)];
    }
  }
}
