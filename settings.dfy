/**
 * options.go: the server's options and how they are sanitised before use. The
 * working directory and the outcome of opening the log file are inputs.
 */
module Settings {
  import opened Wrappers
  import opened Strings
  import opened Paths

  /** `Options` (the open log file handle is not modelled). */
  datatype Options = Options(
    RunMode: string,
    ServeType: string,
    ServeStr: string,
    ListenStr: string,
    LogPath: string,
    AccessWhiteListStr: string,
    SiteViewDir: string,
    SiteStaticBasePath: string,
    SiteStaticUploadBasePath: string,
    BaseDir: string,
    AccessWhiteList: seq<string>,
    IsTMPLAutoRefresh: bool,
    HttpsListenStr: string,
    HttpsCertPath: string,
    HttpsKeyPath: string)

  predicate KnownRunMode(m: string) {
    m == "dev" || m == "test" || m == "proc"
  }

  predicate KnownServeType(t: string) {
    t == "fcgi" || t == "server"
  }

  /** Each piece trimmed of white space. */
  function TrimAll(parts: seq<string>): (ws: seq<string>)
    ensures |ws| == |parts|
    ensures forall i | 0 <= i < |parts| :: ws[i] == TrimSpace(parts[i])
  {
    seq(|parts|, i requires 0 <= i < |parts| => TrimSpace(parts[i]))
  }

  /**
   * The access white list: nil for an empty string, otherwise one entry per
   * comma-separated piece, trimmed of white space.
   */
  function WhiteList(str: string): (ws: seq<string>)
    ensures str == "" ==> ws == []
    ensures str != "" ==> |ws| == Count(str, ',') + 1
    ensures str != "" ==> ws == TrimAll(Split(str, ','))
    ensures forall i | 0 <= i < |ws| ::
      && ',' !in ws[i]
      && (ws[i] == [] || (!IsSpace(ws[i][0]) && !IsSpace(ws[i][|ws[i]| - 1])))
  {
    if str == "" then []
    else
      var parts := Split(str, ',');
      SplitLength(str, ',');
      var ws := TrimAll(parts);
      assert forall i | 0 <= i < |ws| :: ',' !in ws[i] by {
        forall i | 0 <= i < |ws| ensures ',' !in ws[i] {
          var k := TrimSpaceIsSlice(parts[i]);
          assert ws[i] == parts[i][k..k + |ws[i]|];
        }
      }
      ws
  }

  /** The options once sanitised, with `baseDir` the working directory. */
  function Sanitized(o: Options, baseDir: string): (r: Options)
    ensures r.BaseDir == baseDir
    ensures KnownRunMode(r.RunMode) && (KnownRunMode(o.RunMode) ==> r.RunMode == o.RunMode)
    ensures !KnownRunMode(o.RunMode) ==> r.RunMode == "dev"
    ensures r.IsTMPLAutoRefresh <==> r.RunMode != "proc"
    ensures KnownServeType(r.ServeType) && (KnownServeType(o.ServeType) ==> r.ServeType == o.ServeType)
    ensures !KnownServeType(o.ServeType) ==> r.ServeType == "server"
    ensures r.SiteViewDir != ""
    ensures o.SiteViewDir != "" ==> r.SiteViewDir == o.SiteViewDir
    ensures o.SiteViewDir == "" ==> r.SiteViewDir == JoinPath(baseDir, "view")
    ensures r.AccessWhiteList == WhiteList(o.AccessWhiteListStr)
    ensures r.(BaseDir := o.BaseDir, RunMode := o.RunMode, IsTMPLAutoRefresh := o.IsTMPLAutoRefresh,
               ServeType := o.ServeType, SiteViewDir := o.SiteViewDir, AccessWhiteList := o.AccessWhiteList) == o
  {
    var runMode := if KnownRunMode(o.RunMode) then o.RunMode else "dev";
    o.(BaseDir := baseDir,
       SiteViewDir := if o.SiteViewDir == "" then JoinPath(baseDir, "view") else o.SiteViewDir,
       RunMode := runMode,
       IsTMPLAutoRefresh := runMode != "proc",
       ServeType := if KnownServeType(o.ServeType) then o.ServeType else "server",
       AccessWhiteList := WhiteList(o.AccessWhiteListStr))
  }

  /** Sanitising sanitised options changes nothing. */
  lemma SanitizedIdempotent(o: Options, baseDir: string)
    ensures Sanitized(Sanitized(o, baseDir), baseDir) == Sanitized(o, baseDir)
  {
  }

  /** The pieces of a string split at commas, then each trimmed in place. */
  method SplitTrimmed(str: string) returns (ws: seq<string>)
    ensures ws == TrimAll(Split(str, ','))
  {
    var parts := Split(str, ',');
    var list := new string[|parts|](i requires 0 <= i < |parts| => parts[i]);
    for i := 0 to list.Length
      invariant forall j | 0 <= j < i :: list[j] == TrimSpace(parts[j])
      invariant forall j | i <= j < list.Length :: list[j] == parts[j]
    {
      list[i] := TrimSpace(list[i]);
    }
    ws := list[..];
    assert forall j | 0 <= j < |ws| :: ws[j] == TrimSpace(parts[j]);
  }

  /**
   * `sanitizeOptions`: `getwd` is what `os.Getwd` returns and `logOpenError` what
   * opening `LogPath` fails with, if it does. Fails with the first error met.
   */
  method SanitizeOptions(options: Options, getwd: Result<string, string>, logOpenError: Option<string>)
    returns (err: Option<string>, out: Options)
    ensures getwd.Failure? ==> err == Some(getwd.error)
    ensures getwd.Success? && options.LogPath != "" && logOpenError.Some? ==> err == logOpenError
    ensures err.None? <==> getwd.Success? && (options.LogPath == "" || logOpenError.None?)
    ensures err.None? ==> out == Sanitized(options, getwd.value)
  {
    out := options;
    if getwd.Failure? {
      out := out.(BaseDir := "");
      return Some(getwd.error), out;
    }
    out := out.(BaseDir := getwd.value);
    if out.SiteViewDir == "" {
      out := out.(SiteViewDir := JoinPath(out.BaseDir, "view"));
    }
    if !KnownRunMode(out.RunMode) {
      out := out.(RunMode := "dev");
    }
    if out.RunMode == "dev" {
      out := out.(IsTMPLAutoRefresh := true);
    } else if out.RunMode == "test" {
      out := out.(IsTMPLAutoRefresh := true);
    } else if out.RunMode == "proc" {
      out := out.(IsTMPLAutoRefresh := false);
    }
    if !KnownServeType(out.ServeType) {
      out := out.(ServeType := "server");
    }
    if out.LogPath != "" && logOpenError.Some? {
      return logOpenError, out;
    }
    out := out.(AccessWhiteList := []);
    if out.AccessWhiteListStr != "" {
      var list := SplitTrimmed(out.AccessWhiteListStr);
      assert list == WhiteList(out.AccessWhiteListStr);
      out := out.(AccessWhiteList := list);
    }
    return None, out;
  }
}
