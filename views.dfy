/** view.go: a view is the list of template files a page is rendered from. */
module Views {
  import opened Wrappers

  /** `View`: the template file names and the parsed template, known by its identity once parsed. */
  datatype View = View(filenames: seq<string>, tmpl: Option<nat>)

  /**
   * The file names `AssignView` stores: each name under the view directory, in
   * order, up to the first empty name.
   */
  function ViewFilenames(dir: string, names: seq<string>): (fs: seq<string>)
    ensures |fs| <= |names|
    ensures forall i | 0 <= i < |fs| :: names[i] != "" && fs[i] == dir + "/" + names[i]
    ensures |fs| < |names| ==> names[|fs|] == ""
  {
    if names == [] || names[0] == "" then []
    else [dir + "/" + names[0]] + ViewFilenames(dir, names[1..])
  }

  /** Names after the first empty one are ignored. */
  lemma {:induction false} ViewFilenamesStopAtEmpty(dir: string, names: seq<string>, rest: seq<string>)
    requires forall i | 0 <= i < |names| :: names[i] != ""
    ensures ViewFilenames(dir, names + [""] + rest) == ViewFilenames(dir, names)
    ensures |ViewFilenames(dir, names)| == |names|
  {
    if names != [] {
      assert (names + [""] + rest)[1..] == names[1..] + [""] + rest;
      ViewFilenamesStopAtEmpty(dir, names[1..], rest);
    }
  }
}
