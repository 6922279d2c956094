/** The user's workspace geometry request, every field optional. */
module WorkspaceConfig {
  import opened Wrappers
  import opened Models

  datatype Workspace = Workspace(
    x: Option<int>,
    y: Option<int>,
    height: Option<int>,
    width: Option<int>,
    id: Option<int>,
    outputName: Option<string>,
    maxWindowWidth: Option<Size>,
    layouts: Option<seq<Layout>>)

  /** Every field unset: the derived `Default`. */
  predicate IsBlank(w: Workspace)
  {
    w.x.None? && w.y.None? && w.height.None? && w.width.None? && w.id.None?
    && w.outputName.None? && w.maxWindowWidth.None? && w.layouts.None?
  }

  /** The derived `Default`: the one workspace with every field unset. */
  function DefaultWorkspace(): (w: Workspace)
    ensures IsBlank(w)
    ensures forall v: Workspace :: IsBlank(v) ==> v == w
  {
    Workspace(None, None, None, None, None, None, None, None)
  }

  /**
   * The derived `PartialEq` is field-by-field equality.  This is Dafny's own
   * datatype equality; for the `Size` and `Layout` stand-ins it is taken to
   * agree with their derived `PartialEq`, whose definitions are not part of
   * this model.
   */
  lemma EqualityIsStructural(a: Workspace, b: Workspace)
    ensures a == b <==>
      a.x == b.x && a.y == b.y && a.height == b.height && a.width == b.width && a.id == b.id
      && a.outputName == b.outputName && a.maxWindowWidth == b.maxWindowWidth && a.layouts == b.layouts
  {
  }
}
