/** The title helper of the current table pages (bountui/components/table/util.rs). */
module TableUtil {
  import opened Wrappers

  /** The title, followed by the parent's name in parentheses when there is one. */
  function FormatTitleWithParent(title: string, parent: Option<string>): (r: string)
    ensures parent.None? ==> r == title
    ensures parent.Some? ==> |r| == |title| + |parent.value| + 2
    ensures r[..|title|] == title
    ensures parent.Some? ==> r[|title|] == '(' && r[|title| + 1..|r| - 1] == parent.value && r[|r| - 1] == ')'
  {
    match parent
    case None => title
    case Some(p) => title + "(" + p + ")"
  }
}
