/**
 * First-match search over precomputed test outcomes, the shape of every
 * `for ...: if test: return ...` loop of the processor.
 */
module Search {
  import opened Wrappers

  /** The first position whose flag is set. */
  function FirstTrue(flags: seq<bool>): (r: Option<nat>)
    ensures r.None? <==> forall k :: 0 <= k < |flags| ==> !flags[k]
    ensures r.Some? ==> r.value < |flags| && flags[r.value]
    ensures r.Some? ==> forall k :: 0 <= k < r.value ==> !flags[k]
  {
    if flags == [] then None
    else if flags[0] then Some(0)
    else
      match FirstTrue(flags[1..])
      case None => None
      case Some(k) => Some(k + 1)
  }

  /** The first set cell of a grid, row by row and, in the first row that has one, column by column. */
  function FirstCell(grid: seq<seq<bool>>): (r: Option<(nat, nat)>)
    ensures r.None? <==> forall i, j :: 0 <= i < |grid| && 0 <= j < |grid[i]| ==> !grid[i][j]
    ensures r.Some? ==> r.value.0 < |grid| && r.value.1 < |grid[r.value.0]| && grid[r.value.0][r.value.1]
    ensures r.Some? ==> forall i, j :: 0 <= i < r.value.0 && 0 <= j < |grid[i]| ==> !grid[i][j]
    ensures r.Some? ==> forall j :: 0 <= j < r.value.1 ==> !grid[r.value.0][j]
  {
    if grid == [] then None
    else
      match FirstTrue(grid[0])
      case Some(j) => Some((0, j))
      case None =>
        match FirstCell(grid[1..])
        case None => None
        case Some((i, j)) => Some((i + 1, j))
  }
}
