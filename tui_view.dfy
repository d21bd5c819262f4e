/**
 * internal/tui/view.go: the arithmetic behind the port table, namely string
 * truncation and the window of rows shown around the cursor. Rendering
 * itself is not modelled.
 */
module TuiView {
  import opened TuiModel

  /**
   * `truncate`: a string longer than `n` keeps its first `n - 3` characters
   * and ends in "...". Go would panic slicing with `n < 3`, so a caller has
   * to pass `n >= 3` unless the string already fits.
   */
  function Truncate(s: string, n: int): (r: string)
    requires |s| <= n || n >= 3
    ensures |s| <= n ==> r == s
    ensures |s| > n ==> |r| == n && r[..n - 3] == s[..n - 3] && r[n - 3..] == "..."
    ensures |r| <= |s| && |r| <= Max(n, 0)
  {
    if |s| <= n then s else s[..n - 3] + "..."
  }

  /** A truncated string fits, so truncating it again changes nothing. */
  lemma TruncateIdempotent(s: string, n: int)
    requires n >= 3
    ensures Truncate(Truncate(s, n), n) == Truncate(s, n)
  {
  }

  /**
   * The command column: a command of more than 30 characters becomes its
   * first 27 followed by "...".
   */
  function ShownCommand(command: string): (shown: string)
    ensures |shown| <= 30
    ensures shown == Truncate(command, 30)
  {
    if |command| > 30 then command[..27] + "..." else command
  }

  /**
   * The rows `View` shows: `maxRows` is the height less 12 but at least 5,
   * and a list longer than that shows a window of `maxRows` rows that
   * starts half a window above the cursor, pushed back up at the bottom.
   */
  method ScrollWindow(height: int, n: nat, cursor: int) returns (maxRows: int, start: int, end: int)
    ensures maxRows == Max(height - 12, 5)
    ensures n <= maxRows ==> start == 0 && end == n
    ensures n > maxRows ==> end - start == maxRows && 0 <= start && end <= n
    ensures 0 <= cursor < n ==> start <= cursor < end
    ensures n > maxRows && maxRows / 2 <= cursor && cursor - maxRows / 2 + maxRows <= n ==>
      start == cursor - maxRows / 2
    // at the top edge the window starts at row 0, at the bottom edge it ends at row n
    ensures n > maxRows && cursor <= maxRows / 2 ==> start == 0
    ensures n > maxRows && cursor - maxRows / 2 + maxRows > n ==> start == n - maxRows && end == n
  {
    maxRows := height - 12;
    if maxRows < 5 {
      maxRows := 5;
    }
    start := 0;
    end := n;
    if n > maxRows {
      if cursor > maxRows / 2 {
        start := cursor - maxRows / 2;
      }
      if start + maxRows > n {
        start := n - maxRows;
      }
      end := start + maxRows;
    }
  }
}
