/**
 * cmd/kill.go: `portman kill <port>`. The argument is checked, the ports are
 * scanned, and the one process on the port is killed directly. When there
 * are several, a chooser lets the user tick the ones to kill.
 *
 * The scan result, `scanner.FindAllByPort` (whose body is not part of this
 * model), the keys the chooser receives and the operating system's answers
 * to each kill are parameters. What the command prints is a sequence of
 * lines, each tagged with its stream.
 */
module KillCommand {
  import opened Common
  import opened GoStrings
  import opened Scanner
  import opened Killer

  // ---------------------------------------------------------------------------
  // The chooser

  /**
   * The fields of `selectionModel`. Rows 0 .. |choices| - 1 are the
   * candidates, row |choices| is "Kill all selected" and row |choices| + 1
   * is "Cancel".
   */
  datatype Menu = Menu(
    choices: seq<Port>,
    cursor: int,
    selected: map<int, bool>,
    portNum: int,
    quitting: bool,
    cancelled: bool)

  /** The menu `showSelectionMenu` starts: cursor on the first row, nothing ticked. */
  function StartMenu(matches: seq<Port>, portNum: int): (m: Menu)
    ensures m.choices == matches && m.cursor == 0 && m.portNum == portNum
    ensures forall i :: !Ticked(m.selected, i)
    ensures !m.quitting && !m.cancelled
  {
    Menu(matches, 0, map[], portNum, false, false)
  }

  /** A Go `map[int]bool` read at `i`: a missing key reads as false. */
  predicate Ticked(selected: map<int, bool>, i: int) {
    i in selected && selected[i]
  }

  /** `selected[i] = !selected[i]`. */
  function Flip(selected: map<int, bool>, i: int): (r: map<int, bool>)
    ensures Ticked(r, i) <==> !Ticked(selected, i)
    ensures forall j :: j != i ==> (Ticked(r, j) <==> Ticked(selected, j))
  {
    selected[i := !Ticked(selected, i)]
  }

  function CancelMenu(m: Menu): (Menu, bool) {
    (m.(cancelled := true, quitting := true), true)
  }

  function MenuUp(m: Menu): (Menu, bool) {
    (if m.cursor > 0 then m.(cursor := m.cursor - 1) else m, false)
  }

  function MenuDown(m: Menu): (Menu, bool) {
    (if m.cursor < |m.choices| + 1 then m.(cursor := m.cursor + 1) else m, false)
  }

  /** Enter: confirm on "Kill all selected", cancel on "Cancel", otherwise tick or untick the row. */
  function MenuEnter(m: Menu): (Menu, bool) {
    if m.cursor == |m.choices| then (m.(quitting := true), true)
    else if m.cursor == |m.choices| + 1 then CancelMenu(m)
    else (m.(selected := Flip(m.selected, m.cursor)), false)
  }

  /**
   * `selectionModel.Update` on a key: the new menu, and whether it returned
   * `tea.Quit`.
   */
  function MenuStep(m: Menu, key: Key): (r: (Menu, bool))
    ensures r.0.choices == m.choices && r.0.portNum == m.portNum
    ensures r.1 ==> r.0.quitting
    ensures r.0.cancelled ==> m.cancelled || r.1
  {
    match key
    case CtrlC => CancelMenu(m)
    case Esc => CancelMenu(m)
    case Up => MenuUp(m)
    case Down => MenuDown(m)
    case Enter => MenuEnter(m)
    case Rune(c) =>
      if c == 'q' then CancelMenu(m)
      else if c == 'k' then MenuUp(m)
      else if c == 'j' then MenuDown(m)
      else if c == ' ' then
        (if m.cursor < |m.choices| then m.(selected := Flip(m.selected, m.cursor)) else m, false)
      else (m, false)
    case OtherKey => (m, false)
  }

  /** The cursor stays on a row: within 0 .. |choices| + 1, moving by at most one. */
  lemma MenuCursorBounds(m: Menu, key: Key)
    requires 0 <= m.cursor <= |m.choices| + 1
    ensures var t := MenuStep(m, key).0;
      && 0 <= t.cursor <= |m.choices| + 1
      && -1 <= t.cursor - m.cursor <= 1
      && t.choices == m.choices && t.portNum == m.portNum
  {
  }

  /**
   * Ticks are per row and only the row under the cursor can change: by
   * space on a candidate row, or by enter on any row but the two actions.
   */
  lemma MenuTicks(m: Menu, key: Key)
    ensures var t := MenuStep(m, key).0;
      && (forall i :: i != m.cursor ==> (Ticked(t.selected, i) <==> Ticked(m.selected, i)))
      && ((Ticked(t.selected, m.cursor) != Ticked(m.selected, m.cursor)) <==>
          || (key == Rune(' ') && m.cursor < |m.choices|)
          || (key == Enter && m.cursor != |m.choices| && m.cursor != |m.choices| + 1))
  {
  }

  /**
   * The menu quits on ctrl+c, q and esc, which cancel, and on enter over
   * one of the two action rows, of which only "Cancel" cancels. Quitting
   * sets `quitting`.
   */
  lemma MenuQuits(m: Menu, key: Key)
    ensures var (t, quit) := MenuStep(m, key);
      && (quit <==> key in {CtrlC, Esc, Rune('q')} || (key == Enter && |m.choices| <= m.cursor <= |m.choices| + 1))
      && (quit ==> t.quitting)
      && (t.cancelled <==> m.cancelled || key in {CtrlC, Esc, Rune('q')} || (key == Enter && m.cursor == |m.choices| + 1))
  {
  }

  /**
   * The Bubble Tea loop: keys are handed to `Update` until one quits; later
   * keys are never read. The flag says whether the program has quit.
   */
  function RunMenu(m: Menu, keys: seq<Key>): (r: (Menu, bool))
    ensures r.1 ==> r.0.quitting
    ensures r.0.choices == m.choices
    decreases |keys|
  {
    if |keys| == 0 then (m, false)
    else
      var (t, quit) := MenuStep(m, keys[0]);
      if quit then (t, true) else RunMenu(t, keys[1..])
  }

  /** The ticked choices in their original order. */
  function Checked(choices: seq<Port>, selected: map<int, bool>): (r: seq<Port>)
    ensures |r| <= |choices|
    ensures forall x :: x in r <==> exists i :: 0 <= i < |choices| && Ticked(selected, i) && choices[i] == x
    decreases |choices|
  {
    if |choices| == 0 then []
    else
      var init := choices[..|choices| - 1];
      var rest := Checked(init, selected);
      if Ticked(selected, |choices| - 1) then rest + [choices[|choices| - 1]] else rest
  }

  /** The result has one entry per ticked row. */
  lemma {:induction false} CheckedCount(choices: seq<Port>, selected: map<int, bool>)
    ensures |Checked(choices, selected)| == |set i | 0 <= i < |choices| && Ticked(selected, i)|
    decreases |choices|
  {
    if |choices| > 0 {
      var n := |choices| - 1;
      CheckedCount(choices[..n], selected);
      var below := set i | 0 <= i < n && Ticked(selected, i);
      var all := set i | 0 <= i < |choices| && Ticked(selected, i);
      if Ticked(selected, n) {
        assert all == below + {n};
      } else {
        assert all == below;
      }
    }
  }

  /** Ticking every row gives all the choices in order; ticking none gives nil. */
  lemma {:induction false} CheckedAllOrNone(choices: seq<Port>, selected: map<int, bool>)
    ensures (forall i :: 0 <= i < |choices| ==> Ticked(selected, i)) ==> Checked(choices, selected) == choices
    ensures (forall i :: 0 <= i < |choices| ==> !Ticked(selected, i)) ==> Checked(choices, selected) == []
    decreases |choices|
  {
    if |choices| > 0 {
      var n := |choices| - 1;
      CheckedAllOrNone(choices[..n], selected);
      assert choices[..n] + [choices[n]] == choices;
    }
  }

  /** The ticked rows below `n`, in increasing order. */
  function TickedRows(selected: map<int, bool>, n: nat): (rows: seq<int>)
    ensures forall k :: 0 <= k < |rows| ==> 0 <= rows[k] < n && Ticked(selected, rows[k])
    ensures forall i :: 0 <= i < n && Ticked(selected, i) ==> i in rows
    ensures forall j, k :: 0 <= j < k < |rows| ==> rows[j] < rows[k]
    decreases n
  {
    if n == 0 then []
    else
      var rows := TickedRows(selected, n - 1);
      if Ticked(selected, n - 1) then rows + [n - 1] else rows
  }

  /** The checked processes are the choices at the ticked rows, in row order. */
  lemma {:induction false} CheckedInOrder(choices: seq<Port>, selected: map<int, bool>)
    ensures var rows := TickedRows(selected, |choices|);
      && |Checked(choices, selected)| == |rows|
      && forall k :: 0 <= k < |rows| ==> Checked(choices, selected)[k] == choices[rows[k]]
    decreases |choices|
  {
    if |choices| > 0 {
      var n := |choices| - 1;
      CheckedInOrder(choices[..n], selected);
      var rows, init := TickedRows(selected, n), Checked(choices[..n], selected);
      var tail := if Ticked(selected, n) then [choices[n]] else [];
      assert Checked(choices, selected) == init + tail;
      assert TickedRows(selected, |choices|) == rows + if Ticked(selected, n) then [n] else [];
      forall k | 0 <= k < |rows|
        ensures (init + tail)[k] == choices[rows[k]]
      {
        assert init[k] == choices[..n][rows[k]];
      }
    }
  }

  /** Every checked process is one of the choices. */
  lemma CheckedAreChoices(choices: seq<Port>, selected: map<int, bool>)
    ensures forall x :: x in Checked(choices, selected) ==> x in choices
  {
  }

  /** Go's nil slice versus a non-empty one. */
  function NilIfEmpty(ports: seq<Port>): (r: Option<seq<Port>>)
    ensures r.None? <==> ports == []
    ensures r.Some? ==> r.value == ports
  {
    if ports == [] then None else Some(ports)
  }

  /** The chooser as the object Bubble Tea updates. */
  class Chooser {
    var choices: seq<Port>
    var cursor: int
    var selected: map<int, bool>
    var portNum: int
    var quitting: bool
    var cancelled: bool

    function Snapshot(): Menu
      reads this
    {
      Menu(choices, cursor, selected, portNum, quitting, cancelled)
    }

    constructor (matches: seq<Port>, port: int)
      ensures Snapshot() == StartMenu(matches, port)
    {
      choices, cursor, selected, portNum := matches, 0, map[], port;
      quitting, cancelled := false, false;
    }

    /** `selectionModel.Update`: returns whether it asks Bubble Tea to quit. */
    method Update(key: Key) returns (quit: bool)
      modifies this
      ensures (Snapshot(), quit) == MenuStep(old(Snapshot()), key)
    {
      if key == CtrlC || key == Rune('q') || key == Esc {
        cancelled := true;
        quitting := true;
        return true;
      } else if key == Up || key == Rune('k') {
        if cursor > 0 {
          cursor := cursor - 1;
        }
      } else if key == Down || key == Rune('j') {
        if cursor < |choices| + 1 {
          cursor := cursor + 1;
        }
      } else if key == Enter {
        if cursor == |choices| {
          quitting := true;
          return true;
        } else if cursor == |choices| + 1 {
          cancelled := true;
          quitting := true;
          return true;
        } else {
          selected := Flip(selected, cursor);
        }
      } else if key == Rune(' ') {
        if cursor < |choices| {
          selected := Flip(selected, cursor);
        }
      }
      return false;
    }
  }

  /**
   * `showSelectionMenu` driven by `keys`. `finished` is false when no key
   * quits, in which case the program is still waiting. Otherwise a
   * cancelled menu gives nil, and a confirmed one gives the ticked choices
   * in order, which is nil again when nothing is ticked.
   */
  method ShowSelectionMenu(matches: seq<Port>, portNum: int, keys: seq<Key>)
    returns (finished: bool, selected: Option<seq<Port>>)
    ensures finished == RunMenu(StartMenu(matches, portNum), keys).1
    ensures !finished ==> selected == None
    ensures finished ==> var m := RunMenu(StartMenu(matches, portNum), keys).0;
      selected == if m.cancelled then None else NilIfEmpty(Checked(matches, m.selected))
  {
    var chooser := new Chooser(matches, portNum);
    ghost var start := chooser.Snapshot();
    var i := 0;
    finished := false;
    while i < |keys| && !finished
      invariant 0 <= i <= |keys|
      invariant chooser.choices == matches
      invariant !finished ==> RunMenu(chooser.Snapshot(), keys[i..]) == RunMenu(start, keys)
      invariant finished ==> (chooser.Snapshot(), true) == RunMenu(start, keys)
    {
      assert keys[i..][1..] == keys[i + 1..];
      finished := chooser.Update(keys[i]);
      i := i + 1;
    }
    if !finished {
      assert keys[i..] == [];
      return false, None;
    }
    if chooser.cancelled {
      return true, None;
    }
    selected := None;
    var j := 0;
    while j < |chooser.choices|
      invariant 0 <= j <= |chooser.choices|
      invariant selected == NilIfEmpty(Checked(chooser.choices[..j], chooser.selected))
    {
      assert chooser.choices[..j + 1][..j] == chooser.choices[..j];
      if Ticked(chooser.selected, j) {
        var sofar := if selected.Some? then selected.value else [];
        selected := Some(sofar + [chooser.choices[j]]);
      }
      j := j + 1;
    }
    assert chooser.choices[..j] == matches;
  }

  // ---------------------------------------------------------------------------
  // The command

  /** A line of output and the stream it goes to. */
  datatype Line = Stdout(text: string) | Stderr(text: string)

  /** How the command ends: `os.Exit` (a plain return is 0), or never, while the chooser waits. */
  datatype Status = Exit(code: int) | Waiting

  /** What the command did: how it ended, what it printed, and each kill it attempted with its result. */
  datatype Report = Report(status: Status, output: seq<Line>, killed: seq<int>, results: seq<KillResult>)

  /** The line that reports a kill's outcome. */
  function ResultLine(r: KillResult): (line: Line)
    ensures line.Stdout? <==> r.success
  {
    if r.success then Stdout("✓ " + r.message) else Stderr("✗ " + r.message)
  }

  /** The line that announces the kill of one selected process. */
  function KillHeading(p: Port): Line {
    Stdout("Killing PID " + Itoa(p.pid) + " (" + p.processName + ")...")
  }

  /** `f` of each `xs[k]` followed by `g` of `ys[k]`, for each `k` in turn. */
  function Interleave<A, B, T>(xs: seq<A>, ys: seq<B>, f: A -> T, g: B -> T): (r: seq<T>)
    requires |xs| == |ys|
    ensures |r| == 2 * |xs|
    decreases |xs|
  {
    if |xs| == 0 then []
    else
      var n := |xs| - 1;
      Interleave(xs[..n], ys[..n], f, g) + [f(xs[n]), g(ys[n])]
  }

  /** Element `k` of the inputs owns positions `2 * k` and `2 * k + 1`. */
  lemma {:induction false} InterleaveAt<A, B, T>(xs: seq<A>, ys: seq<B>, f: A -> T, g: B -> T, k: int)
    requires |xs| == |ys| && 0 <= k < |xs|
    ensures Interleave(xs, ys, f, g)[2 * k] == f(xs[k])
    ensures Interleave(xs, ys, f, g)[2 * k + 1] == g(ys[k])
    decreases |xs|
  {
    var n := |xs| - 1;
    if k < n {
      InterleaveAt(xs[..n], ys[..n], f, g, k);
      assert xs[..n][k] == xs[k] && ys[..n][k] == ys[k];
    }
  }

  /** The lines of the kill loop: for each selected process, its heading and its outcome. */
  function KillLines(ports: seq<Port>, results: seq<KillResult>): (lines: seq<Line>)
    requires |ports| == |results|
    ensures |lines| == 2 * |ports|
  {
    Interleave(ports, results, KillHeading, ResultLine)
  }

  /** Process `i` of the selection owns lines `2 * i` (its heading) and `2 * i + 1` (its outcome). */
  lemma KillLinesAt(ports: seq<Port>, results: seq<KillResult>, i: int)
    requires |ports| == |results| && 0 <= i < |ports|
    ensures KillLines(ports, results)[2 * i] == KillHeading(ports[i])
    ensures KillLines(ports, results)[2 * i + 1] == ResultLine(results[i])
  {
    InterleaveAt(ports, results, KillHeading, ResultLine, i);
  }

  function Pids(ports: seq<Port>): (pids: seq<int>)
    ensures |pids| == |ports| && forall i :: 0 <= i < |ports| ==> pids[i] == ports[i].pid
  {
    seq(|ports|, i requires 0 <= i < |ports| => ports[i].pid)
  }

  /**
   * The loop of `executeKill` over the selection: every process is killed
   * in order, whatever the earlier kills gave. `oses(k)` answers the k-th
   * kill.
   */
  method KillAll(ports: seq<Port>, oses: nat -> Os) returns (output: seq<Line>, results: seq<KillResult>)
    ensures |results| == |ports|
    ensures output == KillLines(ports, results)
    ensures forall i :: 0 <= i < |ports| ==> results[i] == KillOutcome(ports[i].pid, oses(i)).0
    ensures forall i :: 0 <= i < |ports| && ports[i].pid <= 0 ==> results[i] == KillResult(false, "Invalid PID")
  {
    output, results := [], [];
    var i := 0;
    while i < |ports|
      invariant 0 <= i <= |ports| && |results| == i
      invariant output == KillLines(ports[..i], results)
      invariant forall k :: 0 <= k < i ==> results[k] == KillOutcome(ports[k].pid, oses(k)).0
      invariant forall k :: 0 <= k < i && ports[k].pid <= 0 ==> results[k] == KillResult(false, "Invalid PID")
    {
      var p := ports[i];
      var r, _ := KillProcess(p.pid, oses(i));
      assert ports[..i + 1][..i] == ports[..i];
      assert (results + [r])[..i] == results;
      output := output + [KillHeading(p), ResultLine(r)];
      results := results + [r];
      i := i + 1;
    }
    assert ports[..i] == ports;
  }

  /** The line printed before the kill loop when every match was selected. */
  function AllLine(selected: seq<Port>, matches: seq<Port>, portNum: int): (lines: seq<Line>)
    ensures |lines| <= 1
    ensures lines != [] <==> |selected| == |matches|
  {
    if |selected| == |matches| then
      [Stdout("Killing all " + Itoa(|selected|) + " processes on port " + Itoa(portNum) + "...")]
    else []
  }

  /** A port number written out in decimal passes the argument checks as that number. */
  lemma PrintedPortAccepted(args: seq<string>, port: int)
    requires |args| >= 3 && args[2] == Itoa(port) && 1 <= port <= 65535
    ensures Atoi(args[2]) == Some(port)
  {
    AtoiItoa(port);
  }

  /**
   * `executeKill`. `args` is `os.Args` (program name, "kill", the port),
   * `scan` what `scanner.ScanPorts` returned, `findAll` stands for
   * `scanner.FindAllByPort`, `keys` are the chooser's key presses and
   * `oses(k)` answers the k-th kill.
   */
  method ExecuteKill(args: seq<string>, scan: Result<seq<Port>>, findAll: (seq<Port>, int) -> seq<Port>,
                     keys: seq<Key>, oses: nat -> Os) returns (rep: Report)
    // argument errors: nothing is scanned or killed
    ensures |args| < 3 ==> rep == Report(Exit(1), [Stdout("Usage: portman kill <port>")], [], [])
    ensures |args| >= 3 && Atoi(args[2]).None? ==>
      rep == Report(Exit(1), [Stderr("Invalid port number: " + args[2])], [], [])
    ensures |args| >= 3 && Atoi(args[2]).Some? && !(1 <= Atoi(args[2]).value <= 65535) ==>
      rep == Report(Exit(1), [Stderr("Port number must be between 1 and 65535")], [], [])
    // with a valid port
    ensures |args| >= 3 && Atoi(args[2]).Some? && 1 <= Atoi(args[2]).value <= 65535 ==>
      var portNum := Atoi(args[2]).value;
      && (scan.Err? ==> rep == Report(Exit(1), [Stderr("Error scanning ports: " + scan.msg)], [], []))
      && (scan.Ok? ==>
        var matches := findAll(scan.value, portNum);
        && (|matches| == 0 ==> rep == Report(Exit(1), [Stdout("No process found on port " + Itoa(portNum))], [], []))
        // one match: killed directly, and the exit status is the kill's
        && (|matches| == 1 ==>
          && rep.killed == [matches[0].pid]
          && rep.results == [KillOutcome(matches[0].pid, oses(0)).0]
          && rep.status == Exit(if rep.results[0].success then 0 else 1)
          && rep.output == [Stdout("Killing process on port " + Itoa(matches[0].number) + " (PID: "
                                   + Itoa(matches[0].pid) + ", Process: " + matches[0].processName + ")..."),
                            ResultLine(rep.results[0])])
        // several: the chooser decides
        && (|matches| > 1 ==>
          var (m, finished) := RunMenu(StartMenu(matches, portNum), keys);
          var chosen := Checked(matches, m.selected);
          && (!finished ==> rep == Report(Waiting, [], [], []))
          && (finished && (m.cancelled || chosen == []) ==> rep == Report(Exit(0), [Stdout("Cancelled")], [], []))
          && (finished && !m.cancelled && chosen != [] ==>
            && rep.status == Exit(0)
            && rep.killed == Pids(chosen)
            && |rep.results| == |chosen|
            && (forall i :: 0 <= i < |chosen| ==> rep.results[i] == KillOutcome(chosen[i].pid, oses(i)).0)
            && rep.output == AllLine(chosen, matches, portNum) + KillLines(chosen, rep.results))))
    // only processes the scan found on the requested port are ever killed
    ensures forall pid :: pid in rep.killed ==>
      && |args| >= 3 && Atoi(args[2]).Some? && 1 <= Atoi(args[2]).value <= 65535 && scan.Ok?
      && exists p :: p in findAll(scan.value, Atoi(args[2]).value) && p.pid == pid
  {
    if |args| < 3 {
      return Report(Exit(1), [Stdout("Usage: portman kill <port>")], [], []);
    }
    var parsed := Atoi(args[2]);
    if parsed.None? {
      return Report(Exit(1), [Stderr("Invalid port number: " + args[2])], [], []);
    }
    var portNum := parsed.value;
    if portNum < 1 || portNum > 65535 {
      return Report(Exit(1), [Stderr("Port number must be between 1 and 65535")], [], []);
    }
    if scan.Err? {
      return Report(Exit(1), [Stderr("Error scanning ports: " + scan.msg)], [], []);
    }
    var matches := findAll(scan.value, portNum);
    if |matches| == 0 {
      return Report(Exit(1), [Stdout("No process found on port " + Itoa(portNum))], [], []);
    }
    if |matches| == 1 {
      var port := matches[0];
      var heading := Stdout("Killing process on port " + Itoa(port.number) + " (PID: " + Itoa(port.pid)
                            + ", Process: " + port.processName + ")...");
      var result, _ := KillProcess(port.pid, oses(0));
      assert port in matches;
      return Report(Exit(if result.success then 0 else 1), [heading, ResultLine(result)], [port.pid], [result]);
    }
    var finished, selected := ShowSelectionMenu(matches, portNum, keys);
    if !finished {
      return Report(Waiting, [], [], []);
    }
    if selected.None? {
      return Report(Exit(0), [Stdout("Cancelled")], [], []);
    }
    var chosen := selected.value;
    var header := AllLine(chosen, matches, portNum);
    var lines, results := KillAll(chosen, oses);
    CheckedAreChoices(matches, RunMenu(StartMenu(matches, portNum), keys).0.selected);
    return Report(Exit(0), header + lines, Pids(chosen), results);
  }
}
