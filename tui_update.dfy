/**
 * internal/tui/update.go: how the session reacts to a message. `Step` is the
 * transition as a function of the state; `Session` is the object whose
 * fields `Update` assigns one by one, proved to follow `Step`.
 *
 * Bubble Tea commands become tags. A key that the text input handles in
 * filter mode carries the text the input holds afterwards. An index out of
 * range, which makes Go panic, yields the `Panic` tag and leaves the state as
 * it was.
 */
module TuiUpdate {
  import opened Common
  import opened GoStrings
  import opened Scanner
  import opened TuiModel

  datatype Msg =
    | WindowSize(width: int, height: int)
    | KeyPress(key: Key, edited: string)
    | ScanComplete(ports: seq<Port>, err: Option<string>)
    | KillComplete(success: bool, message: string)

  /** The command `Update` hands back to the runtime. */
  datatype Cmd =
    | NoCmd
    | ScanCmd           // scanPorts
    | KillCmd(pid: int)  // the closure that runs process.KillProcess(pid)
    | QuitCmd
    | BlinkCmd          // textinput.Blink
    | InputCmd          // whatever the text input returned
    | Panic             // the index expression failed

  function KillPrompt(p: Port): string {
    "Kill process on port " + Itoa(p.number) + " (PID: " + Itoa(p.pid) + ")? [y/N]"
  }

  /** Keys in normal mode (neither filtering nor confirming). */
  function NormalKey(s: State, key: Key): (r: (State, Cmd))
    ensures r.0.ports == s.ports && r.0.filtered == s.filtered && r.0.filterText == s.filterText
    ensures r.1 == Panic ==> r.0 == s
  {
    match key
    case CtrlC => (s, QuitCmd)
    case Up => MoveUp(s)
    case Down => MoveDown(s)
    case Enter => AskToKill(s)
    case Rune(c) =>
      if c == 'q' then (s, QuitCmd)
      else if c == 'k' then MoveUp(s)
      else if c == 'j' then MoveDown(s)
      else if c == 'r' then (s.(scanning := true, status := "Refreshing...", statusIsError := false), ScanCmd)
      else if c == '/' then (s.(filterMode := true), BlinkCmd)
      else (s, NoCmd)
    case _ => (s, NoCmd)
  }

  function MoveUp(s: State): (State, Cmd) {
    (if s.cursor > 0 then s.(cursor := s.cursor - 1) else s, NoCmd)
  }

  function MoveDown(s: State): (State, Cmd) {
    (if s.cursor < |s.filtered| - 1 then s.(cursor := s.cursor + 1) else s, NoCmd)
  }

  /** Enter in normal mode: ask to confirm the kill of the port under the cursor. */
  function AskToKill(s: State): (State, Cmd) {
    if |s.filtered| == 0 then (s, NoCmd)
    else if !(0 <= s.cursor < |s.filtered|) then (s, Panic)
    else (s.(confirmingKill := true, status := KillPrompt(s.filtered[s.cursor]), statusIsError := false), NoCmd)
  }

  /** `handleFilterMode`. */
  function FilterKey(s: State, key: Key, edited: string, v: Variant): (State, Cmd) {
    if key == Esc || key == CtrlC then (Refilter(s.(filterMode := false, filterText := ""), v), NoCmd)
    else if key == Enter then (Refilter(s.(filterMode := false), v), NoCmd)
    else (Refilter(s.(filterText := edited), v), InputCmd)
  }

  /** `handleConfirmMode`. */
  function ConfirmKey(s: State, key: Key): (State, Cmd) {
    var t := s.(confirmingKill := false);
    if (key == Rune('y') || key == Rune('Y')) && |t.filtered| > 0 then
      if !(0 <= t.cursor < |t.filtered|) then (s, Panic)
      else
        var p := t.filtered[t.cursor];
        (t.(status := "Killing process on port " + Itoa(p.number) + "...", statusIsError := false), KillCmd(p.pid))
    else (t.(status := "Kill cancelled", statusIsError := false), NoCmd)
  }

  /** `Update`: filter mode first, then confirmation, then normal keys. */
  function Step(s: State, msg: Msg, v: Variant): (r: (State, Cmd))
    ensures r.1 == Panic ==> r.0 == s && msg.KeyPress?
    ensures r.0.ports != s.ports ==> msg.ScanComplete? && msg.err.None?
    ensures r.1.KillCmd? ==> msg.KeyPress? && s.confirmingKill && !s.filterMode
  {
    match msg
    case WindowSize(w, h) => (s.(width := w, height := h), NoCmd)
    case KeyPress(key, edited) =>
      if s.filterMode then FilterKey(s, key, edited, v)
      else if s.confirmingKill then ConfirmKey(s, key)
      else NormalKey(s, key)
    case ScanComplete(ports, err) =>
      var t := s.(scanning := false);
      if err.Some? then (t.(status := "Error: " + err.value, statusIsError := true), NoCmd)
      else
        var u := Refilter(t.(ports := ports), v);
        (u.(status := "Found " + Itoa(|ports|) + " active port(s)", statusIsError := false), NoCmd)
    case KillComplete(success, message) =>
      if success then (s.(status := "✓ " + message, statusIsError := false), ScanCmd)
      else (s.(status := "✗ " + message, statusIsError := true), NoCmd)
  }

  /** The states and commands a sequence of messages produces. */
  function Run(s: State, msgs: seq<Msg>, v: Variant): (r: (State, seq<Cmd>))
    ensures |r.1| == |msgs|
    decreases |msgs|
  {
    if |msgs| == 0 then (s, [])
    else
      var (t, c) := Step(s, msgs[0], v);
      var (u, cs) := Run(t, msgs[1..], v);
      (u, [c] + cs)
  }

  // ---------------------------------------------------------------------------
  // What holds in every reachable state

  /**
   * The list is the filter's view of the ports, the cursor is not negative,
   * the two modes never meet, and a non-blank filter keeps the cursor inside
   * the list (or at 0).
   */
  predicate Inv(s: State) {
    && s.filtered == FilterView(s.ports, s.filterText)
    && s.cursor >= 0
    && !(s.filterMode && s.confirmingKill)
    && (NormalizeFilter(s.filterText) != "" ==> s.cursor == 0 || s.cursor < |s.filtered|)
  }

  /** `filteredPorts[cursor]` is safe wherever the code guards it with `len > 0`. */
  predicate Safe(s: State) {
    |s.filtered| == 0 || s.cursor < |s.filtered|
  }

  /** A successful scan under a blank filter that leaves the cursor past the end of a non-empty list. */
  predicate Hazard(s: State, msg: Msg) {
    && msg.ScanComplete? && msg.err.None?
    && NormalizeFilter(s.filterText) == ""
    && 0 < |msg.ports| <= s.cursor
  }

  lemma InitialInv()
    ensures Inv(Initial()) && Safe(Initial())
  {
    assert NormalizeFilter("") == "";
  }

  /** The invariant reads only the lists, the text, the cursor and the two modes. */
  lemma InvFrame(s: State, t: State)
    requires Inv(s)
    requires t.ports == s.ports && t.filtered == s.filtered && t.filterText == s.filterText
    requires t.cursor == s.cursor && !(t.filterMode && t.confirmingKill)
    ensures Inv(t) && (Safe(s) ==> Safe(t))
  {
  }

  /** A refilter re-establishes the list and keeps the cursor rule. */
  lemma RefilterInv(s: State, v: Variant)
    requires s.cursor >= 0 && !(s.filterMode && s.confirmingKill)
    ensures Inv(Refilter(s, v))
  {
  }

  /** A refilter with the cursor reclamped always leaves it safe. */
  lemma ClampedRefilterSafe(s: State)
    requires s.cursor >= 0
    ensures Safe(Refilter(s, Clamped))
  {
  }

  /** Changing only the filter text (or a mode flag) keeps a safe cursor safe, even as written. */
  lemma RefilterSafe(s: State, t: State)
    requires Inv(s) && Safe(s)
    requires t.ports == s.ports && t.cursor == s.cursor
    ensures Safe(Refilter(t, AsWritten))
  {
    if NormalizeFilter(t.filterText) == "" && NormalizeFilter(s.filterText) != "" {
      assert |s.filtered| <= |s.ports|;
    }
  }

  lemma MoveUpKeeps(s: State)
    requires Inv(s)
    ensures Inv(MoveUp(s).0) && (Safe(s) ==> Safe(MoveUp(s).0))
  {
  }

  lemma MoveDownKeeps(s: State)
    requires Inv(s)
    ensures Inv(MoveDown(s).0) && (Safe(s) ==> Safe(MoveDown(s).0))
  {
  }

  lemma AskToKillKeeps(s: State)
    requires Inv(s) && !s.filterMode
    ensures Inv(AskToKill(s).0)
    ensures Safe(s) ==> Safe(AskToKill(s).0) && AskToKill(s).1 != Panic
  {
    if |s.filtered| > 0 && 0 <= s.cursor < |s.filtered| {
      InvFrame(s, AskToKill(s).0);
    }
  }

  /** Normal-mode keys keep the invariant, keep a safe cursor safe, and then do not panic. */
  lemma NormalKeyKeeps(s: State, key: Key)
    requires Inv(s) && !s.filterMode && !s.confirmingKill
    ensures Inv(NormalKey(s, key).0)
    ensures Safe(s) ==> Safe(NormalKey(s, key).0) && NormalKey(s, key).1 != Panic
  {
    match key
    case Up => MoveUpKeeps(s);
    case Down => MoveDownKeeps(s);
    case Enter => AskToKillKeeps(s);
    case Rune(c) => RuneKeeps(s, c);
    case _ =>
  }

  /** The letter keys of normal mode. */
  lemma RuneKeeps(s: State, c: char)
    requires Inv(s) && !s.filterMode && !s.confirmingKill
    ensures Inv(NormalKey(s, Rune(c)).0)
    ensures Safe(s) ==> Safe(NormalKey(s, Rune(c)).0) && NormalKey(s, Rune(c)).1 != Panic
  {
    if c == 'k' {
      MoveUpKeeps(s);
    } else if c == 'j' {
      MoveDownKeeps(s);
    } else if c == 'r' {
      var t := s.(scanning := true, status := "Refreshing...", statusIsError := false);
      assert NormalKey(s, Rune(c)) == (t, ScanCmd);
      InvFrame(s, t);
    } else if c == '/' {
      var t := s.(filterMode := true);
      assert NormalKey(s, Rune(c)) == (t, BlinkCmd);
      InvFrame(s, t);
    } else {
      assert NormalKey(s, Rune(c)).0 == s;
    }
  }

  /** Keys in confirmation mode keep the invariant, keep a safe cursor safe, and then do not panic. */
  lemma ConfirmKeyKeeps(s: State, key: Key)
    requires Inv(s) && s.confirmingKill
    ensures Inv(ConfirmKey(s, key).0)
    ensures Safe(s) ==> Safe(ConfirmKey(s, key).0) && ConfirmKey(s, key).1 != Panic
  {
    InvFrame(s, ConfirmKey(s, key).0);
  }

  /** Keys in filter mode keep the invariant and, in both variants, a safe cursor safe. */
  lemma FilterKeyKeeps(s: State, key: Key, edited: string, v: Variant)
    requires Inv(s) && s.filterMode
    ensures Inv(FilterKey(s, key, edited, v).0)
    ensures Safe(s) ==> Safe(FilterKey(s, key, edited, v).0)
  {
    var t := if key == Esc || key == CtrlC then s.(filterMode := false, filterText := "")
             else if key == Enter then s.(filterMode := false)
             else s.(filterText := edited);
    assert FilterKey(s, key, edited, v).0 == Refilter(t, v);
    RefilterInv(t, v);
    if Safe(s) {
      if v == AsWritten {
        RefilterSafe(s, t);
      } else {
        ClampedRefilterSafe(t);
      }
    }
  }

  /** A key press keeps the invariant and a safe cursor safe; from a safe state it never panics. */
  lemma KeyPressKeeps(s: State, key: Key, edited: string, v: Variant)
    requires Inv(s)
    ensures Inv(Step(s, KeyPress(key, edited), v).0)
    ensures Safe(s) ==> Safe(Step(s, KeyPress(key, edited), v).0) && Step(s, KeyPress(key, edited), v).1 != Panic
  {
    if s.filterMode {
      FilterKeyKeeps(s, key, edited, v);
    } else if s.confirmingKill {
      ConfirmKeyKeeps(s, key);
    } else {
      NormalKeyKeeps(s, key);
    }
  }

  /** Every message keeps the invariant, as written and corrected alike. */
  lemma StepInv(s: State, msg: Msg, v: Variant)
    requires Inv(s)
    ensures Inv(Step(s, msg, v).0)
  {
    match msg
    case KeyPress(key, edited) => KeyPressKeeps(s, key, edited, v);
    case ScanComplete(ports, err) => ScanKeeps(s, ports, err, v);
    case _ => InvFrame(s, Step(s, msg, v).0);
  }

  /** A finished scan keeps the invariant: an error touches only the status, a success refilters. */
  lemma ScanKeeps(s: State, ports: seq<Port>, err: Option<string>, v: Variant)
    requires Inv(s)
    ensures Inv(Step(s, ScanComplete(ports, err), v).0)
  {
    var t := Step(s, ScanComplete(ports, err), v).0;
    if err.None? {
      var u := Refilter(s.(scanning := false, ports := ports), v);
      RefilterInv(s.(scanning := false, ports := ports), v);
      assert t == u.(status := t.status, statusIsError := false);
      InvFrame(u, t);
    } else {
      InvFrame(s, t);
    }
  }

  /** As written, a finished scan leaves the cursor unsafe exactly in the hazard. */
  lemma ScanSafeIff(s: State, ports: seq<Port>, err: Option<string>)
    requires Inv(s) && Safe(s)
    ensures !Safe(Step(s, ScanComplete(ports, err), AsWritten).0) <==> Hazard(s, ScanComplete(ports, err))
  {
    if err.None? {
      var t := s.(scanning := false, ports := ports);
      assert Step(s, ScanComplete(ports, err), AsWritten).0.filtered == Refilter(t, AsWritten).filtered;
      assert Step(s, ScanComplete(ports, err), AsWritten).0.cursor == Refilter(t, AsWritten).cursor;
    }
  }

  /**
   * As written, the cursor leaves a non-empty list exactly when a scan
   * shrinks the list below it while the filter is blank.
   */
  lemma SafeLostIff(s: State, msg: Msg)
    requires Inv(s) && Safe(s)
    ensures !Safe(Step(s, msg, AsWritten).0) <==> Hazard(s, msg)
  {
    match msg
    case KeyPress(key, edited) => KeyPressKeeps(s, key, edited, AsWritten);
    case ScanComplete(ports, err) => ScanSafeIff(s, ports, err);
    case _ =>
  }

  /** Go panics exactly on enter or y/Y while the cursor is past the end of a non-empty list. */
  lemma PanicIff(s: State, msg: Msg, v: Variant)
    requires Inv(s)
    ensures Step(s, msg, v).1 == Panic <==>
      && msg.KeyPress? && !Safe(s) && !s.filterMode
      && (if s.confirmingKill then msg.key == Rune('y') || msg.key == Rune('Y') else msg.key == Enter)
  {
  }

  /** With the cursor always reclamped, a safe state stays safe whatever arrives. */
  lemma ClampedStepSafe(s: State, msg: Msg)
    requires Inv(s) && Safe(s)
    ensures Safe(Step(s, msg, Clamped).0)
    ensures Step(s, msg, Clamped).1 != Panic
  {
    match msg
    case KeyPress(key, edited) => KeyPressKeeps(s, key, edited, Clamped);
    case ScanComplete(ports, err) =>
      if err.None? {
        ClampedRefilterSafe(s.(scanning := false, ports := ports));
      }
    case _ =>
  }

  /** With the cursor always reclamped, no sequence of messages from a safe state panics. */
  lemma {:induction false} ClampedNeverPanics(s: State, msgs: seq<Msg>)
    requires Inv(s) && Safe(s)
    ensures Panic !in Run(s, msgs, Clamped).1
    decreases |msgs|
  {
    if |msgs| > 0 {
      ClampedStepSafe(s, msgs[0]);
      StepInv(s, msgs[0], Clamped);
      ClampedNeverPanics(Step(s, msgs[0], Clamped).0, msgs[1..]);
    }
  }

  /**
   * The panic as written: three ports, the cursor moved to the third, a
   * rescan that finds one port, then enter.
   */
  lemma StaleCursorPanics()
    ensures var p := Port(3000, 11, "node", "node", "tcp");
            var q := Port(5432, 12, "postgres", "postgres", "tcp");
            var w := Port(8080, 13, "java", "java", "tcp");
            var trace := [ScanComplete([p, q, w], None), KeyPress(Down, ""), KeyPress(Down, ""),
                          ScanComplete([p], None), KeyPress(Enter, "")];
            && Run(Initial(), trace, AsWritten).1[4] == Panic
            && Panic !in Run(Initial(), trace, Clamped).1
  {
    var p := Port(3000, 11, "node", "node", "tcp");
    var q := Port(5432, 12, "postgres", "postgres", "tcp");
    var w := Port(8080, 13, "java", "java", "tcp");
    var trace := [ScanComplete([p, q, w], None), KeyPress(Down, ""), KeyPress(Down, ""),
                  ScanComplete([p], None), KeyPress(Enter, "")];
    assert NormalizeFilter("") == "";
    var s1 := Step(Initial(), trace[0], AsWritten).0;
    var s2 := Step(s1, trace[1], AsWritten).0;
    var s3 := Step(s2, trace[2], AsWritten).0;
    var s4 := Step(s3, trace[3], AsWritten).0;
    assert s4.cursor == 2 && s4.filtered == [p];
    assert Run(s4, trace[4..], AsWritten).1 == [Panic];
    assert Run(s3, trace[3..], AsWritten).1[1] == Panic;
    assert Run(s2, trace[2..], AsWritten).1[2] == Panic;
    assert Run(s1, trace[1..], AsWritten).1[3] == Panic;
    InitialInv();
    ClampedNeverPanics(Initial(), trace);
  }

  // ---------------------------------------------------------------------------
  // Single-message properties

  /** Up and down in normal mode, whatever the input field holds, never make the cursor negative and keep it inside a list it was inside. */
  lemma NavigationBounds(s: State, key: Key, edited: string, v: Variant)
    requires !s.filterMode && !s.confirmingKill && s.cursor >= 0
    requires key in {Up, Rune('k'), Down, Rune('j')}
    ensures var t := Step(s, KeyPress(key, edited), v).0;
            && t.cursor >= 0
            && (s.cursor < |s.filtered| ==> t.cursor < |s.filtered|)
            && (|s.filtered| == 0 && s.cursor == 0 ==> t == s)
            && t == s.(cursor := t.cursor)
            && (key in {Up, Rune('k')} ==> t.cursor == if s.cursor > 0 then s.cursor - 1 else s.cursor)
            && (key in {Down, Rune('j')} ==> t.cursor == if s.cursor < |s.filtered| - 1 then s.cursor + 1 else s.cursor)
  {
  }

  /**
   * The other keys of normal mode: ctrl+c and q quit, r starts a rescan, /
   * enters filter mode, enter asks to confirm the kill of the port under the
   * cursor (and does nothing on an empty list), and any other key does
   * nothing.
   */
  lemma NormalKeyEffects(s: State, edited: string, v: Variant)
    requires !s.filterMode && !s.confirmingKill
    ensures Step(s, KeyPress(CtrlC, edited), v) == (s, QuitCmd)
    ensures Step(s, KeyPress(Rune('q'), edited), v) == (s, QuitCmd)
    ensures Step(s, KeyPress(Rune('r'), edited), v) ==
      (s.(scanning := true, status := "Refreshing...", statusIsError := false), ScanCmd)
    ensures Step(s, KeyPress(Rune('/'), edited), v) == (s.(filterMode := true), BlinkCmd)
    ensures |s.filtered| == 0 ==> Step(s, KeyPress(Enter, edited), v) == (s, NoCmd)
    ensures 0 <= s.cursor < |s.filtered| ==>
      var prompt := KillPrompt(s.filtered[s.cursor]);
      Step(s, KeyPress(Enter, edited), v) == (s.(confirmingKill := true, status := prompt, statusIsError := false), NoCmd)
    ensures Step(s, KeyPress(Esc, edited), v) == (s, NoCmd)
    ensures Step(s, KeyPress(OtherKey, edited), v) == (s, NoCmd)
    ensures forall c :: c !in {'q', 'k', 'j', 'r', '/'} ==> Step(s, KeyPress(Rune(c), edited), v) == (s, NoCmd)
  {
  }

  /** Filter mode takes every key, whatever the confirmation flag says; no key there kills or quits. */
  lemma FilterModeKeys(s: State, key: Key, edited: string, v: Variant)
    requires s.filterMode
    ensures var (t, c) := Step(s, KeyPress(key, edited), v);
      && c in {NoCmd, InputCmd}
      && t.confirmingKill == s.confirmingKill
      && t.filtered == FilterView(t.ports, t.filterText)
      && (key == Esc || key == CtrlC ==> !t.filterMode && t.filterText == "" && t.filtered == s.ports)
      && (key == Enter ==> !t.filterMode && t.filterText == s.filterText)
      && (key !in {Esc, CtrlC, Enter} ==> t.filterMode && t.filterText == edited && c == InputCmd)
  {
    assert NormalizeFilter("") == "";
  }

  /**
   * Confirmation always ends; y/Y kills the process under the cursor at that
   * moment, anything else cancels.
   */
  lemma ConfirmKeys(s: State, key: Key, edited: string, v: Variant)
    requires s.confirmingKill && !s.filterMode && 0 <= s.cursor
    ensures var (t, c) := Step(s, KeyPress(key, edited), v);
      && (c != Panic ==> !t.confirmingKill)
      && ((key == Rune('y') || key == Rune('Y')) && s.cursor < |s.filtered| ==> c == KillCmd(s.filtered[s.cursor].pid))
      && (!(key == Rune('y') || key == Rune('Y')) || |s.filtered| == 0 ==> c == NoCmd && t.status == "Kill cancelled")
  {
  }

  /** A finished scan always clears `scanning`; an error keeps the lists, a success replaces them. */
  lemma ScanCompleteEffect(s: State, ports: seq<Port>, err: Option<string>, v: Variant)
    ensures var (t, c) := Step(s, ScanComplete(ports, err), v);
      && !t.scanning && c == NoCmd
      && (err.Some? ==> t.ports == s.ports && t.filtered == s.filtered && t.statusIsError)
      && (err.None? ==> t.ports == ports && t.filtered == FilterView(ports, s.filterText) && !t.statusIsError
                        && t.status == "Found " + Itoa(|ports|) + " active port(s)")
  {
  }

  /** A successful kill asks for a rescan; a failed one only reports. */
  lemma KillCompleteEffect(s: State, success: bool, message: string, v: Variant)
    ensures var (t, c) := Step(s, KillComplete(success, message), v);
      && (success ==> c == ScanCmd && !t.statusIsError)
      && (!success ==> c == NoCmd && t.statusIsError)
      && t == s.(status := t.status, statusIsError := t.statusIsError)
  {
  }

  // ---------------------------------------------------------------------------
  // The session object

  /** The Bubble Tea model, updated in place. */
  class Session {
    var ports: seq<Port>
    var filtered: seq<Port>
    var cursor: int
    var status: string
    var statusIsError: bool
    var scanning: bool
    var filterMode: bool
    var filterText: string
    var confirmingKill: bool
    var width: int
    var height: int

    function Snapshot(): State
      reads this
    {
      State(ports, filtered, cursor, status, statusIsError, scanning, filterMode, filterText, confirmingKill, width, height)
    }

    /** `initialModel`. */
    constructor ()
      ensures Snapshot() == Initial()
    {
      ports, filtered, cursor := [], [], 0;
      status, statusIsError, scanning := "", false, false;
      filterMode, filterText, confirmingKill := false, "", false;
      width, height := 0, 0;
    }

    /** `filterPorts`: rebuild the list by appending the matches, then reclamp for a non-blank filter. */
    method FilterPorts()
      modifies this
      ensures Snapshot() == Refilter(old(Snapshot()), AsWritten)
    {
      var filter := NormalizeFilter(filterText);
      if filter == "" {
        filtered := ports;
        return;
      }
      var result: seq<Port> := [];
      var i := 0;
      while i < |ports|
        invariant 0 <= i <= |ports|
        invariant result == Select(ports[..i], filter)
      {
        assert ports[..i + 1][..i] == ports[..i];
        if Matches(ports[i], filter) {
          result := result + [ports[i]];
        }
        i := i + 1;
      }
      assert ports[..i] == ports;
      filtered := result;
      if cursor >= |filtered| {
        cursor := Max(0, |filtered| - 1);
      }
    }

    method HandleFilterMode(key: Key, edited: string) returns (cmd: Cmd)
      modifies this
      ensures (Snapshot(), cmd) == FilterKey(old(Snapshot()), key, edited, AsWritten)
    {
      if key == Esc || key == CtrlC {
        filterMode := false;
        filterText := "";
        FilterPorts();
        return NoCmd;
      } else if key == Enter {
        filterMode := false;
        FilterPorts();
        return NoCmd;
      }
      filterText := edited;
      FilterPorts();
      return InputCmd;
    }

    method HandleConfirmMode(key: Key) returns (cmd: Cmd)
      modifies this
      ensures (Snapshot(), cmd) == ConfirmKey(old(Snapshot()), key)
    {
      if (key == Rune('y') || key == Rune('Y')) && |filtered| > 0 {
        if !(0 <= cursor < |filtered|) {
          return Panic;
        }
        confirmingKill := false;
        var selected := filtered[cursor];
        status := "Killing process on port " + Itoa(selected.number) + "...";
        statusIsError := false;
        return KillCmd(selected.pid);
      }
      confirmingKill := false;
      status := "Kill cancelled";
      statusIsError := false;
      return NoCmd;
    }

    /** The key switch of `Update` outside the two modes. */
    method HandleNormalMode(key: Key) returns (cmd: Cmd)
      modifies this
      ensures (Snapshot(), cmd) == NormalKey(old(Snapshot()), key)
    {
      if key == CtrlC || key == Rune('q') {
        return QuitCmd;
      } else if key == Up || key == Rune('k') {
        if cursor > 0 {
          cursor := cursor - 1;
        }
      } else if key == Down || key == Rune('j') {
        if cursor < |filtered| - 1 {
          cursor := cursor + 1;
        }
      } else if key == Rune('r') {
        scanning := true;
        status := "Refreshing...";
        statusIsError := false;
        return ScanCmd;
      } else if key == Rune('/') {
        filterMode := true;
        return BlinkCmd;
      } else if key == Enter {
        if |filtered| > 0 {
          if !(0 <= cursor < |filtered|) {
            return Panic;
          }
          confirmingKill := true;
          status := KillPrompt(filtered[cursor]);
          statusIsError := false;
        }
      }
      return NoCmd;
    }

    /** `Update`: the fields change as `Step` says. */
    method Update(msg: Msg) returns (cmd: Cmd)
      modifies this
      ensures (Snapshot(), cmd) == Step(old(Snapshot()), msg, AsWritten)
    {
      match msg {
        case WindowSize(w, h) =>
          width := w;
          height := h;
          return NoCmd;
        case KeyPress(key, edited) =>
          if filterMode {
            cmd := HandleFilterMode(key, edited);
            return;
          }
          if confirmingKill {
            cmd := HandleConfirmMode(key);
            return;
          }
          cmd := HandleNormalMode(key);
        case ScanComplete(newPorts, err) =>
          scanning := false;
          if err.Some? {
            status := "Error: " + err.value;
            statusIsError := true;
          } else {
            ports := newPorts;
            FilterPorts();
            status := "Found " + Itoa(|ports|) + " active port(s)";
            statusIsError := false;
          }
          return NoCmd;
        case KillComplete(success, message) =>
          if success {
            status := "✓ " + message;
            statusIsError := false;
            return ScanCmd;
          }
          status := "✗ " + message;
          statusIsError := true;
          return NoCmd;
      }
    }
  }
}
