/**
 * internal/tui/model.go: the state of the interactive session, the filter
 * that derives the visible list from the scanned ports, and the sorting of a
 * fresh scan. The session's fields are collected in the value `State`; the
 * object that updates them in place is `TuiUpdate.Session`.
 */
module TuiModel {
  import opened Common
  import opened GoStrings
  import opened Scanner

  /** The fields of the Bubble Tea model (the text input reduced to its text). */
  datatype State = State(
    ports: seq<Port>,
    filtered: seq<Port>,
    cursor: int,
    status: string,
    statusIsError: bool,
    scanning: bool,
    filterMode: bool,
    filterText: string,
    confirmingKill: bool,
    width: int,
    height: int)

  /** `initialModel`: no ports, cursor 0, every mode off. */
  function Initial(): (s: State)
    ensures s.ports == [] && s.filtered == [] && s.cursor == 0
    ensures !s.scanning && !s.filterMode && !s.confirmingKill && !s.statusIsError
    ensures s.filterText == "" && s.status == ""
  {
    State([], [], 0, "", false, false, false, "", false, 0, 0)
  }

  /** `max`. */
  function Max(a: int, b: int): (m: int)
    ensures m >= a && m >= b
    ensures m == a || m == b
  {
    if a > b then a else b
  }

  // ---------------------------------------------------------------------------
  // Filtering

  /** The filter as `filterPorts` uses it: trimmed and lower-cased. */
  function NormalizeFilter(text: string): string {
    ToLower(TrimSpace(text))
  }

  /** A port is kept when its decimal number, process name, command or protocol contains the filter. */
  predicate Matches(p: Port, filter: string): (m: bool)
    ensures filter == "" ==> m
  {
    || Contains(Itoa(p.number), filter)
    || Contains(ToLower(p.processName), filter)
    || Contains(ToLower(p.command), filter)
    || Contains(ToLower(p.protocol), filter)
  }

  /** The ports that match, in their original order. */
  function Select(ports: seq<Port>, filter: string): (r: seq<Port>)
    ensures |r| <= |ports|
    ensures forall x :: x in r <==> x in ports && Matches(x, filter)
  {
    if |ports| == 0 then []
    else
      var r := Select(ports[..|ports| - 1], filter);
      var p := ports[|ports| - 1];
      assert ports == ports[..|ports| - 1] + [p];
      if Matches(p, filter) then r + [p] else r
  }

  /** The visible list for a given filter text: everything when the filter is blank. */
  function FilterView(ports: seq<Port>, text: string): (view: seq<Port>)
    ensures NormalizeFilter(text) == "" ==> view == ports
    ensures NormalizeFilter(text) != "" ==> view == Select(ports, NormalizeFilter(text))
  {
    var filter := NormalizeFilter(text);
    if filter == "" then ports else Select(ports, filter)
  }

  /** Selection keeps relative order: it distributes over concatenation. */
  lemma {:induction false} SelectAppend(a: seq<Port>, b: seq<Port>, filter: string)
    ensures Select(a + b, filter) == Select(a, filter) + Select(b, filter)
    decreases |b|
  {
    if |b| > 0 {
      var b' := b[..|b| - 1];
      assert (a + b)[..|a + b| - 1] == a + b';
      SelectAppend(a, b', filter);
    } else {
      assert a + b == a;
    }
  }

  /** Selecting twice with the same filter selects nothing more. */
  lemma {:induction false} SelectIdempotent(ports: seq<Port>, filter: string)
    ensures Select(Select(ports, filter), filter) == Select(ports, filter)
    decreases |ports|
  {
    if |ports| > 0 {
      var init := ports[..|ports| - 1];
      var p := ports[|ports| - 1];
      SelectIdempotent(init, filter);
      if Matches(p, filter) {
        SelectAppend(Select(init, filter), [p], filter);
        assert [p][..0] == [];
      }
    }
  }

  /** Which cursor positions are kept: those inside a non-empty list, and 0 for an empty one. */
  function Reclamp(cursor: int, n: nat): (c: int)
    ensures cursor < n ==> c == cursor
    ensures cursor >= n ==> c == Max(0, n - 1)
    ensures cursor >= 0 ==> 0 <= c && (n == 0 || c < n)
  {
    if cursor >= n then Max(0, n - 1) else cursor
  }

  /** How the model treats the cursor when it recomputes the list. */
  datatype Variant =
    | AsWritten  // model.go: a blank filter returns before the cursor is reclamped
    | Clamped    // the cursor is reclamped whatever the filter

  /**
   * `filterPorts`: the visible list recomputed from the ports and the filter
   * text; the cursor is reclamped only for a non-blank filter as written.
   */
  function Refilter(s: State, v: Variant): (t: State)
    ensures t.filtered == FilterView(s.ports, s.filterText)
    ensures t == s.(filtered := t.filtered, cursor := t.cursor)
    ensures v == AsWritten && NormalizeFilter(s.filterText) == "" ==> t.cursor == s.cursor
    ensures v == Clamped || NormalizeFilter(s.filterText) != "" ==> t.cursor == Reclamp(s.cursor, |t.filtered|)
  {
    var view := FilterView(s.ports, s.filterText);
    if v == AsWritten && NormalizeFilter(s.filterText) == "" then s.(filtered := view)
    else s.(filtered := view, cursor := Reclamp(s.cursor, |view|))
  }

  /** The list depends only on the ports and the text, so filtering again changes nothing. */
  lemma RefilterIdempotent(s: State, v: Variant)
    ensures Refilter(Refilter(s, v), v) == Refilter(s, v)
  {
  }

  // ---------------------------------------------------------------------------
  // Sorting a scan

  predicate SortedByNumber(ports: seq<Port>) {
    forall i, j :: 0 <= i < j < |ports| ==> ports[i].number <= ports[j].number
  }

  /** The `sort.Slice` call of `scanPorts`: ascending by port number, in place. */
  method SortByNumber(a: array<Port>)
    modifies a
    ensures SortedByNumber(a[..])
    ensures multiset(a[..]) == old(multiset(a[..]))
  {
    var i := 0;
    while i < a.Length
      invariant 0 <= i <= a.Length
      invariant SortedByNumber(a[..i])
      invariant multiset(a[..]) == old(multiset(a[..]))
    {
      SinkLast(a, i);
      i := i + 1;
    }
    assert a[..a.Length] == a[..];
  }

  /** One round of insertion sort: `a[i]` moves down into the sorted prefix `a[..i]`. */
  method SinkLast(a: array<Port>, i: nat)
    requires i < a.Length
    requires SortedByNumber(a[..i])
    modifies a
    ensures SortedByNumber(a[..i + 1])
    ensures multiset(a[..]) == old(multiset(a[..]))
  {
    var j := i;
    while j > 0 && a[j - 1].number > a[j].number
      invariant 0 <= j <= i
      invariant multiset(a[..]) == old(multiset(a[..]))
      invariant forall k, l :: 0 <= k < l <= i && l != j ==> a[k].number <= a[l].number
      invariant 0 < j < i ==> a[j - 1].number <= a[j + 1].number
    {
      SwapAdjacent(a, j - 1);
      j := j - 1;
    }
  }

  method SwapAdjacent(a: array<Port>, k: nat)
    requires k + 1 < a.Length
    modifies a
    ensures a[k] == old(a[k + 1]) && a[k + 1] == old(a[k])
    ensures forall m :: 0 <= m < a.Length && m != k && m != k + 1 ==> a[m] == old(a[m])
    ensures multiset(a[..]) == old(multiset(a[..]))
  {
    a[k], a[k + 1] := a[k + 1], a[k];
  }

  /**
   * `scanPorts` given what `scanner.ScanPorts` returned: on success the
   * ports sorted by number, on failure no ports and the error.
   */
  method ScanPorts(scan: Result<seq<Port>>) returns (ports: seq<Port>, err: Option<string>)
    ensures scan.Err? ==> ports == [] && err == Some(scan.msg)
    ensures scan.Ok? ==> err == None && SortedByNumber(ports) && multiset(ports) == multiset(scan.value)
  {
    match scan {
      case Err(msg) =>
        return [], Some(msg);
      case Ok(found) =>
        var a := new Port[|found|](i requires 0 <= i < |found| => found[i]);
        assert a[..] == found;
        SortByNumber(a);
        return a[..], None;
    }
  }
}
