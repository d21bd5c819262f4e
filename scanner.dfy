/**
 * internal/scanner: turning the text that `lsof -i -P -n` (macOS, Linux) or
 * `netstat -ano` (Windows) prints into port records. Running the tools is not
 * modelled: their output is the input here, and so is the pid-to-name lookup
 * that the Windows parser performs through `tasklist`.
 */
module Scanner {
  import opened Common
  import opened GoStrings

  /** One process bound to one port (internal/scanner/port.go). */
  datatype Port = Port(number: int, pid: int, processName: string, command: string, protocol: string)

  /** The deduplication key, `fmt.Sprintf("%s-%d-%d", protocol, port, pid)`. */
  function DedupKey(p: Port): (key: string)
    ensures HasPrefix(key, p.protocol + "-")
    ensures |key| > |Itoa(p.pid)| && key[|key| - |Itoa(p.pid)| - 1..] == "-" + Itoa(p.pid)
  {
    p.protocol + "-" + Itoa(p.number) + "-" + Itoa(p.pid)
  }

  // ---------------------------------------------------------------------------
  // One line of lsof output

  /** The port of an lsof address field, or None when the line is skipped. */
  function UnixPort(address: string): (port: Option<int>)
    ensures port.Some? <==>
      ':' in address && Atoi(BeforeFirst(AfterLast(address, ':'), '(')) !in {None, Some(0)}
    ensures port.Some? ==> Some(port.value) == Atoi(BeforeFirst(AfterLast(address, ':'), '('))
  {
    if ':' !in address then None  // the port stays 0
    else
      if |Split(address, ':')| < 2 then None
      else
        var portStr := FirstPiece(LastPiece(address, ':'), '(');  // drop "(LISTEN)" and the like
        match Atoi(portStr)
        case None => None
        case Some(port) => if port == 0 then None else Some(port)
  }

  /** The record one lsof line (not the header) yields, if any. */
  function UnixRecord(line: string): (rec: Option<Port>)
    ensures rec.Some? ==>
      var fs := Fields(line);
      && |fs| >= 9 && rec.value.number != 0
      && Atoi(fs[1]) == Some(rec.value.pid)
      && rec.value.processName == fs[0] && rec.value.protocol == ToLower(fs[7])
  {
    if line == "" then None
    else
      var fields := Fields(line);
      if |fields| < 9 then None
      else
        var processName := fields[0];
        var protocol := ToLower(fields[7]);
        match Atoi(fields[1])
        case None => None
        case Some(pid) =>
          match UnixPort(fields[8])
          case None => None
          case Some(port) =>
            var command := if |fields| > 9 then Join(fields[9..], " ") else processName;
            Some(Port(port, pid, processName, command, protocol))
  }

  /** What a line of lsof output yields, stated field by field. */
  lemma UnixRecordSpec(line: string, p: Port)
    ensures var fs := Fields(line);
      UnixRecord(line) == Some(p) <==>
        && |fs| >= 9
        && Atoi(fs[1]) == Some(p.pid)
        && UnixPort(fs[8]) == Some(p.number)
        && p.processName == fs[0]
        && p.protocol == ToLower(fs[7])
        && p.command == (if |fs| == 9 then fs[0] else Join(fs[9..], " "))
  {
    assert line == "" ==> Fields(line) == [];
  }

  function UnixRecords(lines: seq<string>): (recs: seq<Option<Port>>)
    ensures |recs| == |lines|
    ensures forall i :: 0 <= i < |lines| ==> recs[i] == UnixRecord(lines[i])
  {
    seq(|lines|, i requires 0 <= i < |lines| => UnixRecord(lines[i]))
  }

  // ---------------------------------------------------------------------------
  // One line of netstat output

  /** The record one netstat line (past the four header lines) yields, if any. */
  function WindowsRecord(line: string, lookup: int -> string): (rec: Option<Port>)
    ensures rec.Some? ==>
      var fs := Fields(line);
      && |fs| >= 5 && rec.value.number != 0
      && Atoi(fs[|fs| - 1]) == Some(rec.value.pid)
      && rec.value.processName == lookup(rec.value.pid) && rec.value.command == rec.value.processName
  {
    if line == "" then None
    else
      var fields := Fields(line);
      if |fields| < 5 then None
      else
        var protocol := ToLower(fields[0]);
        var localAddress := fields[1];
        match Atoi(fields[|fields| - 1])
        case None => None
        case Some(pid) =>
          if |Split(localAddress, ':')| < 2 then None
          else
            match Atoi(LastPiece(localAddress, ':'))
            case None => None
            case Some(port) =>
              if port == 0 then None
              else
                var name := lookup(pid);
                Some(Port(port, pid, name, name, protocol))
  }

  /** What a line of netstat output yields, stated field by field. */
  lemma WindowsRecordSpec(line: string, lookup: int -> string, p: Port)
    ensures var fs := Fields(line);
      WindowsRecord(line, lookup) == Some(p) <==>
        && |fs| >= 5
        && Atoi(fs[|fs| - 1]) == Some(p.pid)
        && ':' in fs[1]
        && Atoi(AfterLast(fs[1], ':')) == Some(p.number)
        && p.number != 0
        && p.processName == lookup(p.pid)
        && p.command == p.processName
        && p.protocol == ToLower(fs[0])
  {
  }

  function WindowsRecords(lines: seq<string>, lookup: int -> string): (recs: seq<Option<Port>>)
    ensures |recs| == |lines|
    ensures forall i :: 0 <= i < |lines| ==> recs[i] == WindowsRecord(lines[i], lookup)
  {
    seq(|lines|, i requires 0 <= i < |lines| => WindowsRecord(lines[i], lookup))
  }

  /**
   * The name `getProcessNameWindows` makes of `tasklist /FO CSV /NH` output
   * (Err when the command fails): the first comma-separated field of the
   * trimmed output with its quotes removed. The "unknown" of the no-field
   * branch is never produced, since a split yields at least one field.
   */
  function ProcessNameFromTasklist(output: Result<string>): (name: string)
    ensures output.Err? ==> name == "unknown"
    ensures output.Ok? ==> name == TrimChar(BeforeFirst(TrimSpace(output.value), ','), '"')
  {
    match output
    case Err(_) => "unknown"
    case Ok(text) =>
      SplitFirst(TrimSpace(text), ',');
      var fields := Split(TrimSpace(text), ',');
      if |fields| > 0 then TrimChar(fields[0], '"') else "unknown"
  }

  // ---------------------------------------------------------------------------
  // Deduplication

  /**
   * The parsers' `portMap` after storing the records in order under `key`: a
   * later record overwrites an earlier one with the same key.
   */
  function Store(recs: seq<Option<Port>>, key: Port -> string): (t: map<string, Port>)
    ensures forall k :: k in t ==> key(t[k]) == k
  {
    if |recs| == 0 then map[]
    else
      var t := Store(recs[..|recs| - 1], key);
      match recs[|recs| - 1]
      case None => t
      case Some(p) => t[key(p) := p]
  }

  /** The table under the deduplication key. */
  function Table(recs: seq<Option<Port>>): (t: map<string, Port>)
    ensures forall k :: k in t ==> DedupKey(t[k]) == k
  {
    Store(recs, DedupKey)
  }

  /** Record `i` is the last one that carries key `k`. */
  ghost predicate LastWith(recs: seq<Option<Port>>, key: Port -> string, k: string, i: int) {
    && 0 <= i < |recs|
    && recs[i].Some?
    && key(recs[i].value) == k
    && forall j :: i < j < |recs| && recs[j].Some? ==> key(recs[j].value) != k
  }

  /** A key is in the table iff some record carries it, and it then holds the last such record. */
  lemma {:induction false} StoreLastWins(recs: seq<Option<Port>>, key: Port -> string, k: string)
    ensures k in Store(recs, key) <==> exists i :: 0 <= i < |recs| && recs[i].Some? && key(recs[i].value) == k
    ensures k in Store(recs, key) ==> exists i :: LastWith(recs, key, k, i) && Store(recs, key)[k] == recs[i].value
  {
    if |recs| > 0 {
      var n := |recs| - 1;
      var init := recs[..n];
      StoreLastWins(init, key, k);
      if recs[n].Some? && key(recs[n].value) == k {
        assert LastWith(recs, key, k, n);
      } else if k in Store(recs, key) {
        var i :| LastWith(init, key, k, i) && Store(init, key)[k] == init[i].value;
        assert init[i] == recs[i];
        assert LastWith(recs, key, k, i);
      } else {
        forall i | 0 <= i < |recs| && recs[i].Some?
          ensures key(recs[i].value) != k
        {
          if i < n {
            assert init[i] == recs[i];
          }
        }
      }
    }
  }

  /** The number of digits that end `s`. */
  function TrailingDigits(s: string): (n: nat)
    ensures n <= |s|
    ensures AllDigits(s[|s| - n..])
    ensures n < |s| ==> !IsDigit(s[|s| - n - 1])
  {
    if |s| > 0 && IsDigit(s[|s| - 1]) then 1 + TrailingDigits(s[..|s| - 1]) else 0
  }

  lemma {:induction false} TrailingDigitsAfterDash(y: string, d: string)
    requires AllDigits(d)
    ensures TrailingDigits(y + "-" + d) == |d|
    decreases |d|
  {
    var s := y + "-" + d;
    if |d| > 0 {
      assert s[..|s| - 1] == y + "-" + d[..|d| - 1];
      TrailingDigitsAfterDash(y, d[..|d| - 1]);
    } else {
      assert s[|s| - 1] == '-';
    }
  }

  /** A dash followed by digits ends a string in only one way. */
  lemma SplitAtDash(y1: string, d1: string, y2: string, d2: string)
    requires AllDigits(d1) && AllDigits(d2)
    requires y1 + "-" + d1 == y2 + "-" + d2
    ensures y1 == y2 && d1 == d2
  {
    var s := y1 + "-" + d1;
    TrailingDigitsAfterDash(y1, d1);
    TrailingDigitsAfterDash(y2, d2);
    assert y1 == s[..|y1|];
    assert y2 == s[..|y2|];
    assert d1 == s[|y1| + 1..];
    assert d2 == s[|y2| + 1..];
  }

  /** After the trailing digits of `s` comes a dash, and before that a digit. */
  predicate DigitBeforeDash(s: string) {
    var t := TrailingDigits(s);
    t + 2 <= |s| && s[|s| - t - 1] == '-' && IsDigit(s[|s| - t - 2])
  }

  /**
   * Seen from its end, `y + "-" + Itoa(n)` with `y` ending in a digit shows
   * the sign of `n`: a digit before the dash exactly when `n` is not negative.
   */
  lemma SignFromEnd(y: string, n: int)
    requires |y| > 0 && IsDigit(y[|y| - 1])
    ensures DigitBeforeDash(y + "-" + Itoa(n)) <==> n >= 0
  {
    var s := y + "-" + Itoa(n);
    ItoaShape(n);
    if n >= 0 {
      TrailingDigitsAfterDash(y, Digits(n));
      assert s[|s| - |Digits(n)| - 2] == y[|y| - 1];
    } else {
      assert s == (y + "-") + "-" + Digits(-n);
      TrailingDigitsAfterDash(y + "-", Digits(-n));
    }
  }

  /** Two such strings that are equal end in numbers of the same sign. */
  lemma SameSign(y1: string, n1: int, y2: string, n2: int)
    requires |y1| > 0 && IsDigit(y1[|y1| - 1])
    requires |y2| > 0 && IsDigit(y2[|y2| - 1])
    requires y1 + "-" + Itoa(n1) == y2 + "-" + Itoa(n2)
    ensures n1 >= 0 <==> n2 >= 0
  {
    SignFromEnd(y1, n1);
    SignFromEnd(y2, n2);
  }

  /** `y + "-" + Itoa(n)` with `y` ending in a digit determines `y` and `n`. */
  lemma SplitAtLastNumber(y1: string, n1: int, y2: string, n2: int)
    requires |y1| > 0 && IsDigit(y1[|y1| - 1])
    requires |y2| > 0 && IsDigit(y2[|y2| - 1])
    requires y1 + "-" + Itoa(n1) == y2 + "-" + Itoa(n2)
    ensures y1 == y2 && n1 == n2
  {
    SameSign(y1, n1, y2, n2);
    if n1 >= 0 {
      SplitAtDash(y1, Digits(n1), y2, Digits(n2));
      DigitsInjective(n1, n2);
    } else {
      NegativeTail(y1, n1);
      NegativeTail(y2, n2);
      SplitAtDash(y1 + "-", Digits(-n1), y2 + "-", Digits(-n2));
      assert y1 == (y1 + "-")[..|y1|];
      assert y2 == (y2 + "-")[..|y2|];
      DigitsInjective(-n1, -n2);
    }
  }

  lemma NegativeTail(y: string, n: int)
    requires n < 0
    ensures y + "-" + Itoa(n) == (y + "-") + "-" + Digits(-n)
  {
  }

  /** Equal key strings mean equal protocol, port and pid, provided neither port is negative. */
  lemma DedupKeyInjective(p: Port, q: Port)
    requires p.number >= 0 && q.number >= 0
    requires DedupKey(p) == DedupKey(q)
    ensures p.protocol == q.protocol && p.number == q.number && p.pid == q.pid
  {
    var y1 := p.protocol + "-" + Itoa(p.number);
    var y2 := q.protocol + "-" + Itoa(q.number);
    ItoaShape(p.number);
    ItoaShape(q.number);
    assert y1[|y1| - 1] == Itoa(p.number)[|Itoa(p.number)| - 1];
    assert y2[|y2| - 1] == Itoa(q.number)[|Itoa(q.number)| - 1];
    SplitAtLastNumber(y1, p.pid, y2, q.pid);
    SplitAtDash(p.protocol, Digits(p.number), q.protocol, Digits(q.number));
    DigitsInjective(p.number, q.number);
  }

  /**
   * With a negative port the key string is ambiguous: these two records differ
   * in protocol and port, share a key, and the later one replaces the earlier.
   */
  lemma DedupKeyCollision()
    ensures var p := Port(-1, 2, "x", "x", "tcp");
            var q := Port(1, 2, "x", "x", "tcp-");
            && DedupKey(p) == DedupKey(q)
            && (p.protocol != q.protocol && p.number != q.number)
            && Table([Some(p), Some(q)]) == map[DedupKey(q) := q]
  {
    var p := Port(-1, 2, "x", "x", "tcp");
    var q := Port(1, 2, "x", "x", "tcp-");
    CollidingKeys();
    StoreTwo(p, q, DedupKey);
  }

  /** The two keys of `DedupKeyCollision`, written out. */
  lemma CollidingKeys()
    ensures DedupKey(Port(-1, 2, "x", "x", "tcp")) == "tcp--1-2"
    ensures DedupKey(Port(1, 2, "x", "x", "tcp-")) == "tcp--1-2"
  {
    assert Itoa(-1) == "-1" && Itoa(1) == "1" && Itoa(2) == "2";
  }

  /** Storing two records whose keys agree keeps only the second. */
  lemma StoreTwo(p: Port, q: Port, key: Port -> string)
    requires key(p) == key(q)
    ensures Store([Some(p), Some(q)], key) == map[key(q) := q]
  {
    var r1, r2 := [Some(p)], [Some(p), Some(q)];
    assert r1[..0] == [];
    assert Store(r1, key) == map[key(p) := p];
    assert r2[..1] == r1;
  }

  // ---------------------------------------------------------------------------
  // The parsers

  /** The table `parseUnixOutput` builds: every line after the header, in order. */
  function UnixTable(output: string): map<string, Port> {
    var lines := Split(output, '\n');
    if |lines| < 2 then map[] else Table(UnixRecords(lines)[1..])
  }

  /** The table `parseWindowsOutput` builds: every line after the first four, in order. */
  function WindowsTable(output: string, lookup: int -> string): map<string, Port> {
    var lines := Split(output, '\n');
    if |lines| < 4 then map[] else Table(WindowsRecords(lines, lookup)[4..])
  }

  /** Distinct keys hold distinct records. */
  predicate DistinctValues(t: map<string, Port>) {
    forall k1, k2 :: k1 in t && k2 in t && k1 != k2 ==> t[k1] != t[k2]
  }

  /** `ports` holds the values of `t`, each exactly once, in some order. */
  predicate Lists(ports: seq<Port>, t: map<string, Port>) {
    && |ports| == |t|
    && (forall i :: 0 <= i < |ports| ==> ports[i] in t.Values)
    && (forall i, j :: 0 <= i < j < |ports| ==> ports[i] != ports[j])
    && (forall k :: k in t ==> t[k] in ports)
  }

  /** The `for _, port := range portMap` loop: the values in whatever order the map yields them. */
  method MapValues(t: map<string, Port>) returns (ports: seq<Port>)
    requires DistinctValues(t)
    ensures Lists(ports, t)
  {
    ports := [];
    var rest := t.Keys;
    while rest != {}
      invariant rest <= t.Keys
      invariant |ports| + |rest| == |t.Keys|
      invariant forall i :: 0 <= i < |ports| ==> exists k :: k in t.Keys - rest && t[k] == ports[i]
      invariant forall i, j :: 0 <= i < j < |ports| ==> ports[i] != ports[j]
      invariant forall k :: k in t.Keys - rest ==> t[k] in ports
      decreases |rest|
    {
      var k :| k in rest;
      ports := ports + [t[k]];
      rest := rest - {k};
    }
  }

  /** A table filled under any key function keeps distinct records under distinct keys. */
  lemma StoreDistinct(recs: seq<Option<Port>>, key: Port -> string)
    ensures DistinctValues(Store(recs, key))
  {
  }

  /**
   * The loop both parsers share: every record from index `from` on is stored
   * in `portMap` under `key` (the parsers pass `DedupKey`), in order.
   */
  method StoreRecords(recs: seq<Option<Port>>, from: nat, key: Port -> string) returns (portMap: map<string, Port>)
    requires from <= |recs|
    ensures portMap == Store(recs[from..], key)
  {
    portMap := map[];
    var i := from;
    while i < |recs|
      invariant from <= i <= |recs|
      invariant portMap == Store(recs[from..i], key)
    {
      assert recs[from..i + 1][..i - from] == recs[from..i];
      var rec := recs[i];
      if rec.Some? {
        portMap := portMap[key(rec.value) := rec.value];
      }
      i := i + 1;
    }
    assert recs[from..|recs|] == recs[from..];
  }

  /** `parseUnixOutput`; it never fails, so only the records are returned. */
  method ParseUnixOutput(output: string) returns (ports: seq<Port>)
    ensures Lists(ports, UnixTable(output))
    ensures '\n' !in output ==> ports == []
  {
    var lines := Split(output, '\n');
    if |lines| < 2 {
      return [];
    }
    var recs := UnixRecords(lines);
    var portMap := StoreRecords(recs, 1, DedupKey);
    StoreDistinct(recs[1..], DedupKey);
    ports := MapValues(portMap);
  }

  /** `parseWindowsOutput`, with the pid-to-name lookup as a parameter; it never fails. */
  method ParseWindowsOutput(output: string, lookup: int -> string) returns (ports: seq<Port>)
    ensures Lists(ports, WindowsTable(output, lookup))
    ensures |Split(output, '\n')| <= 4 ==> ports == []
  {
    var lines := Split(output, '\n');
    if |lines| < 4 {
      return [];
    }
    var recs := WindowsRecords(lines, lookup);
    var portMap := StoreRecords(recs, 4, DedupKey);
    StoreDistinct(recs[4..], DedupKey);
    ports := MapValues(portMap);
  }

  /** `StoreLastWins` for the records from index `from` on, with indices counted in all of `recs`. */
  lemma StoreFrom(recs: seq<Option<Port>>, key: Port -> string, k: string, from: nat)
    requires from <= |recs|
    ensures k in Store(recs[from..], key) <==>
      exists i :: from <= i < |recs| && recs[i].Some? && key(recs[i].value) == k
    ensures k in Store(recs[from..], key) ==>
      exists i :: from <= i < |recs| && LastWith(recs, key, k, i) && Store(recs[from..], key)[k] == recs[i].value
  {
    var tail := recs[from..];
    StoreLastWins(tail, key, k);
    if k in Store(tail, key) {
      var i :| LastWith(tail, key, k, i) && Store(tail, key)[k] == tail[i].value;
      assert tail[i] == recs[from + i];
      forall j | from + i < j < |recs| && recs[j].Some?
        ensures key(recs[j].value) != k
      {
        assert tail[j - from] == recs[j];
      }
      assert LastWith(recs, key, k, from + i);
    } else {
      forall i | from <= i < |recs| && recs[i].Some?
        ensures key(recs[i].value) != k
      {
        assert tail[i - from] == recs[i];
      }
    }
  }

  /**
   * `parseUnixOutput` lists a key iff some line after the header yields a
   * record with that key, and then the record of the last such line.
   */
  lemma UnixTableSource(output: string, k: string)
    ensures var lines := Split(output, '\n');
            var recs := UnixRecords(lines);
            k in UnixTable(output) <==>
              exists i :: 1 <= i < |lines| && recs[i].Some? && DedupKey(recs[i].value) == k
    ensures var lines := Split(output, '\n');
            var recs := UnixRecords(lines);
            k in UnixTable(output) ==>
              exists i :: 1 <= i < |lines| && LastWith(recs, DedupKey, k, i) && UnixTable(output)[k] == recs[i].value
  {
    var lines := Split(output, '\n');
    if |lines| >= 2 {
      StoreFrom(UnixRecords(lines), DedupKey, k, 1);
    }
  }

  /**
   * `parseWindowsOutput` lists a key iff some line after the first four
   * yields a record with that key, and then the record of the last such line.
   */
  lemma WindowsTableSource(output: string, lookup: int -> string, k: string)
    ensures var lines := Split(output, '\n');
            var recs := WindowsRecords(lines, lookup);
            k in WindowsTable(output, lookup) <==>
              exists i :: 4 <= i < |lines| && recs[i].Some? && DedupKey(recs[i].value) == k
    ensures var lines := Split(output, '\n');
            var recs := WindowsRecords(lines, lookup);
            k in WindowsTable(output, lookup) ==>
              exists i :: 4 <= i < |lines| && LastWith(recs, DedupKey, k, i) && WindowsTable(output, lookup)[k] == recs[i].value
  {
    var lines := Split(output, '\n');
    if |lines| >= 4 {
      StoreFrom(WindowsRecords(lines, lookup), DedupKey, k, 4);
    }
  }

  /** `FindByPort`: the first record in input order on the given port, or nil. */
  method FindByPort(ports: seq<Port>, portNum: int) returns (found: Option<Port>)
    ensures found.None? <==> forall i :: 0 <= i < |ports| ==> ports[i].number != portNum
    ensures found.Some? ==>
      exists i :: (&& 0 <= i < |ports| && ports[i] == found.value && ports[i].number == portNum
                   && forall j :: 0 <= j < i ==> ports[j].number != portNum)
  {
    var i := 0;
    while i < |ports|
      invariant 0 <= i <= |ports|
      invariant forall j :: 0 <= j < i ==> ports[j].number != portNum
    {
      if ports[i].number == portNum {
        return Some(ports[i]);
      }
      i := i + 1;
    }
    return None;
  }
}
