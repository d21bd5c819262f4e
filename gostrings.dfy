/**
 * The few primitives of Go's `strings`, `strconv` and `fmt` packages that the
 * scanner, the session and the version check rely on. Strings are sequences of
 * characters and case and white space are ASCII only.
 */
module GoStrings {
  import opened Common

  const MinInt64: int := -0x8000_0000_0000_0000
  const MaxInt64: int := 0x7FFF_FFFF_FFFF_FFFF

  predicate IsDigit(c: char) { '0' <= c <= '9' }

  predicate AllDigits(s: string) { forall i :: 0 <= i < |s| ==> IsDigit(s[i]) }

  /** White space as `strings.Fields` and `strings.TrimSpace` see it (ASCII part). */
  predicate IsSpace(c: char) {
    c == ' ' || c == '\t' || c == '\n' || c == '\r' || c == '\U{000B}' || c == '\U{000C}'
  }

  // ---------------------------------------------------------------------------
  // Case and containment

  function LowerChar(c: char): char {
    if 'A' <= c <= 'Z' then (c as int - 'A' as int + 'a' as int) as char else c
  }

  /** `strings.ToLower`, ASCII letters only. */
  function ToLower(s: string): (r: string)
    ensures |r| == |s|
    ensures forall i :: 0 <= i < |s| ==> r[i] == LowerChar(s[i])
  {
    if s == [] then [] else [LowerChar(s[0])] + ToLower(s[1..])
  }

  predicate HasPrefix(s: string, prefix: string) {
    |prefix| <= |s| && s[..|prefix|] == prefix
  }

  /** `strings.Contains`: `sub` occurs somewhere in `s`. */
  predicate Contains(s: string, sub: string)
    decreases |s|
  {
    HasPrefix(s, sub) || (|s| > 0 && Contains(s[1..], sub))
  }

  // ---------------------------------------------------------------------------
  // Splitting and joining

  /** `strings.Split` with a one-character separator. */
  function Split(s: string, sep: char): (parts: seq<string>)
    ensures |parts| >= 1
    ensures |parts| >= 2 <==> sep in s
    decreases |s|
  {
    if |s| == 0 then [""]
    else
      var rest := Split(s[1..], sep);
      assert sep in s <==> s[0] == sep || sep in s[1..] by { assert s == [s[0]] + s[1..]; }
      if s[0] == sep then [""] + rest
      else [[s[0]] + rest[0]] + rest[1..]
  }

  /** The text before the first `c` of `s` (all of `s` when there is none). */
  function BeforeFirst(s: string, c: char): (r: string)
    ensures c !in r
    ensures |r| <= |s| && r == s[..|r|]
    ensures |r| < |s| ==> s[|r|] == c
    decreases |s|
  {
    if |s| == 0 then ""
    else if s[0] == c then ""
    else [s[0]] + BeforeFirst(s[1..], c)
  }

  /** The text after the last `c` of `s` (all of `s` when there is none). */
  function AfterLast(s: string, c: char): string
    decreases |s|
  {
    if c !in s then s
    else if c !in s[1..] then s[1..]
    else AfterLast(s[1..], c)
  }

  /** `AfterLast` is a suffix free of `c`, and when shorter than `s` it follows a `c`. */
  lemma {:induction false} AfterLastShape(s: string, c: char)
    ensures var r := AfterLast(s, c);
      && c !in r
      && |r| <= |s| && r == s[|s| - |r|..]
      && (|r| < |s| ==> s[|s| - |r| - 1] == c)
    decreases |s|
  {
    if c in s && c in s[1..] {
      AfterLastShape(s[1..], c);
      var r := AfterLast(s, c);
      assert s[1..][|s| - 1 - |r|..] == s[|s| - |r|..];
    }
  }

  /** A character occurs in a non-empty string at its head or in its tail. */
  lemma InHeadOrTail(s: string, c: char)
    requires |s| > 0
    ensures c in s <==> s[0] == c || c in s[1..]
  {
    assert s == [s[0]] + s[1..];
  }

  /** The first piece of a split is the text before the first separator. */
  lemma {:induction false} SplitFirst(s: string, sep: char)
    ensures Split(s, sep)[0] == BeforeFirst(s, sep)
    decreases |s|
  {
    if |s| > 0 && s[0] != sep {
      SplitFirst(s[1..], sep);
    }
  }

  /** The last piece of a split is the text after the last separator. */
  lemma {:induction false} SplitLast(s: string, sep: char)
    ensures var parts := Split(s, sep); parts[|parts| - 1] == AfterLast(s, sep)
    decreases |s|
  {
    if |s| > 0 {
      SplitLast(s[1..], sep);
      if sep in s[1..] {
        LastPieceInTail(s, sep);
      } else if s[0] == sep {
        LastPieceAfterHead(s, sep);
      } else {
        LastPieceWhole(s, sep);
      }
    }
  }

  // The three steps of `SplitLast`, each from the tail's last piece.

  /** The last separator lies in the tail: both strings end in the same piece. */
  lemma LastPieceInTail(s: string, sep: char)
    requires |s| > 0 && sep in s[1..]
    requires var rest := Split(s[1..], sep); rest[|rest| - 1] == AfterLast(s[1..], sep)
    ensures var parts := Split(s, sep); parts[|parts| - 1] == AfterLast(s, sep)
  {
    SplitKeepsLastPiece(s, sep);
    AfterLastInTail(s, sep);
  }

  /** Once the tail has a separator, the head does not change the last piece. */
  lemma SplitKeepsLastPiece(s: string, sep: char)
    requires |s| > 0 && |Split(s[1..], sep)| >= 2
    ensures var rest := Split(s[1..], sep); var parts := Split(s, sep); parts[|parts| - 1] == rest[|rest| - 1]
  {
    var rest := Split(s[1..], sep);
    if s[0] == sep {
      assert Split(s, sep) == [""] + rest;
    } else {
      assert Split(s, sep) == [[s[0]] + rest[0]] + rest[1..];
    }
  }

  /** A separator in the tail means the text after the last one is the tail's. */
  lemma AfterLastInTail(s: string, sep: char)
    requires |s| > 0 && sep in s[1..]
    ensures AfterLast(s, sep) == AfterLast(s[1..], sep)
  {
    InHeadOrTail(s, sep);
  }

  /** The only separator is the head: the last piece is the whole tail. */
  lemma LastPieceAfterHead(s: string, sep: char)
    requires |s| > 0 && sep !in s[1..] && s[0] == sep
    ensures var parts := Split(s, sep); parts[|parts| - 1] == AfterLast(s, sep)
  {
    SplitNoSep(s[1..], sep);
    assert AfterLast(s, sep) == s[1..];
  }

  /** No separator at all: the only piece is the whole string. */
  lemma LastPieceWhole(s: string, sep: char)
    requires |s| > 0 && sep !in s[1..] && s[0] != sep
    ensures var parts := Split(s, sep); parts[|parts| - 1] == AfterLast(s, sep)
  {
    InHeadOrTail(s, sep);
    SplitNoSep(s, sep);
  }

  /** A string without the separator splits into itself alone. */
  lemma {:induction false} SplitNoSep(s: string, sep: char)
    requires sep !in s
    ensures Split(s, sep) == [s]
    decreases |s|
  {
    if |s| > 0 {
      InHeadOrTail(s, sep);
      SplitNoSep(s[1..], sep);
      assert [s[0]] + s[1..] == s;
    }
  }

  /** `strings.Split(s, sep)[0]`: the text before the first separator. */
  function FirstPiece(s: string, sep: char): (r: string)
    ensures r == BeforeFirst(s, sep)
  {
    SplitFirst(s, sep);
    Split(s, sep)[0]
  }

  /** `parts[len(parts)-1]` of `parts := strings.Split(s, sep)`: the text after the last separator. */
  function LastPiece(s: string, sep: char): (r: string)
    ensures r == AfterLast(s, sep)
  {
    SplitLast(s, sep);
    var parts := Split(s, sep);
    parts[|parts| - 1]
  }

  function WordLength(s: string): (n: nat)
    ensures n <= |s|
    ensures forall i :: 0 <= i < n ==> !IsSpace(s[i])
    ensures n < |s| ==> IsSpace(s[n])
  {
    if |s| == 0 || IsSpace(s[0]) then 0 else 1 + WordLength(s[1..])
  }

  /** `strings.Fields`: the maximal runs of non-space characters, in order. */
  function Fields(s: string): (fs: seq<string>)
    ensures forall i :: 0 <= i < |fs| ==> |fs[i]| > 0
    ensures forall i, j :: 0 <= i < |fs| && 0 <= j < |fs[i]| ==> !IsSpace(fs[i][j])
    decreases |s|
  {
    if |s| == 0 then []
    else if IsSpace(s[0]) then Fields(s[1..])
    else
      var n := WordLength(s);
      [s[..n]] + Fields(s[n..])
  }

  /** `strings.Join`. */
  function Join(parts: seq<string>, sep: string): string {
    if |parts| == 0 then ""
    else if |parts| == 1 then parts[0]
    else parts[0] + sep + Join(parts[1..], sep)
  }

  // ---------------------------------------------------------------------------
  // Trimming

  function TrimLeftSpace(s: string): (r: string)
    decreases |s|
  {
    if |s| > 0 && IsSpace(s[0]) then TrimLeftSpace(s[1..]) else s
  }

  function TrimRightSpace(s: string): (r: string)
    decreases |s|
  {
    if |s| > 0 && IsSpace(s[|s| - 1]) then TrimRightSpace(s[..|s| - 1]) else s
  }

  /** `strings.TrimSpace`. */
  function TrimSpace(s: string): string {
    TrimRightSpace(TrimLeftSpace(s))
  }

  /** `strings.Trim(s, cutset)` for a one-character cutset. */
  function TrimChar(s: string, c: char): string
    decreases |s|
  {
    if |s| > 0 && s[0] == c then TrimChar(s[1..], c)
    else if |s| > 0 && s[|s| - 1] == c then TrimChar(s[..|s| - 1], c)
    else s
  }

  /** `strings.TrimPrefix(s, prefix)` for a one-character prefix. */
  function TrimPrefixChar(s: string, c: char): (r: string)
    ensures |s| > 0 && s[0] == c ==> r == s[1..]
    ensures (|s| == 0 || s[0] != c) ==> r == s
  {
    if |s| > 0 && s[0] == c then s[1..] else s
  }

  // ---------------------------------------------------------------------------
  // Decimal numbers

  function DigitChar(d: int): (c: char)
    requires 0 <= d < 10
    ensures IsDigit(c) && c as int - '0' as int == d
  {
    ('0' as int + d) as char
  }

  /** The decimal digits of `n`, without leading zeros. */
  function Digits(n: nat): (s: string)
    ensures |s| > 0 && AllDigits(s)
  {
    if n < 10 then [DigitChar(n)] else Digits(n / 10) + [DigitChar(n % 10)]
  }

  /** `fmt.Sprintf("%d", n)` and `strconv.Itoa(n)`. */
  function Itoa(n: int): string {
    if n < 0 then "-" + Digits(-n) else Digits(n)
  }

  /** What `Itoa` prints: an optional minus sign, then digits, so never empty and ending in a digit. */
  lemma ItoaShape(n: int)
    ensures |Itoa(n)| > 0 && IsDigit(Itoa(n)[|Itoa(n)| - 1])
    ensures n >= 0 ==> Itoa(n) == Digits(n)
    ensures n < 0 ==> Itoa(n) == "-" + Digits(-n)
  {
    if n < 0 {
      var d := Digits(-n);
      assert ("-" + d)[|"-" + d| - 1] == d[|d| - 1];
    }
  }

  function DigitsValue(s: string): nat
    requires AllDigits(s)
  {
    if s == [] then 0 else DigitsValue(s[..|s| - 1]) * 10 + (s[|s| - 1] as int - '0' as int)
  }

  lemma {:induction false} DigitsRoundTrip(n: nat)
    ensures DigitsValue(Digits(n)) == n
  {
    if n >= 10 {
      DigitsRoundTrip(n / 10);
      var s := Digits(n);
      assert s[..|s| - 1] == Digits(n / 10);
    }
  }

  /** Different numbers print differently. */
  lemma DigitsInjective(m: nat, n: nat)
    requires Digits(m) == Digits(n)
    ensures m == n
  {
    DigitsRoundTrip(m);
    DigitsRoundTrip(n);
  }

  /**
   * `strconv.Atoi`: an optional sign and at least one decimal digit, nothing
   * else, and a value that fits in 64 bits; None stands for the error.
   */
  function Atoi(s: string): (r: Option<int>)
    ensures r.Some? ==> MinInt64 <= r.value <= MaxInt64
    ensures r.Some? ==> |s| > 0
  {
    if |s| > 0 && (s[0] == '+' || s[0] == '-') then
      var body := s[1..];
      if |body| == 0 || !AllDigits(body) then None
      else
        var v: int := if s[0] == '-' then -(DigitsValue(body) as int) else DigitsValue(body);
        if MinInt64 <= v <= MaxInt64 then Some(v) else None
    else if |s| == 0 || !AllDigits(s) then None
    else
      var v := DigitsValue(s);
      if v <= MaxInt64 then Some(v) else None
  }

  /** Parsing what `Itoa` printed gives the number back. */
  lemma AtoiItoa(n: int)
    requires MinInt64 <= n <= MaxInt64
    ensures Atoi(Itoa(n)) == Some(n)
  {
    if n < 0 {
      DigitsRoundTrip(-n);
      AtoiNegative(Digits(-n));
    } else {
      DigitsRoundTrip(n);
      AtoiUnsigned(Digits(n));
    }
  }

  /** `Atoi` of bare digits is their value, when it fits. */
  lemma AtoiUnsigned(d: string)
    requires |d| > 0 && AllDigits(d)
    ensures Atoi(d) == if DigitsValue(d) <= MaxInt64 then Some(DigitsValue(d) as int) else None
  {
  }

  /** `Atoi` of a minus sign and digits is their negated value, when it fits. */
  lemma AtoiNegative(d: string)
    requires |d| > 0 && AllDigits(d)
    ensures Atoi("-" + d) == if -(DigitsValue(d) as int) >= MinInt64 then Some(-(DigitsValue(d) as int)) else None
  {
    assert ("-" + d)[1..] == d;
  }

  function DigitPrefix(s: string): (r: string)
    ensures AllDigits(r) && |r| <= |s| && r == s[..|r|]
  {
    if |s| > 0 && IsDigit(s[0]) then [s[0]] + DigitPrefix(s[1..]) else ""
  }

  /**
   * The value `fmt.Sscanf(s, "%d", &n)` leaves in `n` when `n` starts at 0:
   * an optional sign followed by the longest run of digits; 0 when no digit
   * follows or the value does not fit in 64 bits (Sscanf then fails).
   */
  function ScanInt(s: string): (n: int)
    ensures MinInt64 <= n <= MaxInt64
  {
    var negative := |s| > 0 && s[0] == '-';
    var body := if |s| > 0 && (s[0] == '+' || s[0] == '-') then s[1..] else s;
    var digits := DigitPrefix(body);
    var v: int := if negative then -(DigitsValue(digits) as int) else DigitsValue(digits);
    if |digits| == 0 || v < MinInt64 || v > MaxInt64 then 0 else v
  }

  /** The digit run at the front of `d + t` is `d` when `t` does not go on with a digit. */
  lemma {:induction false} DigitPrefixOf(d: string, t: string)
    requires AllDigits(d)
    requires |t| == 0 || !IsDigit(t[0])
    ensures DigitPrefix(d + t) == d
    decreases |d|
  {
    if |d| > 0 {
      assert (d + t)[1..] == d[1..] + t;
      DigitPrefixOf(d[1..], t);
      assert [d[0]] + d[1..] == d;
    } else {
      assert d + t == t;
    }
  }

  /**
   * `%d` reads a run of digits, after an optional sign, up to the first
   * character that is not a digit. A value outside 64 bits leaves 0.
   */
  lemma ScanIntDigits(d: string, t: string)
    requires |d| > 0 && AllDigits(d)
    requires |t| == 0 || !IsDigit(t[0])
    ensures ScanInt(d + t) == if DigitsValue(d) <= MaxInt64 then DigitsValue(d) as int else 0
    ensures ScanInt("+" + d + t) == if DigitsValue(d) <= MaxInt64 then DigitsValue(d) as int else 0
    ensures ScanInt("-" + d + t) == if -(DigitsValue(d) as int) >= MinInt64 then -(DigitsValue(d) as int) else 0
  {
    DigitPrefixOf(d, t);
    ScanIntUnsigned(d + t, d);
    ScanIntSignedDigits('+', d, t);
    ScanIntSignedDigits('-', d, t);
  }

  /** A sign in front of the digits of `d + t` reads as `ScanIntSign` states. */
  lemma ScanIntSignedDigits(sign: char, d: string, t: string)
    requires sign == '+' || sign == '-'
    requires |d| > 0 && AllDigits(d) && DigitPrefix(d + t) == d
    ensures var v := if sign == '-' then -(DigitsValue(d) as int) else DigitsValue(d) as int;
      ScanInt([sign] + d + t) == if MinInt64 <= v <= MaxInt64 then v else 0
  {
    var s := d + t;
    ScanIntSign(sign, s, d);
    assert [sign] + d + t == [sign] + s;
  }

  lemma ScanIntUnsigned(s: string, d: string)
    requires |d| > 0 && AllDigits(d) && DigitPrefix(s) == d
    ensures ScanInt(s) == if DigitsValue(d) <= MaxInt64 then DigitsValue(d) as int else 0
  {
    assert s[0] == d[0];
  }

  lemma ScanIntSign(sign: char, s: string, d: string)
    requires sign == '+' || sign == '-'
    requires |d| > 0 && AllDigits(d) && DigitPrefix(s) == d
    ensures var v := if sign == '-' then -(DigitsValue(d) as int) else DigitsValue(d) as int;
      ScanInt([sign] + s) == if MinInt64 <= v <= MaxInt64 then v else 0
  {
    assert ([sign] + s)[1..] == s;
  }

  /** Without a digit after the optional sign, `%d` reads nothing and the number stays 0. */
  lemma ScanIntNoDigits(t: string)
    requires |t| == 0 || !IsDigit(t[0])
    ensures ScanInt("+" + t) == 0 && ScanInt("-" + t) == 0
    ensures (|t| == 0 || (t[0] != '+' && t[0] != '-')) ==> ScanInt(t) == 0
  {
    assert ("+" + t)[1..] == t;
    assert ("-" + t)[1..] == t;
  }

  /** `%d` reads back every 64-bit number that `Itoa` prints. */
  lemma ScanIntItoa(n: int)
    requires MinInt64 <= n <= MaxInt64
    ensures ScanInt(Itoa(n)) == n
  {
    var m := if n < 0 then -n else n;
    DigitsRoundTrip(m);
    DigitPrefixOf(Digits(m), "");
    assert Digits(m) + "" == Digits(m);
    if n < 0 {
      ScanIntSign('-', Digits(m), Digits(m));
    } else {
      ScanIntUnsigned(Digits(m), Digits(m));
    }
  }
  /**
   * `%d` scans only ASCII digits; underscores separate digits only under `%v`.
   * An underscore therefore ends the number, and what follows it is ignored.
   */
  lemma UnderscoreEndsNumber(d: string, t: string)
    requires |d| > 0 && AllDigits(d)
    ensures ScanInt(d + "_" + t) == if DigitsValue(d) <= MaxInt64 then DigitsValue(d) as int else 0
  {
    ScanIntDigits(d, "_" + t);
    assert d + "_" + t == d + ("_" + t);
  }

  /** The digit separator of Go literals does not join "3" and "1" under `%d`. */
  lemma UnderscoreExample()
    ensures ScanInt("3_1") == 3
  {
    var d := "3";
    assert DigitsValue(d) == 3 by { assert d[..0] == ""; }
    UnderscoreEndsNumber(d, "1");
    assert d + "_" + "1" == "3_1";
  }
}
