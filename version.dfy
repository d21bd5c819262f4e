/**
 * internal/version/check.go: the comparison that decides whether a released
 * version is newer than the running one. Fetching, caching and timing the
 * update check are not modelled.
 */
module Version {
  import opened GoStrings

  /** The dot-separated parts of a version, after one leading 'v' is dropped. */
  function Parts(v: string): (parts: seq<string>)
    ensures |parts| >= 1
    ensures |v| > 0 && v[0] == 'v' ==> parts == Split(v[1..], '.')
    ensures (|v| == 0 || v[0] != 'v') ==> parts == Split(v, '.')
  {
    Split(TrimPrefixChar(v, 'v'), '.')
  }

  /** Each part as `fmt.Sscanf(part, "%d", &n)` reads it into a zeroed `n`. */
  function Numbers(v: string): (ns: seq<int>)
    ensures |ns| == |Parts(v)|
    ensures forall i :: 0 <= i < |ns| ==> ns[i] == ScanInt(Parts(v)[i])
  {
    var parts := Parts(v);
    seq(|parts|, i requires 0 <= i < |parts| => ScanInt(parts[i]))
  }

  /**
   * `a` is newer than `b`: at the first position both have where they
   * differ, `a` is larger. Positions beyond the shorter list do not count.
   */
  ghost predicate Newer(a: seq<int>, b: seq<int>) {
    exists i :: 0 <= i < |a| && i < |b| && a[i] > b[i] && AgreeBelow(a, b, i)
  }

  /** `a` and `b` agree at every position below `i`. */
  ghost predicate AgreeBelow(a: seq<int>, b: seq<int>, i: int) {
    forall j :: 0 <= j < i && j < |a| && j < |b| ==> a[j] == b[j]
  }

  /**
   * `isNewer`: walk the common positions and return at the first number
   * that differs.
   */
  method IsNewer(latest: string, current: string) returns (newer: bool)
    ensures newer <==> Newer(Numbers(latest), Numbers(current))
  {
    var latestParts := Split(TrimPrefixChar(latest, 'v'), '.');
    var currentParts := Split(TrimPrefixChar(current, 'v'), '.');
    ghost var a, b := Numbers(latest), Numbers(current);
    var i := 0;
    while i < |latestParts| && i < |currentParts|
      invariant 0 <= i <= |latestParts| && i <= |currentParts|
      invariant AgreeBelow(a, b, i)
    {
      var latestNum := ScanInt(latestParts[i]);
      var currentNum := ScanInt(currentParts[i]);
      if latestNum > currentNum {
        return true;
      } else if latestNum < currentNum {
        FirstDifferenceDecides(a, b, i);
        return false;
      }
      i := i + 1;
    }
    NoDifferenceNotNewer(a, b);
    return false;
  }

  /** A position where `b` is larger and below which both agree rules out `a` being newer. */
  lemma FirstDifferenceDecides(a: seq<int>, b: seq<int>, i: int)
    requires 0 <= i < |a| && i < |b| && a[i] < b[i] && AgreeBelow(a, b, i)
    ensures !Newer(a, b)
  {
  }

  /** Lists that agree on every common position are not newer than each other. */
  lemma NoDifferenceNotNewer(a: seq<int>, b: seq<int>)
    requires AgreeBelow(a, b, if |a| < |b| then |a| else |b|)
    ensures !Newer(a, b)
  {
  }

  /** No version is newer than itself. */
  lemma Irreflexive(v: string)
    ensures !Newer(Numbers(v), Numbers(v))
  {
  }

  /** Two versions are never each newer than the other. */
  lemma Asymmetric(a: seq<int>, b: seq<int>)
    ensures !(Newer(a, b) && Newer(b, a))
  {
    if Newer(a, b) {
      var i :| 0 <= i < |a| && i < |b| && a[i] > b[i] && AgreeBelow(a, b, i);
      FirstDifferenceDecides(b, a, i);
    }
  }

  /** Parts past the end of the shorter version are ignored. */
  lemma ExtraPartsIgnored(a: seq<int>, b: seq<int>, extra: seq<int>)
    requires |a| <= |b|
    ensures Newer(b + extra, a) <==> Newer(b, a)
    ensures Newer(a, b + extra) <==> Newer(a, b)
  {
    if Newer(b + extra, a) {
      var i :| 0 <= i < |b + extra| && i < |a| && (b + extra)[i] > a[i] && AgreeBelow(b + extra, a, i);
      assert AgreeBelow(b, a, i);
    }
    if Newer(b, a) {
      var i :| 0 <= i < |b| && i < |a| && b[i] > a[i] && AgreeBelow(b, a, i);
      assert AgreeBelow(b + extra, a, i);
    }
    if Newer(a, b + extra) {
      var i :| 0 <= i < |a| && i < |b + extra| && a[i] > (b + extra)[i] && AgreeBelow(a, b + extra, i);
      assert AgreeBelow(a, b, i);
    }
    if Newer(a, b) {
      var i :| 0 <= i < |a| && i < |b| && a[i] > b[i] && AgreeBelow(a, b, i);
      assert AgreeBelow(a, b + extra, i);
    }
  }

  /** "1.2.1" is not newer than "1.2": the third part is never looked at. */
  lemma PatchAgainstShorter()
    ensures Numbers("1.2.1") == [1, 2, 1] && Numbers("v1.2") == [1, 2]
    ensures !Newer(Numbers("1.2.1"), Numbers("v1.2"))
  {
    SplitLiteral("1", ["1"]);
    SplitLiteral(".1", ["", "1"]);
    SplitLiteral("2.1", ["2", "1"]);
    SplitLiteral(".2.1", ["", "2", "1"]);
    SplitLiteral("1.2.1", ["1", "2", "1"]);
    SplitLiteral("2", ["2"]);
    SplitLiteral(".2", ["", "2"]);
    SplitLiteral("1.2", ["1", "2"]);
    assert "v1.2"[1..] == "1.2";
    OneDigit("1");
    OneDigit("2");
    NoDifferenceNotNewer([1, 2, 1], [1, 2]);
  }

  /** A part Sscanf cannot read counts as 0, so "1.x" and "1.0" are equal and "1.1" is newer. */
  lemma UnreadablePartIsZero()
    ensures Numbers("1.x") == [1, 0]
    ensures Newer(Numbers("1.1"), Numbers("1.x"))
  {
    SplitLiteral("x", ["x"]);
    SplitLiteral(".x", ["", "x"]);
    SplitLiteral("1.x", ["1", "x"]);
    SplitLiteral("1", ["1"]);
    SplitLiteral(".1", ["", "1"]);
    SplitLiteral("1.1", ["1", "1"]);
    OneDigit("1");
    assert DigitPrefix("x") == "";
    assert AgreeBelow([1, 1], [1, 0], 1);
  }

  /**
   * One step of `Split` on a literal: `parts` is what splitting the string
   * after its first character gives, extended by that character.
   */
  lemma SplitLiteral(s: string, parts: seq<string>)
    requires |parts| >= 1
    requires |s| == 0 ==> parts == [""]
    requires |s| > 0 && s[0] == '.' ==> parts[0] == "" && Split(s[1..], '.') == parts[1..]
    requires |s| > 0 && s[0] != '.' ==>
      |parts[0]| > 0 && parts[0][0] == s[0] && Split(s[1..], '.') == [parts[0][1..]] + parts[1..]
    ensures Split(s, '.') == parts
  {
    if |s| > 0 && s[0] != '.' {
      assert [s[0]] + parts[0][1..] == parts[0];
    }
  }

  /** A one-digit part reads as that digit. */
  lemma OneDigit(s: string)
    requires |s| == 1 && IsDigit(s[0])
    ensures ScanInt(s) == s[0] as int - '0' as int
  {
    assert DigitPrefix(s[1..]) == "";
    assert DigitPrefix(s) == s;
    assert s[..|s| - 1] == "";
    assert DigitsValue(s) == s[0] as int - '0' as int;
    assert s[0] != '+' && s[0] != '-';
  }
}
