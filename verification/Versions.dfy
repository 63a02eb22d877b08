/**
 Stable x.y.z versions: compareStableVersions of scripts/engines.ts and advertisedVersion of
 scripts/public-download/evidence.ts, on strings. The order is the precedence of sections 2 and 11 of
 Semantic Versioning 2.0.0; components are canonical decimals of any length (BigInt in the source).
 */
module Versions {
  import opened Options
  import opened Text

  predicate IsDigit(c: char) {
    '0' <= c <= '9'
  }

  predicate Digits(s: string) {
    forall i :: 0 <= i < |s| ==> IsDigit(s[i])
  }

  /** 0|[1-9]\d* */
  predicate Canonical(s: string) {
    s != [] && Digits(s) && (s[0] == '0' ==> |s| == 1)
  }

  function Digit(c: char): nat
    requires IsDigit(c)
  {
    c as int - '0' as int
  }

  function DigitChar(d: nat): (c: char)
    requires d < 10
    ensures IsDigit(c) && Digit(c) == d
  {
    ('0' as int + d) as char
  }

  /** BigInt(s) */
  function Value(s: string): nat
    requires Digits(s)
  {
    if s == [] then 0 else 10 * Value(s[..|s| - 1]) + Digit(s[|s| - 1])
  }

  /** The decimal a BigInt prints. */
  function Show(n: nat): string {
    if n < 10 then [DigitChar(n)] else Show(n / 10) + [DigitChar(n % 10)]
  }

  lemma {:induction false} ShowIsCanonical(n: nat)
    ensures Canonical(Show(n)) && Value(Show(n)) == n
    ensures n > 0 ==> Show(n)[0] != '0'
  {
    if n < 10 {
      assert Show(n)[..0] == [];
    } else {
      ShowIsCanonical(n / 10);
      assert Show(n)[..|Show(n)| - 1] == Show(n / 10);
    }
  }

  lemma {:induction false} CanonicalIsShown(s: string)
    requires Canonical(s)
    ensures Show(Value(s)) == s
    ensures |s| > 1 ==> Value(s) >= 10
  {
    var front := s[..|s| - 1];
    if |s| == 1 {
      assert front == [];
    } else {
      CanonicalIsShown(front);
      if |front| == 1 {
        assert front[..0] == [];
        assert Value(front) == Digit(front[0]);
      }
      assert Value(s) / 10 == Value(front) && Value(s) % 10 == Digit(s[|s| - 1]);
      assert s == front + [s[|s| - 1]];
    }
  }

  /** stableVersionPattern and numericVersion: three canonical decimals. */
  predicate IsVersion(s: string) {
    var parts := Split(s, '.');
    |parts| == 3 && Canonical(parts[0]) && Canonical(parts[1]) && Canonical(parts[2])
  }

  function Components(s: string): (c: seq<nat>)
    requires IsVersion(s)
    ensures |c| == 3
  {
    var parts := Split(s, '.');
    [Value(parts[0]), Value(parts[1]), Value(parts[2])]
  }

  function Print(c: seq<nat>): string
    requires |c| == 3
  {
    Show(c[0]) + "." + (Show(c[1]) + "." + Show(c[2]))
  }

  /** Printing and parsing are inverse on versions, so a version is its three numbers. */
  lemma PrintParse(c: seq<nat>)
    requires |c| == 3
    ensures IsVersion(Print(c)) && Components(Print(c)) == c
  {
    ShowIsCanonical(c[0]);
    ShowIsCanonical(c[1]);
    ShowIsCanonical(c[2]);
    SplitPlain(Show(c[2]), '.');
    SplitAtFirst(Show(c[1]), Show(c[2]), '.');
    SplitAtFirst(Show(c[0]), Show(c[1]) + "." + Show(c[2]), '.');
    assert Print(c) == Show(c[0]) + ['.'] + (Show(c[1]) + ['.'] + Show(c[2]));
  }

  lemma ParsePrint(s: string)
    requires IsVersion(s)
    ensures Print(Components(s)) == s
  {
    var p := Split(s, '.');
    CanonicalIsShown(p[0]);
    CanonicalIsShown(p[1]);
    CanonicalIsShown(p[2]);
    JoinSplit(s, '.');
    assert p == [p[0], p[1], p[2]];
    assert p[1..] == [p[1], p[2]] && p[1..][1..] == [p[2]];
    assert Join(p[1..][1..], '.') == p[2];
    assert Join(p[1..], '.') == p[1] + ['.'] + p[2];
    assert Join(p, '.') == p[0] + ['.'] + (p[1] + ['.'] + p[2]);
  }

  /** -1, 0 or 1 by the first component that differs. */
  function Lexicographic(a: seq<nat>, b: seq<nat>): int
    requires |a| == |b|
  {
    if a == [] then 0
    else if a[0] != b[0] then (if a[0] > b[0] then 1 else -1)
    else Lexicographic(a[1..], b[1..])
  }

  lemma {:induction false} LexicographicAgrees(a: seq<nat>, b: seq<nat>, i: nat)
    requires |a| == |b| && i <= |a| && a[..i] == b[..i]
    ensures Lexicographic(a, b) == Lexicographic(a[i..], b[i..])
  {
    if i > 0 {
      assert a[0] == a[..i][0] == b[0];
      assert a[1..][..i - 1] == a[..i][1..] && b[1..][..i - 1] == b[..i][1..];
      LexicographicAgrees(a[1..], b[1..], i - 1);
      assert a[1..][i - 1..] == a[i..] && b[1..][i - 1..] == b[i..];
    }
  }

  /** Precedence of two versions. */
  function Compare(left: string, right: string): int
    requires IsVersion(left) && IsVersion(right)
  {
    Lexicographic(Components(left), Components(right))
  }

  /** None is the thrown error. */
  method CompareStableVersions(left: string, right: string) returns (r: Option<int>)
    ensures r.Some? <==> IsVersion(left) && IsVersion(right)
    ensures r.Some? ==> r.value == Compare(left, right)
  {
    if !IsVersion(left) || !IsVersion(right) {
      return None;
    }
    var leftParts, rightParts := Components(left), Components(right);
    for index := 0 to 3
      invariant leftParts[..index] == rightParts[..index]
    {
      var difference := leftParts[index] as int - rightParts[index];
      LexicographicAgrees(leftParts, rightParts, index);
      if difference != 0 {
        return Some(if difference > 0 then 1 else -1);
      }
    }
    LexicographicAgrees(leftParts, rightParts, 3);
    return Some(0);
  }

  lemma {:induction false} LexicographicIsAnOrder(a: seq<nat>, b: seq<nat>, c: seq<nat>)
    requires |a| == |b| == |c|
    ensures Lexicographic(a, b) == -Lexicographic(b, a)
    ensures Lexicographic(a, b) == 0 <==> a == b
    ensures Lexicographic(a, b) < 0 && Lexicographic(b, c) < 0 ==> Lexicographic(a, c) < 0
    ensures Lexicographic(a, b) in {-1, 0, 1}
  {
    if a != [] {
      LexicographicIsAnOrder(a[1..], b[1..], c[1..]);
      assert a == [a[0]] + a[1..] && b == [b[0]] + b[1..];
    }
  }

  /** On well-formed versions the comparison is a strict total order that is 0 only for identical strings. */
  lemma CompareIsATotalOrder(a: string, b: string, c: string)
    requires IsVersion(a) && IsVersion(b) && IsVersion(c)
    ensures Compare(a, b) in {-1, 0, 1}
    ensures Compare(a, b) == -Compare(b, a)
    ensures Compare(a, b) == 0 <==> a == b
    ensures Compare(a, b) < 0 && Compare(b, c) < 0 ==> Compare(a, c) < 0
  {
    LexicographicIsAnOrder(Components(a), Components(b), Components(c));
    ParsePrint(a);
    ParsePrint(b);
  }

  /** None is any thrown error: a malformed version, or not N < N+1. */
  function AdvertisedVersion(n: string, next: string): Option<string> {
    if !IsVersion(n) || !IsVersion(next) then None
    else
      var parts := Split(next, '.');
      var advertised := parts[0] + "." + (parts[1] + "." + Show(Value(parts[2]) + 1));
      if !IsVersion(advertised) || Compare(next, n) <= 0 || Compare(advertised, next) <= 0 then None
      else Some(advertised)
  }

  /** The advertised version exists exactly when N < N+1; it is well formed, above N+1, and nothing lies between. */
  lemma AdvertisedIsTheSuccessor(n: string, next: string, other: string)
    ensures AdvertisedVersion(n, next).Some? <==> IsVersion(n) && IsVersion(next) && Compare(n, next) < 0
    ensures AdvertisedVersion(n, next).Some? && IsVersion(other) ==>
              var a := AdvertisedVersion(n, next).value;
              && IsVersion(a) && Compare(next, a) < 0
              && (Compare(next, other) < 0 ==> Compare(other, a) >= 0)
  {
    if IsVersion(n) && IsVersion(next) {
      var c := Components(next);
      var d := c[2 := c[2] + 1];
      CanonicalIsShown(Split(next, '.')[0]);
      CanonicalIsShown(Split(next, '.')[1]);
      PrintParse(d);
      CompareIsATotalOrder(next, n, next);
      NextPatch(c, d);
      if IsVersion(other) {
        BetweenPatches(c, Components(other));
      }
    }
  }

  lemma Unfolded(a: seq<nat>, b: seq<nat>)
    requires |a| == |b| == 3
    ensures Lexicographic(a, b) ==
            if a[0] != b[0] then (if a[0] > b[0] then 1 else -1)
            else if a[1] != b[1] then (if a[1] > b[1] then 1 else -1)
            else if a[2] != b[2] then (if a[2] > b[2] then 1 else -1)
            else 0
  {
    assert Lexicographic(a[1..][1..][1..], b[1..][1..][1..]) == 0;
    assert Lexicographic(a[1..], b[1..])
        == if a[1] != b[1] then (if a[1] > b[1] then 1 else -1) else Lexicographic(a[1..][1..], b[1..][1..]);
  }

  lemma NextPatch(c: seq<nat>, d: seq<nat>)
    requires |c| == 3 && d == c[2 := c[2] + 1]
    ensures Lexicographic(c, d) == -1 && Lexicographic(d, c) == 1
  {
    Unfolded(c, d);
    Unfolded(d, c);
  }

  lemma BetweenPatches(c: seq<nat>, o: seq<nat>)
    requires |c| == |o| == 3
    ensures Lexicographic(c, o) < 0 ==> Lexicographic(o, c[2 := c[2] + 1]) >= 0
  {
    Unfolded(c, o);
    Unfolded(o, c[2 := c[2] + 1]);
  }
}
