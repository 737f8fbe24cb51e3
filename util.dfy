/**
 * String helpers the decoder relies on: an Option type, prefix tests,
 * decimal formatting of integers (as `fmt::format` prints an `int`) and the
 * engine's `utils::string::split`, with the join that inverts it.
 */
module Util {

  datatype Option<+T> = None | Some(value: T) {
    function GetOr(default: T): T {
      match this
      case Some(v) => v
      case None => default
    }
  }

  predicate StartsWith(s: string, prefix: string) {
    |prefix| <= |s| && s[..|prefix|] == prefix
  }

  /** Index of the first `d` in `s`, or `|s|` when there is none. */
  function Find(s: string, d: char): (k: nat)
    ensures k <= |s|
    ensures k < |s| ==> s[k] == d
    ensures forall j :: 0 <= j < k ==> s[j] != d
  {
    if |s| == 0 || s[0] == d then 0 else 1 + Find(s[1..], d)
  }

  /**
   * `utils::string::split`: cut `s` at every `d`; the piece after the last
   * delimiter is kept only when it is not empty, so "" splits into nothing
   * and "a," into ["a"].
   */
  function Split(s: string, d: char): seq<string>
    decreases |s|
  {
    if |s| == 0 then []
    else
      var k := Find(s, d);
      if k == |s| then [s] else [s[..k]] + Split(s[k + 1..], d)
  }

  /** The pieces separated by `d`: the inverse of `Split`. */
  function Join(parts: seq<string>, d: char): string
  {
    if |parts| == 0 then ""
    else if |parts| == 1 then parts[0]
    else parts[0] + [d] + Join(parts[1..], d)
  }

  /** The text before the first `d` (all of `s` when there is none). */
  function TakeUntil(s: string, d: char): (r: string)
    ensures d !in r
    ensures StartsWith(s, r)
    ensures |r| < |s| ==> s[|r|] == d
  {
    s[..Find(s, d)]
  }

  lemma {:induction false} SplitPiecesHaveNoDelimiter(s: string, d: char)
    ensures forall p :: p in Split(s, d) ==> d !in p
    decreases |s|
  {
    if |s| > 0 {
      var k := Find(s, d);
      if k < |s| {
        SplitPiecesHaveNoDelimiter(s[k + 1..], d);
      }
    }
  }

  lemma {:induction false} SplitNonEmpty(s: string, d: char)
    requires |s| > 0
    ensures |Split(s, d)| > 0
  {
  }

  /** Joining the pieces gives the string back, unless it ended in `d`. */
  lemma {:induction false} JoinSplit(s: string, d: char)
    requires |s| == 0 || s[|s| - 1] != d
    ensures Join(Split(s, d), d) == s
    decreases |s|
  {
    if |s| > 0 {
      var k := Find(s, d);
      if k < |s| {
        var rest := s[k + 1..];
        assert |rest| > 0 && rest[|rest| - 1] == s[|s| - 1];
        JoinSplit(rest, d);
        SplitNonEmpty(rest, d);
        JoinFront(s[..k], Split(rest, d), d);
        CutAt(s, k);
      }
    }
  }

  lemma JoinFront(a: string, tail: seq<string>, d: char)
    requires |tail| > 0
    ensures Join([a] + tail, d) == a + [d] + Join(tail, d)
  {
    assert ([a] + tail)[1..] == tail;
  }

  lemma CutAt(s: string, k: nat)
    requires k < |s|
    ensures s == s[..k] + [s[k]] + s[k + 1..]
  {
  }

  lemma FindAfterPiece(a: string, d: char, b: string)
    requires d !in a
    ensures Find(a + [d] + b, d) == |a|
  {
    var s := a + [d] + b;
    assert s[|a|] == d;
    assert forall j :: 0 <= j < |a| ==> s[j] == a[j];
  }

  /**
   * Splitting joined pieces gives them back when no piece holds `d` and the
   * last one is not empty.
   */
  lemma {:induction false} SplitJoin(parts: seq<string>, d: char)
    requires forall i :: 0 <= i < |parts| ==> d !in parts[i]
    requires |parts| > 0 ==> |parts[|parts| - 1]| > 0
    ensures Split(Join(parts, d), d) == parts
    decreases |parts|
  {
    if |parts| == 1 {
      var s := parts[0];
      assert forall j :: 0 <= j < |s| ==> s[j] in s;
    } else if |parts| > 1 {
      var a, rest := parts[0], parts[1..];
      SplitJoin(rest, d);
      var s := a + [d] + Join(rest, d);
      FindAfterPiece(a, d, Join(rest, d));
      assert s[..|a|] == a;
      assert s[|a| + 1..] == Join(rest, d);
      assert parts == [a] + rest;
    }
  }

  lemma TakeUntilIsFirstPiece(s: string, d: char)
    requires |s| > 0
    ensures Split(s, d)[0] == TakeUntil(s, d)
  {
  }

  /** A decimal number holds no character other than a sign and digits. */
  lemma IntToStringHasNo(i: int, d: char)
    requires d != '-' && !('0' <= d <= '9')
    ensures d !in IntToString(i)
  {
    var r := IntToString(i);
    forall j | 0 <= j < |r| ensures r[j] != d { }
  }

  function DigitChar(n: nat): (c: char)
    requires n < 10
    ensures '0' <= c <= '9'
  {
    "0123456789"[n]
  }

  /** Decimal digits of `n`, most significant first. */
  function NatToString(n: nat): (r: string)
    ensures |r| > 0
    ensures forall i :: 0 <= i < |r| ==> '0' <= r[i] <= '9'
    decreases n
  {
    if n < 10 then [DigitChar(n)] else NatToString(n / 10) + [DigitChar(n % 10)]
  }

  /** How `fmt::format("{}", i)` prints an integer. */
  function IntToString(i: int): (r: string)
    ensures |r| > 0
    ensures forall j :: 0 <= j < |r| ==> r[j] == '-' || '0' <= r[j] <= '9'
  {
    if i < 0 then "-" + NatToString(-i) else NatToString(i)
  }
}
