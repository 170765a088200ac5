/** Byte strings as the C++ library sees them. A byte is a char. */
module Bytes {

  import opened Wrappers

  const CRLF := "\r\n"

  predicate CrlfAt(s: string, i: int) {
    0 <= i && i + 1 < |s| && s[i] == '\r' && s[i + 1] == '\n'
  }

  predicate HasCrlf(s: string) {
    exists i :: 0 <= i < |s| && CrlfAt(s, i)
  }

  /** std::search for CR LF. */
  function FindCrlf(s: string): (r: Option<nat>)
    ensures r.Some? ==> CrlfAt(s, r.value) && forall k :: 0 <= k < r.value ==> !CrlfAt(s, k)
    ensures r.None? ==> !HasCrlf(s)
  {
    if |s| < 2 then None
    else if CrlfAt(s, 0) then Some(0)
    else
      assert forall k :: 0 < k ==> (CrlfAt(s, k) <==> CrlfAt(s[1..], k - 1));
      match FindCrlf(s[1..])
      case None => None
      case Some(i) => Some(i + 1)
  }

  lemma FindCrlfIs(s: string, i: nat)
    requires CrlfAt(s, i) && forall k :: 0 <= k < i ==> !CrlfAt(s, k)
    ensures FindCrlf(s) == Some(i)
  {
  }

  /** std::find: the first position of c, or the end. */
  function Find(s: string, c: char): (n: nat)
    ensures n <= |s| && c !in s[..n] && (n < |s| ==> s[n] == c)
  {
    if s == [] || s[0] == c then 0 else
      assert s[1..][..Find(s[1..], c)] == s[1..Find(s[1..], c) + 1];
      Find(s[1..], c) + 1
  }

  lemma FindIs(s: string, c: char, n: nat)
    requires n <= |s| && c !in s[..n] && (n < |s| ==> s[n] == c)
    ensures Find(s, c) == n
  {
  }

  function Concat(ss: seq<string>): string {
    if ss == [] then "" else ss[0] + Concat(ss[1..])
  }

  lemma {:induction false} ConcatAppend(a: seq<string>, b: seq<string>)
    ensures Concat(a + b) == Concat(a) + Concat(b)
  {
    if a == [] {
      assert a + b == b;
    } else {
      assert (a + b)[1..] == a[1..] + b;
      ConcatAppend(a[1..], b);
    }
  }

  lemma ConcatOne(s: string)
    ensures Concat([s]) == s
  {
    assert [s][1..] == [];
  }

  // ---- decimal numerals, as %d and %zd print a non-negative number

  function Digit(n: nat): char
    requires n < 10
  {
    '0' + n as char
  }

  function Decimal(n: nat): (s: string)
    ensures s != "" && forall i :: 0 <= i < |s| ==> '0' <= s[i] <= '9'
  {
    if n < 10 then [Digit(n)] else Decimal(n / 10) + [Digit(n % 10)]
  }

  /** What a reader takes a string of digits for. */
  function NumberOf(s: string): int {
    if s == "" then 0 else 10 * NumberOf(s[..|s| - 1]) + (s[|s| - 1] as int - '0' as int)
  }

  lemma {:induction false} DecimalReadsBack(n: nat)
    ensures NumberOf(Decimal(n)) == n
  {
    var s := Decimal(n);
    if n < 10 {
      assert s[..0] == "" && NumberOf("") == 0;
    } else {
      assert s[..|s| - 1] == Decimal(n / 10);
      DecimalReadsBack(n / 10);
    }
  }

  lemma DecimalIsInjective(m: nat, n: nat)
    requires Decimal(m) == Decimal(n)
    ensures m == n
  {
    DecimalReadsBack(m);
    DecimalReadsBack(n);
  }

  function Power10(k: nat): nat { if k == 0 then 1 else 10 * Power10(k - 1) }

  lemma {:induction false} PowerAtLeast10(k: nat)
    requires 0 < k
    ensures 10 <= Power10(k)
  {
    if k == 1 {
      assert Power10(1) == 10 * Power10(0);
    } else {
      PowerAtLeast10(k - 1);
    }
  }

  lemma {:induction false} DecimalLength(n: nat, k: nat, bound: nat)
    requires 0 < k && bound == Power10(k)
    ensures n < bound <==> |Decimal(n)| <= k
  {
    if k > 1 && n >= 10 {
      DecimalLength(n / 10, k - 1, Power10(k - 1));
      assert Power10(k) == 10 * Power10(k - 1);
      assert |Decimal(n)| == |Decimal(n / 10)| + 1;
    } else if k == 1 {
      assert Power10(1) == 10 * Power10(0) == 10;
    } else {
      PowerAtLeast10(k);
    }
  }
}
