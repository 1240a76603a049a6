/**
  The keys of a persisted node's `options` column: Python's `str(idx)` for a
  zero-based option index, i.e. the decimal numeral of a natural number.
 */
module OptionKeys {

  /** The numeral of one decimal digit. */
  function DigitChar(d: nat): (c: char)
    requires d < 10
    ensures '0' <= c <= '9' && c as int - '0' as int == d
  {
    (d + '0' as int) as char
  }

  /** `str(i)` for a non-negative integer `i`: its decimal numeral, without leading zeros. */
  function IndexKey(i: nat): (s: string)
    ensures |s| >= 1
    ensures forall j :: 0 <= j < |s| ==> '0' <= s[j] <= '9'
    ensures |s| > 1 <==> i >= 10
    decreases i
  {
    if i < 10 then [DigitChar(i)] else IndexKey(i / 10) + [DigitChar(i % 10)]
  }

  /** The keys "0", "1", ..., str(n - 1). */
  function IndexKeys(n: nat): set<string>
  {
    set i | 0 <= i < n :: IndexKey(i)
  }

  /** Distinct option indices get distinct keys, so no option entry overwrites another. */
  lemma {:induction false} IndexKeyInjective(i: nat, j: nat)
    requires IndexKey(i) == IndexKey(j)
    ensures i == j
  {
    if i >= 10 && j >= 10 {
      var a, b := IndexKey(i / 10), IndexKey(j / 10);
      assert a + [DigitChar(i % 10)] == b + [DigitChar(j % 10)];
      assert |a| == |b|;
      assert a == (a + [DigitChar(i % 10)])[..|a|];
      assert b == (b + [DigitChar(j % 10)])[..|b|];
      IndexKeyInjective(i / 10, j / 10);
      assert DigitChar(i % 10) == IndexKey(i)[|a|] == IndexKey(j)[|b|] == DigitChar(j % 10);
    } else if i < 10 && j < 10 {
      assert DigitChar(i) == IndexKey(i)[0];
    }
  }

  /** `str(i)` is among the first `n` keys exactly when `i < n`. */
  lemma IndexKeyIn(n: nat, i: nat)
    ensures IndexKey(i) in IndexKeys(n) <==> i < n
  {
    if IndexKey(i) in IndexKeys(n) {
      var j :| 0 <= j < n && IndexKey(j) == IndexKey(i);
      IndexKeyInjective(i, j);
    }
  }

  /** The index a key among the first `n` keys stands for. */
  lemma IndexKeyOf(n: nat, key: string) returns (i: nat)
    requires key in IndexKeys(n)
    ensures i < n && key == IndexKey(i)
  {
    i :| 0 <= i < n && key == IndexKey(i);
  }

  /** There are exactly `n` keys "0" .. str(n - 1). */
  lemma {:induction false} IndexKeysCount(n: nat)
    ensures |IndexKeys(n)| == n
  {
    if n > 0 {
      IndexKeysCount(n - 1);
      assert IndexKeys(n) == IndexKeys(n - 1) + {IndexKey(n - 1)};
      IndexKeyIn(n - 1, n - 1);
    }
  }
}
