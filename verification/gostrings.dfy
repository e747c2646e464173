/** The few pieces of Go's `strings` and `strconv` packages that the rewriter uses,
    over byte strings modelled as `seq<char>`. */
module GoStrings {

  predicate IsDigit(c: char) { '0' <= c <= '9' }

  function DigitChar(d: nat): (c: char)
    requires d < 10
    ensures IsDigit(c)
  {
    ['0', '1', '2', '3', '4', '5', '6', '7', '8', '9'][d]
  }

  function DigitValue(c: char): nat
    requires IsDigit(c)
  {
    (c as int) - ('0' as int)
  }

  /** strconv.Itoa restricted to the non-negative counters the rewriter formats. */
  function Itoa(n: nat): (s: string)
    ensures |s| > 0
    ensures forall k :: 0 <= k < |s| ==> IsDigit(s[k])
    decreases n
  {
    if n < 10 then [DigitChar(n)] else Itoa(n / 10) + [DigitChar(n % 10)]
  }

  lemma DigitCharValue(d: nat)
    requires d < 10
    ensures DigitValue(DigitChar(d)) == d
  {
  }

  /** Decimal spelling is injective: different counters never print the same. */
  lemma {:induction false} ItoaInjective(a: nat, b: nat)
    requires Itoa(a) == Itoa(b)
    ensures a == b
    decreases a
  {
    var sa, sb := Itoa(a), Itoa(b);
    if a < 10 && b < 10 {
      DigitCharValue(a);
      DigitCharValue(b);
    } else if a >= 10 && b >= 10 {
      var ha, hb := Itoa(a / 10), Itoa(b / 10);
      assert sa == ha + [DigitChar(a % 10)];
      assert sb == hb + [DigitChar(b % 10)];
      assert sa[..|sa| - 1] == ha;
      assert sb[..|sb| - 1] == hb;
      assert ha == hb;
      ItoaInjective(a / 10, b / 10);
      DigitCharValue(a % 10);
      DigitCharValue(b % 10);
      assert DigitChar(a % 10) == sa[|sa| - 1] == DigitChar(b % 10);
    }
  }

  /** Index of the first occurrence of `c` in `s`, or -1 (strings.Index with a
      one-byte pattern). */
  function IndexOf(s: string, c: char): (i: int)
    ensures -1 <= i < |s|
  {
    if |s| == 0 then -1
    else if s[0] == c then 0
    else
      var j := IndexOf(s[1..], c);
      if j < 0 then -1 else j + 1
  }

  /** The index found holds `c` and no earlier one does; -1 means `c` does not occur. */
  lemma {:induction false} IndexOfFirst(s: string, c: char)
    ensures var i := IndexOf(s, c);
            (i >= 0 ==> s[i] == c && forall k :: 0 <= k < i ==> s[k] != c) && (i == -1 <==> c !in s)
    decreases |s|
  {
    if |s| > 0 && s[0] != c {
      IndexOfFirst(s[1..], c);
      var j := IndexOf(s[1..], c);
      if j >= 0 {
        forall k | 0 <= k < j + 1
          ensures s[k] != c
        {
          if k > 0 { assert s[k] == s[1..][k - 1]; }
        }
      } else {
        assert s == [s[0]] + s[1..];
      }
    }
  }

  /** strings.Replace(s, [c], repl, -1). */
  function ReplaceAll(s: string, c: char, repl: string): string
  {
    if |s| == 0 then ""
    else (if s[0] == c then repl else [s[0]]) + ReplaceAll(s[1..], c, repl)
  }

  lemma {:induction false} ReplaceAllConcat(a: string, b: string, c: char, repl: string)
    ensures ReplaceAll(a + b, c, repl) == ReplaceAll(a, c, repl) + ReplaceAll(b, c, repl)
    decreases |a|
  {
    if |a| == 0 {
      assert a + b == b;
    } else {
      assert (a + b)[1..] == a[1..] + b;
      ReplaceAllConcat(a[1..], b, c, repl);
    }
  }

  lemma {:induction false} ReplaceAllAbsent(s: string, c: char, repl: string)
    requires c !in s
    ensures ReplaceAll(s, c, repl) == s
    decreases |s|
  {
    if |s| > 0 {
      ReplaceAllAbsent(s[1..], c, repl);
    }
  }

  predicate IsLowerAscii(c: char) { 'a' <= c <= 'z' }

  /** strings.ToUpper on a one-byte ASCII string. */
  function ToUpperAscii(c: char): char
  {
    if IsLowerAscii(c) then (c as int - 32) as char else c
  }

  lemma {:induction false} ReplaceAllKeeps(s: string, c: char, repl: string, x: char)
    requires x != c && x in s
    ensures x in ReplaceAll(s, c, repl)
    decreases |s|
  {
    if s[0] != x {
      ReplaceAllKeeps(s[1..], c, repl, x);
    }
  }

  /** A character that is not in the source (or is the one replaced) and not in
      the replacement is not in the result. */
  lemma {:induction false} ReplaceAllAvoids(s: string, c: char, repl: string, x: char)
    requires x !in s || x == c
    requires x !in repl
    ensures x !in ReplaceAll(s, c, repl)
    decreases |s|
  {
    if |s| > 0 {
      ReplaceAllAvoids(s[1..], c, repl, x);
    }
  }

  lemma {:induction false} IndexOfConcat(a: string, b: string, c: char)
    requires c !in a
    ensures IndexOf(a + b, c) == (if c in b then |a| + IndexOf(b, c) else -1)
    decreases |a|
  {
    IndexOfFirst(b, c);
    if |a| > 0 {
      assert (a + b)[1..] == a[1..] + b;
      IndexOfConcat(a[1..], b, c);
    } else {
      assert a + b == b;
    }
  }

  lemma ReplaceAllOne(x: char, c: char, repl: string)
    ensures ReplaceAll([x], c, repl) == if x == c then repl else [x]
  {
    assert [x][1..] == [];
  }
}
