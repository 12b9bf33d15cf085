/** String helpers shared by the model: the JavaScript `split` on a one-character
    separator, `replace(/c/g, r)` on one character, and decimal digit strings. */
module Text {

  /** Index of the first occurrence of `c` in `s`, or |s| when there is none. */
  function IndexOf(s: string, c: char): (i: nat)
    ensures i <= |s|
    ensures i < |s| ==> s[i] == c
    ensures c !in s[..i]
    ensures i == |s| <==> c !in s
  {
    if |s| == 0 then 0
    else if s[0] == c then 0
    else
      var j := IndexOf(s[1..], c);
      assert s[..j + 1] == [s[0]] + s[1..][..j];
      j + 1
  }

  /** `s.split(c)` for a one-character separator `c`: the pieces between the separators,
      empty pieces included, so that there is always at least one piece. */
  function Split(s: string, c: char): (parts: seq<string>)
    ensures |parts| >= 1
    decreases |s|
  {
    var i := IndexOf(s, c);
    if i == |s| then [s] else [s[..i]] + Split(s[i + 1..], c)
  }

  /** `parts.join(c)`. */
  function Join(parts: seq<string>, c: char): string
    requires |parts| >= 1
  {
    if |parts| == 1 then parts[0] else parts[0] + [c] + Join(parts[1..], c)
  }

  /** Number of occurrences of `c` in `s`. */
  function Count(s: string, c: char): nat
  {
    if |s| == 0 then 0 else (if s[0] == c then 1 else 0) + Count(s[1..], c)
  }

  lemma {:induction false} CountAppend(a: string, b: string, c: char)
    ensures Count(a + b, c) == Count(a, c) + Count(b, c)
  {
    if |a| == 0 {
      assert a + b == b;
    } else {
      assert (a + b)[1..] == a[1..] + b;
      CountAppend(a[1..], b, c);
    }
  }

  lemma {:induction false} CountAbsent(s: string, c: char)
    requires c !in s
    ensures Count(s, c) == 0
  {
    if |s| > 0 {
      assert c !in s[1..] by { assert forall k | 0 <= k < |s[1..]| :: s[1..][k] == s[k + 1]; }
      CountAbsent(s[1..], c);
    }
  }

  /** Joining the pieces of a split gives back the original string. */
  lemma {:induction false} JoinSplit(s: string, c: char)
    ensures Join(Split(s, c), c) == s
    decreases |s|
  {
    var i := IndexOf(s, c);
    if i < |s| {
      var rest := s[i + 1..];
      JoinSplit(rest, c);
      assert Split(s, c) == [s[..i]] + Split(rest, c);
      JoinCons(s[..i], Split(rest, c), c);
      Around(s, i);
    } else {
      assert Split(s, c) == [s];
    }
  }

  lemma Around(s: string, i: nat)
    requires i < |s|
    ensures s == s[..i] + [s[i]] + s[i + 1..]
  {
  }

  lemma JoinCons(x: string, ys: seq<string>, c: char)
    requires |ys| >= 1
    ensures Join([x] + ys, c) == x + [c] + Join(ys, c)
  {
    assert ([x] + ys)[1..] == ys;
  }

  /** No piece of a split contains the separator, and there is one piece more than
      there are separators. */
  lemma {:induction false} SplitPieces(s: string, c: char)
    ensures forall k | 0 <= k < |Split(s, c)| :: c !in Split(s, c)[k]
    ensures |Split(s, c)| == Count(s, c) + 1
    decreases |s|
  {
    var i := IndexOf(s, c);
    if i == |s| {
      CountAbsent(s, c);
    } else {
      SplitPieces(s[i + 1..], c);
      assert s == s[..i] + [c] + s[i + 1..];
      CountAppend(s[..i] + [c], s[i + 1..], c);
      CountAppend(s[..i], [c], c);
      CountAbsent(s[..i], c);
      assert Count([c], c) == 1 by { assert [c][1..] == []; }
      var parts := Split(s, c);
      assert parts == [s[..i]] + Split(s[i + 1..], c);
      forall k | 0 <= k < |parts| ensures c !in parts[k] {
        if k > 0 { assert parts[k] == Split(s[i + 1..], c)[k - 1]; }
      }
    }
  }

  /** Splitting a join of separator-free pieces gives back the pieces. */
  lemma {:induction false} SplitJoin(parts: seq<string>, c: char)
    requires |parts| >= 1
    requires forall k | 0 <= k < |parts| :: c !in parts[k]
    ensures Split(Join(parts, c), c) == parts
    decreases |parts|
  {
    var s := Join(parts, c);
    if |parts| == 1 {
      assert IndexOf(s, c) == |s|;
    } else {
      var rest := Join(parts[1..], c);
      assert s == parts[0] + ([c] + rest);
      IndexAfterFree(parts[0], [c] + rest, c);
      assert IndexOf(s, c) == |parts[0]|;
      assert s[..|parts[0]|] == parts[0];
      assert s[|parts[0]| + 1..] == rest;
      SplitJoin(parts[1..], c);
    }
  }

  lemma {:induction false} IndexAfterFree(a: string, b: string, c: char)
    requires c !in a
    requires |b| > 0 && b[0] == c
    ensures IndexOf(a + b, c) == |a|
  {
    if |a| > 0 {
      assert (a + b)[1..] == a[1..] + b;
      assert c !in a[1..] by { assert forall k | 0 <= k < |a[1..]| :: a[1..][k] == a[k + 1]; }
      IndexAfterFree(a[1..], b, c);
    } else {
      assert a + b == b;
    }
  }

  /** `s.replace(/c/g, r)`: every occurrence of the character `c` becomes `r`. */
  function ReplaceChar(s: string, c: char, r: string): string
  {
    if |s| == 0 then ""
    else (if s[0] == c then r else [s[0]]) + ReplaceChar(s[1..], c, r)
  }

  /** `s.replace(/c/g, '')`: every occurrence of `c` removed. */
  function RemoveChar(s: string, c: char): string
  {
    ReplaceChar(s, c, "")
  }

  lemma {:induction false} ReplaceAppend(a: string, b: string, c: char, r: string)
    ensures ReplaceChar(a + b, c, r) == ReplaceChar(a, c, r) + ReplaceChar(b, c, r)
  {
    if |a| == 0 {
      assert a + b == b;
    } else {
      assert (a + b)[1..] == a[1..] + b;
      ReplaceAppend(a[1..], b, c, r);
    }
  }

  /** Replacing a character that does not occur changes nothing. */
  lemma {:induction false} ReplaceAbsent(s: string, c: char, r: string)
    requires c !in s
    ensures ReplaceChar(s, c, r) == s
  {
    if |s| > 0 {
      assert c !in s[1..] by { assert forall k | 0 <= k < |s[1..]| :: s[1..][k] == s[k + 1]; }
      ReplaceAbsent(s[1..], c, r);
      assert s == [s[0]] + s[1..];
    }
  }

  /** After replacing `c` by a text free of `c`, no `c` is left. */
  lemma {:induction false} ReplaceRemovesAll(s: string, c: char, r: string)
    requires c !in r
    ensures c !in ReplaceChar(s, c, r)
  {
    if |s| > 0 {
      ReplaceRemovesAll(s[1..], c, r);
    }
  }

  /** Replacing `d` by a text free of `c` introduces no `c` beyond those already there:
      if `s` has no `c`, neither has the result. */
  lemma {:induction false} ReplaceKeepsFree(s: string, d: char, r: string, c: char)
    requires c !in s && c !in r
    ensures c !in ReplaceChar(s, d, r)
  {
    if |s| > 0 {
      assert c !in s[1..] by { assert forall k | 0 <= k < |s[1..]| :: s[1..][k] == s[k + 1]; }
      ReplaceKeepsFree(s[1..], d, r, c);
    }
  }

  // Decimal digits

  predicate IsDigit(ch: char) { '0' <= ch <= '9' }

  predicate AllDigits(s: string) { forall k | 0 <= k < |s| :: IsDigit(s[k]) }

  function DigitValue(ch: char): nat
    requires IsDigit(ch)
  {
    (ch as int - '0' as int) as nat
  }

  function DigitChar(d: nat): char
    requires d < 10
  {
    (d + '0' as int) as char
  }

  /** Value of a string of decimal digits (most significant first). */
  function DigitsValue(s: string): nat
    requires AllDigits(s)
  {
    if |s| == 0 then 0 else 10 * DigitsValue(s[..|s| - 1]) + DigitValue(s[|s| - 1])
  }

  /** Length of the longest prefix of `s` made of decimal digits. */
  function DigitRun(s: string): (n: nat)
    ensures n <= |s| && AllDigits(s[..n])
    ensures n < |s| ==> !IsDigit(s[n])
  {
    if |s| == 0 || !IsDigit(s[0]) then 0
    else
      var n := DigitRun(s[1..]);
      assert s[..n + 1] == [s[0]] + s[1..][..n];
      n + 1
  }

  /** Shortest decimal text of a natural number, as JavaScript's `String(n)` writes it. */
  function NatToDecimal(n: nat): (s: string)
    ensures |s| >= 1 && AllDigits(s)
    ensures |s| > 1 ==> s[0] != '0'
  {
    if n < 10 then [DigitChar(n)]
    else
      var p := NatToDecimal(n / 10);
      p + [DigitChar(n % 10)]
  }

  /** The decimal text reads back as the same number. */
  lemma {:induction false} NatToDecimalValue(n: nat)
    ensures DigitsValue(NatToDecimal(n)) == n
  {
    var s := NatToDecimal(n);
    if n < 10 {
      assert s[..0] == [];
    } else {
      NatToDecimalValue(n / 10);
      assert s[..|s| - 1] == NatToDecimal(n / 10);
    }
  }
}
