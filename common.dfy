/** Helpers shared by every model: optional values, the string operations of
    JavaScript and Python that the sources rely on (startsWith, endsWith,
    includes, trim/strip, split, join, decimal text), filtering and sorting. */
module Common {

  datatype Option<T> = None | Some(value: T)

  /** `s.startsWith(p)` in JavaScript, `s.startswith(p)` in Python. */
  predicate StartsWith(s: string, p: string) {
    |p| <= |s| && s[..|p|] == p
  }

  /** `s.endsWith(p)` in JavaScript. */
  predicate EndsWith(s: string, p: string) {
    |p| <= |s| && s[|s| - |p|..] == p
  }

  /** A suffix stays a suffix when the same text is appended to both. */
  lemma EndsWithAppend(w: string, p: string, c: string)
    requires EndsWith(w, p)
    ensures EndsWith(w + c, p + c)
  {
    assert (w + c)[|w + c| - |p + c|..] == w[|w| - |p|..] + c;
  }

  /** `s.includes(sub)`: `sub` occurs somewhere in `s` as a contiguous block. */
  predicate Contains(s: string, sub: string) {
    exists i | 0 <= i <= |s| - |sub| :: OccursAt(s, sub, i)
  }

  /** `sub` occurs in `s` starting at index `i`. */
  predicate OccursAt(s: string, sub: string, i: int) {
    0 <= i <= |s| - |sub| && s[i..i + |sub|] == sub
  }

  lemma ContainsEmpty(s: string)
    ensures Contains(s, "")
  {
    assert OccursAt(s, "", 0);
  }

  /** The characters JavaScript's `trim()` removes and `\s` matches
      (WhiteSpace and LineTerminator of ECMA-262). */
  predicate IsJsSpace(c: char) {
    c == '\t' || c == '\n' || c == '\U{000B}' || c == '\U{000C}' || c == '\r' || c == ' '
    || c == '\U{00A0}' || c == '\U{1680}' || ('\U{2000}' <= c <= '\U{200A}')
    || c == '\U{2028}' || c == '\U{2029}' || c == '\U{202F}' || c == '\U{205F}'
    || c == '\U{3000}' || c == '\U{FEFF}'
  }

  /** The characters Python's `str.strip()` removes (`str.isspace`). */
  predicate IsPySpace(c: char) {
    c == '\t' || c == '\n' || c == '\U{000B}' || c == '\U{000C}' || c == '\r'
    || ('\U{001C}' <= c <= '\U{001F}') || c == ' ' || c == '\U{0085}' || c == '\U{00A0}'
    || c == '\U{1680}' || ('\U{2000}' <= c <= '\U{200A}') || c == '\U{2028}'
    || c == '\U{2029}' || c == '\U{202F}' || c == '\U{205F}' || c == '\U{3000}'
  }

  /** Drops the leading characters that satisfy `isWs`. */
  function TrimLeft(s: string, isWs: char -> bool): (r: string)
    ensures |r| <= |s| && r == s[|s| - |r|..]
    ensures forall i :: 0 <= i < |s| - |r| ==> isWs(s[i])
    ensures r != [] ==> !isWs(r[0])
  {
    if s != [] && isWs(s[0]) then TrimLeft(s[1..], isWs) else s
  }

  /** Drops the trailing characters that satisfy `isWs`. */
  function TrimRight(s: string, isWs: char -> bool): (r: string)
    ensures |r| <= |s| && r == s[..|r|]
    ensures forall i :: |r| <= i < |s| ==> isWs(s[i])
    ensures r != [] ==> !isWs(r[|r| - 1])
  {
    if s != [] && isWs(s[|s| - 1]) then TrimRight(s[..|s| - 1], isWs) else s
  }

  function Trim(s: string, isWs: char -> bool): string {
    TrimRight(TrimLeft(s, isWs), isWs)
  }

  /** JavaScript `s.trim()`. */
  function JsTrim(s: string): string { Trim(s, IsJsSpace) }

  /** Python `s.strip()`. */
  function PyStrip(s: string): string { Trim(s, IsPySpace) }

  /** The trimmed text is empty exactly when every character is white space. */
  lemma TrimEmptyIff(s: string, isWs: char -> bool)
    ensures Trim(s, isWs) == "" <==> forall i :: 0 <= i < |s| ==> isWs(s[i])
  {
    var l := TrimLeft(s, isWs);
    if Trim(s, isWs) == "" {
      forall i | 0 <= i < |s| ensures isWs(s[i]) {
        if i >= |s| - |l| {
          assert s[i] == l[i - (|s| - |l|)];
        }
      }
    }
  }

  /** Trimmed text keeps only characters of the original and neither starts
      nor ends with white space. */
  lemma TrimEnds(s: string, isWs: char -> bool)
    ensures var t := Trim(s, isWs);
      (forall m :: 0 <= m < |t| ==> t[m] in s) &&
      (t != [] ==> !isWs(t[0]) && !isWs(t[|t| - 1]))
  {
    var l := TrimLeft(s, isWs);
    var t := TrimRight(l, isWs);
    forall m | 0 <= m < |t| ensures t[m] in s {
      assert t[m] == l[m] == s[|s| - |l| + m];
    }
    if t != [] {
      assert t[0] == l[0];
    }
  }

  /** The decimal digit character of `d`. */
  function Digit(d: nat): char
    requires d < 10
  {
    ('0' as int + d) as char
  }

  /** The value of a digit character. */
  function DigitValue(c: char): nat
  {
    if '0' <= c <= '9' then (c as int - '0' as int) else 0
  }

  /** Decimal text of a natural number, as JavaScript's `${n}` and Python's
      `str(n)` print it: no sign, no leading zeros. */
  function NatToDecimal(n: nat): (r: string)
    ensures 1 <= |r|
    ensures forall i :: 0 <= i < |r| ==> '0' <= r[i] <= '9'
    ensures r[0] == '0' ==> n == 0 && r == "0"
  {
    if n < 10 then [Digit(n)] else NatToDecimal(n / 10) + [Digit(n % 10)]
  }

  /** Reads a string of decimal digits back as a number. */
  function DecimalValue(s: string): nat
  {
    if s == [] then 0 else DecimalValue(s[..|s| - 1]) * 10 + DigitValue(s[|s| - 1])
  }

  /** Printing a number in decimal and reading it back gives the number. */
  lemma {:induction false} DecimalRoundTrip(n: nat)
    ensures DecimalValue(NatToDecimal(n)) == n
  {
    var r := NatToDecimal(n);
    if n >= 10 {
      assert r == NatToDecimal(n / 10) + [Digit(n % 10)];
      assert r[..|r| - 1] == NatToDecimal(n / 10);
      assert DigitValue(r[|r| - 1]) == n % 10;
      DecimalRoundTrip(n / 10);
    } else {
      assert r == [Digit(n)];
      assert r[..0] == [];
    }
  }

  /** Decimal text of an integer, with a leading '-' for negative values. */
  function IntToDecimal(i: int): (r: string)
    ensures |r| >= 1
    ensures i < 0 <==> r[0] == '-'
    ensures i >= 0 ==> r == NatToDecimal(i)
  {
    if i < 0 then "-" + NatToDecimal(-i) else NatToDecimal(i)
  }

  /** A number in [lo * 10^k, (lo+1) * 10^k) starts with the digit of lo. */
  lemma {:induction false} LeadingDigit(n: nat, d: nat, p: nat)
    requires 1 <= d <= 9 && p == Pow10(ExpOf(p))
    requires d * p <= n < (d + 1) * p
    ensures NatToDecimal(n)[0] == Digit(d)
    decreases p
  {
    if p > 1 {
      var e := ExpOf(p);
      assert e >= 1;
      var q := Pow10(e - 1);
      assert p == q * 10;
      assert d * q <= n / 10 < (d + 1) * q by {
        DivBounds(n, d, q);
      }
      assert q == Pow10(ExpOf(q)) by { ExpOfPow10(e - 1); }
      LeadingDigit(n / 10, d, q);
      assert NatToDecimal(n)[0] == NatToDecimal(n / 10)[0];
    }
  }

  lemma DivBounds(n: nat, d: nat, q: nat)
    requires 1 <= q && d * (q * 10) <= n < (d + 1) * (q * 10)
    ensures d * q <= n / 10 < (d + 1) * q
  {
    var m := n / 10;
    assert n == m * 10 + n % 10;
    assert d * q * 10 <= m * 10 + n % 10;
    assert m * 10 <= n < (d + 1) * q * 10;
  }

  function Pow10(e: nat): (p: nat)
    ensures p >= 1
  {
    if e == 0 then 1 else 10 * Pow10(e - 1)
  }

  /** The exponent of a power of ten (the number of trailing factors of ten). */
  function ExpOf(p: nat): nat
    decreases p
  {
    if p >= 10 && p % 10 == 0 then 1 + ExpOf(p / 10) else 0
  }

  lemma {:induction false} ExpOfPow10(e: nat)
    ensures ExpOf(Pow10(e)) == e
  {
    if e > 0 {
      ExpOfPow10(e - 1);
      assert Pow10(e) / 10 == Pow10(e - 1);
    }
  }

  /** JavaScript `s.split(sep)` for a one-character separator: the pieces
      between separators, including empty ones at either end. */
  function Split(s: string, sep: char): (r: seq<string>)
    ensures |r| >= 1
    ensures forall k :: 0 <= k < |r| ==> sep !in r[k]
  {
    if |s| == 0 then [""]
    else if s[0] == sep then [""] + Split(s[1..], sep)
    else
      var rest := Split(s[1..], sep);
      [[s[0]] + rest[0]] + rest[1..]
  }

  /** Python `sep.join(parts)` and JavaScript `parts.join(sep)`. */
  function Join(parts: seq<string>, sep: string): string
  {
    if |parts| == 0 then ""
    else if |parts| == 1 then parts[0]
    else parts[0] + sep + Join(parts[1..], sep)
  }

  /** Joining the pieces of a split with the separator restores the text. */
  lemma {:induction false} SplitJoin(s: string, sep: char)
    ensures Join(Split(s, sep), [sep]) == s
  {
    if |s| > 0 {
      SplitJoin(s[1..], sep);
      var rest := Split(s[1..], sep);
      assert s == [s[0]] + s[1..];
      if s[0] == sep {
        JoinCons("", rest, [sep]);
      } else if |rest| == 1 {
        assert Split(s, sep) == [[s[0]] + rest[0]];
      } else {
        JoinCons([s[0]] + rest[0], rest[1..], [sep]);
        JoinCons(rest[0], rest[1..], [sep]);
        assert [rest[0]] + rest[1..] == rest;
      }
    }
  }

  lemma JoinCons(a: string, rest: seq<string>, sep: string)
    requires |rest| >= 1
    ensures Join([a] + rest, sep) == a + sep + Join(rest, sep)
  {
    assert ([a] + rest)[1..] == rest;
  }

  /** Every character of a piece is a character of the text. */
  lemma {:induction false} SplitChars(s: string, sep: char)
    ensures forall k, c :: 0 <= k < |Split(s, sep)| && c in Split(s, sep)[k] ==> c in s
  {
    if |s| > 0 {
      SplitChars(s[1..], sep);
      var rest := Split(s[1..], sep);
      var r := Split(s, sep);
      forall k, c | 0 <= k < |r| && c in r[k] ensures c in s {
        if s[0] == sep {
          assert r == [""] + rest;
          assert r[k] == rest[k - 1];
          assert c in s[1..];
        } else if k == 0 {
          assert r[0] == [s[0]] + rest[0];
          if c != s[0] {
            assert c in rest[0];
            assert c in s[1..];
          }
        } else {
          assert r[k] == rest[k];
          assert c in s[1..];
        }
      }
    }
  }

  /** A text without the separator splits into itself alone. */
  lemma {:induction false} SplitNoSep(s: string, sep: char)
    requires sep !in s
    ensures Split(s, sep) == [s]
  {
    if |s| > 0 {
      assert s[0] in s;
      assert sep !in s[1..] by {
        forall c | c in s[1..] ensures c != sep {
          var k :| 0 <= k < |s[1..]| && s[1..][k] == c;
          assert s[k + 1] == c;
        }
      }
      SplitNoSep(s[1..], sep);
      assert [s[0]] + s[1..] == s;
    }
  }

  /** A piece followed by the separator splits off as the first piece. */
  lemma {:induction false} SplitAfterPiece(a: string, t: string, sep: char)
    requires sep !in a
    ensures Split(a + [sep] + t, sep) == [a] + Split(t, sep)
  {
    var s := a + [sep] + t;
    if |a| == 0 {
      assert s == [sep] + t;
      assert s[1..] == t;
    } else {
      assert a[0] in a;
      assert sep !in a[1..] by {
        forall c | c in a[1..] ensures c != sep {
          var k :| 0 <= k < |a[1..]| && a[1..][k] == c;
          assert a[k + 1] == c;
        }
      }
      assert s[0] == a[0];
      assert s[1..] == a[1..] + [sep] + t;
      SplitAfterPiece(a[1..], t, sep);
      assert [a[0]] + a[1..] == a;
    }
  }

  /** Splitting the join of pieces that do not contain the separator gives
      the pieces back. */
  lemma {:induction false} JoinSplit(parts: seq<string>, sep: char)
    requires |parts| >= 1
    requires forall k :: 0 <= k < |parts| ==> sep !in parts[k]
    ensures Split(Join(parts, [sep]), sep) == parts
  {
    if |parts| == 1 {
      SplitNoSep(parts[0], sep);
    } else {
      JoinSplit(parts[1..], sep);
      SplitAfterPiece(parts[0], Join(parts[1..], [sep]), sep);
      assert [parts[0]] + parts[1..] == parts;
    }
  }

  /** The number of occurrences of `c` in `s`. */
  function Occurrences(s: string, c: char): nat
  {
    if s == [] then 0 else (if s[0] == c then 1 else 0) + Occurrences(s[1..], c)
  }

  /** A split has one piece more than there are separators. */
  lemma {:induction false} SplitCount(s: string, sep: char)
    ensures |Split(s, sep)| == Occurrences(s, sep) + 1
  {
    if |s| > 0 {
      SplitCount(s[1..], sep);
    }
  }

  /** Text that neither starts nor ends with white space is left as it is. */
  lemma TrimFixed(s: string, isWs: char -> bool)
    requires s != [] ==> !isWs(s[0]) && !isWs(s[|s| - 1])
    ensures Trim(s, isWs) == s
  {
  }

  /** The elements of `s` that satisfy `p`, in their original order
      (JavaScript `filter`, a Python comprehension with `if`). */
  function Filter<T>(s: seq<T>, p: T -> bool): (r: seq<T>)
    ensures |r| <= |s|
    ensures forall x :: x in r ==> x in s && p(x)
    ensures forall x :: x in s && p(x) ==> x in r
  {
    if s == [] then []
    else if p(s[0]) then [s[0]] + Filter(s[1..], p)
    else Filter(s[1..], p)
  }

  /** Filtering distributes over concatenation. */
  lemma {:induction false} FilterAppend<T>(a: seq<T>, b: seq<T>, p: T -> bool)
    ensures Filter(a + b, p) == Filter(a, p) + Filter(b, p)
  {
    if a != [] {
      assert (a + b)[1..] == a[1..] + b;
      FilterAppend(a[1..], b, p);
    } else {
      assert a + b == b;
    }
  }

  /** The number of elements of `s` that satisfy `p` (`filter(...).length`). */
  function Count<T>(s: seq<T>, p: T -> bool): nat
  {
    |Filter(s, p)|
  }

  /** `t` keeps some of the elements of `s`, in their order. */
  predicate IsSubsequence<T(==)>(t: seq<T>, s: seq<T>)
  {
    if t == [] then true
    else if s == [] then false
    else if t[0] == s[0] then IsSubsequence(t[1..], s[1..])
    else IsSubsequence(t, s[1..])
  }

  lemma {:induction false} FilterIsSubsequence<T>(s: seq<T>, p: T -> bool)
    ensures IsSubsequence(Filter(s, p), s)
  {
    if s != [] {
      FilterIsSubsequence(s[1..], p);
      if !p(s[0]) {
        SubsequenceOfTail(Filter(s[1..], p), s);
      }
    }
  }

  lemma {:induction false} SubsequenceOfTail<T>(t: seq<T>, s: seq<T>)
    requires s != [] && IsSubsequence(t, s[1..])
    ensures IsSubsequence(t, s)
    decreases |t| + |s|
  {
    if t != [] && t[0] == s[0] {
      SubsequenceDropHead(t, s[1..]);
    }
  }

  lemma {:induction false} SubsequenceDropHead<T>(t: seq<T>, s: seq<T>)
    requires t != [] && IsSubsequence(t, s)
    ensures IsSubsequence(t[1..], s)
    decreases |t| + |s|
  {
    if t[0] == s[0] {
      SubsequenceOfTail(t[1..], s);
    } else {
      SubsequenceDropHead(t, s[1..]);
      SubsequenceOfTail(t[1..], s);
    }
  }

  /** Keeping every element keeps the whole list. */
  lemma {:induction false} FilterAll<T>(s: seq<T>, p: T -> bool)
    requires forall x :: x in s ==> p(x)
    ensures Filter(s, p) == s
  {
    if s != [] {
      FilterAll(s[1..], p);
    }
  }

  /** The elements satisfying `p` and those not satisfying it add up to all. */
  lemma {:induction false} CountSplit<T>(s: seq<T>, p: T -> bool, q: T -> bool)
    requires forall x :: q(x) == !p(x)
    ensures Count(s, p) + Count(s, q) == |s|
  {
    if s != [] {
      CountSplit(s[1..], p, q);
    }
  }

  /** `s` is in ascending order of `key`. */
  predicate SortedBy<T>(s: seq<T>, key: T -> int)
  {
    forall i, j :: 0 <= i < j < |s| ==> key(s[i]) <= key(s[j])
  }

  /** Puts `x` in front of the first element whose key is larger. */
  function InsertBy<T>(x: T, s: seq<T>, key: T -> int): (r: seq<T>)
    requires SortedBy(s, key)
    ensures multiset(r) == multiset(s) + multiset{x}
    ensures SortedBy(r, key)
    ensures |r| == |s| + 1
  {
    if s == [] then [x]
    else if key(x) <= key(s[0]) then [x] + s
    else
      var t := InsertBy(x, s[1..], key);
      InsertBehindHead(x, s, t, key);
      [s[0]] + t
  }

  /** Keeping the head of a sorted sequence in front of the sorted insertion
      into its tail keeps it sorted and a permutation. */
  lemma InsertBehindHead<T>(x: T, s: seq<T>, t: seq<T>, key: T -> int)
    requires s != [] && SortedBy(s, key) && key(s[0]) < key(x)
    requires multiset(t) == multiset(s[1..]) + multiset{x} && SortedBy(t, key)
    ensures multiset([s[0]] + t) == multiset(s) + multiset{x}
    ensures SortedBy([s[0]] + t, key)
  {
    assert s == [s[0]] + s[1..];
    var r := [s[0]] + t;
    forall i, j | 0 <= i < j < |r| ensures key(r[i]) <= key(r[j]) {
      if i == 0 {
        var y := r[j];
        assert y == t[j - 1] && y in multiset(t);
        if y != x {
          assert y in multiset(s[1..]);
          var k :| 0 <= k < |s[1..]| && s[1..][k] == y;
          assert s[k + 1] == y;
        }
      } else {
        assert r[i] == t[i - 1] && r[j] == t[j - 1];
      }
    }
  }

  /** Insertion sort in ascending order of `key`: a sorted permutation. */
  function SortBy<T>(s: seq<T>, key: T -> int): (r: seq<T>)
    ensures multiset(r) == multiset(s)
    ensures SortedBy(r, key)
    ensures |r| == |s|
  {
    if s == [] then []
    else
      assert s == [s[0]] + s[1..];
      InsertBy(s[0], SortBy(s[1..], key), key)
  }

  /** Sorting keeps exactly the elements it was given. */
  lemma SortByMembers<T>(s: seq<T>, key: T -> int)
    ensures forall x :: x in SortBy(s, key) <==> x in s
  {
    var r := SortBy(s, key);
    forall x
      ensures x in r <==> x in s
    {
      assert x in r <==> x in multiset(r);
      assert x in s <==> x in multiset(s);
    }
  }
}
