/** String and sequence helpers that stand for the JavaScript built-ins the
    core uses: `replace(/\D/g, '')`, `trim`, `toLowerCase`, `includes`,
    `filter`, `slice`, `parseInt` and number-to-string conversion. */
module Text {
  import opened Wrappers

  // ----- characters ---------------------------------------------------------

  /** What the regular-expression class `\d` matches. */
  predicate IsDigit(c: char) { '0' <= c <= '9' }

  predicate AllDigits(s: string) { forall i :: 0 <= i < |s| ==> IsDigit(s[i]) }

  /** What the regular-expression class `\s` matches, which is also the set
      of characters `trim` and `parseInt` skip: the ECMAScript white space
      and line terminator characters. */
  predicate IsSpace(c: char)
  {
    || c == ' ' || c == '\t' || c == '\n' || c == '\r'
    || c == '\U{000B}' || c == '\U{000C}' || c == '\U{00A0}' || c == '\U{1680}'
    || ('\U{2000}' <= c <= '\U{200A}')
    || c == '\U{2028}' || c == '\U{2029}' || c == '\U{202F}' || c == '\U{205F}'
    || c == '\U{3000}' || c == '\U{FEFF}'
  }

  predicate AllSpace(s: string) { forall i :: 0 <= i < |s| ==> IsSpace(s[i]) }

  /** The characters the regular-expression `.` does not match. */
  predicate IsLineTerminator(c: char)
  {
    c == '\n' || c == '\r' || c == '\U{2028}' || c == '\U{2029}'
  }

  /** The characters of `\w`: ASCII letters, digits and underscore. */
  predicate IsWordChar(c: char)
  {
    ('a' <= c <= 'z') || ('A' <= c <= 'Z') || IsDigit(c) || c == '_'
  }

  /** Lower-casing of one character, restricted to ASCII letters. */
  function Lower(c: char): char
  {
    if 'A' <= c <= 'Z' then (c as int + 32) as char else c
  }

  // ----- digits -------------------------------------------------------------

  /** `s.replace(/\D/g, '')`: the digits of `s`, in their order. */
  function Digits(s: string): (r: string)
    ensures |r| <= |s|
    ensures AllDigits(r)
  {
    if s == [] then []
    else if IsDigit(s[0]) then [s[0]] + Digits(s[1..])
    else Digits(s[1..])
  }

  /** `Digits` keeps every digit of `s`, as often as it occurs and in its
      order, and nothing else: it is the filter of the digit characters. */
  lemma {:induction false} DigitsKeepsEveryDigit(s: string)
    ensures Digits(s) == Filter(s, IsDigit)
    ensures IsSubsequence(Digits(s), s)
    ensures forall c :: multiset(Digits(s))[c] == (if IsDigit(c) then multiset(s)[c] else 0)
  {
    if s != [] {
      DigitsKeepsEveryDigit(s[1..]);
    }
  }

  lemma {:induction false} DigitsConcat(a: string, b: string)
    ensures Digits(a + b) == Digits(a) + Digits(b)
  {
    if a != [] {
      var head := if IsDigit(a[0]) then [a[0]] else [];
      assert (a + b)[0] == a[0] && (a + b)[1..] == a[1..] + b;
      assert Digits(a) == head + Digits(a[1..]);
      assert Digits(a + b) == head + Digits(a[1..] + b);
      DigitsConcat(a[1..], b);
    } else {
      assert a + b == b;
    }
  }

  /** A string made only of digits is its own digit string. */
  lemma {:induction false} DigitsOfDigits(s: string)
    requires AllDigits(s)
    ensures Digits(s) == s
  {
    if s != [] {
      DigitsOfDigits(s[1..]);
    }
  }

  /** The punctuation of the phone formats holds no digit. */
  lemma {:induction false} PunctuationHasNoDigits()
    ensures Digits("(") == "" && Digits(") ") == "" && Digits("-") == ""
  {
    assert Digits(" ") == "";
  }

  /** Appending punctuation and then digits appends just those digits. */
  lemma {:induction false} AppendDigits(pre: string, punct: string, ds: string)
    requires Digits(punct) == "" && AllDigits(ds)
    ensures Digits(pre + punct + ds) == Digits(pre) + ds
  {
    DigitsConcat(pre + punct, ds);
    DigitsConcat(pre, punct);
    DigitsOfDigits(ds);
  }

  lemma {:induction false} OpenedDigits(ds: string)
    requires AllDigits(ds)
    ensures Digits("(" + ds) == ds
  {
    PunctuationHasNoDigits();
    AppendDigits("", "(", ds);
    assert "" + "(" + ds == "(" + ds;
  }

  // ----- white space --------------------------------------------------------

  /** `s.trimStart()`: the suffix left after the leading white space. */
  function TrimStart(s: string): (r: string)
    ensures |r| <= |s| && r == s[|s| - |r|..]
    ensures AllSpace(s[..|s| - |r|])
    ensures r == [] || !IsSpace(r[0])
  {
    if s != [] && IsSpace(s[0]) then TrimStart(s[1..]) else s
  }

  /** `s.trimEnd()`: the prefix left before the trailing white space. */
  function TrimEnd(s: string): (r: string)
    ensures |r| <= |s| && r == s[..|r|]
    ensures AllSpace(s[|r|..])
    ensures r == [] || !IsSpace(r[|r| - 1])
  {
    if s != [] && IsSpace(s[|s| - 1]) then TrimEnd(s[..|s| - 1]) else s
  }

  /** `r` is the slice of `s` starting at `i` with only white space
      before and after it. */
  predicate SpaceAround(s: string, i: nat, r: string)
  {
    i <= |s| - |r| && r == s[i..i + |r|] && AllSpace(s[..i]) && AllSpace(s[i + |r|..])
  }

  /** `s.trim()`: the slice of `s` between the leading and the trailing
      white space, which itself neither starts nor ends with white space. */
  function Trim(s: string): (r: string)
    ensures |r| <= |s|
    ensures exists i :: SpaceAround(s, i, r)
    ensures r == [] || (!IsSpace(r[0]) && !IsSpace(r[|r| - 1]))
  {
    TrimSlice(s);
    TrimEnd(TrimStart(s))
  }

  /** Text that neither starts nor ends with white space is its own trim. */
  lemma {:induction false} TrimOfUnpadded(s: string)
    requires s == [] || (!IsSpace(s[0]) && !IsSpace(s[|s| - 1]))
    ensures Trim(s) == s
  {
    assert TrimStart(s) == s;
  }

  lemma {:induction false} TrimSlice(s: string)
    ensures SpaceAround(s, |s| - |TrimStart(s)|, TrimEnd(TrimStart(s)))
  {
    var t := TrimStart(s);
    var r := TrimEnd(t);
    var i := |s| - |t|;
    SliceOfSuffix(s, i, r);
  }

  lemma {:induction false} SliceOfSuffix(s: string, i: nat, r: string)
    requires i <= |s| && |r| <= |s| - i && r == s[i..][..|r|]
    requires AllSpace(s[..i]) && AllSpace(s[i..][|r|..])
    ensures SpaceAround(s, i, r)
  {
    assert s[i + |r|..] == s[i..][|r|..];
  }

  // ----- case and substrings ------------------------------------------------

  /** `s.toLowerCase()`, restricted to ASCII letters. */
  function ToLower(s: string): (r: string)
    ensures |r| == |s|
    ensures forall i :: 0 <= i < |s| ==> r[i] == Lower(s[i])
  {
    if s == [] then [] else [Lower(s[0])] + ToLower(s[1..])
  }

  /** `s.includes(part)`: `part` occurs in `s` as a contiguous piece. */
  predicate Contains(s: string, part: string)
  {
    part <= s || (s != [] && Contains(s[1..], part))
  }

  lemma {:induction false} ContainsEmpty(s: string)
    ensures Contains(s, "")
  {
  }

  // ----- sequences ----------------------------------------------------------

  /** `a` can be obtained from `b` by deleting elements. */
  ghost predicate IsSubsequence<T>(a: seq<T>, b: seq<T>)
  {
    a == [] || (b != [] && ((a[0] == b[0] && IsSubsequence(a[1..], b[1..])) || IsSubsequence(a, b[1..])))
  }

  lemma {:induction false} SubsequenceReflexive<T>(a: seq<T>)
    ensures IsSubsequence(a, a)
  {
    if a != [] {
      SubsequenceReflexive(a[1..]);
    }
  }

  lemma {:induction false} SubsequenceLength<T>(a: seq<T>, b: seq<T>)
    requires IsSubsequence(a, b)
    ensures |a| <= |b|
    decreases |b|
  {
    if a != [] {
      if a[0] == b[0] && IsSubsequence(a[1..], b[1..]) {
        SubsequenceLength(a[1..], b[1..]);
      } else {
        SubsequenceLength(a, b[1..]);
      }
    }
  }

  /** A subsequence holds only elements of the sequence it came from. */
  lemma {:induction false} SubsequenceMembers<T>(a: seq<T>, b: seq<T>, x: T)
    requires IsSubsequence(a, b) && x in a
    ensures x in b
    decreases |b|
  {
    if a[0] == b[0] && IsSubsequence(a[1..], b[1..]) {
      if x != a[0] {
        SubsequenceMembers(a[1..], b[1..], x);
      }
    } else {
      SubsequenceMembers(a, b[1..], x);
    }
  }

  lemma {:induction false} SubsequenceTransitive<T>(a: seq<T>, b: seq<T>, c: seq<T>)
    requires IsSubsequence(a, b) && IsSubsequence(b, c)
    ensures IsSubsequence(a, c)
    decreases |c|
  {
    if a != [] {
      // b is not empty, and neither is c
      if b[0] == c[0] && IsSubsequence(b[1..], c[1..]) {
        if a[0] == b[0] && IsSubsequence(a[1..], b[1..]) {
          SubsequenceTransitive(a[1..], b[1..], c[1..]);
        } else {
          SubsequenceTransitive(a, b[1..], c[1..]);
        }
      } else {
        SubsequenceTransitive(a, b, c[1..]);
      }
    }
  }

  /** Appending one element to both sides keeps a subsequence, and so
      does appending it to the longer side only. */
  lemma {:induction false} SubsequenceSnoc<T>(a: seq<T>, b: seq<T>, x: T)
    requires IsSubsequence(a, b)
    ensures IsSubsequence(a + [x], b + [x])
    ensures IsSubsequence(a, b + [x])
    decreases |b|
  {
    if a == [] {
      assert a + [x] == [x];
      LastIsSubsequence(b, x);
    } else {
      assert (b + [x])[1..] == b[1..] + [x];
      assert (a + [x])[1..] == a[1..] + [x];
      if a[0] == b[0] && IsSubsequence(a[1..], b[1..]) {
        SubsequenceSnoc(a[1..], b[1..], x);
      } else {
        SubsequenceSnoc(a, b[1..], x);
      }
    }
  }

  lemma {:induction false} LastIsSubsequence<T>(b: seq<T>, x: T)
    ensures IsSubsequence([x], b + [x])
    decreases |b|
  {
    if b != [] {
      assert (b + [x])[1..] == b[1..] + [x];
      LastIsSubsequence(b[1..], x);
    } else {
      assert [x][1..] == [];
    }
  }

  /** The index of the first occurrence of `x` in `s`, or `|s|` when `x`
      does not occur. */
  function FirstSeen<T(==)>(s: seq<T>, x: T): (i: nat)
    ensures i <= |s|
    ensures i < |s| <==> x in s
    ensures i < |s| ==> s[i] == x
    ensures forall k :: 0 <= k < i ==> s[k] != x
  {
    if s == [] then 0
    else if s[0] == x then 0
    else 1 + FirstSeen(s[1..], x)
  }

  /** Extending a sequence at the end moves no first occurrence. */
  lemma {:induction false} FirstSeenOfPrefix<T>(a: seq<T>, b: seq<T>, y: T)
    ensures FirstSeen(a + b, y) == if y in a then FirstSeen(a, y) else |a| + FirstSeen(b, y)
    decreases |a|
  {
    if a != [] {
      assert (a + b)[1..] == a[1..] + b;
      FirstSeenOfPrefix(a[1..], b, y);
    } else {
      assert a + b == b;
    }
  }

  /** The elements of `r` appear in the order of their first occurrences
      in `s`. */
  ghost predicate InFirstSeenOrder<T>(r: seq<T>, s: seq<T>)
  {
    forall i, j :: 0 <= i < j < |r| ==> FirstSeen(s, r[i]) < FirstSeen(s, r[j])
  }

  /** Deleting elements keeps the order of first occurrences. */
  lemma {:induction false} SubsequenceInFirstSeenOrder<T>(a: seq<T>, b: seq<T>, s: seq<T>)
    requires IsSubsequence(a, b) && InFirstSeenOrder(b, s)
    ensures InFirstSeenOrder(a, s)
    decreases |b|
  {
    if a != [] {
      assert InFirstSeenOrder(b[1..], s) by {
        forall i, j | 0 <= i < j < |b[1..]|
          ensures FirstSeen(s, b[1..][i]) < FirstSeen(s, b[1..][j])
        {
          assert b[1..][i] == b[i + 1] && b[1..][j] == b[j + 1];
        }
      }
      if a[0] == b[0] && IsSubsequence(a[1..], b[1..]) {
        SubsequenceInFirstSeenOrder(a[1..], b[1..], s);
        forall i, j | 0 <= i < j < |a| ensures FirstSeen(s, a[i]) < FirstSeen(s, a[j]) {
          assert a[j] == a[1..][j - 1];
          if i == 0 {
            SubsequenceMembers(a[1..], b[1..], a[j]);
            var k :| 0 <= k < |b[1..]| && b[1..][k] == a[j];
            assert b[k + 1] == a[j];
          } else {
            assert a[i] == a[1..][i - 1];
          }
        }
      } else {
        SubsequenceInFirstSeenOrder(a, b[1..], s);
      }
    }
  }

  /** `s.filter(keep)`: the elements `keep` accepts, in their order. */
  function Filter<T(==,!new)>(s: seq<T>, keep: T -> bool): (r: seq<T>)
    ensures IsSubsequence(r, s)
    ensures forall x :: x in r ==> x in s && keep(x)
    ensures forall i :: 0 <= i < |s| && keep(s[i]) ==> s[i] in r
    ensures forall x :: x in s && keep(x) ==> x in r
    ensures forall x :: multiset(r)[x] == (if keep(x) then multiset(s)[x] else 0)
  {
    if s == [] then []
    else
      assert s == [s[0]] + s[1..];
      if keep(s[0]) then [s[0]] + Filter(s[1..], keep)
      else Filter(s[1..], keep)
  }

  /** Filtering works element by element from the front. */
  lemma {:induction false} FilterCons<T(!new)>(x: T, s: seq<T>, keep: T -> bool)
    ensures Filter([x] + s, keep) == (if keep(x) then [x] else []) + Filter(s, keep)
  {
    assert ([x] + s)[0] == x && ([x] + s)[1..] == s;
  }

  /** An element the filter drops, or one it keeps while the other is
      dropped, can move to the front past the other without changing the
      filtered result. */
  lemma {:induction false} FilterPastFront<T(!new)>(x: T, y: T, rest: seq<T>, tail: seq<T>, keep: T -> bool)
    requires !(keep(x) && keep(y))
    requires Filter(rest, keep) == (if keep(y) then [y] else []) + Filter(tail, keep)
    ensures Filter([x] + rest, keep) == (if keep(y) then [y] else []) + Filter([x] + tail, keep)
  {
    FilterCons(x, rest, keep);
    FilterCons(x, tail, keep);
    SwapEmptyFront(if keep(x) then [x] else [], if keep(y) then [y] else [], Filter(tail, keep));
  }

  /** Two pieces of which one is empty can trade places in front. */
  lemma SwapEmptyFront<T>(a: seq<T>, b: seq<T>, c: seq<T>)
    requires a == [] || b == []
    ensures a + (b + c) == b + (a + c)
  {
    if a == [] {
      assert a + (b + c) == b + c == b + (a + c);
    } else {
      assert a + (b + c) == a + c == b + (a + c);
    }
  }

  /** A filter that accepts everything changes nothing. */
  lemma {:induction false} FilterAll<T(!new)>(s: seq<T>, keep: T -> bool)
    requires forall x :: x in s ==> keep(x)
    ensures Filter(s, keep) == s
  {
    if s != [] {
      FilterAll(s[1..], keep);
    }
  }

  /** `s.slice(0, n)`. */
  function Take<T>(s: seq<T>, n: nat): (r: seq<T>)
    ensures |r| <= n && r <= s
    ensures |s| <= n ==> r == s
  {
    if |s| <= n then s else s[..n]
  }

  // ----- numbers as text ----------------------------------------------------

  function DigitValue(c: char): nat
    requires IsDigit(c)
  {
    c as int - '0' as int
  }

  /** The number a non-empty run of decimal digits denotes. */
  function DecimalValue(ds: string): nat
    requires AllDigits(ds)
  {
    if ds == [] then 0 else 10 * DecimalValue(ds[..|ds| - 1]) + DigitValue(ds[|ds| - 1])
  }

  /** The longest prefix of `s` made of digits. */
  function LeadingDigits(s: string): (r: string)
    ensures r <= s && AllDigits(r)
    ensures |r| < |s| ==> !IsDigit(s[|r|])
  {
    if s != [] && IsDigit(s[0]) then [s[0]] + LeadingDigits(s[1..]) else []
  }

  lemma {:induction false} LeadingDigitsOfDigits(ds: string, tail: string)
    requires AllDigits(ds)
    requires tail == [] || !IsDigit(tail[0])
    ensures LeadingDigits(ds + tail) == ds
  {
    if ds != [] {
      assert (ds + tail)[1..] == ds[1..] + tail;
      LeadingDigitsOfDigits(ds[1..], tail);
    }
  }

  /** `parseInt(s)` on decimal text: leading white space, an optional sign,
      then the longest run of digits; `None` stands for `NaN`. */
  function ParseInt(s: string): Option<int>
  {
    var t := TrimStart(s);
    var negative := t != [] && t[0] == '-';
    var unsigned := if t != [] && (t[0] == '-' || t[0] == '+') then t[1..] else t;
    var ds := LeadingDigits(unsigned);
    var magnitude: int := DecimalValue(ds);
    if ds == [] then None
    else if negative then Some(-magnitude)
    else Some(magnitude)
  }

  function DigitChar(d: nat): (c: char)
    requires d < 10
    ensures IsDigit(c) && DigitValue(c) == d
  {
    ('0' as int + d) as char
  }

  /** `String(n)` for a non-negative integer: its decimal digits, most
      significant first, with no leading zero. */
  function NatToString(n: nat): (r: string)
    ensures r != [] && AllDigits(r)
    ensures DecimalValue(r) == n
    ensures |r| > 1 ==> r[0] != '0'
  {
    if n < 10 then [DigitChar(n)]
    else
      var r := NatToString(n / 10) + [DigitChar(n % 10)];
      assert r[..|r| - 1] == NatToString(n / 10);
      r
  }

  /** Reading back the decimal text of `n`, followed by anything that does
      not start with a digit, gives `n`: `parseInt` undoes `String`. */
  lemma {:induction false} ParseIntNatToString(n: nat, tail: string)
    requires tail == [] || !IsDigit(tail[0])
    ensures ParseInt(NatToString(n) + tail) == Some(n)
  {
    ParseIntOfDigits(NatToString(n), tail);
  }

  /** A run of digits followed by a non-digit reads as its decimal value. */
  lemma {:induction false} ParseIntOfDigits(ds: string, tail: string)
    requires ds != [] && AllDigits(ds)
    requires tail == [] || !IsDigit(tail[0])
    ensures ParseInt(ds + tail) == Some(DecimalValue(ds))
  {
    var s := ds + tail;
    assert s[0] == ds[0];
    NoLeadingSpace(s);
    LeadingDigitsOfDigits(ds, tail);
  }

  lemma {:induction false} NoLeadingSpace(s: string)
    requires s != [] && IsDigit(s[0])
    ensures TrimStart(s) == s && s[0] != '-' && s[0] != '+'
  {
  }
}
