/** Splitting, joining and decimal numerals, with the facts that make them invertible. */
module Text {

  function Split(s: string, sep: char): (parts: seq<string>)
    ensures |parts| >= 1
    ensures |parts| == 1 <==> sep !in s
  {
    if s == "" then [""]
    else if s[0] == sep then [""] + Split(s[1..], sep)
    else
      var rest := Split(s[1..], sep);
      [[s[0]] + rest[0]] + rest[1..]
  }

  function Join(parts: seq<string>, sep: char): string {
    if parts == [] then "" else if |parts| == 1 then parts[0] else parts[0] + [sep] + Join(parts[1..], sep)
  }

  lemma {:induction false} SplitWhole(s: string, sep: char)
    requires sep !in s
    ensures Split(s, sep) == [s]
  {
    if s != "" {
      SplitWhole(s[1..], sep);
      assert [s[0]] + s[1..] == s;
    }
  }

  /** Splitting looks at the first character only to decide where it goes. */
  lemma SplitTail(s: string, more: string, sep: char)
    requires s != ""
    ensures var rest := Split(s[1..] + more, sep);
            Split(s + more, sep) == if s[0] == sep then [""] + rest else [[s[0]] + rest[0]] + rest[1..]
  {
    assert (s + more)[0] == s[0] && (s + more)[1..] == s[1..] + more;
  }

  lemma {:induction false} SplitFirst(a: string, rest: string, sep: char)
    requires sep !in a
    ensures Split(a + [sep] + rest, sep) == [a] + Split(rest, sep)
  {
    var more := [sep] + rest;
    assert a + [sep] + rest == a + more;
    if a == "" {
      assert a + more == more && more[1..] == rest;
    } else {
      SplitFirst(a[1..], rest, sep);
      assert a[1..] + [sep] + rest == a[1..] + more;
      SplitTail(a, more, sep);
      assert [a[0]] + a[1..] == a;
    }
  }

  /** Joining parts that do not contain the separator loses nothing. */
  lemma {:induction false} SplitJoin(parts: seq<string>, sep: char)
    requires |parts| >= 1 && forall k :: 0 <= k < |parts| ==> sep !in parts[k]
    ensures Split(Join(parts, sep), sep) == parts
    decreases |parts|
  {
    if |parts| == 1 {
      SplitWhole(parts[0], sep);
    } else {
      SplitJoin(parts[1..], sep);
      SplitFirst(parts[0], Join(parts[1..], sep), sep);
    }
  }

  lemma JoinPush(c: char, parts: seq<string>, sep: char)
    requires parts != []
    ensures Join([[c] + parts[0]] + parts[1..], sep) == [c] + Join(parts, sep)
  {
    var longer := [[c] + parts[0]] + parts[1..];
    assert longer[1..] == parts[1..];
    if |parts| > 1 {
      var rest := [sep] + Join(parts[1..], sep);
      assert Join(longer, sep) == [c] + parts[0] + rest && Join(parts, sep) == parts[0] + rest;
    }
  }

  lemma {:induction false} JoinSplit(s: string, sep: char)
    ensures Join(Split(s, sep), sep) == s
    decreases |s|
  {
    if s != "" {
      var rest := Split(s[1..], sep);
      JoinSplit(s[1..], sep);
      if s[0] == sep {
        assert ([""] + rest)[1..] == rest;
      } else {
        JoinPush(s[0], rest, sep);
      }
    }
  }

  lemma {:induction false} SplitSnoc(s: string, tail: string, sep: char)
    requires tail != "" && tail[0] == sep && sep !in tail[1..]
    ensures Split(s + tail, sep) == Split(s, sep) + [tail[1..]]
    decreases |s|
  {
    if s == "" {
      assert s + tail == tail;
      SplitWhole(tail[1..], sep);
    } else {
      SplitSnoc(s[1..], tail, sep);
      SplitTail(s, tail, sep);
      PushFront(s[0], Split(s[1..], sep), [tail[1..]]);
    }
  }

  lemma {:induction false} SplitAt(a: string, b: string, sep: char)
    ensures Split(a + [sep] + b, sep) == Split(a, sep) + Split(b, sep)
    decreases |a|
  {
    var more := [sep] + b;
    assert a + [sep] + b == a + more;
    if a == "" {
      assert a + more == more && more[1..] == b;
    } else {
      SplitAt(a[1..], b, sep);
      assert a[1..] + [sep] + b == a[1..] + more;
      SplitTail(a, more, sep);
      if a[0] == sep {
        assert [""] + (Split(a[1..], sep) + Split(b, sep)) == [""] + Split(a[1..], sep) + Split(b, sep);
      } else {
        PushFront(a[0], Split(a[1..], sep), Split(b, sep));
      }
    }
  }

  lemma PushFront(c: char, parts: seq<string>, tail: seq<string>)
    requires parts != []
    ensures var more := parts + tail; [[c] + more[0]] + more[1..] == [[c] + parts[0]] + parts[1..] + tail
  {
    assert (parts + tail)[1..] == parts[1..] + tail;
  }

  lemma {:induction false} JoinAt(xs: seq<string>, ys: seq<string>, sep: char)
    requires xs != [] && ys != []
    ensures Join(xs + ys, sep) == Join(xs, sep) + [sep] + Join(ys, sep)
    decreases |xs|
  {
    assert (xs + ys)[0] == xs[0] && (xs + ys)[1..] == xs[1..] + ys;
    if |xs| == 1 {
      assert xs[1..] + ys == ys;
    } else {
      JoinAt(xs[1..], ys, sep);
    }
  }

  /** Backslashes as slashes. */
  function Slashed(s: string): string { seq(|s|, i requires 0 <= i < |s| => if s[i] == '\\' then '/' else s[i]) }

  // ---- Decimal numerals ----

  function Digit(d: nat): char
    requires d < 10
  {
    "0123456789"[d]
  }

  predicate IsDigit(c: char) { '0' <= c <= '9' }

  function DigitValue(c: char): (d: nat)
    requires IsDigit(c)
    ensures d < 10 && Digit(d) == c
  {
    (c as int - '0' as int) as nat
  }

  predicate IsNumeral(s: string) { s != "" && forall k :: 0 <= k < |s| ==> IsDigit(s[k]) }

  function Decimal(n: nat): (s: string)
    ensures IsNumeral(s)
  {
    if n < 10 then [Digit(n)] else Decimal(n / 10) + [Digit(n % 10)]
  }

  function NumberOf(s: string): nat
    requires IsNumeral(s)
  {
    var d := DigitValue(s[|s| - 1]);
    if |s| == 1 then d else NumberOf(s[..|s| - 1]) * 10 + d
  }

  lemma NumberSnoc(s: string, d: nat)
    requires IsNumeral(s) && d < 10
    ensures IsNumeral(s + [Digit(d)]) && NumberOf(s + [Digit(d)]) == NumberOf(s) * 10 + d
  {
    var more := s + [Digit(d)];
    assert more[..|more| - 1] == s && more[|more| - 1] == Digit(d);
  }

  lemma {:induction false} DecimalInverse(n: nat)
    ensures NumberOf(Decimal(n)) == n
  {
    if n >= 10 {
      DecimalInverse(n / 10);
      NumberSnoc(Decimal(n / 10), n % 10);
    }
  }

  function Zeros(n: nat): (s: string)
    ensures |s| == n && forall k :: 0 <= k < n ==> s[k] == '0'
  {
    if n == 0 then "" else Zeros(n - 1) + "0"
  }

  lemma {:induction false} ZerosAreZero(n: nat)
    requires n > 0
    ensures NumberOf(Zeros(n)) == 0
  {
    if n > 1 {
      ZerosAreZero(n - 1);
      assert Zeros(n)[..n - 1] == Zeros(n - 1);
    }
  }

  /** Leading zeros do not change the number. */
  lemma {:induction false} PaddedInverse(zeros: nat, n: nat)
    ensures IsNumeral(Zeros(zeros) + Decimal(n)) && NumberOf(Zeros(zeros) + Decimal(n)) == n
    decreases n
  {
    if n >= 10 {
      PaddedInverse(zeros, n / 10);
      NumberSnoc(Zeros(zeros) + Decimal(n / 10), n % 10);
      assert Zeros(zeros) + Decimal(n) == Zeros(zeros) + Decimal(n / 10) + [Digit(n % 10)];
    } else if zeros > 0 {
      ZerosAreZero(zeros);
      NumberSnoc(Zeros(zeros), n);
    } else {
      assert Zeros(zeros) + Decimal(n) == Decimal(n);
    }
  }

  // ---- Trimming ----

  function TrimStart(s: string, p: char -> bool): (r: string)
    ensures |r| <= |s| && (s != "" && p(s[0]) ==> |r| < |s|)
  {
    if s != "" && p(s[0]) then TrimStart(s[1..], p) else s
  }

  function TrimEnd(s: string, p: char -> bool): (r: string)
    ensures |r| <= |s| && (s != "" && p(s[|s| - 1]) ==> |r| < |s|)
  {
    if s != "" && p(s[|s| - 1]) then TrimEnd(s[..|s| - 1], p) else s
  }

  function Trim(s: string, p: char -> bool): string { TrimEnd(TrimStart(s, p), p) }

  /** Nothing to trim. */
  predicate Bare(s: string, p: char -> bool) { s != "" ==> !p(s[0]) && !p(s[|s| - 1]) }

  /** Trimming keeps the length exactly when there is nothing to trim. */
  lemma TrimLength(s: string, p: char -> bool)
    ensures |Trim(s, p)| <= |s|
    ensures |Trim(s, p)| == |s| <==> Bare(s, p)
    ensures Bare(s, p) ==> Trim(s, p) == s
  {}

  predicate AllOf(s: string, p: char -> bool) { forall k :: 0 <= k < |s| ==> p(s[k]) }

  lemma {:induction false} TrimStartSkips(before: string, s: string, p: char -> bool)
    requires AllOf(before, p) && (s != "" ==> !p(s[0]))
    ensures TrimStart(before + s, p) == s
    decreases |before|
  {
    if before == "" {
      assert before + s == s;
    } else {
      assert (before + s)[1..] == before[1..] + s;
      TrimStartSkips(before[1..], s, p);
    }
  }

  lemma {:induction false} TrimEndSkips(s: string, after: string, p: char -> bool)
    requires AllOf(after, p) && (s != "" ==> !p(s[|s| - 1]))
    ensures TrimEnd(s + after, p) == s
    decreases |after|
  {
    if after == "" {
      assert s + after == s;
    } else {
      var t, shorter := s + after, after[..|after| - 1];
      assert t[|t| - 1] == after[|after| - 1] && t[..|t| - 1] == s + shorter;
      TrimEndSkips(s, shorter, p);
    }
  }
}
