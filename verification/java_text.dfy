/**
 * The parts of java.lang.String and java.lang.Integer that the modelled
 * classes rely on: decimal printing (Integer.toString / StringBuilder.append(int)),
 * Integer.parseInt, String.split with a literal separator, and String.compareTo.
 */
module JavaText {
  import opened Wrappers

  /** Integer.MIN_VALUE and Integer.MAX_VALUE. */
  const IntMin: int := -0x8000_0000
  const IntMax: int := 0x7fff_ffff

  predicate IsInt32(n: int) {
    IntMin <= n <= IntMax
  }

  /** The value a Java int holds after an arithmetic result n: n wrapped into 32 bits. */
  function Wrap32(n: int): (r: int)
    ensures IsInt32(r)
    ensures (r - n) % 0x1_0000_0000 == 0
    ensures IsInt32(n) ==> r == n
  {
    (n - IntMin) % 0x1_0000_0000 + IntMin
  }

  // ---------------------------------------------------------------------------
  // Decimal digits
  // ---------------------------------------------------------------------------

  predicate IsDigit(c: char) {
    '0' <= c <= '9'
  }

  predicate AllDigits(s: string) {
    forall i :: 0 <= i < |s| ==> IsDigit(s[i])
  }

  function DigitChar(d: nat): (c: char)
    requires d < 10
    ensures IsDigit(c)
  {
    ('0' as int + d) as char
  }

  function DigitValue(c: char): (d: nat)
    requires IsDigit(c)
    ensures d < 10
  {
    c as int - '0' as int
  }

  /** The value of a string of decimal digits, most significant digit first. */
  function DigitsValue(s: string): nat
    requires AllDigits(s)
  {
    if |s| == 0 then 0 else DigitsValue(s[..|s| - 1]) * 10 + DigitValue(s[|s| - 1])
  }

  /** Integer.toString of a non-negative value: its shortest decimal spelling. */
  function ShowNat(n: nat): (r: string)
    ensures |r| >= 1 && AllDigits(r)
    ensures r[0] == '0' ==> n == 0 && |r| == 1
  {
    if n < 10 then [DigitChar(n)] else ShowNat(n / 10) + [DigitChar(n % 10)]
  }

  /** Integer.toString / StringBuilder.append(int): a minus sign for negative values. */
  function ShowInt(n: int): (r: string)
    ensures |r| >= 1
    ensures r[0] == '-' <==> n < 0
  {
    if n < 0 then "-" + ShowNat(-n) else ShowNat(n)
  }

  lemma {:induction false} ShowNatValue(n: nat)
    ensures DigitsValue(ShowNat(n)) == n
  {
    if n >= 10 {
      ShowNatValue(n / 10);
      var s := ShowNat(n);
      assert s[..|s| - 1] == ShowNat(n / 10);
      assert DigitValue(s[|s| - 1]) == n % 10;
    }
  }

  /** Distinct non-negative values print differently. */
  lemma ShowNatInjective(a: nat, b: nat)
    requires ShowNat(a) == ShowNat(b)
    ensures a == b
  {
    ShowNatValue(a);
    ShowNatValue(b);
  }

  /**
   * Integer.parseInt(s) in radix 10: an optional '+' or '-', then at least one
   * digit, and a value inside the 32-bit range; anything else is a
   * NumberFormatException, modelled as None.
   */
  function ParseInt(s: string): (r: Option<int>)
    ensures r.Some? ==> IsInt32(r.value)
    ensures |s| == 0 ==> r.None?
    ensures r.Some? <==> |s| >= 1 && |Unsigned(s)| >= 1 && AllDigits(Unsigned(s)) && IsInt32(Sign(s) * DigitsValue(Unsigned(s)))
    ensures r.Some? ==> r.value == Sign(s) * DigitsValue(Unsigned(s))
  {
    if |s| == 0 then None
    else
      var digits := Unsigned(s);
      if |digits| == 0 || !AllDigits(digits) then None
      else
        var v: int := if s[0] == '-' then 0 - DigitsValue(digits) else DigitsValue(digits);
        if IsInt32(v) then Some(v) else None
  }

  /** The text after an optional leading '+' or '-'. */
  function Unsigned(s: string): (r: string)
    requires |s| >= 1
    ensures |r| == |s| || |r| == |s| - 1
  {
    if s[0] == '-' || s[0] == '+' then s[1..] else s
  }

  /** -1 for a leading '-', 1 otherwise. */
  function Sign(s: string): int
    requires |s| >= 1
  {
    if s[0] == '-' then -1 else 1
  }

  lemma ParseShowNegative(n: int)
    requires IsInt32(n) && n < 0
    ensures ParseInt(ShowInt(n)) == Some(n)
  {
    var d := ShowNat(-n);
    var s := ShowInt(n);
    ShowNatValue(-n);
    assert s == "-" + d;
    assert Unsigned(s) == d;
    assert Sign(s) * DigitsValue(Unsigned(s)) == n;
  }

  lemma ParseShowNonNegative(n: int)
    requires IsInt32(n) && n >= 0
    ensures ParseInt(ShowInt(n)) == Some(n)
  {
    var s := ShowInt(n);
    ShowNatValue(n);
    assert s == ShowNat(n);
    assert s[0] != '-' && s[0] != '+';
  }

  /** Printing a 32-bit value and parsing it back gives the value again. */
  lemma ParseShowInt(n: int)
    requires IsInt32(n)
    ensures ParseInt(ShowInt(n)) == Some(n)
  {
    if n < 0 {
      ParseShowNegative(n);
    } else {
      ParseShowNonNegative(n);
    }
  }

  // ---------------------------------------------------------------------------
  // String.split with a literal (regex-free) separator
  // ---------------------------------------------------------------------------

  /**
   * The pieces between the non-overlapping occurrences of sep, found by a
   * left-to-right scan, with every piece kept (including empty ones).
   */
  function SplitAll(s: string, sep: string): (r: seq<string>)
    requires |sep| > 0
    ensures |r| >= 1
    decreases |s|
  {
    if |s| < |sep| then [s]
    else if s[..|sep|] == sep then [""] + SplitAll(s[|sep|..], sep)
    else
      var rest := SplitAll(s[1..], sep);
      [[s[0]] + rest[0]] + rest[1..]
  }

  /** String.join: the pieces with sep between consecutive ones. */
  function Join(pieces: seq<string>, sep: string): string
    requires |pieces| >= 1
  {
    if |pieces| == 1 then pieces[0] else pieces[0] + sep + Join(pieces[1..], sep)
  }

  lemma JoinCons(piece: string, rest: seq<string>, sep: string)
    requires |rest| >= 1
    ensures Join([piece] + rest, sep) == piece + sep + Join(rest, sep)
  {
    assert ([piece] + rest)[1..] == rest;
  }

  /** Prepending a character to the first piece prepends it to the join. */
  lemma JoinPrependChar(c: char, rest: seq<string>, sep: string)
    requires |rest| >= 1
    ensures Join([[c] + rest[0]] + rest[1..], sep) == [c] + Join(rest, sep)
  {
    var pieces := [[c] + rest[0]] + rest[1..];
    if |rest| > 1 {
      assert pieces[1..] == rest[1..];
      assert Join(pieces, sep) == [c] + rest[0] + sep + Join(rest[1..], sep);
      assert Join(rest, sep) == rest[0] + sep + Join(rest[1..], sep);
    } else {
      assert Join(pieces, sep) == [c] + rest[0];
    }
  }

  /** Splitting keeps every character: joining the pieces restores the text. */
  lemma {:induction false} JoinSplitAll(s: string, sep: string)
    requires |sep| > 0
    ensures Join(SplitAll(s, sep), sep) == s
    decreases |s|
  {
    if |s| < |sep| {
    } else if s[..|sep|] == sep {
      var rest := SplitAll(s[|sep|..], sep);
      JoinSplitAll(s[|sep|..], sep);
      assert SplitAll(s, sep) == [""] + rest;
      JoinCons("", rest, sep);
      assert s == sep + s[|sep|..];
    } else {
      var rest := SplitAll(s[1..], sep);
      JoinSplitAll(s[1..], sep);
      assert SplitAll(s, sep) == [[s[0]] + rest[0]] + rest[1..];
      JoinPrependChar(s[0], rest, sep);
      assert s == [s[0]] + s[1..];
    }
  }

  /** A piece that does not contain the separator's first character is never cut. */
  lemma {:induction false} SplitAllNoSeparator(x: string, sep: string)
    requires |sep| > 0
    requires forall i :: 0 <= i < |x| ==> x[i] != sep[0]
    ensures SplitAll(x, sep) == [x]
    decreases |x|
  {
    if |x| >= |sep| {
      assert x[..|sep|][0] == x[0];
      SplitAllNoSeparator(x[1..], sep);
      assert [x[0]] + x[1..] == x;
    }
  }

  /** Splitting `x + sep + y` cuts exactly after x when x is free of sep[0]. */
  lemma {:induction false} SplitAllCons(x: string, sep: string, y: string)
    requires |sep| > 0
    requires forall i :: 0 <= i < |x| ==> x[i] != sep[0]
    ensures SplitAll(x + sep + y, sep) == [x] + SplitAll(y, sep)
    decreases |x|
  {
    var s := x + sep + y;
    if |x| == 0 {
      assert s[..|sep|] == sep;
      assert s[|sep|..] == y;
    } else {
      assert s[..|sep|][0] == x[0];
      assert s[1..] == x[1..] + sep + y;
      SplitAllCons(x[1..], sep, y);
      assert [x[0]] + x[1..] == x;
    }
  }

  /** Splitting a join gives the pieces back when no piece holds sep[0]. */
  lemma {:induction false} SplitAllJoin(pieces: seq<string>, sep: string)
    requires |sep| > 0 && |pieces| >= 1
    requires forall k, i :: 0 <= k < |pieces| && 0 <= i < |pieces[k]| ==> pieces[k][i] != sep[0]
    ensures SplitAll(Join(pieces, sep), sep) == pieces
    decreases |pieces|
  {
    if |pieces| == 1 {
      SplitAllNoSeparator(pieces[0], sep);
    } else {
      SplitAllJoin(pieces[1..], sep);
      SplitAllCons(pieces[0], sep, Join(pieces[1..], sep));
    }
  }

  /** No piece of a split holds a character the text does not hold. */
  lemma {:induction false} SplitAllPiecesFrom(s: string, sep: string, c: char)
    requires |sep| > 0
    requires forall i :: 0 <= i < |s| ==> s[i] != c
    ensures forall k, i :: 0 <= k < |SplitAll(s, sep)| && 0 <= i < |SplitAll(s, sep)[k]| ==> SplitAll(s, sep)[k][i] != c
    decreases |s|
  {
    if |s| < |sep| {
    } else if s[..|sep|] == sep {
      SplitAllPiecesFrom(s[|sep|..], sep, c);
    } else {
      SplitAllPiecesFrom(s[1..], sep, c);
    }
  }

  /** A one-character separator never survives inside a piece. */
  lemma {:induction false} SplitAllPiecesFree(s: string, c: char)
    ensures forall k, i :: 0 <= k < |SplitAll(s, [c])| && 0 <= i < |SplitAll(s, [c])[k]| ==> SplitAll(s, [c])[k][i] != c
    decreases |s|
  {
    if |s| < 1 {
    } else if s[..1] == [c] {
      SplitAllPiecesFree(s[1..], c);
    } else {
      SplitAllPiecesFree(s[1..], c);
      var rest := SplitAll(s[1..], [c]);
      assert s[0] != c;
      assert SplitAll(s, [c])[0] == [s[0]] + rest[0];
    }
  }

  /** A joined text holds only characters of its pieces and of the separator. */
  lemma {:induction false} JoinFree(pieces: seq<string>, sep: string, c: char)
    requires |pieces| >= 1
    requires forall k, i :: 0 <= k < |pieces| && 0 <= i < |pieces[k]| ==> pieces[k][i] != c
    requires forall i :: 0 <= i < |sep| ==> sep[i] != c
    ensures forall i :: 0 <= i < |Join(pieces, sep)| ==> Join(pieces, sep)[i] != c
    decreases |pieces|
  {
    if |pieces| > 1 {
      JoinFree(pieces[1..], sep, c);
      var t := Join(pieces[1..], sep);
      assert Join(pieces, sep) == pieces[0] + sep + t;
      forall i | 0 <= i < |Join(pieces, sep)|
        ensures Join(pieces, sep)[i] != c
      {
        if i < |pieces[0]| {
          assert Join(pieces, sep)[i] == pieces[0][i];
        } else if i < |pieces[0]| + |sep| {
          assert Join(pieces, sep)[i] == sep[i - |pieces[0]|];
        } else {
          assert Join(pieces, sep)[i] == t[i - |pieces[0]| - |sep|];
        }
      }
    }
  }

  /** A join ends with its last piece. */
  lemma {:induction false} JoinLast(pieces: seq<string>, sep: string)
    requires |pieces| >= 1
    ensures |Join(pieces, sep)| >= |pieces[|pieces| - 1]|
    ensures |pieces[|pieces| - 1]| > 0 ==> |Join(pieces, sep)| > 0
    decreases |pieces|
  {
    if |pieces| > 1 {
      JoinLast(pieces[1..], sep);
    }
  }

  /** Removes the empty strings at the end of xs. */
  function DropTrailingEmpty(xs: seq<string>): (r: seq<string>)
    ensures |r| <= |xs| && r == xs[..|r|]
    ensures |r| > 0 ==> r[|r| - 1] != ""
    ensures forall i :: |r| <= i < |xs| ==> xs[i] == ""
  {
    if |xs| == 0 || xs[|xs| - 1] != "" then xs else DropTrailingEmpty(xs[..|xs| - 1])
  }

  /**
   * String.split(regex) with limit 0, for a regex that matches exactly the
   * literal sep: when sep occurs nowhere the result is the whole string
   * (even the empty one); otherwise the pieces with trailing empty pieces removed.
   */
  function JavaSplit(s: string, sep: string): (r: seq<string>)
    requires |sep| > 0
  {
    var pieces := SplitAll(s, sep);
    if |pieces| == 1 then pieces else DropTrailingEmpty(pieces)
  }

  /** The split pieces are a prefix of all pieces, and only empty pieces are dropped. */
  lemma JavaSplitPrefix(s: string, sep: string)
    requires |sep| > 0
    ensures var r := JavaSplit(s, sep);
            var all := SplitAll(s, sep);
            |r| <= |all| && r == all[..|r|] &&
            forall i :: |r| <= i < |all| ==> all[i] == ""
  {
  }

  /** Split of a join with a non-empty last piece returns exactly the pieces. */
  lemma JavaSplitJoin(pieces: seq<string>, sep: string)
    requires |sep| > 0 && |pieces| >= 1
    requires forall k, i :: 0 <= k < |pieces| && 0 <= i < |pieces[k]| ==> pieces[k][i] != sep[0]
    requires |pieces| == 1 || pieces[|pieces| - 1] != ""
    ensures JavaSplit(Join(pieces, sep), sep) == pieces
  {
    SplitAllJoin(pieces, sep);
  }

  // ---------------------------------------------------------------------------
  // String.compareTo
  // ---------------------------------------------------------------------------

  /**
   * String.compareTo: the difference of the first pair of differing characters,
   * or the difference of the lengths when one string is a prefix of the other.
   */
  function CompareStrings(a: string, b: string): int
  {
    if |a| == 0 || |b| == 0 then |a| - |b|
    else if a[0] != b[0] then a[0] as int - b[0] as int
    else CompareStrings(a[1..], b[1..])
  }

  lemma {:induction false} CompareStringsZero(a: string, b: string)
    ensures CompareStrings(a, b) == 0 <==> a == b
  {
    if |a| != 0 && |b| != 0 && a[0] == b[0] {
      CompareStringsZero(a[1..], b[1..]);
      if a[1..] == b[1..] {
        assert a == [a[0]] + a[1..] && b == [b[0]] + b[1..];
      }
    }
  }

  lemma {:induction false} CompareStringsAntisymmetric(a: string, b: string)
    ensures CompareStrings(a, b) == -CompareStrings(b, a)
  {
    if |a| != 0 && |b| != 0 && a[0] == b[0] {
      CompareStringsAntisymmetric(a[1..], b[1..]);
    }
  }

  /** compareTo is transitive on the sign of its result. */
  lemma {:induction false} CompareStringsTransitive(a: string, b: string, c: string)
    requires CompareStrings(a, b) < 0 && CompareStrings(b, c) < 0
    ensures CompareStrings(a, c) < 0
  {
    if |a| != 0 && |b| != 0 && |c| != 0 && a[0] == b[0] && b[0] == c[0] {
      CompareStringsTransitive(a[1..], b[1..], c[1..]);
    }
  }
}
