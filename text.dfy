/** String primitives of Python 2 that the bot relies on, over byte strings
    (`str`): `strip`, `replace(c, "")`, the `in` substring test, `str(int)`
    and `int(str)`. */
module Text {
  import opened Wrappers

  /** `isspace` on one byte: space, tab, newline, vertical tab, form feed and carriage return. */
  predicate IsSpace(c: char) {
    c == ' ' || '\t' <= c <= '\r'
  }

  predicate AllSpace(s: string) {
    forall i :: 0 <= i < |s| ==> IsSpace(s[i])
  }

  /** `s.lstrip()`: drops the leading white space (`LStripTrims`). */
  function LStrip(s: string): (r: string)
    ensures |r| <= |s| && (r == [] || !IsSpace(r[0]))
  {
    if s != [] && IsSpace(s[0]) then LStrip(s[1..]) else s
  }

  /** `s.rstrip()`: drops the trailing white space (`RStripTrims`). */
  function RStrip(s: string): (r: string)
    ensures |r| <= |s| && (r == [] || !IsSpace(r[|r| - 1]))
  {
    if s != [] && IsSpace(s[|s| - 1]) then RStrip(s[..|s| - 1]) else s
  }

  /** `s.strip()`: the run of `s` that starts at its first and ends at its
      last character that is not white space. */
  function Strip(s: string): (r: string)
    ensures r == [] || (!IsSpace(r[0]) && !IsSpace(r[|r| - 1]))
    ensures exists i :: 0 <= i <= |s| - |r| && Trimmed(s, r, i)
  {
    var l := LStrip(s);
    var r := RStrip(l);
    LStripTrims(s);
    RStripTrims(l);
    TrimmedTwice(s, l, r);
    r
  }

  /** A string that neither starts nor ends with white space is its own `strip()`. */
  lemma StripOfStripped(s: string)
    requires s == [] || (!IsSpace(s[0]) && !IsSpace(s[|s| - 1]))
    ensures Strip(s) == s
  {
  }

  /** `lstrip` keeps the tail of `s` after its leading white space and nothing else. */
  lemma {:induction false} LStripTrims(s: string)
    ensures Trimmed(s, LStrip(s), |s| - |LStrip(s)|)
  {
    if s != [] && IsSpace(s[0]) {
      LStripTrims(s[1..]);
      TrimmedAfterSpace(s, LStrip(s[1..]));
    }
  }

  /** `rstrip` keeps the head of `s` before its trailing white space and nothing else. */
  lemma {:induction false} RStripTrims(s: string)
    ensures Trimmed(s, RStrip(s), 0)
  {
    if s != [] && IsSpace(s[|s| - 1]) {
      RStripTrims(s[..|s| - 1]);
      TrimmedBeforeSpace(s, RStrip(s[..|s| - 1]));
    }
  }

  /** `r` is `s` from index `i` on, with only white space around it. */
  ghost predicate Trimmed(s: string, r: string, i: nat)
    requires i + |r| <= |s|
  {
    && (forall k :: i <= k < i + |r| ==> s[k] == r[k - i])
    && (forall k :: 0 <= k < i ==> IsSpace(s[k]))
    && (forall k :: i + |r| <= k < |s| ==> IsSpace(s[k]))
  }

  lemma TrimmedAfterSpace(s: string, r: string)
    requires s != [] && IsSpace(s[0]) && |r| < |s|
    requires Trimmed(s[1..], r, |s| - 1 - |r|)
    ensures Trimmed(s, r, |s| - |r|)
  {
    forall k | 1 <= k < |s|
      ensures s[k] == s[1..][k - 1]
    {
    }
  }

  lemma TrimmedBeforeSpace(s: string, r: string)
    requires s != [] && IsSpace(s[|s| - 1]) && |r| < |s|
    requires Trimmed(s[..|s| - 1], r, 0)
    ensures Trimmed(s, r, 0)
  {
    forall k | 0 <= k < |s| - 1
      ensures s[k] == s[..|s| - 1][k]
    {
    }
  }

  /** Trimming the front and then the back of what is left trims both ends. */
  lemma TrimmedTwice(s: string, l: string, r: string)
    requires |r| <= |l| <= |s|
    requires Trimmed(s, l, |s| - |l|) && Trimmed(l, r, 0)
    ensures Trimmed(s, r, |s| - |l|)
  {
    var i := |s| - |l|;
    forall k | i <= k < |s|
      ensures s[k] == l[k - i]
    {
    }
  }

  /** `s.replace(c, "")` for a one-character `c`: every `c` goes, every other character stays. */
  function RemoveAll(s: string, c: char): (r: string)
    ensures c !in r
    ensures multiset(r) == multiset(s)[c := 0]
    ensures c !in s ==> r == s
  {
    if s == [] then []
    else
      var rest := RemoveAll(s[1..], c);
      assert s == [s[0]] + s[1..];
      if s[0] == c then rest else [s[0]] + rest
  }

  /** `replace` works piece by piece: the other characters keep their order. */
  lemma {:induction false} RemoveAllOfConcat(a: string, b: string, c: char)
    ensures RemoveAll(a + b, c) == RemoveAll(a, c) + RemoveAll(b, c)
  {
    if a == [] {
      assert a + b == b;
    } else {
      assert (a + b)[1..] == a[1..] + b;
      RemoveAllOfConcat(a[1..], b, c);
    }
  }

  /** Removing `c` keeps the first and the last character when neither is `c`. */
  lemma RemoveAllKeepsEnds(s: string, c: char)
    requires s != [] && s[0] != c && s[|s| - 1] != c
    ensures var r := RemoveAll(s, c);
            r != [] && r[0] == s[0] && r[|r| - 1] == s[|s| - 1]
  {
    var last := s[|s| - 1];
    assert s == s[..|s| - 1] + [last];
    RemoveAllOfConcat(s[..|s| - 1], [last], c);
  }

  /** Python's `sub in s` on strings: `sub` occurs somewhere in `s` as a contiguous slice. */
  predicate Contains(s: string, sub: string) {
    exists i :: 0 <= i <= |s| - |sub| && OccursAt(s, sub, i)
  }

  /** Whatever stands between a prefix and a suffix occurs in the whole. */
  lemma ContainsInfix(a: string, sub: string, b: string)
    ensures Contains(a + sub + b, sub)
  {
    assert OccursAt(a + sub + b, sub, |a|);
  }

  predicate OccursAt(s: string, sub: string, i: nat)
    requires i + |sub| <= |s|
  {
    s[i..i + |sub|] == sub
  }

  // ---------------------------------------------------------------------------
  // Decimal integers

  predicate IsDigit(c: char) {
    '0' <= c <= '9'
  }

  predicate AllDigits(s: string) {
    forall i :: 0 <= i < |s| ==> IsDigit(s[i])
  }

  function DigitValue(c: char): (d: nat)
    requires IsDigit(c)
    ensures d < 10
  {
    c as int - '0' as int
  }

  function Digit(d: nat): (c: char)
    requires d < 10
    ensures IsDigit(c) && DigitValue(c) == d
  {
    ('0' as int + d) as char
  }

  /** The number a non-empty run of decimal digits denotes, most significant digit first. */
  function DigitsValue(s: string): nat
    requires AllDigits(s)
  {
    if s == [] then 0 else DigitsValue(s[..|s| - 1]) * 10 + DigitValue(s[|s| - 1])
  }

  /** `str(n)` for n >= 0: the shortest decimal spelling, no sign, no leading zero. */
  function NatToString(n: nat): (s: string)
    ensures s != [] && AllDigits(s)
    ensures |s| > 1 ==> s[0] != '0'
  {
    if n < 10 then [Digit(n)] else NatToString(n / 10) + [Digit(n % 10)]
  }

  /** `str(n)`: a minus sign for negative numbers, then the digits. */
  function IntToString(n: int): (s: string)
    ensures s != [] && !IsSpace(s[0])
    ensures n < 0 <==> s[0] == '-'
  {
    if n < 0 then "-" + NatToString(-n) else NatToString(n)
  }

  /** How many decimal digits `s` starts with. */
  function LeadingDigits(s: string): (k: nat)
    ensures k <= |s| && AllDigits(s[..k])
    ensures k == |s| || !IsDigit(s[k])
  {
    if s != [] && IsDigit(s[0]) then
      var k := LeadingDigits(s[1..]) + 1;
      assert s[..k] == [s[0]] + s[1..][..k - 1];
      k
    else
      0
  }

  /** Python 2's `int(s)` in base 10, `None` where it raises `ValueError`. As in
      CPython 2.7, white space may surround the number and may also stand
      between the sign and the digits (`int(" - 5 ")` is -5); at least one digit is
      required and nothing but white space may follow the digits. */
  function ParseInt(s: string): Option<int> {
    var a := LStrip(s);
    if a != [] && a[0] == '-' then Negated(ParseUnsigned(a[1..]))
    else if a != [] && a[0] == '+' then ParseUnsigned(a[1..])
    else ParseUnsigned(a)
  }

  function Negated(o: Option<int>): Option<int> {
    if o.Some? then Some(-o.value) else None
  }

  /** What follows the sign: white space, at least one digit, white space. */
  function ParseUnsigned(b: string): Option<int> {
    var c := LStrip(b);
    var k := LeadingDigits(c);
    if k == 0 || !AllSpace(c[k..]) then None else Some(DigitsValue(c[..k]))
  }

  // ---------------------------------------------------------------------------
  // Properties

  /** White space in front of a string that starts with something else is exactly what `lstrip` removes. */
  lemma {:induction false} LStripSpacePrefix(pre: string, s: string)
    requires AllSpace(pre)
    requires s == [] || !IsSpace(s[0])
    ensures LStrip(pre + s) == s
  {
    if pre != [] {
      assert (pre + s)[1..] == pre[1..] + s;
      LStripSpacePrefix(pre[1..], s);
    }
  }

  /** Reading the digits `str(n)` writes gives back `n`. */
  lemma {:induction false} DigitsValueOfNatToString(n: nat)
    ensures DigitsValue(NatToString(n)) == n
  {
    var s := NatToString(n);
    if n >= 10 {
      assert s[..|s| - 1] == NatToString(n / 10);
      DigitsValueOfNatToString(n / 10);
    }
  }

  /** `lstrip` leaves nothing of a string that is all white space. */
  lemma {:induction false} LStripOfBlank(s: string)
    ensures AllSpace(s) ==> LStrip(s) == []
  {
    if s != [] && AllSpace(s) {
      assert AllSpace(s[1..]);
      LStripOfBlank(s[1..]);
    }
  }

  /** `int()` of an empty or all-white-space string raises `ValueError`. */
  lemma ParseIntOfBlank(s: string)
    requires AllSpace(s)
    ensures ParseInt(s) == None
  {
    LStripOfBlank(s);
  }

  /** `lstrip` splits `s` into its leading white space and what it keeps. */
  lemma LStripSplits(s: string)
    ensures |LStrip(s)| <= |s|
    ensures AllSpace(s[..|s| - |LStrip(s)|]) && s == s[..|s| - |LStrip(s)|] + LStrip(s)
  {
    var a := LStrip(s);
    LStripTrims(s);
    assert s == s[..|s| - |a|] + a;
  }

  /** What `ParseUnsigned` accepts: white space, a run of digits spelling the
      value, white space. */
  lemma ParseUnsignedAccepts(b: string, v: int) returns (mid: string, digits: string, post: string)
    requires ParseUnsigned(b) == Some(v)
    ensures b == mid + digits + post
    ensures AllSpace(mid) && AllSpace(post) && (b == [] || !IsSpace(b[0]) ==> mid == [])
    ensures digits != [] && AllDigits(digits) && v == DigitsValue(digits)
  {
    var c := LStrip(b);
    LStripSplits(b);
    var k := LeadingDigits(c);
    mid, digits, post := b[..|b| - |c|], c[..k], c[k..];
    assert c == digits + post;
    assert b == mid + c;
  }

  /** The converse of `ParseIntRoundTrip`: `int(s)` accepts only white space,
      an optional sign, white space after a sign, at least one digit (leading
      zeros allowed) spelling the magnitude, and white space. */
  lemma ParseIntAccepts(s: string, v: int) returns (pre: string, sign: string, mid: string, digits: string, post: string)
    requires ParseInt(s) == Some(v)
    ensures s == pre + sign + mid + digits + post
    ensures AllSpace(pre) && AllSpace(mid) && AllSpace(post)
    ensures sign == "-" || sign == "+" || (sign == "" && mid == [])
    ensures digits != [] && AllDigits(digits)
    ensures (if sign == "-" then -v else v) == DigitsValue(digits)
  {
    var a := LStrip(s);
    LStripSplits(s);
    pre := s[..|s| - |a|];
    var rest;
    if a != [] && (a[0] == '-' || a[0] == '+') {
      sign, rest := [a[0]], a[1..];
      var w := if a[0] == '-' then -v else v;
      assert ParseUnsigned(rest) == Some(w);
      mid, digits, post := ParseUnsignedAccepts(rest, w);
      assert a == sign + rest;
    } else {
      sign, rest := "", a;
      assert ParseUnsigned(rest) == Some(v);
      mid, digits, post := ParseUnsignedAccepts(rest, v);
      assert a == sign + rest;
    }
    Regroup(s, pre, a, sign, rest, mid, digits, post);
  }

  /** The digits after optional white space, followed by white space, are what `ParseUnsigned` reads. */
  lemma ParseUnsignedOfShape(mid: string, digits: string, post: string)
    requires AllSpace(mid) && AllSpace(post)
    requires digits != [] && AllDigits(digits)
    ensures ParseUnsigned(mid + digits + post) == Some(DigitsValue(digits))
  {
    var c := digits + post;
    ConcatAssociates(mid, digits, post);
    LStripSpacePrefix(mid, c);
    LeadingDigitsOfRun(digits, post);
    assert c[..|digits|] == digits;
    assert c[|digits|..] == post;
  }

  /** The converse of `ParseIntAccepts`: `int()` accepts every string of that
      shape, so a `+` sign, leading zeros and white space after the sign are
      all read. */
  lemma ParseIntOfShape(pre: string, sign: string, mid: string, digits: string, post: string)
    requires AllSpace(pre) && AllSpace(mid) && AllSpace(post)
    requires sign == "-" || sign == "+" || (sign == "" && mid == [])
    requires digits != [] && AllDigits(digits)
    ensures ParseInt(pre + sign + mid + digits + post)
            == Some(if sign == "-" then -(DigitsValue(digits) as int) else DigitsValue(digits) as int)
  {
    var rest := mid + digits + post;
    ParseUnsignedOfShape(mid, digits, post);
    if sign == "" {
      assert rest[0] == digits[0];
    }
    ParseIntOfSign(pre, sign, rest, DigitsValue(digits));
    Regroup(pre + (sign + rest), pre, sign + rest, sign, rest, mid, digits, post);
  }

  /** After white space, `int()` reads a sign, or no sign and a digit, and then the unsigned part. */
  lemma ParseIntOfSign(pre: string, sign: string, rest: string, n: nat)
    requires AllSpace(pre)
    requires sign == "-" || sign == "+" || (sign == "" && rest != [] && IsDigit(rest[0]))
    requires ParseUnsigned(rest) == Some(n)
    ensures ParseInt(pre + (sign + rest)) == Some(if sign == "-" then -(n as int) else n as int)
  {
    var a := sign + rest;
    if sign == "" {
      assert a == rest;
    } else {
      assert a[0] == sign[0] && a[1..] == rest;
    }
    ParseIntAfterSpace(pre, a);
  }

  /** The pieces of a split string, regrouped from left to right. */
  lemma Regroup(s: string, pre: string, a: string, sign: string, rest: string, mid: string, digits: string, post: string)
    requires s == pre + a && a == sign + rest && rest == mid + digits + post
    ensures s == pre + sign + mid + digits + post
  {
    ConcatAssociates(pre, sign, rest);
    var head := pre + sign;
    ConcatAssociates(head, mid + digits, post);
    ConcatAssociates(head, mid, digits);
  }

  /** Two numerals in the same place of the same text, each followed by
      something other than a digit, are the same number. */
  lemma NumeralsAgree(pre: string, a: nat, post1: string, b: nat, post2: string)
    requires post1 != [] && !IsDigit(post1[0]) && post2 != [] && !IsDigit(post2[0])
    requires pre + NatToString(a) + post1 == pre + NatToString(b) + post2
    ensures a == b
  {
    var x, y := NatToString(a), NatToString(b);
    var s := pre + x + post1;
    assert s == pre + (x + post1) && s == pre + (y + post2);
    assert s[|pre|..] == x + post1;
    assert s[|pre|..] == y + post2;
    var t := x + post1;
    assert forall k :: 0 <= k < |x| ==> IsDigit(t[k]);
    assert forall k :: 0 <= k < |y| ==> IsDigit(t[k]);
    assert !IsDigit(t[|x|]) && !IsDigit(t[|y|]);
    assert x == t[..|x|] && y == t[..|y|];
    DigitsValueOfNatToString(a);
    DigitsValueOfNatToString(b);
  }

  /** The digits of a run followed by anything but a digit are exactly that run. */
  lemma {:induction false} LeadingDigitsOfRun(digits: string, rest: string)
    requires AllDigits(digits)
    requires rest == [] || !IsDigit(rest[0])
    ensures LeadingDigits(digits + rest) == |digits|
  {
    if digits == [] {
      assert digits + rest == rest;
    } else {
      assert (digits + rest)[1..] == digits[1..] + rest;
      LeadingDigitsOfRun(digits[1..], rest);
    }
  }

  /** The unsigned part: the digits of `str(n)` and then white space. */
  lemma ParseUnsignedOfDigits(n: nat, post: string)
    requires AllSpace(post)
    ensures ParseUnsigned(NatToString(n) + post) == Some(n)
  {
    var digits := NatToString(n);
    var b := digits + post;
    LStripSpacePrefix([], b);
    assert [] + b == b;
    LeadingDigitsOfRun(digits, post);
    assert b[..|digits|] == digits;
    assert b[|digits|..] == post;
    DigitsValueOfNatToString(n);
  }

  /** `int()` skips the white space in front and then reads what starts with a sign or a digit. */
  lemma ParseIntAfterSpace(pre: string, a: string)
    requires AllSpace(pre)
    requires a != [] && (a[0] == '-' || a[0] == '+' || IsDigit(a[0]))
    ensures ParseInt(pre + a) == if a[0] == '-' then Negated(ParseUnsigned(a[1..]))
                                 else if a[0] == '+' then ParseUnsigned(a[1..]) else ParseUnsigned(a)
  {
    LStripSpacePrefix(pre, a);
    var s := pre + a;
    assert LStrip(s) == a;
  }

  /** `str(n)` for negative `n` is a minus sign and then `str(-n)`. */
  lemma SignOfNegative(n: int, post: string)
    requires n < 0
    ensures var a := IntToString(n) + post;
            a[0] == '-' && a[1..] == NatToString(-n) + post
  {
    var digits := NatToString(-n);
    assert IntToString(n) + post == ['-'] + (digits + post);
  }

  /** The part after the minus sign of `str(n)` for negative `n`. */
  lemma ParseUnsignedAfterMinus(n: int, post: string)
    requires n < 0 && AllSpace(post)
    ensures var a := IntToString(n) + post;
            a[0] == '-' && ParseUnsigned(a[1..]) == Some(-n)
  {
    var rest := NatToString(-n) + post;
    ParseUnsignedOfDigits(-n, post);
    assert ParseUnsigned(rest) == Some(-n);
    SignOfNegative(n, post);
  }

  lemma ConcatAssociates(a: string, b: string, c: string)
    ensures a + b + c == a + (b + c)
  {
  }

  /** `int()` reads back what `str()` writes, even with white space around it:
      `int(pre + str(n) + post) == n` for any white space `pre` and `post`. */
  lemma ParseIntRoundTrip(n: int, pre: string, post: string)
    requires AllSpace(pre) && AllSpace(post)
    ensures ParseInt(pre + IntToString(n) + post) == Some(n)
  {
    var a := IntToString(n) + post;
    if n < 0 {
      ParseUnsignedAfterMinus(n, post);
    } else {
      ParseUnsignedOfDigits(n, post);
    }
    ParseIntAfterSpace(pre, a);
    ConcatAssociates(pre, IntToString(n), post);
  }
}
