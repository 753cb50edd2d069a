/** String operations the app borrows from JavaScript's `String.prototype`:
    case mapping, `trim`, `includes`, number-to-text and `join`.

    Case mapping covers the ASCII letters only. */
module Text {
  import opened Common

  function LowerChar(c: char): (d: char)
    ensures 'A' <= c <= 'Z' ==> d as int == c as int + 32
    ensures !('A' <= c <= 'Z') ==> d == c
  {
    if 'A' <= c <= 'Z' then (c as int + 32) as char else c
  }

  function UpperChar(c: char): (d: char)
    ensures 'a' <= c <= 'z' ==> d as int == c as int - 32
    ensures !('a' <= c <= 'z') ==> d == c
  {
    if 'a' <= c <= 'z' then (c as int - 32) as char else c
  }

  /** `toLowerCase()`. */
  function ToLower(s: string): (r: string)
    ensures |r| == |s|
    ensures forall i :: 0 <= i < |s| ==> r[i] == LowerChar(s[i])
  {
    if s == [] then [] else [LowerChar(s[0])] + ToLower(s[1..])
  }

  /** `toUpperCase()`. */
  function ToUpper(s: string): (r: string)
    ensures |r| == |s|
    ensures forall i :: 0 <= i < |s| ==> r[i] == UpperChar(s[i])
  {
    if s == [] then [] else [UpperChar(s[0])] + ToUpper(s[1..])
  }

  /** The characters `String.prototype.trim` removes (ECMAScript WhiteSpace
      and LineTerminator). */
  predicate IsSpace(c: char)
  {
    c == ' ' || c == '\t' || c == '\n' || c == '\r' || c == '\U{000B}' || c == '\U{000C}'
    || c == '\U{00A0}' || c == '\U{1680}' || ('\U{2000}' <= c <= '\U{200A}')
    || c == '\U{2028}' || c == '\U{2029}' || c == '\U{202F}' || c == '\U{205F}'
    || c == '\U{3000}' || c == '\U{FEFF}'
  }

  function TrimStart(s: string): (r: string)
    ensures |r| <= |s|
    ensures r == [] || !IsSpace(r[0])
  {
    if s != [] && IsSpace(s[0]) then TrimStart(s[1..]) else s
  }

  function TrimEnd(s: string): (r: string)
    ensures |r| <= |s|
    ensures r == [] || !IsSpace(r[|r| - 1])
  {
    if s != [] && IsSpace(s[|s| - 1]) then TrimEnd(s[..|s| - 1]) else s
  }

  /** `trimStart` keeps a suffix of its input. */
  lemma {:induction false} TrimStartIsSuffix(s: string)
    ensures TrimStart(s) == s[|s| - |TrimStart(s)|..]
  {
    if s != [] && IsSpace(s[0]) {
      TrimStartIsSuffix(s[1..]);
      assert s[1..][|s| - 1 - |TrimStart(s)|..] == s[|s| - |TrimStart(s)|..];
    }
  }

  /** `trimEnd` keeps a prefix of its input. */
  lemma {:induction false} TrimEndIsPrefix(s: string)
    ensures TrimEnd(s) == s[..|TrimEnd(s)|]
  {
    if s != [] && IsSpace(s[|s| - 1]) {
      TrimEndIsPrefix(s[..|s| - 1]);
      assert s[..|s| - 1][..|TrimEnd(s)|] == s[..|TrimEnd(s)|];
    }
  }

  /** What `trimStart` cuts away is white space. */
  lemma {:induction false} TrimStartCutsSpace(s: string)
    ensures forall i :: 0 <= i < |s| - |TrimStart(s)| ==> IsSpace(s[i])
  {
    if s != [] && IsSpace(s[0]) {
      TrimStartCutsSpace(s[1..]);
      assert forall i :: 1 <= i < |s| ==> s[1..][i - 1] == s[i];
    }
  }

  /** What `trimEnd` cuts away is white space. */
  lemma {:induction false} TrimEndCutsSpace(s: string)
    ensures forall i :: |TrimEnd(s)| <= i < |s| ==> IsSpace(s[i])
  {
    if s != [] && IsSpace(s[|s| - 1]) {
      TrimEndCutsSpace(s[..|s| - 1]);
      assert forall i :: 0 <= i < |s| - 1 ==> s[..|s| - 1][i] == s[i];
    }
  }

  /** `sub` occurs in `s` starting at position `i`. */
  predicate OccursAt(s: string, sub: string, i: int)
  {
    0 <= i && i + |sub| <= |s| && s[i..i + |sub|] == sub
  }

  /** `trim()`: the result has no white space at either end. */
  function Trim(s: string): (r: string)
    ensures r == [] || (!IsSpace(r[0]) && !IsSpace(r[|r| - 1]))
  {
    var t := TrimStart(s);
    TrimEndIsPrefix(t);
    TrimEnd(t)
  }

  /** What `trim()` keeps is a slice of its input. */
  lemma TrimIsSlice(s: string)
    ensures exists k :: OccursAt(s, Trim(s), k)
  {
    var t := TrimStart(s);
    var r := Trim(s);
    TrimStartIsSuffix(s);
    TrimEndIsPrefix(t);
    assert s[|s| - |t|..|s| - |t| + |r|] == t[..|r|];
    assert OccursAt(s, r, |s| - |t|);
  }

  /** True when the whole string is white space, i.e. `!s.trim()`. */
  lemma {:induction false} TrimEmptyIffAllSpace(s: string)
    ensures Trim(s) == [] <==> forall i :: 0 <= i < |s| ==> IsSpace(s[i])
  {
    var t := TrimStart(s);
    if t == [] {
      TrimStartCutsSpace(s);
    } else {
      assert !IsSpace(t[0]);
      TrimEndCutsSpace(t);
      assert TrimEnd(t) != [];
      TrimStartIsSuffix(s);
      assert s[|s| - |t|] == t[0];
    }
  }

  predicate IsPrefix(p: string, s: string)
  {
    |p| <= |s| && s[..|p|] == p
  }

  /** `s.includes(sub)`: some slice of `s` equals `sub`. */
  ghost predicate Contains(s: string, sub: string)
  {
    exists i :: OccursAt(s, sub, i)
  }

  /** A decision procedure for `Contains`, scanning from the left. */
  function ContainsFrom(s: string, sub: string, i: nat): (b: bool)
    requires i <= |s|
    ensures b <==> exists j :: i <= j && OccursAt(s, sub, j)
    decreases |s| - i
  {
    if i + |sub| > |s| then false
    else if s[i..i + |sub|] == sub then assert OccursAt(s, sub, i); true
    else ContainsFrom(s, sub, i + 1)
  }

  function Includes(s: string, sub: string): (b: bool)
    ensures b <==> Contains(s, sub)
  {
    ContainsFrom(s, sub, 0)
  }

  function DigitChar(d: int): char
    requires 0 <= d < 10
  {
    "0123456789"[d]
  }

  /** Decimal text of a natural number, as `String(n)` prints it. */
  function NatToString(n: nat): (s: string)
    ensures |s| >= 1
    ensures forall i :: 0 <= i < |s| ==> '0' <= s[i] <= '9'
    ensures n < 10 <==> |s| == 1
    decreases n
  {
    if n < 10 then [DigitChar(n)] else NatToString(n / 10) + [DigitChar(n % 10)]
  }

  /** Decimal text of an integer, with a leading '-' when negative. */
  function IntToString(n: int): (s: string)
    ensures |s| >= 1
    ensures (n < 0) <==> s[0] == '-'
  {
    if n < 0 then "-" + NatToString(-n) else NatToString(n)
  }

  /** Reading the decimal text back gives the number: the text is an encoding. */
  function ParseNat(s: string): nat
  {
    if s == [] then 0
    else ParseNat(s[..|s| - 1]) * 10 + (if '0' <= s[|s| - 1] <= '9' then s[|s| - 1] as int - '0' as int else 0)
  }

  lemma {:induction false} NatToStringRoundTrip(n: nat)
    ensures ParseNat(NatToString(n)) == n
    decreases n
  {
    var s := NatToString(n);
    DigitCharValue(n % 10);
    if n >= 10 {
      NatToStringRoundTrip(n / 10);
      assert s[..|s| - 1] == NatToString(n / 10);
    } else {
      assert s[..0] == [];
    }
  }

  /** A digit character reads back as its digit. */
  lemma DigitCharValue(d: int)
    requires 0 <= d < 10
    ensures '0' <= DigitChar(d) <= '9' && DigitChar(d) as int - '0' as int == d
  {
  }

  predicate IsDigit(c: char)
  {
    '0' <= c <= '9'
  }

  /** Length of the run of decimal digits at the start of `s`. */
  function DigitRun(s: string): (k: nat)
    ensures k <= |s|
    ensures forall i :: 0 <= i < k ==> IsDigit(s[i])
    ensures k < |s| ==> !IsDigit(s[k])
  {
    if s != [] && IsDigit(s[0]) then 1 + DigitRun(s[1..]) else 0
  }

  /** `parseInt(s)` (radix 10): leading white space is skipped, one sign is
      read, then the longest run of digits; `None` (NaN) when there is no
      digit there. */
  function ParseInt(s: string): (r: Option<int>)
  {
    var t := TrimStart(s);
    var body := if t != [] && (t[0] == '-' || t[0] == '+') then t[1..] else t;
    var k := DigitRun(body);
    var v: int := if k == 0 then 0 else ParseNat(body[..k]);
    if k == 0 then None
    else if t[0] == '-' then Some(-v)
    else Some(v)
  }

  lemma {:induction false} DigitRunAll(s: string)
    requires forall i :: 0 <= i < |s| ==> IsDigit(s[i])
    ensures DigitRun(s) == |s|
  {
    if s != [] {
      DigitRunAll(s[1..]);
    }
  }

  /** `parseInt` reads back the text `String(n)` writes for an integer,
      whatever non-digit text follows it. */
  lemma ParseIntRoundTrip(n: int, rest: string)
    requires rest == [] || !IsDigit(rest[0])
    ensures ParseInt(IntToString(n) + rest) == Some(n)
  {
    if n < 0 {
      ParseNegative(n, rest);
    } else {
      ParseNonNegative(n, rest);
    }
  }

  lemma MinusText(n: int, rest: string)
    requires n < 0
    ensures IntToString(n) + rest == "-" + (NatToString(-n) + rest)
  {
    assert IntToString(n) == "-" + NatToString(-n);
  }

  lemma ParseNegative(n: int, rest: string)
    requires n < 0 && (rest == [] || !IsDigit(rest[0]))
    ensures ParseInt(IntToString(n) + rest) == Some(n)
  {
    var m: nat := -n;
    var d := NatToString(m);
    var s := IntToString(n) + rest;
    assert s != [] && s[0] == '-' && s[1..] == d + rest by {
      MinusText(n, rest);
    }
    assert d != [] && (forall i :: 0 <= i < |d| ==> IsDigit(d[i])) && ParseNat(d) == m by {
      NatToStringRoundTrip(m);
    }
    ParseMinus(s, d, rest, m);
  }

  /** `parseInt` of a minus sign, digits reading as `v`, and then a
      non-digit. */
  lemma ParseMinus(s: string, d: string, rest: string, v: int)
    requires s != [] && s[0] == '-' && s[1..] == d + rest
    requires d != [] && forall i :: 0 <= i < |d| ==> IsDigit(d[i])
    requires rest == [] || !IsDigit(rest[0])
    requires ParseNat(d) == v
    ensures ParseInt(s) == Some(-v)
  {
    assert DigitRun(s[1..]) == |d| && s[1..][..|d|] == d by {
      DigitsThen(d, rest);
    }
    assert TrimStart(s) == s by {
      NothingToTrim(s);
    }
    ParseIntSigned(s, |d|);
  }

  lemma NothingToTrim(s: string)
    requires s != [] && !IsSpace(s[0])
    ensures TrimStart(s) == s
  {
  }

  /** `parseInt` of a text with no leading white space that starts with a
      minus sign followed by `k` digits. */
  lemma ParseIntSigned(s: string, k: nat)
    requires s != [] && s[0] == '-' && TrimStart(s) == s
    requires 0 < k && DigitRun(s[1..]) == k
    ensures ParseInt(s) == Some(-(ParseNat(s[1..][..k]) as int))
  {
  }

  lemma ParseNonNegative(n: int, rest: string)
    requires n >= 0 && (rest == [] || !IsDigit(rest[0]))
    ensures ParseInt(IntToString(n) + rest) == Some(n)
  {
    var d := NatToString(n);
    assert IntToString(n) + rest == d + rest;
    ParseDigits(d, rest);
    NatToStringRoundTrip(n);
  }

  /** `parseInt` of a run of digits followed by a non-digit reads the
      digits. */
  lemma ParseDigits(d: string, rest: string)
    requires d != [] && forall i :: 0 <= i < |d| ==> IsDigit(d[i])
    requires rest == [] || !IsDigit(rest[0])
    ensures ParseInt(d + rest) == Some(ParseNat(d))
  {
    var s := d + rest;
    assert s[0] == d[0];
    NothingToTrim(s);
    DigitsThen(d, rest);
    ParseIntUnsigned(s, |d|);
  }

  /** `parseInt` of a text with no leading white space that starts with
      `k` digits. */
  lemma ParseIntUnsigned(s: string, k: nat)
    requires s != [] && IsDigit(s[0]) && TrimStart(s) == s
    requires 0 < k && DigitRun(s) == k
    ensures ParseInt(s) == Some(ParseNat(s[..k]))
  {
  }

  /** The digit run of a number's digits followed by a non-digit is those
      digits. */
  lemma DigitsThen(d: string, rest: string)
    requires forall i :: 0 <= i < |d| ==> IsDigit(d[i])
    requires rest == [] || !IsDigit(rest[0])
    ensures DigitRun(d + rest) == |d| && (d + rest)[..|d|] == d
  {
    DigitRunAll(d);
    DigitRunAppend(d, rest);
  }

  lemma {:induction false} DigitRunAppend(d: string, rest: string)
    requires DigitRun(d) == |d|
    requires rest == [] || !IsDigit(rest[0])
    ensures DigitRun(d + rest) == |d|
  {
    if d != [] {
      assert (d + rest)[1..] == d[1..] + rest;
      DigitRunAppend(d[1..], rest);
    } else {
      assert d + rest == rest;
    }
  }

  /** `parts.join(sep)`. */
  function Join(parts: seq<string>, sep: string): (r: string)
    ensures parts == [] ==> r == []
    ensures |parts| == 1 ==> r == parts[0]
  {
    if parts == [] then []
    else if |parts| == 1 then parts[0]
    else parts[0] + sep + Join(parts[1..], sep)
  }

  /** Number of occurrences of `c` in `s`. */
  function CountChar(s: string, c: char): nat
  {
    if s == [] then 0 else (if s[0] == c then 1 else 0) + CountChar(s[1..], c)
  }

  lemma {:induction false} CountCharAppend(a: string, b: string, c: char)
    ensures CountChar(a + b, c) == CountChar(a, c) + CountChar(b, c)
  {
    if a == [] {
      assert a + b == b;
    } else {
      assert (a + b)[1..] == a[1..] + b;
      CountCharAppend(a[1..], b, c);
    }
  }

  /** Joining pieces that contain no separator character puts exactly one
      separator between neighbours. */
  lemma {:induction false} JoinCountsSeparators(parts: seq<string>, c: char)
    requires forall i :: 0 <= i < |parts| ==> CountChar(parts[i], c) == 0
    ensures CountChar(Join(parts, [c]), c) == if parts == [] then 0 else |parts| - 1
  {
    if |parts| > 1 {
      JoinCountsSeparators(parts[1..], c);
      CountCharAppend(parts[0] + [c], Join(parts[1..], [c]), c);
      CountCharAppend(parts[0], [c], c);
      assert CountChar([c], c) == 1;
    }
  }

  /** `s.split(c)` for a one-character separator: the pieces between
      separators, one more than there are separators. */
  function Split(s: string, c: char): (r: seq<string>)
    ensures |r| >= 1
  {
    if s == [] then [[]]
    else
      var rest := Split(s[1..], c);
      if s[0] == c then [[]] + rest else [[s[0]] + rest[0]] + rest[1..]
  }

  /** A piece without separator glues onto the first piece after it. */
  lemma {:induction false} SplitPrefix(p: string, rest: string, c: char)
    requires CountChar(p, c) == 0
    ensures Split(p + rest, c) == [p + Split(rest, c)[0]] + Split(rest, c)[1..]
  {
    if p != [] {
      var q, tail := p + rest, Split(rest, c);
      assert p[0] != c && CountChar(p[1..], c) == 0;
      assert q[0] == p[0] && q[1..] == p[1..] + rest;
      var r := Split(q[1..], c);
      assert Split(q, c) == [[p[0]] + r[0]] + r[1..];
      assert r == [p[1..] + tail[0]] + tail[1..] by {
        SplitPrefix(p[1..], rest, c);
      }
      assert [p[0]] + (p[1..] + tail[0]) == p + tail[0];
    } else {
      var r := Split(rest, c);
      assert p + rest == rest && p + r[0] == r[0] && r == [r[0]] + r[1..];
    }
  }

  /** Splitting undoes joining when no piece holds the separator. */
  lemma {:induction false} SplitJoin(parts: seq<string>, c: char)
    requires parts != []
    requires forall i :: 0 <= i < |parts| ==> CountChar(parts[i], c) == 0
    ensures Split(Join(parts, [c]), c) == parts
  {
    if |parts| == 1 {
      SplitPrefix(parts[0], [], c);
      assert parts[0] + [] == parts[0];
    } else {
      var tail := Join(parts[1..], [c]);
      SplitJoin(parts[1..], c);
      assert parts[0] + [c] + tail == parts[0] + ([c] + tail);
      SplitPrefix(parts[0], [c] + tail, c);
      assert ([c] + tail)[0] == c && ([c] + tail)[1..] == tail;
      assert Split([c] + tail, c) == [[]] + parts[1..];
      assert parts[0] + [] == parts[0];
      assert parts == [parts[0]] + parts[1..];
    }
  }

  /** A join of pieces without `c`, and a separator other than `c`, has no `c`. */
  lemma {:induction false} JoinWithout(parts: seq<string>, sep: char, c: char)
    requires sep != c
    requires forall i :: 0 <= i < |parts| ==> CountChar(parts[i], c) == 0
    ensures CountChar(Join(parts, [sep]), c) == 0
  {
    if |parts| > 1 {
      JoinWithout(parts[1..], sep, c);
      CountCharAppend(parts[0] + [sep], Join(parts[1..], [sep]), c);
      CountCharAppend(parts[0], [sep], c);
    }
  }

  /** The text of a number is made of digits and at most a leading '-'. */
  lemma IntToStringChars(n: int)
    ensures forall k :: 0 <= k < |IntToString(n)| ==> IsDigit(IntToString(n)[k]) || (k == 0 && IntToString(n)[k] == '-')
  {
    if n < 0 {
      var d := NatToString(-n);
      assert forall k :: 1 <= k < |IntToString(n)| ==> IntToString(n)[k] == d[k - 1];
    }
  }

  /** No character other than a digit or '-' occurs in a number's text. */
  lemma NoLetterInNumber(n: int, c: char)
    requires c != '-' && !IsDigit(c)
    ensures forall k :: 0 <= k < |IntToString(n)| ==> IntToString(n)[k] != c
  {
    IntToStringChars(n);
  }

  /** A number's text is digits after an optional minus sign. */
  lemma NumberWithout(n: int, c: char)
    requires c != '-' && !('0' <= c <= '9')
    ensures CountChar(IntToString(n), c) == 0
  {
    var s := IntToString(n);
    if n < 0 {
      DigitsWithout(NatToString(-n), c);
      CountCharAppend("-", NatToString(-n), c);
    } else {
      DigitsWithout(s, c);
    }
  }

  lemma {:induction false} DigitsWithout(s: string, c: char)
    requires forall i :: 0 <= i < |s| ==> s[i] != c
    ensures CountChar(s, c) == 0
  {
    if s != [] {
      DigitsWithout(s[1..], c);
    }
  }
}
