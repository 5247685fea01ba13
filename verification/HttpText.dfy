/** Characters, views into a buffer, and the C library scans the parsers use. */
module HttpText {
  import opened Options

  /** A string_view into the parsed buffer: the characters from lo up to hi. */
  datatype View = View(lo: nat, hi: nat)

  const NO_VIEW := View(0, 0)

  function Text(buf: string, v: View): string
  {
    if v.lo <= v.hi <= |buf| then buf[v.lo..v.hi] else []
  }

  // A buffer is a string of octets; an octet from 128 on is a negative char.  The character classes
  // are those of the C locale.

  predicate IsDigit(c: char)
  {
    '0' <= c <= '9'
  }

  predicate IsAlpha(c: char)
  {
    'a' <= c <= 'z' || 'A' <= c <= 'Z'
  }

  predicate IsAlnum(c: char)
  {
    IsAlpha(c) || IsDigit(c)
  }

  predicate IsSpace(c: char)
  {
    c == ' ' || 9 <= c as int <= 13
  }

  predicate AllDigits(s: string)
  {
    forall k :: 0 <= k < |s| ==> IsDigit(s[k])
  }

  predicate AllAlpha(s: string)
  {
    forall k :: 0 <= k < |s| ==> IsAlpha(s[k])
  }

  // ---------------------------------------------------------------- find

  predicate Occurs(text: string, pattern: string, at: nat)
  {
    at + |pattern| <= |text| && text[at..at + |pattern|] == pattern
  }

  /** string_view::find from a position on. */
  function FindFrom(text: string, pattern: string, from: nat): (r: Option<nat>)
    ensures r.Some? ==> from <= r.value && Occurs(text, pattern, r.value)
    ensures forall at {:trigger Occurs(text, pattern, at)} ::
              from <= at && (r.Some? ==> at < r.value) ==> !Occurs(text, pattern, at)
    decreases |text| - from
  {
    if from + |pattern| > |text| then None
    else if Occurs(text, pattern, from) then Some(from)
    else FindFrom(text, pattern, from + 1)
  }

  function Find(text: string, pattern: string): Option<nat>
  {
    FindFrom(text, pattern, 0)
  }

  // ---------------------------------------------------------------- atoi

  const INT_MIN: int := -0x8000_0000
  const INT_MAX: int := 0x7FFF_FFFF

  function SkipSpaces(s: string, i: nat): (r: nat)
    requires i <= |s|
    ensures i <= r <= |s|
    ensures forall k :: i <= k < r ==> IsSpace(s[k])
    ensures r < |s| ==> !IsSpace(s[r])
    decreases |s| - i
  {
    if i < |s| && IsSpace(s[i]) then SkipSpaces(s, i + 1) else i
  }

  function DigitsEnd(s: string, i: nat): (r: nat)
    requires i <= |s|
    ensures i <= r <= |s|
    ensures AllDigits(s[i..r])
    ensures r < |s| ==> !IsDigit(s[r])
    decreases |s| - i
  {
    if i < |s| && IsDigit(s[i]) then DigitsEnd(s, i + 1) else i
  }

  /** The value of a string of decimal digits. */
  function Decimal(s: string): (r: nat)
    requires AllDigits(s)
  {
    if s == [] then 0 else 10 * Decimal(s[..|s| - 1]) + (s[|s| - 1] - '0') as nat
  }

  /** atoi on the buffer from i on.  None when it would read beyond the buffer, or when the number is
      outside int, which the C standard leaves undefined. */
  function Atoi(s: string, i: nat): (r: Option<int>)
    requires i <= |s|
    ensures r.Some? ==> INT_MIN <= r.value <= INT_MAX
  {
    var j := SkipSpaces(s, i);
    var k := if j < |s| && (s[j] == '-' || s[j] == '+') then j + 1 else j;
    var e := DigitsEnd(s, k);
    if e == |s| then None else
    var d: int := Decimal(s[k..e]);
    var n := if j < |s| && s[j] == '-' then -d else d;
    if INT_MIN <= n <= INT_MAX then Some(n) else None
  }

  /** Where the scan of atoi from i on stops. */
  function AtoiEnd(s: string, i: nat): (r: nat)
    requires i <= |s|
    ensures i <= r <= |s|
  {
    var j := SkipSpaces(s, i);
    DigitsEnd(s, if j < |s| && (s[j] == '-' || s[j] == '+') then j + 1 else j)
  }

  /** Printing a natural number in decimal. */
  function PrintDecimal(n: nat): (r: string)
    ensures |r| >= 1 && AllDigits(r)
  {
    var last := [('0' as int + n % 10) as char];
    if n < 10 then last else PrintDecimal(n / 10) + last
  }

  lemma {:induction false} DecimalOfPrint(n: nat)
    ensures Decimal(PrintDecimal(n)) == n
  {
    if n >= 10 {
      DecimalOfPrint(n / 10);
      var p := PrintDecimal(n);
      assert p[..|p| - 1] == PrintDecimal(n / 10);
    } else {
      assert PrintDecimal(n)[..0] == [];
      assert Decimal([]) == 0;
    }
  }

  // ---------------------------------------------------------------- what stands where in a buffer

  ghost predicate At(buf: string, i: nat, s: string)
  {
    i + |s| <= |buf| && buf[i..i + |s|] == s
  }

  lemma AtSplit(buf: string, i: nat, s: string, t: string)
    requires At(buf, i, s + t)
    ensures At(buf, i, s) && At(buf, i + |s|, t)
  {
    assert buf[i..i + |s|] == buf[i..i + |s + t|][..|s|];
    assert buf[i + |s|..i + |s| + |t|] == buf[i..i + |s + t|][|s|..];
  }

  lemma AtChar(buf: string, i: nat, s: string, k: nat)
    requires At(buf, i, s) && k < |s|
    ensures i + k < |buf| && buf[i + k] == s[k]
  {
  }

  lemma Suffix(s: string, t: string)
    ensures (s + t)[|s|..|s| + |t|] == t
  {
  }

  lemma AtText(buf: string, i: nat, s: string)
    requires At(buf, i, s)
    ensures i + |s| <= |buf| && Text(buf, View(i, i + |s|)) == s
  {
  }

  lemma AtJoin(buf: string, i: nat, s: string, t: string)
    requires At(buf, i, s) && At(buf, i + |s|, t)
    ensures At(buf, i, s + t)
  {
  }

  lemma AtSlice(buf: string, i: nat, e: nat)
    requires i <= e < |buf|
    ensures At(buf, i, buf[i..e] + [buf[e]])
  {
    assert buf[i..e + 1] == buf[i..e] + [buf[e]];
  }

  lemma AtRest(buf: string, i: nat)
    requires i <= |buf|
    ensures At(buf, i, buf[i..])
  {
  }

  lemma IsBreak(buf: string, i: nat)
    requires i + 1 < |buf| && buf[i] == '\r' && buf[i + 1] == '\n'
    ensures At(buf, i, "\r\n")
  {
  }

  /** The end of a line. */
  lemma AtBreak(buf: string, i: nat)
    requires At(buf, i, "\r\n")
    ensures i + 1 < |buf| && buf[i] == '\r' && buf[i + 1] == '\n'
  {
  }

  // ---------------------------------------------------------------- plain decimals

  lemma {:induction false} DigitsRun(s: string, i: nat, n: nat)
    requires i + n < |s| && (forall k :: i <= k < i + n ==> IsDigit(s[k])) && !IsDigit(s[i + n])
    ensures DigitsEnd(s, i) == i + n
    decreases n
  {
  }

  lemma NotSpace(s: string, i: nat)
    requires i < |s| && IsDigit(s[i])
    ensures SkipSpaces(s, i) == i
  {
  }

  /** atoi reads a plain decimal that something else follows. */
  lemma PlainDecimal(buf: string, at: nat, value: string)
    requires At(buf, at, value) && |value| >= 1 && AllDigits(value)
    requires at + |value| < |buf| && !IsDigit(buf[at + |value|])
    ensures Atoi(buf, at) == if Decimal(value) <= INT_MAX then Some(Decimal(value)) else None
  {
    hide SkipSpaces, DigitsEnd, Decimal, At, IsSpace;
    AtText(buf, at, value);
    forall k | at <= k < at + |value| ensures IsDigit(buf[k]) {
      AtChar(buf, at, value, k - at);
    }
    NotSpace(buf, at);
    DigitsRun(buf, at, |value|);
    assert buf[at..at + |value|] == value;
    hide AllDigits;
  }

  // ---------------------------------------------------------------- any number

  /** What atoi makes of a sign and digits. */
  function Signed(sign: string, digits: string): int
    requires AllDigits(digits)
  {
    if sign == "-" then -(Decimal(digits) as int) else Decimal(digits)
  }

  predicate AllSpaces(s: string)
  {
    forall k :: 0 <= k < |s| ==> IsSpace(s[k])
  }

  /** The scan of atoi ends here: spaces, perhaps a sign, digits, and then something that continues none of them. */
  ghost predicate NumberAt(buf: string, at: nat, spaces: string, sign: string, digits: string)
  {
    && At(buf, at, spaces + (sign + digits)) && AllSpaces(spaces) && sign in {"", "+", "-"} && AllDigits(digits)
    && (var e := at + |spaces| + |sign| + |digits|;
        e < |buf| && !IsDigit(buf[e])
        && (digits == "" && sign == "" ==> !IsSpace(buf[e]) && buf[e] != '+' && buf[e] != '-'))
  }

  lemma {:induction false} SpacesRun(s: string, i: nat, n: nat)
    requires i + n < |s| && (forall k :: i <= k < i + n ==> IsSpace(s[k])) && !IsSpace(s[i + n])
    ensures SkipSpaces(s, i) == i + n
    decreases n
  {
    if n > 0 {
      SpacesRun(s, i + 1, n - 1);
    }
  }

  lemma NumberPieces(buf: string, at: nat, spaces: string, sign: string, digits: string)
    requires NumberAt(buf, at, spaces, sign, digits)
    ensures var j := at + |spaces|;
            var k := j + |sign|;
            var e := k + |digits|;
            e < |buf| && !IsDigit(buf[e]) && buf[k..e] == digits
            && (forall x :: at <= x < j ==> IsSpace(buf[x])) && (forall x :: k <= x < e ==> IsDigit(buf[x]))
            && !IsSpace(buf[j]) && (buf[j] == '-' <==> sign == "-") && (buf[j] == '+' <==> sign == "+")
  {
    hide At, IsSpace, IsDigit;
    AtSplit(buf, at, spaces, sign + digits);
    AtSplit(buf, at + |spaces|, sign, digits);
    AtText(buf, at + |spaces| + |sign|, digits);
    forall x | at <= x < at + |spaces| ensures IsSpace(buf[x]) {
      AtChar(buf, at, spaces, x - at);
    }
    var k := at + |spaces| + |sign|;
    forall x | k <= x < k + |digits| ensures IsDigit(buf[x]) {
      AtChar(buf, k, digits, x - k);
    }
    if sign != "" {
      AtChar(buf, at + |spaces|, sign, 0);
    } else if digits != "" {
      assert IsDigit(buf[k]);
    }
    Classes(buf[at + |spaces|]);
  }

  lemma Classes(c: char)
    ensures IsDigit(c) ==> !IsSpace(c) && c != '+' && c != '-'
    ensures IsSpace(c) ==> c != '+' && c != '-'
  {
  }

  /** atoi on any number: blanks before it and its sign are read as the C standard has it. */
  lemma AnyNumber(buf: string, at: nat, spaces: string, sign: string, digits: string)
    requires NumberAt(buf, at, spaces, sign, digits)
    ensures at <= |buf|
    ensures var n := Signed(sign, digits);
            Atoi(buf, at) == if INT_MIN <= n <= INT_MAX then Some(n) else None
  {
    NumberPieces(buf, at, spaces, sign, digits);
    var j := at + |spaces|;
    var k := j + |sign|;
    hide At, NumberAt, IsSpace;
    SpacesRun(buf, at, |spaces|);
    DigitsRun(buf, k, |digits|);
    hide SkipSpaces, DigitsEnd, Decimal, IsDigit;
  }
}
