/** Integer formatting of lib/cppcms/private/format_number.h: truncating-division digits
    into a local buffer, reversed in place and copied out. */
module FormatNumber {

  const NUL: char := '\0'

  function Pow10(n: nat): (p: nat)
    ensures p >= 1
  {
    if n == 0 then 1 else 10 * Pow10(n - 1)
  }

  function DigitChar(d: nat): char
    requires d < 10
  {
    ('0' as int + d) as char
  }

  predicate IsDigit(c: char) {
    '0' <= c <= '9'
  }

  function DigitValue(c: char): nat
    requires IsDigit(c)
  {
    c as int - '0' as int
  }

  // ----- decimal numerals

  function Digits(n: nat): (s: string)
    ensures |s| > 0 && forall i :: 0 <= i < |s| ==> IsDigit(s[i])
  {
    if n < 10 then [DigitChar(n)] else Digits(n / 10) + [DigitChar(n % 10)]
  }

  /** The canonical decimal text of an integer. */
  function Decimal(v: int): string {
    if v < 0 then "-" + Digits(-v) else Digits(v)
  }

  predicate AllDigits(s: string) {
    forall i :: 0 <= i < |s| ==> IsDigit(s[i])
  }

  /** The value of a digit string, as `atoi` reads it. */
  function ParseDigits(s: string): nat
    requires AllDigits(s)
  {
    if s == [] then 0 else 10 * ParseDigits(s[..|s| - 1]) + DigitValue(s[|s| - 1])
  }

  /** No superfluous zeros in front. */
  predicate CanonicalDigits(s: string) {
    AllDigits(s) && |s| > 0 && (s[0] == '0' ==> |s| == 1)
  }

  predicate Canonical(s: string) {
    if |s| > 0 && s[0] == '-' then CanonicalDigits(s[1..]) && s[1] != '0' else CanonicalDigits(s)
  }

  function Parse(s: string): int
    requires Canonical(s)
  {
    var n: int := ParseDigits(if s[0] == '-' then s[1..] else s);
    if s[0] == '-' then -n else n
  }

  lemma {:induction false} DigitsCanonical(n: nat)
    ensures CanonicalDigits(Digits(n)) && ParseDigits(Digits(n)) == n
    ensures Digits(n)[0] == '0' <==> n == 0
  {
    if n >= 10 {
      DigitsCanonical(n / 10);
      var s := Digits(n);
      assert s[..|s| - 1] == Digits(n / 10);
      assert s[0] == Digits(n / 10)[0];
    } else {
      assert Digits(n)[..0] == [];
    }
  }

  lemma {:induction false} CanonicalDigitsUnique(s: string)
    requires CanonicalDigits(s)
    ensures Digits(ParseDigits(s)) == s
    ensures s[0] != '0' ==> ParseDigits(s) > 0
  {
    var rest, last := s[..|s| - 1], DigitValue(s[|s| - 1]);
    if rest == [] {
      assert s == [DigitChar(last)];
    } else {
      assert rest[0] == s[0] != '0';
      CanonicalDigitsUnique(rest);
      assert ParseDigits(s) / 10 == ParseDigits(rest) && ParseDigits(s) % 10 == last;
      assert s == rest + [DigitChar(last)];
    }
  }

  /** Formatting then parsing gives the value back. */
  lemma DecimalParses(v: int)
    ensures Canonical(Decimal(v)) && Parse(Decimal(v)) == v
  {
    if v < 0 {
      DigitsCanonical(-v);
      assert Decimal(v)[1..] == Digits(-v);
    } else {
      DigitsCanonical(v);
    }
  }

  /** Parsing then formatting gives the text back: canonical text and value determine each other. */
  lemma ParseFormats(s: string)
    requires Canonical(s)
    ensures Decimal(Parse(s)) == s
  {
    if s[0] == '-' {
      CanonicalDigitsUnique(s[1..]);
      assert s == "-" + s[1..];
    } else {
      CanonicalDigitsUnique(s);
    }
  }

  lemma {:induction false} DigitsLength(n: nat, k: nat)
    requires n < Pow10(k + 1)
    ensures |Digits(n)| <= k + 1
  {
    if n >= 10 {
      DigitsLength(n / 10, k - 1);
    }
  }

  // ----- the formatter

  /** Division and remainder truncating toward zero, as in C++. */
  function TruncDiv(a: int, b: int): int
    requires b > 0
  {
    if a >= 0 then a / b else -((-a) / b)
  }

  function TruncMod(a: int, b: int): int
    requires b > 0
  {
    a - b * TruncDiv(a, b)
  }

  function Abs(v: int): nat {
    if v < 0 then -v else v
  }

  function Reversed(s: string): (r: string)
    ensures |r| == |s|
  {
    if s == [] then [] else Reversed(s[1..]) + [s[0]]
  }

  lemma {:induction false} ReversedIndex(s: string)
    ensures forall k :: 0 <= k < |s| ==> Reversed(s)[k] == s[|s| - 1 - k]
  {
    if s != [] {
      ReversedIndex(s[1..]);
      forall k | 0 <= k < |s|
        ensures Reversed(s)[k] == s[|s| - 1 - k]
      {
        if k < |s| - 1 {
          assert Reversed(s)[k] == Reversed(s[1..])[k] == s[1..][|s| - 2 - k];
        }
      }
    }
  }

  lemma {:induction false} ReversedSnoc(s: string, c: char)
    ensures Reversed(s + [c]) == [c] + Reversed(s)
  {
    if s == [] {
      assert Reversed([c]) == [c];
    } else {
      assert (s + [c])[1..] == s[1..] + [c];
      ReversedSnoc(s[1..], c);
    }
  }

  /** The digits of what is left of the value; none once it is zero. */
  function Rest(v: int): string {
    if v == 0 then [] else Digits(Abs(v))
  }

  lemma NextDigit(v: int)
    requires v != 0
    ensures var d := TruncMod(v, 10);
            && -9 <= d <= 9
            && Rest(v) == Rest(TruncDiv(v, 10)) + [DigitChar(Abs(d))]
            && Abs(TruncDiv(v, 10)) < Abs(v)
  {
  }

  /** One turn of the digit loop, on the text. */
  lemma DigitWritten(v: int, written: string, all: string)
    requires v != 0 && all == Rest(v) + Reversed(written)
    ensures all == Rest(TruncDiv(v, 10)) + Reversed(written + [DigitChar(Abs(TruncMod(v, 10)))])
  {
    var c := DigitChar(Abs(TruncMod(v, 10)));
    NextDigit(v);
    ReversedSnoc(written, c);
    Associates(Rest(TruncDiv(v, 10)), [c], Reversed(written));
  }

  lemma Associates(a: string, b: string, c: string)
    ensures (a + b) + c == a + (b + c)
  {
  }

  /** A negative remainder is subtracted from '0', a positive one added to it. */
  method PutDigit(buf: array<char>, p: nat, digit: int)
    requires p < buf.Length && -9 <= digit <= 9
    modifies buf
    ensures buf[p] == DigitChar(Abs(digit))
    ensures forall k :: 0 <= k < buf.Length && k != p ==> buf[k] == old(buf[k])
  {
    if digit < 0 {
      buf[p] := ('0' as int - digit) as char;
    } else {
      buf[p] := ('0' as int + digit) as char;
    }
  }

  ghost predicate Holds(buf: array<char>, start: nat, written: string)
    reads buf
  {
    start + |written| <= buf.Length && forall k :: 0 <= k < |written| ==> buf[start + k] == written[k]
  }

  /** One turn of the digit loop. */
  method WriteDigit(v: int, buf: array<char>, start: nat, p: nat, ghost written: string, ghost all: string)
    returns (v': int, ghost written': string)
    requires v != 0 && all == Rest(v) + Reversed(written)
    requires p == start + |written| < buf.Length && Holds(buf, start, written)
    modifies buf
    ensures all == Rest(v') + Reversed(written') && Abs(v') < Abs(v)
    ensures |written'| == |written| + 1 && Holds(buf, start, written')
    ensures forall k :: 0 <= k < start ==> buf[k] == old(buf[k])
  {
    NextDigit(v);
    DigitWritten(v, written, all);
    hide Rest, Reversed, TruncDiv, TruncMod, DigitChar, Abs;
    var digit := TruncMod(v, 10);
    v' := TruncDiv(v, 10);
    PutDigit(buf, p, digit);
    written' := written + [buf[p]];
  }

  /** Write the digits of `value` from `start`, least significant first. */
  method WriteDigits(value: int, buf: array<char>, start: nat) returns (p: nat)
    requires value != 0 && start + |Digits(Abs(value))| < buf.Length
    modifies buf
    ensures p == start + |Digits(Abs(value))|
    ensures Reversed(buf[start..p]) == Digits(Abs(value))
    ensures forall k :: 0 <= k < start ==> buf[k] == old(buf[k])
  {
    ghost var all := Digits(Abs(value));
    ghost var written: string := [];
    var v := value;
    p := start;
    assert Rest(v) == all && Reversed(written) == [] && Rest(0) == [] && (v != 0 ==> |Rest(v)| > 0);
    while v != 0
      invariant p == start + |written| && all == Rest(v) + Reversed(written) && Holds(buf, start, written)
      invariant forall k :: 0 <= k < start ==> buf[k] == old(buf[k])
      decreases Abs(v)
    {
      assert |Rest(v)| > 0;
      v, written := WriteDigit(v, buf, start, p, written, all);
      p := p + 1;
    }
    assert buf[start..p] == written;
  }

  /** Reverse buf[first..last + 1] in place by swapping from both ends. */
  method ReverseInPlace(buf: array<char>, first: nat, last: int)
    requires first <= last + 1 <= buf.Length
    modifies buf
    ensures buf[first..last + 1] == Reversed(old(buf[first..last + 1]))
    ensures forall k :: 0 <= k < buf.Length && !(first <= k <= last) ==> buf[k] == old(buf[k])
  {
    ghost var was := buf[..];
    var i, p := first, last;
    while i < p
      invariant first <= i <= p + 2 && i - first == last - p
      invariant forall k :: first <= k < i ==> buf[k] == was[first + last - k]
      invariant forall k :: p < k <= last ==> buf[k] == was[first + last - k]
      invariant forall k :: 0 <= k < buf.Length && !(first <= k < i) && !(p < k <= last) ==> buf[k] == was[k]
    {
      buf[i], buf[p] := buf[p], buf[i];
      i := i + 1;
      p := p - 1;
    }
    ReversedWhen(was[first..last + 1], buf[first..last + 1]);
  }

  lemma ReversedWhen(s: string, t: string)
    requires |t| == |s| && forall k :: 0 <= k < |s| ==> t[k] == s[|s| - 1 - k]
    ensures t == Reversed(s)
  {
    ReversedIndex(s);
  }

  /** `strncpy`: copy up to a NUL, then pad with NULs. */
  method CopyText(output: array<char>, buf: array<char>, count: nat, ghost text: string)
    requires count <= output.Length && |text| < buf.Length && output != buf
    requires buf[..|text|] == text && NUL !in text && buf[|text|] == NUL
    modifies output
    ensures forall i :: 0 <= i < count ==> output[i] == if i < |text| then text[i] else NUL
  {
    var i := 0;
    while i < count && buf[i] != NUL
      invariant i <= count && i <= |text|
      invariant forall k :: 0 <= k < i ==> output[k] == text[k]
    {
      assert buf[i] == text[i];
      output[i] := buf[i];
      i := i + 1;
    }
    assert i < |text| ==> text[i] in text;
    while i < count
      invariant i <= count
      invariant forall k :: 0 <= k < i ==> output[k] == if k < |text| then text[k] else NUL
      invariant i < count ==> |text| <= i
    {
      output[i] := NUL;
      i := i + 1;
    }
  }

  /** The text put in the local buffer; `digits10` is that of the value type. */
  method FormatLocal(v: int, digits10: nat) returns (buf: array<char>)
    requires Abs(v) < Pow10(digits10 + 1)
    ensures fresh(buf) && |Decimal(v)| < buf.Length == digits10 + 10
    ensures buf[..|Decimal(v)|] == Decimal(v) && buf[|Decimal(v)|] == NUL
  {
    DigitsLength(Abs(v), digits10);
    buf := new char[digits10 + 10](_ => NUL);
    var start := 0;
    if v < 0 {
      buf[0] := '-';
      start := 1;
    }
    if v == 0 {
      buf[start] := '0';
      buf[start + 1] := NUL;
    } else {
      var p := WriteDigits(v, buf, start);
      ghost var written := buf[start..p];
      buf[p] := NUL;
      assert buf[start..p] == written;
      ReverseInPlace(buf, start, p - 1);
      assert buf[..p] == buf[..start] + buf[start..p];
    }
  }

  /** The result is the canonical decimal text, cut to the room there is, NUL terminated. */
  method Format(v: int, digits10: nat, output: array<char>)
    requires Abs(v) < Pow10(digits10 + 1) && output.Length >= 1
    modifies output
    ensures forall i :: 0 <= i < output.Length ==>
              output[i] == if i < |Decimal(v)| && i < output.Length - 1 then Decimal(v)[i] else NUL
    ensures |Decimal(v)| < output.Length ==> output[..|Decimal(v)|] == Decimal(v) && output[|Decimal(v)|] == NUL
  {
    var buf := FormatLocal(v, digits10);
    CopyText(output, buf, output.Length - 1, Decimal(v));
    output[output.Length - 1] := NUL;
  }
}
