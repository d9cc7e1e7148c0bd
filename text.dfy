/** String helpers the importer relies on: Go's `%0<w>d` decimal formatting,
    ASCII lower-casing (strings.ToLower) and the printable-ASCII filter that
    stripUnicode/stripUnicodeStr apply after NFKD normalisation. */
module Text {

  predicate IsDigit(c: char) { '0' <= c <= '9' }

  predicate AllDigits(s: string) { forall i :: 0 <= i < |s| ==> IsDigit(s[i]) }

  function DigitChar(d: nat): (c: char)
    requires d < 10
    ensures IsDigit(c) && DigitValue(c) == d
  {
    ('0' as int + d) as char
  }

  function DigitValue(c: char): nat
    requires IsDigit(c)
  {
    c as int - '0' as int
  }

  function Pow10(k: nat): (p: nat)
    ensures p >= 1
  {
    if k == 0 then 1 else 10 * Pow10(k - 1)
  }

  /** The decimal digits of n, most significant first, without leading zeros. */
  function Digits(n: nat): (s: string)
    ensures |s| >= 1 && AllDigits(s)
  {
    if n < 10 then [DigitChar(n)] else Digits(n / 10) + [DigitChar(n % 10)]
  }

  /** The number a digit string denotes. */
  function Value(s: string): nat
    requires AllDigits(s)
  {
    if s == [] then 0 else Value(s[..|s| - 1]) * 10 + DigitValue(s[|s| - 1])
  }

  function Zeros(k: nat): (z: string)
    ensures |z| == k && AllDigits(z)
  {
    seq(k, _ => '0')
  }

  /** Left-pads s with '0' up to width characters (the `0` flag of fmt verbs). */
  function ZeroPad(s: string, width: nat): (r: string)
    ensures |r| == if |s| >= width then |s| else width
    ensures AllDigits(s) ==> AllDigits(r)
  {
    if |s| >= width then s else Zeros(width - |s|) + s
  }

  /** Go's fmt verb `%0<width>d` (width 0 is plain `%d`): the sign, when there is one,
      counts towards the width and the zeros go between the sign and the digits. */
  function FormatInt(n: int, width: nat): string
  {
    if n < 0 then "-" + ZeroPad(Digits(-n), if width > 0 then width - 1 else 0)
    else ZeroPad(Digits(n), width)
  }

  lemma {:induction false} ValueOfDigits(n: nat)
    ensures Value(Digits(n)) == n
  {
    if n >= 10 {
      var s := Digits(n);
      assert s[..|s| - 1] == Digits(n / 10);
      ValueOfDigits(n / 10);
    }
  }

  lemma {:induction false} ValueOfZeros(k: nat)
    ensures Value(Zeros(k)) == 0
  {
    if k > 0 {
      assert Zeros(k)[..k - 1] == Zeros(k - 1);
      ValueOfZeros(k - 1);
    }
  }

  lemma {:induction false} LeadingZerosIgnored(k: nat, s: string)
    requires AllDigits(s)
    ensures AllDigits(Zeros(k) + s) && Value(Zeros(k) + s) == Value(s)
  {
    if s == [] {
      assert Zeros(k) + s == Zeros(k);
      ValueOfZeros(k);
    } else {
      var t := Zeros(k) + s;
      assert t[..|t| - 1] == Zeros(k) + s[..|s| - 1];
      LeadingZerosIgnored(k, s[..|s| - 1]);
    }
  }

  /** Padding a digit string never changes the number it denotes. */
  lemma ZeroPadValue(s: string, width: nat)
    requires AllDigits(s)
    ensures Value(ZeroPad(s, width)) == Value(s)
  {
    if |s| < width {
      LeadingZerosIgnored(width - |s|, s);
    }
  }

  lemma {:induction false} DigitsLength(n: nat, k: nat)
    requires 1 <= k && n < Pow10(k)
    ensures |Digits(n)| <= k
  {
    if n >= 10 {
      assert Pow10(1) == 10;
      assert n / 10 < Pow10(k - 1);
      DigitsLength(n / 10, k - 1);
    }
  }

  /** A non-negative number below 10^width formats to exactly width digits that
      read back as the number. */
  lemma FormatIntRoundTrip(n: nat, width: nat)
    requires 1 <= width && n < Pow10(width)
    ensures |FormatInt(n, width)| == width
    ensures AllDigits(FormatInt(n, width)) && Value(FormatInt(n, width)) == n
  {
    DigitsLength(n, width);
    ZeroPadValue(Digits(n), width);
    ValueOfDigits(n);
  }

  /** fmt.Sprintf with only %s-like verbs: the pieces, in order, run together. */
  function Concat(parts: seq<string>): string
  {
    if parts == [] then "" else parts[0] + Concat(parts[1..])
  }

  lemma ConcatFive(a: string, b: string, c: string, d: string, e: string)
    ensures Concat([a, b, c, d, e]) == a + b + c + d + e
  {
    assert [a, b, c, d, e][1..] == [b, c, d, e];
    assert [b, c, d, e][1..] == [c, d, e];
    assert [c, d, e][1..] == [d, e];
    assert [d, e][1..] == [e];
    assert Concat([e]) == e;
    assert Concat([d, e]) == d + e;
    assert Concat([c, d, e]) == c + (d + e);
    assert Concat([b, c, d, e]) == b + (c + (d + e));
    assert Concat([a, b, c, d, e]) == a + (b + (c + (d + e)));
  }

  // ---- case folding ----

  function LowerChar(c: char): char
  {
    if 'A' <= c <= 'Z' then (c as int + 32) as char else c
  }

  /** strings.ToLower restricted to ASCII: every upper-case letter becomes lower case,
      every other character is kept. */
  function ToLower(s: string): (r: string)
    ensures |r| == |s|
    ensures forall i :: 0 <= i < |r| ==> !('A' <= r[i] <= 'Z')
    ensures forall i :: 0 <= i < |r| ==> (r[i] == s[i] || r[i] as int == s[i] as int + 32)
  {
    seq(|s|, i requires 0 <= i < |s| => LowerChar(s[i]))
  }

  lemma ToLowerIdempotent(s: string)
    ensures ToLower(ToLower(s)) == ToLower(s)
  {
  }

  // ---- Unicode stripping ----

  /** The characters stripUnicode keeps: code points 32..126. */
  predicate Printable(c: char) { 32 <= c as int < 127 }

  /** transform.RemoveFunc with the predicate `r < 32 || r >= 127`. */
  function KeepPrintable(s: string): (r: string)
    ensures |r| <= |s|
    ensures forall i :: 0 <= i < |r| ==> Printable(r[i])
    ensures (forall i :: 0 <= i < |s| ==> Printable(s[i])) ==> r == s
  {
    if s == [] then []
    else (if Printable(s[0]) then [s[0]] else []) + KeepPrintable(s[1..])
  }

  /** Every printable character is kept as often as it occurs; nothing else is. */
  lemma {:induction false} KeepPrintableCounts(s: string)
    ensures forall c :: multiset(KeepPrintable(s))[c] == if Printable(c) then multiset(s)[c] else 0
  {
    if s != [] {
      KeepPrintableCounts(s[1..]);
      assert s == [s[0]] + s[1..];
    }
  }

  /** The filter works character by character, so it keeps the printable characters in
      the order they come. */
  lemma {:induction false} KeepPrintableAppend(a: string, b: string)
    ensures KeepPrintable(a + b) == KeepPrintable(a) + KeepPrintable(b)
  {
    if a == [] {
      assert a + b == b;
    } else {
      assert (a + b)[1..] == a[1..] + b;
      KeepPrintableAppend(a[1..], b);
    }
  }

  /** One character is kept exactly when it is printable. */
  lemma KeepPrintableOne(c: char)
    ensures KeepPrintable([c]) == if Printable(c) then [c] else []
  {
    assert [c][1..] == [];
  }

  /** NFKD normalisation (golang.org/x/text/unicode/norm) is a foreign library: it is
      passed in as a function. */
  type Normalizer = string -> string

  /** stripUnicodeStr: normalise, then drop everything outside printable ASCII. */
  function StripUnicode(nfkd: Normalizer, s: string): (r: string)
    ensures forall i :: 0 <= i < |r| ==> Printable(r[i])
  {
    KeepPrintable(nfkd(s))
  }

  /** stripUnicodeStr keeps every printable character of the normalised string, as
      often as it occurs, and nothing else; a normalised string that is all printable
      comes back unchanged. */
  lemma StripUnicodeKeeps(nfkd: Normalizer, s: string)
    ensures forall x :: multiset(StripUnicode(nfkd, s))[x] == if Printable(x) then multiset(nfkd(s))[x] else 0
    ensures (forall i :: 0 <= i < |nfkd(s)| ==> Printable(nfkd(s)[i])) ==> StripUnicode(nfkd, s) == nfkd(s)
  {
    KeepPrintableCounts(nfkd(s));
  }

  /** stripUnicodeStr keeps the printable characters in order: a character of the
      normalised string stays, between what is kept of the text before it and of the
      text after it, exactly when it is printable. */
  lemma StripUnicodeInOrder(nfkd: Normalizer, s: string, pre: string, c: char, post: string)
    requires nfkd(s) == pre + [c] + post
    ensures StripUnicode(nfkd, s)
      == KeepPrintable(pre) + (if Printable(c) then [c] else []) + KeepPrintable(post)
  {
    KeepPrintableAppend(pre + [c], post);
    KeepPrintableAppend(pre, [c]);
    KeepPrintableOne(c);
  }

  /** Filtering twice is filtering once. */
  lemma KeepPrintableIdempotent(s: string)
    ensures KeepPrintable(KeepPrintable(s)) == KeepPrintable(s)
  {
  }
}
