/** ASCII models of the Python string operations the two front-ends rely on:
    `str.strip()` with and without a character set, `str.title()`,
    `str.lower()` and `str(int)`. */
module Text {

  /** The ASCII characters for which Python's `str.isspace()` holds; these are
      what `str.strip()` with no argument removes. */
  const Whitespace: set<char> :=
    {' ', '\t', '\n', '\r', '\U{B}', '\U{C}', '\U{1C}', '\U{1D}', '\U{1E}', '\U{1F}'}

  /** The character set of `strip('"\'')`. */
  const Quotes: set<char> := {'"', '\''}

  // ---------------------------------------------------------------------
  // str.strip(chars)
  // ---------------------------------------------------------------------

  /** Number of leading characters of `s` that belong to `chars`. */
  function LeadCount(s: string, chars: set<char>): (k: nat)
    ensures k <= |s|
    ensures forall i :: 0 <= i < k ==> s[i] in chars
    ensures k < |s| ==> s[k] !in chars
  {
    if |s| > 0 && s[0] in chars then 1 + LeadCount(s[1..], chars) else 0
  }

  /** Number of trailing characters of `s` that belong to `chars`. */
  function TrailCount(s: string, chars: set<char>): (k: nat)
    ensures k <= |s|
    ensures forall i :: |s| - k <= i < |s| ==> s[i] in chars
    ensures k < |s| ==> s[|s| - 1 - k] !in chars
  {
    if |s| > 0 && s[|s| - 1] in chars then 1 + TrailCount(s[..|s| - 1], chars) else 0
  }

  /** `s[i..j]` is what removing characters of `chars` from both ends of `s`
      leaves: everything outside the slice is in `chars`, and a non-empty
      slice neither starts nor ends with one of them. */
  ghost predicate StripsTo(s: string, chars: set<char>, i: int, j: int)
  {
    && 0 <= i <= j <= |s|
    && (forall k :: 0 <= k < i ==> s[k] in chars)
    && (forall k :: j <= k < |s| ==> s[k] in chars)
    && (i < j ==> s[i] !in chars && s[j - 1] !in chars)
  }

  /** Python's `s.strip(chars)`: any mix of characters from `chars` is removed
      from both ends, not just matched pairs. */
  function Strip(s: string, chars: set<char>): (r: string)
    ensures exists i, j :: StripsTo(s, chars, i, j) && r == s[i..j]
    ensures |r| > 0 ==> r[0] !in chars && r[|r| - 1] !in chars
  {
    var lead := LeadCount(s, chars);
    var rest := s[lead..];
    var trail := TrailCount(rest, chars);
    assert StripsTo(s, chars, lead, lead + |rest| - trail);
    rest[..|rest| - trail]
  }

  /** Python's `s.strip()` on ASCII text. */
  function Trim(s: string): string {
    Strip(s, Whitespace)
  }

  /** Python's `s.strip('"\'')`. */
  function StripQuotes(s: string): string {
    Strip(s, Quotes)
  }

  /** Two slices that both satisfy the stripping conditions are equal. */
  lemma StripsToSameSlice(s: string, chars: set<char>, i: int, j: int, i': int, j': int)
    requires StripsTo(s, chars, i, j)
    requires StripsTo(s, chars, i', j')
    ensures s[i..j] == s[i'..j']
  {
  }

  /** `Strip` is the only slice meeting the stripping conditions, so the
      conditions are a complete description of `str.strip(chars)`. */
  lemma StripUnique(s: string, chars: set<char>, i: int, j: int)
    requires StripsTo(s, chars, i, j)
    ensures Strip(s, chars) == s[i..j]
  {
    var i', j' :| StripsTo(s, chars, i', j') && Strip(s, chars) == s[i'..j'];
    StripsToSameSlice(s, chars, i, j, i', j');
  }

  /** Stripping twice is stripping once. */
  lemma StripIdempotent(s: string, chars: set<char>)
    ensures Strip(Strip(s, chars), chars) == Strip(s, chars)
  {
    var r := Strip(s, chars);
    assert StripsTo(r, chars, 0, |r|);
    StripUnique(r, chars, 0, |r|);
    assert r[0..|r|] == r;
  }

  /** The stripping conditions survive padding with characters of `chars`,
      shifted by the length of the left padding. */
  lemma PaddedStripsTo(p: string, s: string, q: string, chars: set<char>, i: int, j: int)
    requires forall k :: 0 <= k < |p| ==> p[k] in chars
    requires forall k :: 0 <= k < |q| ==> q[k] in chars
    requires StripsTo(s, chars, i, j)
    ensures StripsTo(p + s + q, chars, |p| + i, |p| + j)
  {
    var t := p + s + q;
    forall k | 0 <= k < |p| + i
      ensures t[k] in chars
    {
      if k < |p| {
        assert t[k] == p[k];
      } else {
        assert t[k] == s[k - |p|];
      }
    }
    forall k | |p| + j <= k < |t|
      ensures t[k] in chars
    {
      if k < |p| + |s| {
        assert t[k] == s[k - |p|];
      } else {
        assert t[k] == q[k - |p| - |s|];
      }
    }
    if i < j {
      assert t[|p| + i] == s[i];
      assert t[|p| + j - 1] == s[j - 1];
    }
  }

  /** Padding a string on either side with characters of `chars` does not
      change what stripping leaves. */
  lemma StripIgnoresPadding(p: string, s: string, q: string, chars: set<char>)
    requires forall k :: 0 <= k < |p| ==> p[k] in chars
    requires forall k :: 0 <= k < |q| ==> q[k] in chars
    ensures Strip(p + s + q, chars) == Strip(s, chars)
  {
    var r := Strip(s, chars);
    var i, j :| StripsTo(s, chars, i, j) && r == s[i..j];
    PaddedStripsTo(p, s, q, chars, i, j);
    StripUnique(p + s + q, chars, |p| + i, |p| + j);
    SliceOfPadded(p, s, q, i, j);
  }

  /** A slice of the middle part of a concatenation. */
  lemma SliceOfPadded(p: string, s: string, q: string, i: int, j: int)
    requires 0 <= i <= j <= |s|
    ensures (p + s + q)[|p| + i..|p| + j] == s[i..j]
  {
    var t := p + s + q;
    assert forall k :: 0 <= k < |s| ==> t[|p| + k] == s[k];
  }

  /** A string made only of characters of `chars` strips to nothing. */
  lemma StripAllEmpty(s: string, chars: set<char>)
    requires forall k :: 0 <= k < |s| ==> s[k] in chars
    ensures Strip(s, chars) == ""
  {
    assert StripsTo(s, chars, 0, 0);
    StripUnique(s, chars, 0, 0);
  }

  // ---------------------------------------------------------------------
  // str.title() and str.lower()
  // ---------------------------------------------------------------------

  predicate IsUpper(c: char) { 'A' <= c <= 'Z' }

  predicate IsLower(c: char) { 'a' <= c <= 'z' }

  /** A cased character, in Python's terms, restricted to ASCII. */
  predicate IsLetter(c: char) { IsUpper(c) || IsLower(c) }

  function ToUpper(c: char): char {
    if IsLower(c) then (c as int - 32) as char else c
  }

  function ToLower(c: char): char {
    if IsUpper(c) then (c as int + 32) as char else c
  }

  /** Position `i` of `s` begins a word: nothing cased comes right before it. */
  predicate StartsWord(s: string, i: int)
    requires 0 <= i < |s|
  {
    i == 0 || !IsLetter(s[i - 1])
  }

  /** One step of `str.title()`: a letter is upper-cased unless the character
      before it was a letter, in which case it is lower-cased. */
  function TitleChar(c: char, afterLetter: bool): char {
    if !IsLetter(c) then c else if afterLetter then ToLower(c) else ToUpper(c)
  }

  /** Whether the character before position `i` of `s` is a letter, where
      `before` says so for the character before the whole string. */
  predicate AfterLetter(s: string, i: int, before: bool)
    requires 0 <= i < |s|
  {
    if i == 0 then before else IsLetter(s[i - 1])
  }

  /** `str.title()` on the rest of a string, given whether the character
      before it was a letter. */
  function TitleFrom(s: string, afterLetter: bool): (r: string)
    ensures |r| == |s|
    ensures forall i :: 0 <= i < |s| ==> r[i] == TitleChar(s[i], AfterLetter(s, i, afterLetter))
  {
    if |s| == 0 then "" else [TitleChar(s[0], afterLetter)] + TitleFrom(s[1..], IsLetter(s[0]))
  }

  /** Python's `s.title()` on ASCII text: the length is kept, a letter that
      starts a word is upper case, every other letter is lower case, and
      anything that is not a letter is left alone. */
  function Title(s: string): (r: string)
    ensures |r| == |s|
    ensures forall i :: 0 <= i < |s| && IsLetter(s[i]) && StartsWord(s, i) ==>
      IsUpper(r[i]) && r[i] == ToUpper(s[i])
    ensures forall i :: 0 <= i < |s| && IsLetter(s[i]) && !StartsWord(s, i) ==>
      IsLower(r[i]) && r[i] == ToLower(s[i])
    ensures forall i :: 0 <= i < |s| && !IsLetter(s[i]) ==> r[i] == s[i]
  {
    var r := TitleFrom(s, false);
    assert forall i :: 0 <= i < |s| ==> AfterLetter(s, i, false) == !StartsWord(s, i);
    r
  }

  /** Title-casing an already title-cased string changes nothing. */
  lemma TitleIdempotent(s: string)
    ensures Title(Title(s)) == Title(s)
  {
    var r := Title(s);
    var t := Title(r);
    forall i | 0 <= i < |s|
      ensures IsLetter(r[i]) == IsLetter(s[i])
    {
    }
    forall i | 0 <= i < |s|
      ensures t[i] == r[i]
    {
      if IsLetter(s[i]) {
        assert StartsWord(r, i) == StartsWord(s, i);
      }
    }
  }

  /** A lower-case letter of a title-cased string: upper-cased at a word
      start, kept otherwise. */
  lemma TitleLowerAt(s: string, i: int)
    requires 0 <= i < |s| && IsLower(s[i])
    ensures Title(s)[i] == if StartsWord(s, i) then (s[i] as int - 32) as char else s[i]
  {
  }

  /** Python's `s.lower()` on ASCII text. */
  function Lower(s: string): (r: string)
    ensures |r| == |s|
    ensures forall i :: 0 <= i < |s| ==> r[i] == ToLower(s[i])
  {
    if |s| == 0 then "" else [ToLower(s[0])] + Lower(s[1..])
  }

  // ---------------------------------------------------------------------
  // str(int)
  // ---------------------------------------------------------------------

  predicate IsDigit(c: char) { '0' <= c <= '9' }

  function DigitChar(d: nat): (c: char)
    requires d < 10
    ensures IsDigit(c) && c as int - '0' as int == d
  {
    ('0' as int + d) as char
  }

  /** Decimal digits of `n` with no leading zero. */
  function Digits(n: nat): (r: string)
    ensures |r| > 0
    ensures forall i :: 0 <= i < |r| ==> IsDigit(r[i])
    ensures |r| > 1 ==> r[0] != '0'
  {
    if n < 10 then [DigitChar(n)] else Digits(n / 10) + [DigitChar(n % 10)]
  }

  /** The number a string of decimal digits denotes. */
  function DigitsValue(s: string): int
    requires forall i :: 0 <= i < |s| ==> IsDigit(s[i])
  {
    if |s| == 0 then 0
    else 10 * DigitsValue(s[..|s| - 1]) + (s[|s| - 1] as int - '0' as int)
  }

  /** Reading back the digits gives the number. */
  lemma {:induction false} DigitsRoundTrip(n: nat)
    ensures DigitsValue(Digits(n)) == n
  {
    if n >= 10 {
      var r := Digits(n);
      assert r[..|r| - 1] == Digits(n / 10);
      DigitsRoundTrip(n / 10);
    }
  }

  /** A rendering of an integer as `str(int)` produces it: an optional
      minus sign followed by digits. */
  predicate IsDecimal(s: string) {
    && |s| > 0
    && (s[0] == '-' || IsDigit(s[0]))
    && (s[0] == '-' ==> |s| > 1)
    && forall i :: 0 < i < |s| ==> IsDigit(s[i])
  }

  /** Python's `str(n)` for an integer: a minus sign exactly for a negative
      number, and no leading zero, so `-0` and `0404` never appear. */
  function Decimal(n: int): (s: string)
    ensures IsDecimal(s)
    ensures forall i :: 0 <= i < |s| ==> s[i] != ' '
    ensures s[0] == '-' <==> n < 0
    ensures var d := if s[0] == '-' then s[1..] else s;
      |d| > 1 ==> d[0] != '0'
    ensures s[0] == '-' ==> s[1] != '0'
  {
    if n < 0 then
      var d := Digits(-n);
      assert forall i :: 0 < i < |d| + 1 ==> ("-" + d)[i] == d[i - 1];
      "-" + d
    else Digits(n)
  }

  /** The number a decimal rendering denotes, sign included. */
  function DecimalValue(s: string): int
    requires IsDecimal(s)
  {
    if s[0] == '-' then -DigitsValue(s[1..]) else DigitsValue(s)
  }

  /** `str(n)` loses nothing: reading it back gives `n`, so distinct numbers
      print differently. */
  lemma DecimalRoundTrip(n: int)
    ensures DecimalValue(Decimal(n)) == n
  {
    if n < 0 {
      var d := Digits(-n);
      DigitsRoundTrip(-n);
      assert Decimal(n) == "-" + d;
      assert ("-" + d)[1..] == d;
    } else {
      DigitsRoundTrip(n);
    }
  }
}
