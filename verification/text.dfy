/** Character-level helpers the descriptor parsers rely on: separators,
    whitespace tokenisation, decimal numerals and trimming. */
module Text {
  import opened Common

  /** `isspace` in the C locale: what `std::stringstream >>` and `sscanf` skip. */
  predicate IsSpace(c: char) {
    c == ' ' || c == '\t' || c == '\n' || c == '\U{B}' || c == '\U{C}' || c == '\r'
  }

  /** The four characters the uniform-quad loader trims: " \t\r\n". */
  predicate IsTrimSpace(c: char) {
    c == ' ' || c == '\t' || c == '\r' || c == '\n'
  }

  predicate NoSpace(s: string) {
    forall i :: 0 <= i < |s| ==> !IsSpace(s[i])
  }

  predicate AllTrimSpace(s: string) {
    forall i :: 0 <= i < |s| ==> IsTrimSpace(s[i])
  }

  // ---------------------------------------------------------------- tokens

  /** Length of the run of non-separator characters that starts s. */
  function WordLength(s: string): (n: nat)
    ensures n <= |s|
    ensures forall i :: 0 <= i < n ==> !IsSpace(s[i])
    ensures n < |s| ==> IsSpace(s[n])
  {
    if |s| == 0 || IsSpace(s[0]) then 0 else 1 + WordLength(s[1..])
  }

  /** The whitespace-separated tokens of s in order: what repeated
      `ss >> token` on a `std::stringstream` yields. */
  function Tokens(s: string): (r: seq<string>)
    ensures forall t :: t in r ==> |t| > 0 && NoSpace(t)
    decreases |s|
  {
    if |s| == 0 then []
    else if IsSpace(s[0]) then Tokens(s[1..])
    else
      var n := WordLength(s);
      [s[..n]] + Tokens(s[n..])
  }

  /** Tokens written out with one blank between neighbours. */
  function JoinSpaced(ts: seq<string>): string {
    if |ts| == 0 then ""
    else if |ts| == 1 then ts[0]
    else ts[0] + " " + JoinSpaced(ts[1..])
  }

  lemma {:induction false} WordLengthOfWord(w: string, rest: string)
    requires NoSpace(w)
    requires |rest| == 0 || IsSpace(rest[0])
    ensures WordLength(w + rest) == |w|
  {
    if |w| == 0 {
      assert w + rest == rest;
    } else {
      assert (w + rest)[1..] == w[1..] + rest;
      WordLengthOfWord(w[1..], rest);
    }
  }

  /** Tokenising inverts joining: a list of non-empty tokens without
      separators, written out blank-separated, is read back unchanged. */
  lemma {:induction false} TokensOfJoin(ts: seq<string>)
    requires forall j :: 0 <= j < |ts| ==> |ts[j]| > 0 && NoSpace(ts[j])
    ensures Tokens(JoinSpaced(ts)) == ts
  {
    if |ts| == 1 {
      var w := ts[0];
      WordLengthOfWord(w, "");
      assert w + "" == w;
      assert w[..|w|] == w;
      assert w[|w|..] == "";
    } else if |ts| > 1 {
      var w := ts[0];
      var rest := " " + JoinSpaced(ts[1..]);
      assert JoinSpaced(ts) == w + rest;
      WordLengthOfWord(w, rest);
      assert (w + rest)[..|w|] == w;
      assert (w + rest)[|w|..] == rest;
      assert rest[1..] == JoinSpaced(ts[1..]);
      TokensOfJoin(ts[1..]);
      assert ts == [w] + ts[1..];
    }
  }

  /** A word of a ends where it ends in a + rest when a holds a separator,
      or when rest is empty or starts with one. */
  lemma {:induction false} WordLengthOfPrefix(a: string, rest: string)
    requires !NoSpace(a) || |rest| == 0 || IsSpace(rest[0])
    ensures WordLength(a + rest) == WordLength(a)
  {
    if |a| == 0 {
      assert a + rest == rest;
    } else if !IsSpace(a[0]) {
      assert (a + rest)[1..] == a[1..] + rest;
      if !NoSpace(a) {
        var i :| 0 <= i < |a| && IsSpace(a[i]);
        assert a[1..][i - 1] == a[i];
      }
      WordLengthOfPrefix(a[1..], rest);
    }
  }

  /** Any separator splits the token stream: the tokens of a, a separator
      and b are the tokens of a followed by the tokens of b. With
      `TokensOfJoin` on a single word, this fixes the tokens of every string,
      whatever runs of blanks, tabs or newlines lead, trail or repeat. */
  lemma {:induction false} TokensSplit(a: string, c: char, b: string)
    requires IsSpace(c)
    ensures Tokens(a + [c] + b) == Tokens(a) + Tokens(b)
    decreases |a|
  {
    if |a| == 0 {
      assert (a + [c] + b)[1..] == b;
    } else if IsSpace(a[0]) {
      assert (a + [c] + b)[1..] == a[1..] + [c] + b;
      TokensSplit(a[1..], c, b);
    } else {
      TokensSplitWord(a, c, b);
    }
  }

  /** The step of `TokensSplit` for an a that starts with a word. */
  lemma {:induction false} TokensSplitWord(a: string, c: char, b: string)
    requires IsSpace(c) && |a| > 0 && !IsSpace(a[0])
    ensures Tokens(a + [c] + b) == Tokens(a) + Tokens(b)
    decreases |a|, 0
  {
    var s := a + ([c] + b);
    assert a + [c] + b == s;
    WordLengthOfPrefix(a, [c] + b);
    var n := WordLength(a);
    assert s[..n] == a[..n];
    assert s[n..] == a[n..] + [c] + b;
    TokensSplit(a[n..], c, b);
    calc {
      Tokens(s);
      [a[..n]] + Tokens(a[n..] + [c] + b);
      [a[..n]] + (Tokens(a[n..]) + Tokens(b));
      ([a[..n]] + Tokens(a[n..])) + Tokens(b);
      Tokens(a) + Tokens(b);
    }
  }

  // -------------------------------------------------------------- numerals

  predicate IsDigit(c: char) {
    '0' <= c <= '9'
  }

  /** A non-empty string of decimal digits. */
  predicate IsNumeral(s: string) {
    |s| > 0 && forall i :: 0 <= i < |s| ==> IsDigit(s[i])
  }

  /** The value of a string of decimal digits, most significant first. */
  function DigitsValue(s: string): nat
    requires forall i :: 0 <= i < |s| ==> IsDigit(s[i])
  {
    if |s| == 0 then 0
    else
      assert IsDigit(s[|s| - 1]);
      10 * DigitsValue(s[..|s| - 1]) + (s[|s| - 1] as int - '0' as int)
  }

  function DigitChar(d: nat): (c: char)
    requires d < 10
    ensures IsDigit(c) && c as int - '0' as int == d
  {
    (d + '0' as int) as char
  }

  /** The decimal numeral of n, without leading zeros. */
  function Decimal(n: nat): (s: string)
    ensures IsNumeral(s) && NoSpace(s)
  {
    if n < 10 then [DigitChar(n)] else Decimal(n / 10) + [DigitChar(n % 10)]
  }

  /** Reading back the numeral of n gives n. */
  lemma {:induction false} DigitsValueOfDecimal(n: nat)
    ensures DigitsValue(Decimal(n)) == n
  {
    var s := Decimal(n);
    if n >= 10 {
      assert s[..|s| - 1] == Decimal(n / 10);
      DigitsValueOfDecimal(n / 10);
    }
  }

  // ------------------------------------------------------------ scanning

  /** Number of separator characters at the start of s. */
  function LeadingSpaces(s: string): (n: nat)
    ensures n <= |s|
    ensures n < |s| ==> !IsSpace(s[n])
  {
    if |s| == 0 || !IsSpace(s[0]) then 0 else 1 + LeadingSpaces(s[1..])
  }

  /** Length of the run of decimal digits that starts s. */
  function DigitRun(s: string): (n: nat)
    ensures n <= |s|
    ensures forall i :: 0 <= i < n ==> IsDigit(s[i])
    ensures n < |s| ==> !IsDigit(s[n])
  {
    if |s| == 0 || !IsDigit(s[0]) then 0 else 1 + DigitRun(s[1..])
  }

  /** The digits that start s, read as a decimal value, and what follows
      them; None when s does not start with a digit. */
  function ScanDigits(s: string): (r: Option<(nat, string)>)
    ensures r.Some? ==> |r.value.1| < |s| && r.value.1 == s[|s| - |r.value.1|..]
  {
    var n := DigitRun(s);
    if n == 0 then None else Some((DigitsValue(s[..n]), s[n..]))
  }

  /** A number with an optional sign at the very start of t. */
  function ScanSigned(t: string): (r: Option<(int, string)>)
    ensures r.Some? ==> |r.value.1| < |t| && r.value.1 == t[|t| - |r.value.1|..]
  {
    if |t| > 0 && (t[0] == '-' || t[0] == '+') then
      match ScanDigits(t[1..])
      case None => None
      case Some((magnitude, rest)) =>
        assert rest == t[|t| - |rest|..];
        Some((if t[0] == '-' then -(magnitude as int) else magnitude, rest))
    else
      match ScanDigits(t)
      case None => None
      case Some((magnitude, rest)) => Some((magnitude as int, rest))
  }

  /** One `%d` conversion of `sscanf`: skips separators, reads an optional
      sign and at least one digit, and answers the value and what follows
      it; None when there is no number to read (a matching failure). */
  function ScanInt(s: string): (r: Option<(int, string)>)
    ensures r.Some? ==> |r.value.1| < |s| && r.value.1 == s[|s| - |r.value.1|..]
  {
    var t := s[LeadingSpaces(s)..];
    var r := ScanSigned(t);
    assert r.Some? ==> r.value.1 == s[|s| - |r.value.1|..];
    r
  }

  lemma {:induction false} DigitRunOfDigits(w: string, rest: string)
    requires forall i :: 0 <= i < |w| ==> IsDigit(w[i])
    requires |rest| == 0 || !IsDigit(rest[0])
    ensures DigitRun(w + rest) == |w|
  {
    if |w| == 0 {
      assert w + rest == rest;
    } else {
      assert (w + rest)[1..] == w[1..] + rest;
      DigitRunOfDigits(w[1..], rest);
    }
  }

  /** The digits of a written numeral read back as its value. */
  lemma ScanDigitsOfDecimal(n: nat, rest: string)
    requires |rest| == 0 || !IsDigit(rest[0])
    ensures ScanDigits(Decimal(n) + rest) == Some((n, rest))
  {
    var w := Decimal(n);
    DigitRunOfDigits(w, rest);
    assert (w + rest)[..|w|] == w && (w + rest)[|w|..] == rest;
    DigitsValueOfDecimal(n);
  }

  /** `%d` reads back a written numeral and stops right after it. */
  lemma ScanIntOfDecimal(n: nat, rest: string)
    requires |rest| == 0 || !IsDigit(rest[0])
    ensures ScanInt(Decimal(n) + rest) == Some((n, rest))
  {
    var s := Decimal(n) + rest;
    assert s[0] == Decimal(n)[0];
    assert LeadingSpaces(s) == 0;
    assert s[0..] == s;
    ScanDigitsOfDecimal(n, rest);
    assert ScanSigned(s) == Some((n, rest));
  }

  /** `%d` reads a minus sign followed by a numeral as a negative number. */
  lemma ScanIntOfNegative(n: nat, rest: string)
    requires |rest| == 0 || !IsDigit(rest[0])
    ensures ScanInt("-" + Decimal(n) + rest) == Some((-(n as int), rest))
  {
    var s := "-" + Decimal(n) + rest;
    assert s[0] == '-';
    assert LeadingSpaces(s) == 0;
    assert s[0..] == s;
    assert s[1..] == Decimal(n) + rest;
    ScanDigitsOfDecimal(n, rest);
    assert ScanSigned(s) == Some((-(n as int), rest));
  }

  /** Separators before a number are skipped. */
  lemma ScanIntSkipsSpace(c: char, s: string)
    requires IsSpace(c)
    ensures ScanInt([c] + s) == ScanInt(s)
  {
    var t := [c] + s;
    assert t[1..] == s;
    var k := LeadingSpaces(s);
    assert LeadingSpaces(t) == 1 + k;
    var u := t[1 + k..];
    assert u == s[k..];
    assert ScanInt(t) == ScanSigned(u);
  }

  /** A string of separators holds no number. */
  lemma {:induction false} ScanIntOfSpaces(s: string)
    requires forall i :: 0 <= i < |s| ==> IsSpace(s[i])
    ensures ScanInt(s) == None
  {
    if |s| > 0 {
      assert s == [s[0]] + s[1..];
      ScanIntSkipsSpace(s[0], s[1..]);
      ScanIntOfSpaces(s[1..]);
    }
  }

  // ------------------------------------------------------------------ trim

  /** Number of trim characters at the start of s (`find_first_not_of`). */
  function LeadingTrimSpaces(s: string): (n: nat)
    ensures n <= |s|
    ensures forall i :: 0 <= i < n ==> IsTrimSpace(s[i])
    ensures n < |s| ==> !IsTrimSpace(s[n])
  {
    if |s| == 0 || !IsTrimSpace(s[0]) then 0 else 1 + LeadingTrimSpaces(s[1..])
  }

  /** Number of trim characters at the end of s (`find_last_not_of`). */
  function TrailingTrimSpaces(s: string): (n: nat)
    ensures n <= |s|
    ensures forall i :: |s| - n <= i < |s| ==> IsTrimSpace(s[i])
    ensures n < |s| ==> !IsTrimSpace(s[|s| - 1 - n])
  {
    if |s| == 0 || !IsTrimSpace(s[|s| - 1]) then 0
    else 1 + TrailingTrimSpaces(s[..|s| - 1])
  }

  /** s without its leading and trailing " \t\r\n". None when s holds no other
      character: `find_first_not_of` then answers `npos` and the following
      `substr(npos, ...)` throws `std::out_of_range`. */
  function Trim(s: string): (r: Option<string>)
    ensures r.None? <==> AllTrimSpace(s)
    ensures r.Some? ==>
      var t := r.value;
      && |t| > 0 && !IsTrimSpace(t[0]) && !IsTrimSpace(t[|t| - 1])
      && exists k :: 0 <= k <= |s| - |t| && s[k..k + |t|] == t
                     && AllTrimSpace(s[..k]) && AllTrimSpace(s[k + |t|..])
  {
    var lead := LeadingTrimSpaces(s);
    if lead == |s| then None
    else
      var trail := TrailingTrimSpaces(s);
      var t := s[lead..|s| - trail];
      assert s[lead..lead + |t|] == t;
      assert AllTrimSpace(s[..lead]);
      assert AllTrimSpace(s[lead + |t|..]);
      Some(t)
  }

  /** Trimming is idempotent: a trimmed locator is its own trim. */
  lemma TrimIdempotent(s: string)
    requires Trim(s).Some?
    ensures Trim(Trim(s).value) == Trim(s)
  {
    var t := Trim(s).value;
    assert LeadingTrimSpaces(t) == 0;
    assert TrailingTrimSpaces(t) == 0;
    assert t[0..|t|] == t;
  }
}
