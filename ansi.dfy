/** Terminal text primitives used by the renderer: ASCII upper-case folding,
    decimal formatting of colour codes, and ANSI colour escapes
    (`printColoredText` in main.go). */
module Ansi {
  import opened Outcomes

  /** The escape character that starts every ANSI control sequence. */
  const Esc: char := '\U{1B}'

  /** The sequence that resets the terminal colour, `ESC [ 0 m`. */
  const Reset: string := [Esc, '[', '0', 'm']

  // ---------------------------------------------------------------------
  // Upper-case folding (the ASCII part of strings.ToUpper)
  // ---------------------------------------------------------------------

  const Lowercase: string := "abcdefghijklmnopqrstuvwxyz"
  const Uppercase: string := "ABCDEFGHIJKLMNOPQRSTUVWXYZ"

  /** Upper-cases one ASCII character. */
  function UpperChar(c: char): char
  {
    if 'a' <= c <= 'z' then (c as int - 32) as char else c
  }

  /** Each of the 26 small letters becomes the capital at the same place in the
      alphabet, every other character is kept, and no small letter is left. */
  lemma UpperCharAlphabet(c: char)
    ensures forall j :: 0 <= j < 26 && c == Lowercase[j] ==> UpperChar(c) == Uppercase[j]
    ensures c !in Lowercase ==> UpperChar(c) == c
    ensures UpperChar(c) !in Lowercase
  {
    assert forall j :: 0 <= j < 26 ==> Lowercase[j] as int == 'a' as int + j;
    assert forall j :: 0 <= j < 26 ==> Uppercase[j] as int == 'A' as int + j;
  }

  /** Folds every ASCII lower-case letter to upper case, character by character. */
  function Upper(s: string): string
  {
    seq(|s|, i requires 0 <= i < |s| => UpperChar(s[i]))
  }

  /** Whether `s` upper-cases to `t`, decided one character at a time. */
  predicate FoldsTo(s: string, t: string)
  {
    |s| == |t| && (s == [] || (UpperChar(s[0]) == t[0] && FoldsTo(s[1..], t[1..])))
  }

  lemma {:induction false} FoldsToIsUpperEq(s: string, t: string)
    ensures FoldsTo(s, t) <==> Upper(s) == t
  {
    if |s| == |t| && s != [] {
      FoldsToIsUpperEq(s[1..], t[1..]);
      assert Upper(s) == [UpperChar(s[0])] + Upper(s[1..]);
      if Upper(s) == t {
        assert t[1..] == Upper(s)[1..];
      }
    }
  }

  /** Folding twice is folding once: an upper-cased string has no lower-case letter left. */
  lemma UpperIdempotent(s: string)
    ensures Upper(Upper(s)) == Upper(s)
    ensures forall i :: 0 <= i < |s| ==> !('a' <= Upper(s)[i] <= 'z')
  {
  }

  // ---------------------------------------------------------------------
  // Decimal formatting of a colour code (the `%d` verb)
  // ---------------------------------------------------------------------

  predicate IsDigit(c: char) { '0' <= c <= '9' }

  predicate AllDigits(s: string) { forall i :: 0 <= i < |s| ==> IsDigit(s[i]) }

  function DigitChar(d: nat): (c: char)
    requires d < 10
    ensures IsDigit(c) && c as int - '0' as int == d
  {
    ('0' as int + d) as char
  }

  /** The decimal spelling of `n`, as the `%d` verb writes it. */
  function Decimal(n: nat): string
  {
    if n < 10 then [DigitChar(n)] else Decimal(n / 10) + [DigitChar(n % 10)]
  }

  /** `Decimal` writes digits only, at least one, and no leading zero. */
  lemma {:induction false} DecimalWellFormed(n: nat)
    ensures |Decimal(n)| > 0 && AllDigits(Decimal(n))
    ensures |Decimal(n)| > 1 ==> Decimal(n)[0] != '0'
    ensures n < 10 <==> |Decimal(n)| == 1
  {
    if n >= 10 {
      DecimalWellFormed(n / 10);
    }
  }

  /** Reads a string of decimal digits back as a number; the reference for `Decimal`. */
  function ParseDecimal(s: string): (n: nat)
    requires AllDigits(s)
  {
    if s == [] then 0
    else ParseDecimal(s[..|s| - 1]) * 10 + (s[|s| - 1] as int - '0' as int)
  }

  lemma {:induction false} DecimalRoundTrip(n: nat)
    ensures AllDigits(Decimal(n)) && ParseDecimal(Decimal(n)) == n
  {
    DecimalWellFormed(n);
    if n >= 10 {
      DecimalRoundTrip(n / 10);
      var s := Decimal(n);
      assert s[..|s| - 1] == Decimal(n / 10);
    }
  }

  // ---------------------------------------------------------------------
  // Coloured text (printColoredText)
  // ---------------------------------------------------------------------

  /** What `printColoredText(code, text)` writes: the colour escape, the text, the reset escape. */
  function Colored(code: nat, text: string): string
  {
    [Esc, '['] + Decimal(code) + ['m'] + text + Reset
  }

  /** Splits off the longest run of leading decimal digits. */
  function LeadingDigits(s: string): (r: (string, string))
    ensures r.0 + r.1 == s && AllDigits(r.0)
    ensures r.1 != [] ==> !IsDigit(r.1[0])
  {
    if s == [] || !IsDigit(s[0]) then ([], s)
    else
      var r := LeadingDigits(s[1..]);
      assert [s[0]] + (r.0 + r.1) == s;
      ([s[0]] + r.0, r.1)
  }

  /** Decimal digits as `%d` writes them: at least one, and no leading zero
      unless the number is zero. */
  predicate Canonical(d: string)
  {
    d != [] && AllDigits(d) && (|d| > 1 ==> d[0] != '0')
  }

  /** Reads a coloured segment back into its colour code and text. It accepts
      exactly the strings `Colored` writes (`UncolorColored`, `UncolorSound`). */
  function Uncolor(s: string): Option<(nat, string)>
  {
    if |s| < 2 || s[0] != Esc || s[1] != '[' then None
    else
      var (digits, rest) := LeadingDigits(s[2..]);
      if !Canonical(digits) || rest == [] || rest[0] != 'm' || |rest| < 1 + |Reset| then None
      else if rest[|rest| - |Reset|..] != Reset then None
      else Some((ParseDecimal(digits), rest[1..|rest| - |Reset|]))
  }

  lemma {:induction false} LeadingDigitsStop(d: string, t: string)
    requires AllDigits(d) && t != [] && !IsDigit(t[0])
    ensures LeadingDigits(d + t) == (d, t)
  {
    if d != [] {
      assert (d + t)[0] == d[0] && (d + t)[1..] == d[1..] + t;
      LeadingDigitsStop(d[1..], t);
      assert [d[0]] + d[1..] == d;
    } else {
      assert d + t == t;
    }
  }

  /** Every coloured segment can be read back: its colour and its text, in the case it was given. */
  lemma UncolorColored(code: nat, text: string)
    ensures Uncolor(Colored(code, text)) == Some((code, text))
  {
    var s := Colored(code, text);
    var rest := ['m'] + text + Reset;
    assert s[2..] == Decimal(code) + rest;
    DecimalWellFormed(code);
    LeadingDigitsStop(Decimal(code), rest);
    assert rest[|rest| - |Reset|..] == Reset;
    assert rest[1..|rest| - |Reset|] == text;
    DecimalRoundTrip(code);
  }

  lemma {:induction false} ParsePositive(d: string)
    requires d != [] && AllDigits(d) && d[0] != '0'
    ensures ParseDecimal(d) > 0
  {
    if |d| > 1 {
      ParsePositive(d[..|d| - 1]);
    }
  }

  /** Canonical digits are the `%d` text of the number they spell. */
  lemma {:induction false} DecimalOfParse(d: string)
    requires Canonical(d)
    ensures Decimal(ParseDecimal(d)) == d
  {
    var p := d[..|d| - 1];
    var v := d[|d| - 1] as int - '0' as int;
    if |d| == 1 {
      assert p == [];
      assert [DigitChar(v)] == d;
    } else {
      assert Canonical(p) && p[0] == d[0];
      DecimalOfParse(p);
      ParsePositive(p);
      var n := ParseDecimal(d);
      assert n == ParseDecimal(p) * 10 + v;
      assert n / 10 == ParseDecimal(p) && n % 10 == v;
      assert d == p + [d[|d| - 1]];
    }
  }

  /** Whatever `Uncolor` accepts is exactly the segment `Colored` writes for the
      code and text it returns. */
  lemma UncolorSound(s: string, code: nat, text: string)
    requires Uncolor(s) == Some((code, text))
    ensures Colored(code, text) == s
  {
    var (digits, rest) := LeadingDigits(s[2..]);
    DecimalOfParse(digits);
    assert Decimal(code) == digits;
    assert rest == ['m'] + text + Reset by {
      assert rest[|rest| - |Reset|..] == Reset;
      assert rest == [rest[0]] + rest[1..|rest| - |Reset|] + rest[|rest| - |Reset|..];
    }
    assert s == [Esc, '['] + s[2..];
  }
}
