/** The Python string built-ins the processor relies on, for ASCII text: `str.strip()`, `str.split()` with no
    argument, `str.lower()`, `int()` on a decimal literal and the decimal text of a non-negative `int`. */
module Text {
  import opened Wrappers

  // ---------------------------------------------------------------------------------------------------------
  // Whitespace, strip() and split()
  // ---------------------------------------------------------------------------------------------------------

  /** `c.isspace()` for an ASCII character: tab, line feed, vertical tab, form feed, carriage return, the four
      information separators 0x1C-0x1F, and space. */
  predicate IsSpace(c: char)
  {
    var n := c as int;
    9 <= n <= 13 || 28 <= n <= 32
  }

  /** A field of a split line: non-empty, without whitespace. */
  predicate IsField(f: string)
  {
    f != [] && forall i :: 0 <= i < |f| ==> !IsSpace(f[i])
  }

  /** Length of the leading run of non-whitespace characters of `s`. */
  function TokenLength(s: string): (n: nat)
    ensures n <= |s|
    ensures forall i :: 0 <= i < n ==> !IsSpace(s[i])
    ensures n == |s| || IsSpace(s[n])
  {
    if s == [] || IsSpace(s[0]) then 0 else 1 + TokenLength(s[1..])
  }

  /** `s.split()`: the maximal runs of non-whitespace characters of `s`, left to right. */
  function Fields(s: string): (fields: seq<string>)
    ensures forall i :: 0 <= i < |fields| ==> IsField(fields[i])
    decreases |s|
  {
    if s == [] then []
    else if IsSpace(s[0]) then Fields(s[1..])
    else
      var n := TokenLength(s);
      [s[..n]] + Fields(s[n..])
  }

  /** `s.lstrip()`: `s` without its leading whitespace. */
  function StripLeft(s: string): (r: string)
    ensures r == [] || !IsSpace(r[0])
  {
    if s != [] && IsSpace(s[0]) then StripLeft(s[1..]) else s
  }

  /** `s.rstrip()`: `s` without its trailing whitespace. */
  function StripRight(s: string): (r: string)
    ensures r == [] || !IsSpace(r[|r| - 1])
  {
    if s != [] && IsSpace(s[|s| - 1]) then StripRight(s[..|s| - 1]) else s
  }

  /** `s.strip()`. */
  function Strip(s: string): string
  {
    StripRight(StripLeft(s))
  }

  /** A whitespace character at the end does not change where the first field ends. */
  lemma {:induction false} TokenLengthSpaceAfter(s: string, c: char)
    requires IsSpace(c)
    ensures TokenLength(s + [c]) == TokenLength(s)
  {
    if s != [] && !IsSpace(s[0]) {
      assert (s + [c])[1..] == s[1..] + [c];
      TokenLengthSpaceAfter(s[1..], c);
    }
  }

  /** A whitespace character at the end of a line adds no field. */
  lemma {:induction false} FieldsSpaceAfter(s: string, c: char)
    requires IsSpace(c)
    ensures Fields(s + [c]) == Fields(s)
    decreases |s|
  {
    if s == [] {
      assert Fields([c]) == Fields([]);
    } else if IsSpace(s[0]) {
      assert (s + [c])[1..] == s[1..] + [c];
      FieldsSpaceAfter(s[1..], c);
    } else {
      var n := TokenLength(s);
      TokenLengthSpaceAfter(s, c);
      assert (s + [c])[..n] == s[..n];
      assert (s + [c])[n..] == s[n..] + [c];
      FieldsSpaceAfter(s[n..], c);
    }
  }

  /** Removing leading whitespace changes no field. */
  lemma {:induction false} FieldsStripLeft(s: string)
    ensures Fields(StripLeft(s)) == Fields(s)
  {
    if s != [] && IsSpace(s[0]) {
      FieldsStripLeft(s[1..]);
    }
  }

  /** Removing trailing whitespace changes no field. */
  lemma {:induction false} FieldsStripRight(s: string)
    ensures Fields(StripRight(s)) == Fields(s)
  {
    if s != [] && IsSpace(s[|s| - 1]) {
      var p := s[..|s| - 1];
      assert s == p + [s[|s| - 1]];
      FieldsSpaceAfter(p, s[|s| - 1]);
      FieldsStripRight(p);
    }
  }

  /** The `strip()` before `split()` is redundant: the fields of a stripped line are those of the line. */
  lemma FieldsOfStripped(s: string)
    ensures Fields(Strip(s)) == Fields(s)
  {
    FieldsStripRight(StripLeft(s));
    FieldsStripLeft(s);
  }

  /** A run of whitespace, possibly empty. */
  predicate IsBlank(w: string)
  {
    forall i :: 0 <= i < |w| ==> IsSpace(w[i])
  }

  /** A line laid out as fields with whitespace after each: `fs[0] + gaps[0] + fs[1] + gaps[1] + ...`. */
  function Spaced(fs: seq<string>, gaps: seq<string>): string
    requires |gaps| == |fs|
  {
    if fs == [] then [] else fs[0] + gaps[0] + Spaced(fs[1..], gaps[1..])
  }

  /** A field ends where whitespace or the end of the text begins. */
  lemma {:induction false} TokenLengthOfField(f: string, s: string)
    requires forall i :: 0 <= i < |f| ==> !IsSpace(f[i])
    requires s == [] || IsSpace(s[0])
    ensures TokenLength(f + s) == |f|
  {
    if f != [] {
      assert (f + s)[1..] == f[1..] + s;
      TokenLengthOfField(f[1..], s);
    } else {
      assert f + s == s;
    }
  }

  /** Leading whitespace, however long, adds no field. */
  lemma {:induction false} FieldsOfBlank(w: string, rest: string)
    requires IsBlank(w)
    ensures Fields(w + rest) == Fields(rest)
  {
    if w != [] {
      assert (w + rest)[1..] == w[1..] + rest;
      FieldsOfBlank(w[1..], rest);
    } else {
      assert w + rest == rest;
    }
  }

  /** A field followed by any non-empty run of whitespace is one field of the line: `split()` treats the whole
      run as a single separator. */
  lemma FieldThenBlank(f: string, w: string, rest: string)
    requires IsField(f)
    requires w != [] && IsBlank(w)
    ensures Fields(f + w + rest) == [f] + Fields(rest)
  {
    var s := f + (w + rest);
    assert f + w + rest == s;
    TokenLengthOfField(f, w + rest);
    assert s[..|f|] == f;
    assert s[|f|..] == w + rest;
    FieldsOfBlank(w, rest);
  }

  /** A lone field is the only field of its text. */
  lemma LoneField(f: string)
    requires IsField(f)
    ensures Fields(f) == [f]
  {
    TokenLengthOfField(f, []);
    assert f + [] == f;
    assert f[..|f|] == f;
    assert f[|f|..] == [];
  }

  /** Splitting undoes laying out fields with whitespace: `split()` gives back `fs` whatever the (non-empty)
      whitespace between them and whatever whitespace follows the last. */
  lemma {:induction false} FieldsOfSpaced(fs: seq<string>, gaps: seq<string>)
    requires |gaps| == |fs|
    requires forall i :: 0 <= i < |fs| ==> IsField(fs[i])
    requires forall i :: 0 <= i < |gaps| ==> IsBlank(gaps[i])
    requires forall i :: 0 <= i < |gaps| - 1 ==> gaps[i] != []
    ensures Fields(Spaced(fs, gaps)) == fs
  {
    if fs != [] {
      var f, g, rest := fs[0], gaps[0], Spaced(fs[1..], gaps[1..]);
      assert Spaced(fs, gaps) == f + g + rest;
      FieldsOfSpaced(fs[1..], gaps[1..]);
      if g != [] {
        FieldThenBlank(f, g, rest);
      } else {
        assert |fs| == 1 && rest == [];
        assert f + g + rest == f;
        LoneField(f);
      }
    }
  }

  // ---------------------------------------------------------------------------------------------------------
  // lower()
  // ---------------------------------------------------------------------------------------------------------

  predicate IsUpper(c: char)
  {
    'A' <= c <= 'Z'
  }

  function LowerChar(c: char): char
  {
    if IsUpper(c) then (c as int - 'A' as int + 'a' as int) as char else c
  }

  /** `s.lower()` on ASCII text: the same characters with every capital letter replaced by its small letter. */
  function Lower(s: string): (r: string)
    ensures |r| == |s|
    ensures forall i :: 0 <= i < |r| ==> !IsUpper(r[i])
    ensures forall i :: 0 <= i < |r| ==> r[i] == s[i] || (IsUpper(s[i]) && r[i] as int == s[i] as int + 32)
  {
    if s == [] then [] else [LowerChar(s[0])] + Lower(s[1..])
  }

  // ---------------------------------------------------------------------------------------------------------
  // int() and the decimal text of an int
  // ---------------------------------------------------------------------------------------------------------

  predicate IsDigit(c: char)
  {
    '0' <= c <= '9'
  }

  /** A plain decimal literal: one or more digits. */
  predicate IsDecimal(s: string)
  {
    s != [] && forall i :: 0 <= i < |s| ==> IsDigit(s[i])
  }

  function DigitValue(c: char): nat
    requires IsDigit(c)
  {
    c as int - '0' as int
  }

  function DigitChar(d: nat): char
    requires d < 10
  {
    ('0' as int + d) as char
  }

  /** The value of a string of digits, most significant first. */
  function DecimalValue(s: string): nat
    requires forall i :: 0 <= i < |s| ==> IsDigit(s[i])
    decreases |s|
  {
    if s == [] then 0 else 10 * DecimalValue(s[..|s| - 1]) + DigitValue(s[|s| - 1])
  }

  /** `int(s)` on a plain decimal literal; `None` stands for the `ValueError` raised on anything else. */
  function ParseDecimal(s: string): (r: Option<nat>)
    ensures r.Some? <==> IsDecimal(s)
  {
    if IsDecimal(s) then Some(DecimalValue(s)) else None
  }

  /** `f"{n}"` for a non-negative `int`: its decimal digits, with a leading zero only for zero itself. */
  function NatToString(n: nat): (s: string)
    ensures IsDecimal(s)
    ensures (s[0] == '0') == (n == 0)
    decreases n
  {
    if n < 10 then [DigitChar(n)] else NatToString(n / 10) + [DigitChar(n % 10)]
  }

  /** `int(f"{n}") == n`. */
  lemma {:induction false} DecimalRoundTrip(n: nat)
    ensures ParseDecimal(NatToString(n)) == Some(n)
  {
    var s := NatToString(n);
    if n >= 10 {
      DecimalRoundTrip(n / 10);
      assert s[..|s| - 1] == NatToString(n / 10);
      assert DigitValue(s[|s| - 1]) == n % 10;
      assert DecimalValue(s) == 10 * (n / 10) + n % 10;
    }
  }

  /** `f"{int(s)}" == s` for a decimal literal without a superfluous leading zero. */
  lemma {:induction false} CanonicalRoundTrip(s: string)
    requires IsDecimal(s)
    requires |s| == 1 || s[0] != '0'
    ensures NatToString(DecimalValue(s)) == s
    decreases |s|
  {
    var p := s[..|s| - 1];
    var d := DigitValue(s[|s| - 1]);
    if p == [] {
      assert s == [DigitChar(d)];
    } else {
      CanonicalRoundTrip(p);
      var v := DecimalValue(p);
      assert v != 0;
      var n := DecimalValue(s);
      assert n == 10 * v + d;
      assert n / 10 == v && n % 10 == d;
      assert s == p + [DigitChar(d)];
    }
  }
}
