/**
 * String handling shared by both calculators: reading a Brazilian-formatted
 * currency field ("1.234,56") and trimming a description.
 */
module Text {
  import opened Wrappers


  /** How many times `c` occurs in `s`. */
  function Count(s: string, c: char): nat
  {
    if s == [] then 0 else (if s[0] == c then 1 else 0) + Count(s[1..], c)
  }

  /** Every '.' (thousands separator) removed. */
  function RemoveDots(s: string): string
  {
    if s == [] then []
    else if s[0] == '.' then RemoveDots(s[1..])
    else [s[0]] + RemoveDots(s[1..])
  }

  /** Removing the dots drops exactly the dots. */
  lemma {:induction false} RemoveDotsCounts(s: string)
    ensures |RemoveDots(s)| == |s| - Count(s, '.')
    ensures Count(RemoveDots(s), '.') == 0
    ensures forall c :: c != '.' ==> Count(RemoveDots(s), c) == Count(s, c)
  {
    if s != [] {
      RemoveDotsCounts(s[1..]);
      if s[0] != '.' {
        var r := RemoveDots(s);
        assert r[0] == s[0] && r[1..] == RemoveDots(s[1..]);
      }
    }
  }

  /** Dots are removed piecewise, so the kept characters stay in their order. */
  lemma {:induction false} RemoveDotsConcat(a: string, b: string)
    ensures RemoveDots(a + b) == RemoveDots(a) + RemoveDots(b)
  {
    if a == [] {
      assert a + b == b;
    } else {
      assert (a + b)[0] == a[0] && (a + b)[1..] == a[1..] + b;
      RemoveDotsConcat(a[1..], b);
    }
  }

  /** The first ',' (decimal separator) replaced by '.'; nothing else changes. */
  function ReplaceFirstComma(s: string): (r: string)
    ensures |r| == |s|
    ensures forall i :: 0 <= i < |s| && r[i] != s[i] ==>
      s[i] == ',' && r[i] == '.' && forall j :: 0 <= j < i ==> s[j] != ','
    ensures forall i :: 0 <= i < |s| && s[i] == ',' && (forall j :: 0 <= j < i ==> s[j] != ',') ==>
      r[i] == '.'
  {
    if s == [] then []
    else if s[0] == ',' then ['.'] + s[1..]
    else [s[0]] + ReplaceFirstComma(s[1..])
  }

  /** The currency-field cleanup: thousands dots dropped, decimal comma made a dot. */
  function CleanCurrency(s: string): string
  {
    ReplaceFirstComma(RemoveDots(s))
  }

  /** The documented example: "1.234,56" is cleaned into "1234.56". */
  lemma CleanCurrencyExample()
    ensures CleanCurrency("1.234,56") == "1234.56"
  {
    DotsExample();
    CommaExample();
  }

  lemma DotsExample()
    ensures RemoveDots("1.234,56") == "1234,56"
  {
    var tail := "234,56";
    assert RemoveDots(tail[5..]) == tail[5..];
    assert RemoveDots(tail[4..]) == tail[4..];
    assert RemoveDots(tail[3..]) == tail[3..];
    assert RemoveDots(tail[2..]) == tail[2..];
    assert RemoveDots(tail[1..]) == tail[1..];
    assert RemoveDots(tail) == tail;
    var s := "1.234,56";
    assert s[2..] == tail;
    assert RemoveDots(s[1..]) == tail;
  }

  lemma CommaExample()
    ensures ReplaceFirstComma("1234,56") == "1234.56"
  {
    var t := "1234,56";
    assert ReplaceFirstComma(t[4..]) == ".56";
    assert ReplaceFirstComma(t[3..]) == "4.56";
    assert ReplaceFirstComma(t[2..]) == "34.56";
    assert ReplaceFirstComma(t[1..]) == "234.56";
  }

  /** The cleaned string holds a '.' exactly when the input has a ',', and
      then only one: the one that replaced the first ','. One ',' fewer
      remains and every other character is kept. */
  lemma {:induction false} CleanCurrencyCounts(s: string)
    ensures Count(CleanCurrency(s), '.') == if Count(s, ',') > 0 then 1 else 0
    ensures Count(CleanCurrency(s), ',') == if Count(s, ',') > 0 then Count(s, ',') - 1 else 0
    ensures forall c :: c != '.' && c != ',' ==> Count(CleanCurrency(s), c) == Count(s, c)
    ensures |CleanCurrency(s)| == |s| - Count(s, '.')
  {
    var t := RemoveDots(s);
    RemoveDotsCounts(s);
    ReplaceCounts(t);
  }

  lemma {:induction false} ReplaceCounts(t: string)
    ensures var r := ReplaceFirstComma(t);
      && Count(r, '.') == Count(t, '.') + (if Count(t, ',') > 0 then 1 else 0)
      && Count(r, ',') == (if Count(t, ',') > 0 then Count(t, ',') - 1 else 0)
      && forall c :: c != '.' && c != ',' ==> Count(r, c) == Count(t, c)
  {
    if t != [] {
      var r := ReplaceFirstComma(t);
      if t[0] == ',' {
        assert r[1..] == t[1..];
      } else {
        ReplaceCounts(t[1..]);
        assert r[1..] == ReplaceFirstComma(t[1..]);
      }
    }
  }

  /** parseCurrency: empty input reads as 0; otherwise the cleaned string is
      handed to the number parser (`parseFloat`, given here as a parameter
      that yields None for NaN), and a NaN reads as 0. */
  function ParseCurrency(value: string, parseFloat: string -> Option<real>): (r: real)
    ensures value == "" ==> r == 0.0
    ensures value != "" && parseFloat(CleanCurrency(value)).Some? ==>
      r == parseFloat(CleanCurrency(value)).value
    ensures value != "" && parseFloat(CleanCurrency(value)).None? ==> r == 0.0
  {
    if value == "" then 0.0
    else match parseFloat(CleanCurrency(value))
      case None => 0.0
      case Some(x) => x
  }

  /** The characters JavaScript's String.prototype.trim removes. */
  predicate IsWhitespace(c: char)
  {
    c == ' ' || c == '\t' || c == '\n' || c == '\r' || c == '\U{000B}' || c == '\U{000C}' ||
    c == '\U{00A0}' || c == '\U{1680}' || ('\U{2000}' <= c <= '\U{200A}') ||
    c == '\U{2028}' || c == '\U{2029}' || c == '\U{202F}' || c == '\U{205F}' ||
    c == '\U{3000}' || c == '\U{FEFF}'
  }

  /** How many whitespace characters `s` starts with. */
  function LeadingWhitespace(s: string): (n: nat)
    ensures n <= |s|
    ensures forall i :: 0 <= i < n ==> IsWhitespace(s[i])
    ensures n < |s| ==> !IsWhitespace(s[n])
  {
    if s != [] && IsWhitespace(s[0]) then 1 + LeadingWhitespace(s[1..]) else 0
  }

  /** How many whitespace characters `s` ends with. */
  function TrailingWhitespace(s: string): (n: nat)
    ensures n <= |s|
    ensures forall i :: |s| - n <= i < |s| ==> IsWhitespace(s[i])
    ensures n < |s| ==> !IsWhitespace(s[|s| - n - 1])
  {
    if s != [] && IsWhitespace(s[|s| - 1]) then 1 + TrailingWhitespace(s[..|s| - 1]) else 0
  }

  /** `s` without its leading whitespace. */
  function TrimStart(s: string): (r: string)
    ensures |r| <= |s|
    ensures forall i :: 0 <= i < |s| - |r| ==> IsWhitespace(s[i])
    ensures r != [] ==> !IsWhitespace(r[0])
  {
    s[LeadingWhitespace(s)..]
  }

  /** `s` without its trailing whitespace. */
  function TrimEnd(s: string): (r: string)
    ensures |r| <= |s|
    ensures forall i :: |r| <= i < |s| ==> IsWhitespace(s[i])
    ensures r != [] ==> !IsWhitespace(r[|r| - 1])
  {
    s[..|s| - TrailingWhitespace(s)]
  }

  /** What TrimStart keeps is the rest of the input, in place. */
  lemma TrimStartIsRest(s: string)
    ensures TrimStart(s) == s[|s| - |TrimStart(s)|..]
  {
  }

  /** What TrimEnd keeps is the front of the input, in place. */
  lemma TrimEndIsFront(s: string)
    ensures TrimEnd(s) == s[..|TrimEnd(s)|]
  {
  }

  function Trim(s: string): string
  {
    TrimEnd(TrimStart(s))
  }

  /** Trim keeps a contiguous middle part of the text, bounded by
      non-whitespace, and drops only whitespace around it; it is empty
      exactly when the text is all whitespace. */
  lemma TrimmedPart(s: string)
    ensures var a := |s| - |TrimStart(s)|; var b := a + |Trim(s)|;
      && 0 <= a <= b <= |s| && Trim(s) == s[a..b]
      && (forall i :: 0 <= i < a ==> IsWhitespace(s[i]))
      && (forall i :: b <= i < |s| ==> IsWhitespace(s[i]))
    ensures Trim(s) != [] ==> !IsWhitespace(Trim(s)[0]) && !IsWhitespace(Trim(s)[|Trim(s)| - 1])
    ensures Trim(s) == [] <==> forall i :: 0 <= i < |s| ==> IsWhitespace(s[i])
  {
    TrimIsSlice(s);
    TrimSides(s);
    TrimBounds(s);
    TrimEmpty(s);
  }

  lemma TrimIsSlice(s: string)
    ensures var a := |s| - |TrimStart(s)|; var b := a + |Trim(s)|;
      0 <= a <= b <= |s| && Trim(s) == s[a..b]
  {
    var a := LeadingWhitespace(s);
    var t := s[a..];
    assert TrimStart(s) == t;
    var k := |t| - TrailingWhitespace(t);
    assert Trim(s) == t[..k];
    PrefixOfSuffix(s, a, k);
  }

  lemma PrefixOfSuffix(s: string, a: nat, k: nat)
    requires a <= |s| && k <= |s| - a
    ensures s[a..][..k] == s[a..a + k]
  {
  }

  lemma TrimSides(s: string)
    ensures var a := |s| - |TrimStart(s)|; var b := a + |Trim(s)|;
      && (forall i :: 0 <= i < a ==> IsWhitespace(s[i]))
      && (forall i :: b <= i < |s| ==> IsWhitespace(s[i]))
  {
    var a := LeadingWhitespace(s);
    var t := s[a..];
    var k := |t| - TrailingWhitespace(t);
    forall i | a + k <= i < |s|
      ensures IsWhitespace(s[i])
    {
      assert s[i] == t[i - a];
    }
  }

  lemma TrimBounds(s: string)
    ensures Trim(s) != [] ==> !IsWhitespace(Trim(s)[0]) && !IsWhitespace(Trim(s)[|Trim(s)| - 1])
  {
    var t := TrimStart(s);
    var r := TrimEnd(t);
    if r != [] {
      assert r[0] == t[0];
    }
  }

  lemma TrimEmpty(s: string)
    ensures Trim(s) == [] <==> forall i :: 0 <= i < |s| ==> IsWhitespace(s[i])
  {
    var t := TrimStart(s);
    var r := TrimEnd(t);
    var a := |s| - |t|;
    if r == [] {
      assert t == [];
    } else {
      assert !IsWhitespace(s[a]);
    }
  }
}
