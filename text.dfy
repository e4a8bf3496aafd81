/**
 * The string primitives the script relies on: Python's notion of whitespace,
 * `str.rstrip()`, `str.strip()`, slice reversal `s[::-1]`, decimal rendering
 * of an int in an f-string, and the line splitting done by `readlines()`.
 */
module Text {

  /** Python's `str.isspace()` for one character: the 29 code points that
   *  CPython treats as whitespace in `strip`, `rstrip` and `split`. */
  predicate IsSpace(c: char) {
    c == ' ' || ('\t' <= c <= '\r') || ('\U{1C}' <= c <= '\U{1F}')
    || c == '\U{85}' || c == '\U{A0}' || c == '\U{1680}'
    || ('\U{2000}' <= c <= '\U{200A}') || c == '\U{2028}' || c == '\U{2029}'
    || c == '\U{202F}' || c == '\U{205F}' || c == '\U{3000}'
  }

  predicate AllSpace(s: string) {
    forall i :: 0 <= i < |s| ==> IsSpace(s[i])
  }

  predicate NoSpace(s: string) {
    forall i :: 0 <= i < |s| ==> !IsSpace(s[i])
  }

  /** `s.rstrip()`: drop whitespace from the end. */
  function Rstrip(s: string): (r: string)
    decreases |s|
  {
    if s != [] && IsSpace(s[|s| - 1]) then Rstrip(s[..|s| - 1]) else s
  }

  /** `s.lstrip()`: drop whitespace from the start. */
  function Lstrip(s: string): (r: string)
    decreases |s|
  {
    if s != [] && IsSpace(s[0]) then Lstrip(s[1..]) else s
  }

  /** `s.strip()`: `s` with all leading and trailing whitespace removed. */
  function Strip(s: string): (r: string)
  {
    Lstrip(Rstrip(s))
  }

  /** `rstrip()` keeps a prefix of `s` that is empty or ends in a
   *  non-whitespace character, and removes only whitespace. */
  lemma {:induction false} RstripSpec(s: string)
    ensures Rstrip(s) <= s
    ensures Rstrip(s) == [] || !IsSpace(Rstrip(s)[|Rstrip(s)| - 1])
    ensures AllSpace(s[|Rstrip(s)|..])
    decreases |s|
  {
    if s != [] && IsSpace(s[|s| - 1]) {
      var t := s[..|s| - 1];
      RstripSpec(t);
      assert s[|Rstrip(s)|..] == t[|Rstrip(t)|..] + [s[|s| - 1]];
    }
  }

  /** `lstrip()` keeps a suffix of `s` that is empty or starts with a
   *  non-whitespace character, and removes only whitespace. */
  lemma {:induction false} LstripSpec(s: string)
    ensures |Lstrip(s)| <= |s| && Lstrip(s) == s[|s| - |Lstrip(s)|..]
    ensures Lstrip(s) == [] || !IsSpace(Lstrip(s)[0])
    ensures AllSpace(s[..|s| - |Lstrip(s)|])
    decreases |s|
  {
    if s != [] && IsSpace(s[0]) {
      var t := s[1..];
      LstripSpec(t);
      assert s[..|s| - |Lstrip(s)|] == [s[0]] + t[..|t| - |Lstrip(t)|];
    }
  }

  /** Any string split into two whitespace-free borders and a bare middle has
   *  that middle as its `rstrip()`: the contract of Rstrip determines it. */
  lemma RstripUnique(s: string, r: string)
    requires r <= s
    requires r == [] || !IsSpace(r[|r| - 1])
    requires AllSpace(s[|r|..])
    ensures Rstrip(s) == r
  {
    RstripSpec(s);
    var t := Rstrip(s);
    forall j | |t| <= j < |s| ensures IsSpace(s[j]) {
      assert s[|t|..][j - |t|] == s[j];
    }
    forall j | |r| <= j < |s| ensures IsSpace(s[j]) {
      assert s[|r|..][j - |r|] == s[j];
    }
    assert |t| == |r|;
  }

  /** What `strip()` keeps is a slice of the input bordered only by
   *  whitespace, and that slice neither starts nor ends with whitespace. */
  lemma StripIsTrimmedSlice(s: string)
    ensures var r := Strip(s);
      r == [] || (!IsSpace(r[0]) && !IsSpace(r[|r| - 1]))
    ensures var r := Strip(s); var a := |Rstrip(s)| - |r|;
      0 <= a && a + |r| <= |s| && s[a..a + |r|] == r
      && AllSpace(s[..a]) && AllSpace(s[a + |r|..])
  {
    var t := Rstrip(s);
    var r := Lstrip(t);
    RstripSpec(s);
    LstripSpec(t);
    var a := |t| - |r|;
    assert t == s[..|t|];
    assert s[a..a + |r|] == t[a..];
    if r != [] {
      assert r[|r| - 1] == t[|t| - 1];
    }
    assert s[..a] == t[..a];
    assert s[a + |r|..] == s[|t|..];
  }

  /** `strip()` returns the empty string exactly for all-whitespace input. */
  lemma {:induction false} StripEmptyIff(s: string)
    ensures Strip(s) == [] <==> AllSpace(s)
  {
    StripIsTrimmedSlice(s);
    RstripSpec(s);
    var t := Rstrip(s);
    if Strip(s) == [] {
      assert t == [];
      forall i | 0 <= i < |s| ensures IsSpace(s[i]) {
        assert s[|t|..][i] == s[i];
      }
    } else {
      var r := Strip(s);
      var a := |t| - |r|;
      assert s[a..a + |r|][0] == s[a];
    }
  }

  /** Python's `s[::-1]`. */
  function Reverse<T>(s: seq<T>): (r: seq<T>)
    ensures |r| == |s|
    ensures forall i :: 0 <= i < |s| ==> r[i] == s[|s| - 1 - i]
  {
    if s == [] then [] else Reverse(s[1..]) + [s[0]]
  }

  /** Reversing twice gives back the original: `s[::-1][::-1] == s`. */
  lemma ReverseInvolution<T>(s: seq<T>)
    ensures Reverse(Reverse(s)) == s
  {
    var r := Reverse(Reverse(s));
    assert forall i :: 0 <= i < |s| ==> r[i] == s[i];
  }

  /** The contract of Reverse determines it. */
  lemma ReverseUnique<T>(s: seq<T>, t: seq<T>)
    requires |t| == |s|
    requires forall i :: 0 <= i < |t| ==> t[i] == s[|s| - 1 - i]
    ensures Reverse(s) == t
  {
  }

  predicate IsDigit(c: char) {
    '0' <= c <= '9'
  }

  function DigitChar(d: nat): (c: char)
    requires d < 10
  {
    "0123456789"[d]
  }

  function DigitValue(c: char): (d: nat)
    requires IsDigit(c)
  {
    c as int - '0' as int
  }

  /** `str(n)` for a non-negative int: its decimal digits, most significant
   *  first, with no leading zero. */
  function DecimalString(n: nat): (r: string)
    ensures r != []
    ensures forall i :: 0 <= i < |r| ==> IsDigit(r[i])
    ensures r[0] == '0' ==> n == 0 && |r| == 1
    decreases n
  {
    if n < 10 then [DigitChar(n)] else DecimalString(n / 10) + [DigitChar(n % 10)]
  }

  /** `int(s)` for a string of decimal digits. */
  function ParseDecimal(s: string): (n: nat)
    requires forall i :: 0 <= i < |s| ==> IsDigit(s[i])
    decreases |s|
  {
    if s == [] then 0 else 10 * ParseDecimal(s[..|s| - 1]) + DigitValue(s[|s| - 1])
  }

  /** Decimal rendering is undone by parsing, so distinct numbers render
   *  as distinct strings. */
  lemma {:induction false} ParseDecimalString(n: nat)
    ensures ParseDecimal(DecimalString(n)) == n
    decreases n
  {
    var r := DecimalString(n);
    if n >= 10 {
      ParseDecimalString(n / 10);
      assert r[..|r| - 1] == DecimalString(n / 10);
    }
  }

  /** The concatenation of a list of strings, as `writelines` produces it. */
  function Concat(ls: seq<string>): (s: string)
  {
    if ls == [] then [] else ls[0] + Concat(ls[1..])
  }

  lemma {:induction false} ConcatAppend(a: seq<string>, b: seq<string>)
    ensures Concat(a + b) == Concat(a) + Concat(b)
    decreases |a|
  {
    if a != [] {
      assert (a + b)[1..] == a[1..] + b;
      ConcatAppend(a[1..], b);
    } else {
      assert a + b == b;
    }
  }

  /** One line as `readlines()` yields it: non-empty, and a newline can occur
   *  only as its last character. */
  predicate IsLine(l: string) {
    l != [] && forall i :: 0 <= i < |l| - 1 ==> l[i] != '\n'
  }

  /** A list of lines that `readlines()` could have produced: every entry is
   *  a line, and every entry but the last ends with a newline. */
  predicate WellFormedLines(ls: seq<string>) {
    && (forall i :: 0 <= i < |ls| ==> IsLine(ls[i]))
    && (forall i :: 0 <= i < |ls| - 1 ==> ls[i][|ls[i]| - 1] == '\n')
  }

  /** Length of the first line of `c`, up to and including its newline. */
  function FirstLineLength(c: string): (k: nat)
    requires c != []
    ensures 1 <= k <= |c|
    ensures forall i :: 0 <= i < k - 1 ==> c[i] != '\n'
    ensures k == |c| || c[k - 1] == '\n'
    decreases |c|
  {
    if c[0] == '\n' || |c| == 1 then 1 else 1 + FirstLineLength(c[1..])
  }

  /** `readlines()` on already-decoded text: split after every newline,
   *  keeping the newlines; a final line without one is kept too. */
  function ReadLines(c: string): (ls: seq<string>)
    ensures WellFormedLines(ls)
    ensures Concat(ls) == c
    decreases |c|
  {
    if c == [] then []
    else
      var k := FirstLineLength(c);
      assert c[..k] + c[k..] == c;
      [c[..k]] + ReadLines(c[k..])
  }

  /** Splitting the concatenation of well-formed lines gives the lines back,
   *  so `readlines()` after `writelines(ls)` returns `ls`. */
  lemma {:induction false} ReadLinesConcat(ls: seq<string>)
    requires WellFormedLines(ls)
    ensures ReadLines(Concat(ls)) == ls
    decreases |ls|
  {
    if ls != [] {
      var c := Concat(ls);
      var l := ls[0];
      assert c == l + Concat(ls[1..]);
      var k := FirstLineLength(c);
      assert forall i :: 0 <= i < |l| ==> c[i] == l[i];
      assert |ls| > 1 ==> c[|l| - 1] == '\n';
      assert k == |l|;
      assert c[..k] == l;
      assert c[k..] == Concat(ls[1..]);
      assert WellFormedLines(ls[1..]) by {
        forall i | 0 <= i < |ls[1..]| ensures IsLine(ls[1..][i]) {
          assert ls[1..][i] == ls[i + 1];
        }
        forall i | 0 <= i < |ls[1..]| - 1 ensures ls[1..][i][|ls[1..][i]| - 1] == '\n' {
          assert ls[1..][i] == ls[i + 1];
        }
      }
      ReadLinesConcat(ls[1..]);
    }
  }
}
