/**
 * `file_read_write_modify` (assignmentWeek4.py:3-51): read every line of the
 * input file, reverse the order of the lines, reverse the characters of each
 * right-stripped line, number the result from 1 and write it out.
 *
 * The file system is an abstract store from path to file content; the text a
 * file holds is what `open(..., 'r')` decodes, and `readlines()` is
 * Text.ReadLines on it.
 */
module Transform {
  import opened Wrappers
  import opened Text
  import opened FileStore

  /** The f-string prefix `f"Line {k}: "`. */
  function Prefix(k: nat): (p: string)
  {
    "Line " + DecimalString(k) + ": "
  }

  /** One output entry, `f"Line {k}: {line.rstrip()[::-1]}\n"`. */
  function TransformLine(k: nat, line: string): (e: string)
  {
    Prefix(k) + Reverse(Rstrip(line)) + "\n"
  }

  /** `modified_lines` of assignmentWeek4.py:26: the comprehension over
   *  `enumerate(reversed(lines))`, numbered from 1. Entry `i` (0-based)
   *  comes from input line `n - 1 - i` and carries the number `i + 1`. */
  function TransformLines(lines: seq<string>): (r: seq<string>)
    ensures |r| == |lines|
    ensures forall i :: 0 <= i < |lines| ==> r[i] == TransformLine(i + 1, lines[|lines| - 1 - i])
  {
    var reversed := Reverse(lines);
    seq(|reversed|, i requires 0 <= i < |reversed| => TransformLine(i + 1, reversed[i]))
  }

  /** Output entry `k` (1-based) is
   *  `"Line " + str(k) + ": " + reverse(rstrip(lines[n - k])) + "\n"`:
   *  the original last line becomes "Line 1", the first becomes "Line n". */
  lemma TransformedEntry(lines: seq<string>, k: nat)
    requires 1 <= k <= |lines|
    ensures |TransformLines(lines)| == |lines|
    ensures TransformLines(lines)[k - 1]
      == "Line " + DecimalString(k) + ": " + Reverse(Rstrip(lines[|lines| - k])) + "\n"
  {
    assert |lines| - 1 - (k - 1) == |lines| - k;
  }

  /** The two ends of the numbering: the last input line is numbered 1 and
   *  the first input line is numbered n. */
  lemma TransformedEnds(lines: seq<string>)
    requires lines != []
    ensures TransformLines(lines)[0] == Prefix(1) + Reverse(Rstrip(lines[|lines| - 1])) + "\n"
    ensures TransformLines(lines)[|lines| - 1] == Prefix(|lines|) + Reverse(Rstrip(lines[0])) + "\n"
  {
  }

  /** The text after `"Line k: "` and before the final newline. */
  function EntryText(k: nat, line: string): (t: string)
    ensures TransformLine(k, line) == Prefix(k) + t + "\n"
  {
    Reverse(Rstrip(line))
  }

  /** Reversing the entry's text again gives back `line.rstrip()`, and the
   *  text never starts with whitespace. */
  lemma {:induction false} EntryTextReverses(k: nat, line: string)
    ensures Reverse(EntryText(k, line)) == Rstrip(line)
    ensures var t := EntryText(k, line); t == [] || !IsSpace(t[0])
  {
    RstripSpec(line);
    ReverseInvolution(Rstrip(line));
  }

  /** Every entry ends in a newline, whatever whitespace the input line ended
   *  in; for a line as `readlines()` yields it, that final newline is the
   *  only one in the entry, so the entry ends in exactly one. */
  lemma {:induction false} EntryEndsWithOneNewline(k: nat, line: string)
    ensures var e := TransformLine(k, line); |e| >= 2 && e[|e| - 1] == '\n'
    ensures IsLine(line) ==> IsLine(TransformLine(k, line))
  {
    var e := TransformLine(k, line);
    var p := Prefix(k);
    var t := EntryText(k, line);
    var r := Rstrip(line);
    RstripSpec(line);
    assert e == p + t + "\n";
    if IsLine(line) {
      assert r <= line;
      forall i | 0 <= i < |e| - 1 ensures e[i] != '\n' {
        if i < |p| {
          assert p == "Line " + DecimalString(k) + ": ";
          if 5 <= i < |p| - 2 {
            assert p[i] == DecimalString(k)[i - 5];
          }
        } else {
          var j := i - |p|;
          assert e[i] == t[j] == r[|r| - 1 - j];
          if |r| == |line| {
            assert r[|r| - 1] != '\n';
          }
        }
      }
    }
  }

  /** Length of the run of decimal digits that `s` starts with. */
  function DigitRunLength(s: string): (k: nat)
    ensures k <= |s|
    ensures forall i :: 0 <= i < k ==> IsDigit(s[i])
    ensures k == |s| || !IsDigit(s[k])
    decreases |s|
  {
    if s != [] && IsDigit(s[0]) then 1 + DigitRunLength(s[1..]) else 0
  }

  /** A reader for one output entry: the line number and the restored text
   *  (`rstrip` of the original line), or None if `e` is not of the form
   *  `"Line <digits>: <text>\n"`. */
  function ParseEntry(e: string): (r: Option<(nat, string)>)
  {
    if |e| < 5 || e[..5] != "Line " then None else ParseNumbered(e[5..])
  }

  /** The part of ParseEntry after `"Line "`: digits, `": "`, the text and a
   *  final newline. */
  function ParseNumbered(rest: string): (r: Option<(nat, string)>)
  {
    var d := DigitRunLength(rest);
    if d == 0 || |rest| < d + 3 || rest[d..d + 2] != ": " || rest[|rest| - 1] != '\n' then None
    else Some((ParseDecimal(rest[..d]), Reverse(rest[d + 2..|rest| - 1])))
  }

  /** The digit run of `ds + tail` is `ds` when `tail` starts with a
   *  non-digit. */
  lemma DigitRunOf(ds: string, tail: string)
    requires forall i :: 0 <= i < |ds| ==> IsDigit(ds[i])
    requires tail != [] && !IsDigit(tail[0])
    ensures DigitRunLength(ds + tail) == |ds|
  {
    var s := ds + tail;
    var k := DigitRunLength(s);
    assert s[|ds|] == tail[0];
    assert forall i :: 0 <= i < |ds| ==> s[i] == ds[i];
  }

  /** Reading any text of the form `"Line " + ds + ": " + t + "\n"` with a
   *  non-empty digit string `ds` yields the value of `ds` and `t` reversed. */
  lemma ParseEntryOf(ds: string, t: string)
    requires ds != [] && forall i :: 0 <= i < |ds| ==> IsDigit(ds[i])
    ensures ParseEntry("Line " + ds + ": " + t + "\n") == Some((ParseDecimal(ds), Reverse(t)))
  {
    var e := "Line " + ds + ": " + t + "\n";
    var rest := ds + ": " + t + "\n";
    assert e == "Line " + rest;
    assert e[..5] == "Line " && e[5..] == rest;
    ParseNumberedOf(ds, t);
  }

  lemma ParseNumberedOf(ds: string, t: string)
    requires ds != [] && forall i :: 0 <= i < |ds| ==> IsDigit(ds[i])
    ensures ParseNumbered(ds + ": " + t + "\n") == Some((ParseDecimal(ds), Reverse(t)))
  {
    var rest := ds + ": " + t + "\n";
    var d := |ds|;
    assert rest == ds + (": " + t + "\n");
    DigitRunOf(ds, ": " + t + "\n");
    assert rest[..d] == ds;
    assert rest[d..d + 2] == ": ";
    assert rest[d + 2..|rest| - 1] == t;
  }

  /** Each entry determines both its number and the right-stripped original
   *  line: reading the entry back inverts the transformation. */
  lemma ParseEntryInverts(k: nat, line: string)
    ensures ParseEntry(TransformLine(k, line)) == Some((k, Rstrip(line)))
  {
    var t := EntryText(k, line);
    assert TransformLine(k, line) == "Line " + DecimalString(k) + ": " + t + "\n";
    ParseEntryOf(DecimalString(k), t);
    ParseDecimalString(k);
    EntryTextReverses(k, line);
  }

  /** For lines that `readlines()` produced, the output is again a list of
   *  well-formed lines, each ending in a newline. */
  lemma TransformedWellFormed(lines: seq<string>)
    requires WellFormedLines(lines)
    ensures WellFormedLines(TransformLines(lines))
    ensures forall i :: 0 <= i < |lines| ==>
      var e := TransformLines(lines)[i]; e[|e| - 1] == '\n'
  {
    var r := TransformLines(lines);
    forall i | 0 <= i < |lines|
      ensures IsLine(r[i]) && r[i][|r[i]| - 1] == '\n'
    {
      EntryEndsWithOneNewline(i + 1, lines[|lines| - 1 - i]);
    }
  }

  /** The text `writelines(modified_lines)` leaves in the output file. */
  function OutputText(input: string): (out: string)
  {
    Concat(TransformLines(ReadLines(input)))
  }

  /** assignmentWeek4.py:15-38: a missing input path gives `false` and leaves
   *  the store as it was; otherwise the output path is created or
   *  overwritten with the transformed text and the result is `true`. */
  method FileReadWriteModify(store: Store, inputPath: string, outputPath: string)
    returns (ok: bool, after: Store)
    ensures ok <==> inputPath in store
    ensures !ok ==> after == store
    ensures ok ==> after.Keys == store.Keys + {outputPath}
    ensures ok ==> after[outputPath] == OutputText(store[inputPath])
    ensures forall p :: p in store && p != outputPath ==> p in after && after[p] == store[p]
  {
    if inputPath !in store {
      return false, store;
    }
    var lines := ReadLines(store[inputPath]);
    var modified := TransformLines(lines);
    after := store[outputPath := Concat(modified)];
    ok := true;
  }

  /** Reading the output file back with `readlines()` yields exactly the
   *  transformed entries, one per input line. */
  lemma {:induction false} OutputReadsBack(input: string)
    ensures ReadLines(OutputText(input)) == TransformLines(ReadLines(input))
    ensures |ReadLines(OutputText(input))| == |ReadLines(input)|
  {
    TransformedWellFormed(ReadLines(input));
    ReadLinesConcat(TransformLines(ReadLines(input)));
  }

  /** Three lines without a newline of their own, each terminated by one,
   *  form a well-formed list of lines. */
  lemma ThreeLines(x: string, y: string, z: string)
    requires forall i :: 0 <= i < |x| ==> x[i] != '\n'
    requires forall i :: 0 <= i < |y| ==> y[i] != '\n'
    requires forall i :: 0 <= i < |z| ==> z[i] != '\n'
    ensures WellFormedLines([x + "\n", y + "\n", z + "\n"])
  {
    TerminatedLine(x);
    TerminatedLine(y);
    TerminatedLine(z);
  }

  /** A text without a newline, terminated by one, is a line. */
  lemma TerminatedLine(x: string)
    requires forall i :: 0 <= i < |x| ==> x[i] != '\n'
    ensures IsLine(x + "\n") && (x + "\n")[|x|] == '\n'
  {
    forall i | 0 <= i < |x| ensures (x + "\n")[i] != '\n' {
      assert (x + "\n")[i] == x[i];
    }
  }

  /** Three well-formed lines written one after the other are read back as
   *  those three lines. */
  lemma ThreeLinesRead(a: string, b: string, c: string)
    requires WellFormedLines([a, b, c])
    ensures ReadLines(a + b + c) == [a, b, c]
  {
    ConcatThree(a, b, c);
    ReadLinesConcat([a, b, c]);
  }

  /** A file of three lines, each without trailing whitespace but for its
   *  newline (a blank line is allowed), is written out in reverse order, each line reversed and
   *  numbered. */
  lemma ThreeLineOutput(s1: string, t1: string, s2: string, t2: string, s3: string, t3: string)
    requires (s1 == [] || !IsSpace(s1[|s1| - 1])) && Reverse(s1) == t1
    requires (s2 == [] || !IsSpace(s2[|s2| - 1])) && Reverse(s2) == t2
    requires (s3 == [] || !IsSpace(s3[|s3| - 1])) && Reverse(s3) == t3
    requires forall i :: 0 <= i < |s1| ==> s1[i] != '\n'
    requires forall i :: 0 <= i < |s2| ==> s2[i] != '\n'
    requires forall i :: 0 <= i < |s3| ==> s3[i] != '\n'
    ensures OutputText((s3 + "\n") + (s2 + "\n") + (s1 + "\n"))
      == (Prefix(1) + t1 + "\n") + (Prefix(2) + t2 + "\n") + (Prefix(3) + t3 + "\n")
  {
    ThreeLines(s3, s2, s1);
    ThreeLinesRead(s3 + "\n", s2 + "\n", s1 + "\n");
    TransformThree(s1, t1, s2, t2, s3, t3);
    ConcatThree(Prefix(1) + t1 + "\n", Prefix(2) + t2 + "\n", Prefix(3) + t3 + "\n");
  }

  /** The sample file that the script's main block writes holds the lines
   *  `s3`, `s2` and `s1`, in that order, each ending in a newline. The
   *  transformation writes them in reverse order, each reversed (`t1`, `t2`,
   *  `t3`) and numbered. */
  lemma SampleFile(s1: string, s2: string, s3: string, t1: string, t2: string, t3: string)
    requires s3 == "This is a test file." && s2 == "It contains some text." && s1 == "Hello Python!"
    requires t1 == "!nohtyP olleH" && t2 == ".txet emos sniatnoc tI" && t3 == ".elif tset a si sihT"
    ensures OutputText((s3 + "\n") + (s2 + "\n") + (s1 + "\n"))
      == ("Line 1: " + t1 + "\n") + ("Line 2: " + t2 + "\n") + ("Line 3: " + t3 + "\n")
  {
    SampleShape1(s1);
    SampleShape2(s2);
    SampleShape3(s3);
    SampleReverse1(s1, t1);
    SampleReverse2(s2, t2);
    SampleReverse3(s3, t3);
    ThreeLineOutput(s1, t1, s2, t2, s3, t3);
    SamplePrefixes();
  }

  lemma SamplePrefixes()
    ensures Prefix(1) == "Line 1: " && Prefix(2) == "Line 2: " && Prefix(3) == "Line 3: "
  {
    assert DecimalString(1) == "1" && DecimalString(2) == "2" && DecimalString(3) == "3";
  }

  lemma ConcatThree(x: string, y: string, z: string)
    ensures Concat([x, y, z]) == x + y + z
  {
    var r := [x, y, z];
    assert r[1..] == [y, z] && r[1..][1..] == [z];
    assert Concat([z]) == z + Concat([]);
  }

  /** Three lines whose only trailing whitespace is one newline: the last
   *  becomes entry 1 and the first entry 3, each with its text reversed. */
  lemma TransformThree(s1: string, t1: string, s2: string, t2: string, s3: string, t3: string)
    requires (s1 == [] || !IsSpace(s1[|s1| - 1])) && Reverse(s1) == t1
    requires (s2 == [] || !IsSpace(s2[|s2| - 1])) && Reverse(s2) == t2
    requires (s3 == [] || !IsSpace(s3[|s3| - 1])) && Reverse(s3) == t3
    ensures TransformLines([s3 + "\n", s2 + "\n", s1 + "\n"])
      == [Prefix(1) + t1 + "\n", Prefix(2) + t2 + "\n", Prefix(3) + t3 + "\n"]
  {
    ThreeEntries(s1 + "\n", s2 + "\n", s3 + "\n");
    SampleEntry(1, s1, t1);
    SampleEntry(2, s2, t2);
    SampleEntry(3, s3, t3);
  }

  lemma ThreeEntries(l1: string, l2: string, l3: string)
    ensures TransformLines([l3, l2, l1]) == [TransformLine(1, l1), TransformLine(2, l2), TransformLine(3, l3)]
  {
    var ls := [l3, l2, l1];
    ReverseUnique(ls, [l1, l2, l3]);
    var r := TransformLines(ls);
    assert r[0] == TransformLine(1, l1) && r[1] == TransformLine(2, l2) && r[2] == TransformLine(3, l3);
  }

  /** A sample line holds no newline and does not end in whitespace. */
  lemma SampleShape1(s: string)
    requires s == "Hello Python!"
    ensures s != [] && !IsSpace(s[|s| - 1])
    ensures forall i :: 0 <= i < |s| ==> s[i] != '\n'
  {
  }

  lemma SampleShape2(s: string)
    requires s == "It contains some text."
    ensures s != [] && !IsSpace(s[|s| - 1])
    ensures forall i :: 0 <= i < |s| ==> s[i] != '\n'
  {
  }

  lemma SampleShape3(s: string)
    requires s == "This is a test file."
    ensures s != [] && !IsSpace(s[|s| - 1])
    ensures forall i :: 0 <= i < |s| ==> s[i] != '\n'
  {
  }

  /** The reversal of a sample line. */
  lemma SampleReverse1(s: string, t: string)
    requires s == "Hello Python!" && t == "!nohtyP olleH"
    ensures Reverse(s) == t
  {
    forall i | 0 <= i < |t| ensures t[i] == s[|s| - 1 - i] { }
    ReverseUnique(s, t);
  }

  lemma SampleReverse2(s: string, t: string)
    requires s == "It contains some text." && t == ".txet emos sniatnoc tI"
    ensures Reverse(s) == t
  {
    forall i | 0 <= i < |t| ensures t[i] == s[|s| - 1 - i] { }
    ReverseUnique(s, t);
  }

  lemma SampleReverse3(s: string, t: string)
    requires s == "This is a test file." && t == ".elif tset a si sihT"
    ensures Reverse(s) == t
  {
    forall i | 0 <= i < |t| ensures t[i] == s[|s| - 1 - i] { }
    ReverseUnique(s, t);
  }

  /** One entry for a line whose only trailing whitespace is one newline;
   *  the line may be blank. */
  lemma SampleEntry(k: nat, stripped: string, text: string)
    requires (stripped == [] || !IsSpace(stripped[|stripped| - 1]))
    requires Reverse(stripped) == text
    ensures TransformLine(k, stripped + "\n") == Prefix(k) + text + "\n"
  {
    var line := stripped + "\n";
    assert line[|stripped|..] == "\n";
    RstripUnique(line, stripped);
  }
}
