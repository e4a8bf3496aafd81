/**
 * The statistics `error_handling_lab` prints for a file it could read
 * (assignmentWeek4.py:75-88): `content.count('\n') + 1` lines,
 * `len(content.split())` words and `len(content)` characters.
 */
module Stats {
  import opened Text
  import opened FileStore

  /** `s.count(c)` for a single character `c`. */
  function CountChar(s: string, c: char): (n: nat)
    ensures n <= |s|
    decreases |s|
  {
    if s == [] then 0 else (if s[0] == c then 1 else 0) + CountChar(s[1..], c)
  }

  lemma {:induction false} CountCharAppend(a: string, b: string, c: char)
    ensures CountChar(a + b, c) == CountChar(a, c) + CountChar(b, c)
    decreases |a|
  {
    if a != [] {
      assert (a + b)[1..] == a[1..] + b;
      CountCharAppend(a[1..], b, c);
    } else {
      assert a + b == b;
    }
  }

  /** Length of the run of non-whitespace characters that `s` starts with. */
  function WordLength(s: string): (k: nat)
    requires s != [] && !IsSpace(s[0])
    ensures 1 <= k <= |s|
    ensures NoSpace(s[..k])
    ensures k == |s| || IsSpace(s[k])
    decreases |s|
  {
    if |s| == 1 || IsSpace(s[1]) then 1 else 1 + WordLength(s[1..])
  }

  /** `s.split()` with no argument: the maximal runs of non-whitespace
   *  characters, in order. */
  function Words(s: string): (ws: seq<string>)
    ensures forall i :: 0 <= i < |ws| ==> ws[i] != [] && NoSpace(ws[i])
    decreases |s|
  {
    if s == [] then []
    else if IsSpace(s[0]) then Words(s[1..])
    else
      var k := WordLength(s);
      [s[..k]] + Words(s[k..])
  }

  function LineCount(content: string): (n: nat)
  {
    CountChar(content, '\n') + 1
  }

  function WordCount(content: string): (n: nat)
  {
    |Words(content)|
  }

  function CharCount(content: string): (n: nat)
  {
    |content|
  }

  /** The three numbers printed under "Statistics:". */
  datatype Statistics = Statistics(lines: nat, words: nat, chars: nat)

  function Report(content: string): (st: Statistics)
  {
    Statistics(LineCount(content), WordCount(content), CharCount(content))
  }

  /** What the `try` block at assignmentWeek4.py:73-88 yields for a name that
   *  passed validation: the content with its statistics, or the missing-file
   *  case. */
  datatype ReadResult = Shown(content: string, stats: Statistics) | NotFound

  function ReadAttempt(store: Store, name: string): (r: ReadResult)
  {
    if name in store then Shown(store[name], Report(store[name])) else NotFound
  }

  /** An existing file is shown with its own content, and the three counts
   *  mean what they should: at least one line, related exactly to the lines
   *  `readlines()` would give; as many words as maximal runs of
   *  non-whitespace; never more words than characters. A missing file is
   *  reported as not found. */
  lemma ReadAttemptMeaning(store: Store, name: string)
    ensures ReadAttempt(store, name).NotFound? <==> name !in store
    ensures name in store ==>
      var c := store[name];
      var st := ReadAttempt(store, name).stats;
      && ReadAttempt(store, name).content == c
      && st.lines >= 1
      && st.lines == |ReadLines(c)| + (if c == [] || c[|c| - 1] == '\n' then 1 else 0)
      && st.words == RunStarts(c, true)
      && st.words <= st.chars
      && st.chars == |c|
  {
    if name in store {
      var c := store[name];
      LineCountVersusReadLines(c);
      WordCountIsRunCount(c);
      WordCountBound(c);
    }
  }

  /** The number of maximal whitespace-free runs in `s`, counted one
   *  character at a time: a run starts at a non-whitespace character that
   *  comes first or follows whitespace. */
  function RunStarts(s: string, afterSpace: bool): (n: nat)
    decreases |s|
  {
    if s == [] then 0
    else (if afterSpace && !IsSpace(s[0]) then 1 else 0) + RunStarts(s[1..], IsSpace(s[0]))
  }

  /** Skipping the rest of a run: from inside a run, the count is the count
   *  from the whitespace (or the end) that closes it. */
  lemma {:induction false} RunStartsSkip(t: string, m: nat)
    requires m <= |t| && NoSpace(t[..m]) && (m == |t| || IsSpace(t[m]))
    ensures RunStarts(t, false) == RunStarts(t[m..], true)
    decreases m
  {
    if m == 0 {
      if t != [] {
        assert IsSpace(t[0]);
      }
    } else {
      assert t[..m][0] == t[0];
      var u := t[1..][..m - 1];
      assert NoSpace(u) by {
        forall i | 0 <= i < m - 1 ensures !IsSpace(u[i]) {
          assert u[i] == t[..m][i + 1];
        }
      }
      assert t[1..][m - 1..] == t[m..];
      RunStartsSkip(t[1..], m - 1);
    }
  }

  /** `len(s.split())` is the number of maximal runs of non-whitespace. */
  lemma {:induction false} WordCountIsRunCount(s: string)
    ensures WordCount(s) == RunStarts(s, true)
    decreases |s|
  {
    if s != [] {
      if IsSpace(s[0]) {
        WordCountIsRunCount(s[1..]);
      } else {
        var k := WordLength(s);
        WordCountIsRunCount(s[k..]);
        assert s[1..][..k - 1] == s[1..k];
        var u := s[1..][..k - 1];
        assert NoSpace(u) by {
          forall i | 0 <= i < k - 1 ensures !IsSpace(u[i]) {
            assert u[i] == s[..k][i + 1];
          }
        }
        assert s[1..][k - 1..] == s[k..];
        RunStartsSkip(s[1..], k - 1);
      }
    }
  }

  lemma {:induction false} RunStartsBound(s: string, afterSpace: bool)
    ensures RunStarts(s, afterSpace) <= |s|
    decreases |s|
  {
    if s != [] {
      RunStartsBound(s[1..], IsSpace(s[0]));
    }
  }

  /** There are never more words than characters. */
  lemma WordCountBound(s: string)
    ensures WordCount(s) <= CharCount(s)
  {
    WordCountIsRunCount(s);
    RunStartsBound(s, true);
  }

  /** `s` with every whitespace character removed. */
  function RemoveSpaces(s: string): (r: string)
    decreases |s|
  {
    if s == [] then [] else (if IsSpace(s[0]) then [] else [s[0]]) + RemoveSpaces(s[1..])
  }

  lemma {:induction false} RemoveSpacesAppend(a: string, b: string)
    ensures RemoveSpaces(a + b) == RemoveSpaces(a) + RemoveSpaces(b)
    decreases |a|
  {
    if a != [] {
      assert (a + b)[1..] == a[1..] + b;
      RemoveSpacesAppend(a[1..], b);
    } else {
      assert a + b == b;
    }
  }

  lemma {:induction false} RemoveSpacesNoSpace(w: string)
    requires NoSpace(w)
    ensures RemoveSpaces(w) == w
    decreases |w|
  {
    if w != [] {
      assert NoSpace(w[1..]) by {
        forall i | 0 <= i < |w| - 1 ensures !IsSpace(w[1..][i]) {
          assert w[1..][i] == w[i + 1];
        }
      }
      RemoveSpacesNoSpace(w[1..]);
    }
  }

  /** The words, put back together, are exactly the non-whitespace
   *  characters of `s`, in order: `split()` loses only whitespace. */
  lemma {:induction false} WordsCoverContent(s: string)
    ensures Concat(Words(s)) == RemoveSpaces(s)
    decreases |s|
  {
    if s != [] {
      if IsSpace(s[0]) {
        WordsCoverContent(s[1..]);
      } else {
        var k := WordLength(s);
        var ws := Words(s);
        assert ws == [s[..k]] + Words(s[k..]);
        assert ws[1..] == Words(s[k..]);
        WordsCoverContent(s[k..]);
        assert s == s[..k] + s[k..];
        RemoveSpacesAppend(s[..k], s[k..]);
        RemoveSpacesNoSpace(s[..k]);
      }
    }
  }

  /** `content.count('\n') + 1` against `readlines()`: it counts one more than
   *  the lines when the content is empty or ends in a newline, and exactly
   *  the lines otherwise. So it is at least 1, even for an empty file. */
  lemma {:induction false} LineCountVersusReadLines(c: string)
    ensures LineCount(c) >= 1
    ensures LineCount(c) == |ReadLines(c)| + (if c == [] || c[|c| - 1] == '\n' then 1 else 0)
    decreases |c|
  {
    if c != [] {
      var k := FirstLineLength(c);
      var rest := c[k..];
      assert c == c[..k] + rest;
      assert |ReadLines(c)| == 1 + |ReadLines(rest)|;
      CountCharAppend(c[..k], rest, '\n');
      FirstLineNewlines(c);
      LineCountVersusReadLines(rest);
      if rest != [] {
        assert rest[|rest| - 1] == c[|c| - 1];
      }
    }
  }

  /** The first line holds a newline exactly when it ends in one. */
  lemma FirstLineNewlines(c: string)
    requires c != []
    ensures var k := FirstLineLength(c);
      CountChar(c[..k], '\n') == if c[k - 1] == '\n' then 1 else 0
  {
    var k := FirstLineLength(c);
    assert c[..k] == c[..k - 1] + [c[k - 1]];
    CountCharAppend(c[..k - 1], [c[k - 1]], '\n');
    NoNewline(c[..k - 1]);
  }

  lemma {:induction false} NoNewline(s: string)
    requires forall i :: 0 <= i < |s| ==> s[i] != '\n'
    ensures CountChar(s, '\n') == 0
    decreases |s|
  {
    if s != [] {
      NoNewline(s[1..]);
    }
  }

  /** The statistics of the content "a b\nc": two lines, three words and
   *  five characters. */
  lemma SampleReport(c: string)
    requires c == "a b\nc"
    ensures Report(c) == Statistics(2, 3, 5)
  {
    var c1, c2, c3, c4 := c[1..], c[2..], c[3..], c[4..];
    assert c1 == c[1..] && c2 == c1[1..] && c3 == c2[1..] && c4 == c3[1..] && c4[1..] == [];
    assert CountChar(c4, '\n') == 0 && CountChar(c3, '\n') == 1;
    assert CountChar(c2, '\n') == 1 && CountChar(c1, '\n') == 1 && CountChar(c, '\n') == 1;
    assert RunStarts(c4, true) == 1 && RunStarts(c3, false) == 1;
    assert RunStarts(c2, true) == 2 && RunStarts(c1, false) == 2 && RunStarts(c, true) == 3;
    WordCountIsRunCount(c);
  }
}
