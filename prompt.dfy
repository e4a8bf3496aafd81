/**
 * The prompt loop of `error_handling_lab` (assignmentWeek4.py:58-71): each
 * input is stripped, a case-insensitive `exit` ends the loop, and a name that
 * is empty or holds one of `<>:"/\|?*` is rejected before any file access.
 * Console input is a given sequence of lines; the loop reports one outcome
 * per input it consumes.
 */
module Prompt {
  import opened Text

  /** What the loop does with one input line. */
  datatype Outcome = Exit | EmptyRejected | InvalidRejected | Attempt(name: string)

  /** The characters a file name may not contain. */
  const InvalidChars: string := "<>:\"/\\|?*"

  function LowerChar(c: char): (d: char)
  {
    if 'A' <= c <= 'Z' then (c as int + 32) as char else c
  }

  /** `s.lower()` on ASCII letters; every other character is kept. */
  function Lower(s: string): (r: string)
    ensures |r| == |s|
    ensures forall i :: 0 <= i < |s| ==> r[i] == LowerChar(s[i])
  {
    if s == [] then [] else [LowerChar(s[0])] + Lower(s[1..])
  }

  /** `name` spells "exit" with each letter in either case. */
  predicate IsExitSpelling(name: string) {
    |name| == 4 && forall i :: 0 <= i < 4 ==> name[i] == "exit"[i] || name[i] == "EXIT"[i]
  }

  /** `name.lower() == 'exit'` holds exactly for the sixteen case variants
   *  of "exit". */
  lemma LowerIsExit(name: string)
    ensures Lower(name) == "exit" <==> IsExitSpelling(name)
  {
    if IsExitSpelling(name) {
      assert forall i :: 0 <= i < 4 ==> Lower(name)[i] == "exit"[i];
    }
    if Lower(name) == "exit" {
      forall i | 0 <= i < 4 ensures name[i] == "exit"[i] || name[i] == "EXIT"[i] {
        assert LowerChar(name[i]) == "exit"[i];
      }
    }
  }

  /** `any(char in name for char in chars)`: some character of `name` is
   *  one of `chars` (scanned along `name`; the truth value is the same). */
  function ContainsAnyOf(name: string, chars: string): (b: bool)
    ensures b <==> exists i :: 0 <= i < |name| && name[i] in chars
    decreases |name|
  {
    name != [] && (name[0] in chars || ContainsAnyOf(name[1..], chars))
  }

  /** A name that reaches the `open` call: not empty, and free of every
   *  character in InvalidChars. */
  predicate AcceptableName(name: string) {
    name != [] && forall i :: 0 <= i < |name| ==> name[i] !in InvalidChars
  }

  /** One pass of the loop body for the input line `raw`: the exit test
   *  comes first, then the empty test, then the character test. */
  function Classify(raw: string): (o: Outcome)
  {
    var name := Strip(raw);
    if Lower(name) == "exit" then Exit
    else if name == "" then EmptyRejected
    else if ContainsAnyOf(name, InvalidChars) then InvalidRejected
    else Attempt(name)
  }

  /** What each outcome means for the raw input line: `exit` in any letter
   *  case wins over every other test, a blank line is rejected as empty, a
   *  name with a forbidden character is rejected, and only an acceptable
   *  name is attempted, stripped. */
  lemma ClassifyMeaning(raw: string)
    ensures Classify(raw) == Exit <==> IsExitSpelling(Strip(raw))
    ensures Classify(raw) == EmptyRejected <==> AllSpace(raw)
    ensures Classify(raw) == InvalidRejected <==>
      !IsExitSpelling(Strip(raw)) && !AllSpace(raw) && !AcceptableName(Strip(raw))
    ensures Classify(raw).Attempt? <==> !IsExitSpelling(Strip(raw)) && AcceptableName(Strip(raw))
    ensures Classify(raw).Attempt? ==> Classify(raw).name == Strip(raw)
  {
    LowerIsExit(Strip(raw));
    StripEmptyIff(raw);
  }

  /** The outcome of every input line, taken on its own. */
  function ClassifyAll(inputs: seq<string>): (os: seq<Outcome>)
  {
    MapSeq(Classify, inputs)
  }

  /** `f` applied to every element of `s`. */
  function MapSeq<A, B>(f: A -> B, s: seq<A>): (r: seq<B>)
  {
    seq(|s|, j requires 0 <= j < |s| => f(s[j]))
  }

  lemma MapSeqAppend<A, B>(f: A -> B, s: seq<A>, t: seq<A>)
    ensures MapSeq(f, s + t) == MapSeq(f, s) + MapSeq(f, t)
  {
    var a, b, c := MapSeq(f, s + t), MapSeq(f, s), MapSeq(f, t);
    forall j | 0 <= j < |a| ensures a[j] == (b + c)[j] {
      if j < |s| {
        assert (s + t)[j] == s[j];
      } else {
        assert (s + t)[j] == t[j - |s|];
      }
    }
  }

  /** The outcomes up to and including the first `Exit`; all of them if
   *  there is none. */
  function UpToExit(os: seq<Outcome>): (r: seq<Outcome>)
    ensures r <= os
    ensures forall j :: 0 <= j < |r| - 1 ==> r[j] != Exit
    ensures |r| < |os| ==> r != [] && r[|r| - 1] == Exit
    decreases |os|
  {
    if os == [] then []
    else if os[0] == Exit then [Exit]
    else [os[0]] + UpToExit(os[1..])
  }

  /** With no `Exit` among the outcomes, every one of them is reported. */
  lemma {:induction false} UpToExitNone(os: seq<Outcome>)
    requires Exit !in os
    ensures UpToExit(os) == os
    decreases |os|
  {
    if os != [] {
      forall k | 0 <= k < |os| - 1 ensures os[1..][k] != Exit {
        assert os[1..][k] == os[k + 1];
      }
      UpToExitNone(os[1..]);
    }
  }

  /** The first `Exit` at position `i` ends the report there. */
  lemma {:induction false} UpToExitAt(os: seq<Outcome>, i: nat)
    requires i < |os| && os[i] == Exit && Exit !in os[..i]
    ensures UpToExit(os) == os[..i + 1]
    decreases i
  {
    if i > 0 {
      assert os[0] in os[..i];
      assert os[1..][..i - 1] == os[1..i];
      forall k | 0 <= k < i - 1 ensures os[1..i][k] != Exit {
        assert os[1..i][k] == os[..i][k + 1];
      }
      UpToExitAt(os[1..], i - 1);
      assert os[..i + 1] == [os[0]] + os[1..][..i];
    }
  }

  /** The outcomes of a whole session: one per input, up to and including
   *  the first `exit`. */
  function Session(inputs: seq<string>): (r: seq<Outcome>)
  {
    UpToExit(ClassifyAll(inputs))
  }

  /** The session reports each input's own outcome, in order, and never
   *  more outcomes than there are inputs. */
  lemma SessionOutcomes(inputs: seq<string>)
    ensures |Session(inputs)| <= |inputs|
    ensures forall j :: 0 <= j < |Session(inputs)| ==> Session(inputs)[j] == Classify(inputs[j])
  {
    var os := ClassifyAll(inputs);
    var r := UpToExit(os);
    forall j | 0 <= j < |r| ensures r[j] == Classify(inputs[j]) {
      assert r[j] == os[j];
    }
  }

  /** The session stops right after its first `Exit`, and goes through every
   *  input when there is none. */
  lemma SessionEndsAtExit(inputs: seq<string>)
    ensures forall j :: 0 <= j < |Session(inputs)| - 1 ==> Session(inputs)[j] != Exit
    ensures |Session(inputs)| < |inputs| ==> Session(inputs)[|Session(inputs)| - 1] == Exit
  {
  }

  /** Outcomes after a reported `Exit` are never reported. */
  lemma {:induction false} UpToExitIgnoresRest(os: seq<Outcome>, more: seq<Outcome>)
    requires Exit in UpToExit(os)
    ensures UpToExit(os + more) == UpToExit(os)
    decreases |os|
  {
    assert os != [];
    assert (os + more)[0] == os[0];
    if os[0] != Exit {
      assert (os + more)[1..] == os[1..] + more;
      assert UpToExit(os) == [os[0]] + UpToExit(os[1..]);
      UpToExitIgnoresRest(os[1..], more);
    }
  }

  /** Whatever is typed after an `exit` (in any letter case) is never read. */
  lemma SessionStopsAtExit(inputs: seq<string>, rest: seq<string>)
    requires Exit in Session(inputs)
    ensures Session(inputs + rest) == Session(inputs)
  {
    MapSeqAppend(Classify, inputs, rest);
    UpToExitIgnoresRest(ClassifyAll(inputs), ClassifyAll(rest));
  }

  /** The first input that strips to a case variant of "exit" already ends
   *  the session, with `Exit` as its last outcome. */
  lemma SessionEndsAtFirstExit(inputs: seq<string>, j: nat)
    requires j < |inputs| && IsExitSpelling(Strip(inputs[j]))
    requires forall i :: 0 <= i < j ==> !IsExitSpelling(Strip(inputs[i]))
    ensures |Session(inputs)| == j + 1 && Session(inputs)[j] == Exit
  {
    var os := ClassifyAll(inputs);
    ClassifyMeaning(inputs[j]);
    forall i | 0 <= i < j ensures os[..j][i] != Exit {
      ClassifyMeaning(inputs[i]);
    }
    UpToExitAt(os, j);
  }

  /** Only acceptable names are ever attempted, and each attempt opens the
   *  stripped input. */
  lemma SessionAttemptsAreAcceptable(inputs: seq<string>)
    ensures forall j :: 0 <= j < |Session(inputs)| && Session(inputs)[j].Attempt? ==>
      AcceptableName(Session(inputs)[j].name) && Session(inputs)[j].name == Strip(inputs[j])
  {
    forall j | 0 <= j < |Session(inputs)| {
      ClassifyMeaning(inputs[j]);
    }
  }

  /** The loop of assignmentWeek4.py:58-71, reading `inputs` in turn instead of
   *  calling `input()`. */
  method ErrorHandlingLab(inputs: seq<string>) returns (outcomes: seq<Outcome>)
    ensures outcomes == Session(inputs)
  {
    ghost var os := ClassifyAll(inputs);
    outcomes := [];
    var i := 0;
    while i < |inputs|
      invariant 0 <= i <= |inputs|
      invariant outcomes == os[..i]
      invariant Exit !in outcomes
      decreases |inputs| - i
    {
      assert os[..i + 1] == os[..i] + [os[i]];
      assert os[i] == Classify(inputs[i]);
      var filename := Strip(inputs[i]);
      if Lower(filename) == "exit" {
        outcomes := outcomes + [Exit];
        UpToExitAt(os, i);
        return;  // `break`: nothing follows the loop
      }
      if filename == "" {
        outcomes := outcomes + [EmptyRejected];
        i := i + 1;
        continue;
      }
      if ContainsAnyOf(filename, InvalidChars) {
        outcomes := outcomes + [InvalidRejected];
        i := i + 1;
        continue;
      }
      outcomes := outcomes + [Attempt(filename)];
      i := i + 1;
    }
    assert os[..i] == os;
    UpToExitNone(outcomes);
  }
}
