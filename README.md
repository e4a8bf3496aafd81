# PythonFileHandling, `assignmentWeek4.py`: a Dafny model

This project models the three pieces of text logic in the script `assignmentWeek4.py`, and the guard and prompt loop around them:

- **The line transformation of `file_read_write_modify`.**
  - The file's lines, as `readlines()` returns them, are taken in reverse order.
  - Each line is right-stripped and its characters are reversed.
  - Each result is numbered from 1 as `"Line k: <text>\n"`.
  - Before any of this, the function checks that the input path exists. If it is missing, the function returns `False` and writes nothing.
- **The prompt loop of `error_handling_lab`.**
  - Each input is stripped.
  - A case-insensitive `exit` ends the loop.
  - An empty name is rejected, and so is a name holding one of `<>:"/\|?*`.
  - Any other name goes on to be opened.
- **The statistics printed for a file that was read.**
  - `content.count('\n') + 1` lines.
  - `len(content.split())` words.
  - `len(content)` characters.

Modules:

- `Text` (`text.dfy`): Python whitespace; `rstrip`, `lstrip` and `strip`; `s[::-1]`; decimal rendering of an int and its parse; `readlines()` and the concatenation `writelines` performs.
- `Transform` (`transform.dfy`): the comprehension at line 26, a reader that inverts one entry, and the guarded read/transform/write against a file store.
- `Prompt` (`prompt.dfy`): one pass of the loop body as a function, and the loop itself as a method. The method reads a given sequence of inputs and reports one outcome per input it consumes.
- `Stats` (`stats.dfy`): the three counts, `str.split()`, and the result of a read attempt.
- `FileStore` (`filestore.dfy`) and `Wrappers` (`wrappers.dfy`).
  - The file system is a map from path to the decoded text of the file.
  - `os.path.exists(p)` is `p in store`.

## Model

| member | source | states |
|---|---|---|
| `Transform.TransformLines` | assignmentWeek4.py:26 | there are exactly as many entries as input lines, and 0-based entry `i` is input line `n-1-i`, right-stripped, reversed and numbered `i+1` |
| `Transform.TransformedEntry` | assignmentWeek4.py:26 | for `1 <= k <= n`, entry `k` is `"Line " + str(k) + ": " + reverse(rstrip(lines[n-k])) + "\n"` |
| `Transform.TransformedEnds` | assignmentWeek4.py:26 | the last input line becomes "Line 1" and the first becomes "Line n" |
| `Transform.EntryTextReverses` | assignmentWeek4.py:26 | reversing an entry's text again gives `rstrip` of the original line, and that text never starts with whitespace |
| `Transform.EntryEndsWithOneNewline` | assignmentWeek4.py:26 | every entry ends in a newline, whatever the line ended in; for a line as `readlines()` yields it, that newline is the entry's only one |
| `Transform.ParseEntryInverts` | assignmentWeek4.py:26 | reading an entry back yields its number and the right-stripped original line, so the entry determines both |
| `Transform.TransformedWellFormed` | assignmentWeek4.py:23-26 | the entries built from `readlines()` output are again well-formed lines, each ending in a newline |
| `Transform.OutputReadsBack` | assignmentWeek4.py:22-34 | reading the written file back with `readlines()` gives exactly the entries, one per input line |
| `Transform.FileReadWriteModify` | assignmentWeek4.py:15-38 | it returns `true` exactly when the input path exists; a missing path leaves the store unchanged; otherwise only the output path is written, holding the transformed text |
| `Transform.SampleFile` | assignmentWeek4.py:104-114 | the sample file of the main block is written out as "Line 1: !nohtyP olleH", "Line 2: .txet emos sniatnoc tI", "Line 3: .elif tset a si sihT", each ending in a newline |
| `Transform.ThreeLineOutput` | assignmentWeek4.py:22-34 | a file of three newline-terminated lines without other trailing whitespace (blank lines allowed) is written as its lines in reverse order, each reversed and numbered 1, 2, 3 |
| `Text.RstripSpec` | assignmentWeek4.py:26 | `rstrip()` keeps a prefix that is empty or ends in non-whitespace, and removes only whitespace |
| `Text.RstripUnique` | assignmentWeek4.py:26 | those three properties determine `rstrip()` |
| `Text.LstripSpec` | assignmentWeek4.py:59 | `lstrip()` keeps a suffix that is empty or starts with non-whitespace, and removes only whitespace |
| `Text.StripIsTrimmedSlice` | assignmentWeek4.py:59 | `strip()` returns a slice of the input that is bordered only by whitespace and neither starts nor ends with whitespace |
| `Text.StripEmptyIff` | assignmentWeek4.py:59-68 | `strip()` is empty exactly when the input is all whitespace |
| `Text.Reverse` | assignmentWeek4.py:26 | `s[::-1]` has the same length, and position `i` holds `s[n-1-i]` |
| `Text.ReverseInvolution` | assignmentWeek4.py:26 | reversing twice gives back the original |
| `Text.DecimalString` | assignmentWeek4.py:26 | `str(k)` is a non-empty string of digits with no leading zero |
| `Text.ParseDecimalString` | assignmentWeek4.py:26 | parsing `str(k)` gives back `k` |
| `Text.ReadLines` | assignmentWeek4.py:23 | `readlines()` yields well-formed lines whose concatenation is the whole content |
| `Text.ReadLinesConcat` | assignmentWeek4.py:23-34 | `readlines()` after `writelines(ls)` returns `ls`, for well-formed `ls` |
| `Prompt.Lower` | assignmentWeek4.py:61 | `lower()` keeps the length and lowers each letter in place |
| `Prompt.LowerIsExit` | assignmentWeek4.py:61 | `name.lower() == 'exit'` holds exactly for the sixteen letter-case variants of "exit" |
| `Prompt.ContainsAnyOf` | assignmentWeek4.py:69 | true exactly when some character of the name is one of the given characters |
| `Prompt.ClassifyMeaning` | assignmentWeek4.py:59-71 | `Exit` iff the stripped input is a case variant of "exit"; `EmptyRejected` iff the input is all whitespace; `InvalidRejected` iff it is neither and the name has a forbidden character; `Attempt` iff it is not exit and the name is acceptable, carrying the stripped input |
| `Prompt.UpToExit` | assignmentWeek4.py:58-63 | the reported outcomes are a prefix with no `Exit` before the last one; if any are dropped, the last reported one is `Exit` |
| `Prompt.SessionOutcomes` | assignmentWeek4.py:58-71 | a session reports each input's own outcome in order, and never more outcomes than inputs |
| `Prompt.SessionEndsAtExit` | assignmentWeek4.py:58-63 | a session has no `Exit` before its last outcome, and it stops short of the inputs only right after an `Exit` |
| `Prompt.SessionStopsAtExit` | assignmentWeek4.py:61-63 | once a session holds an `Exit`, inputs typed after it change nothing |
| `Prompt.SessionEndsAtFirstExit` | assignmentWeek4.py:59-63 | the first input that strips to a case variant of "exit" already ends the session: it has one outcome per input up to that one, and the last is `Exit` |
| `Prompt.SessionAttemptsAreAcceptable` | assignmentWeek4.py:66-75 | every name that reaches the open is non-empty, free of `<>:"/\|?*`, and is the stripped input |
| `Prompt.ErrorHandlingLab` | assignmentWeek4.py:58-71 | the loop, with its `break` and `continue`s, produces exactly the session's outcomes |
| `Stats.CountChar` | assignmentWeek4.py:78 | `s.count(c)` is at most `len(s)` |
| `Stats.Words` | assignmentWeek4.py:79 | `split()` yields only non-empty tokens with no whitespace in them |
| `Stats.WordsCoverContent` | assignmentWeek4.py:79 | joined together, the tokens are exactly the non-whitespace characters of the content, in order |
| `Stats.WordCountIsRunCount` | assignmentWeek4.py:79 | `len(split())` is the number of maximal runs of non-whitespace characters |
| `Stats.WordCountBound` | assignmentWeek4.py:79-88 | there are never more words than characters |
| `Stats.LineCountVersusReadLines` | assignmentWeek4.py:78 | the line count is at least 1, even for empty content; it is one more than the number of `readlines()` lines when the content is empty or ends in a newline, and equal to it otherwise |
| `Stats.ReadAttemptMeaning` | assignmentWeek4.py:73-88 | an existing file is shown with its own content; its line count is at least 1 and exactly related to the `readlines()` lines, its word count is the number of maximal non-whitespace runs and at most its character count, which is its length; a missing file gives the not-found case |
| `Stats.SampleReport` | assignmentWeek4.py:78-88 | the content "a b\nc" has 2 lines, 3 words and 5 characters |

## Left out

- **Real file-system calls.** `os.path.exists`, `open`, `read`/`readlines`, `os.makedirs` and `writelines` (lines 16, 22-23, 29-34, 75-76) are replaced by a map from path to text.
  - Directories are not modelled.
  - The store cannot say that an existing directory also makes `os.path.exists` true.
  - The creation of the output directory at lines 29-30 is not modelled.
- **The exception branches** (lines 40-51, 90-99). Which exception is raised depends on the operating system and the codec, not on logic in the script. A read or write that fails after the existence check is not modelled.
- **UTF-8 decoding and universal newlines.** Text mode turns `\r` and `\r\n` into `\n` on reading and writes `\n` unchanged on POSIX. The model works on text that is already decoded and translated.
- **Whitespace.** `strip`, `rstrip` and `split` use Python's full `str.isspace()` set of 29 code points, not an ASCII-only set. The set is finite, so this is exact.
- **`lower()`** is modelled as ASCII lowering. This is exact for the comparison with `'exit'`: no other character lowercases to a single one of `e`, `x`, `i`, `t`.
- **Console output.** All `print` output is left out. The outcomes stand for the messages.
- **`input()`** is replaced by a given sequence of inputs.
  - Prompt.ErrorHandlingLab: when the inputs run out without an `exit`, the model's loop ends. The script would block or raise `EOFError` there.
- **The `__main__` block** (lines 101-118), and its `exit(1)`, are not modelled as code. Only its sample file is used, in Transform.SampleFile.
- **The scan order of the character check.** Prompt.ContainsAnyOf walks the name and looks each character up among the forbidden ones. The script walks the forbidden characters and looks each one up in the name. The truth value is the same.
- **Paths are names of distinct files.** Two different path strings in the store are two different files. Path normalisation (`./a` and `a`), symbolic links and case-insensitive file systems, which can make two strings name one file, are not modelled. Where they do, the frame clause of Transform.FileReadWriteModify ("every other path keeps its text") does not describe the real program.
- **Failures of the open in a read attempt.** Stats.ReadAttemptMeaning covers a name that is in the store, whose open succeeds, and one that is not; the other exception branches (lines 92-99) are left out as above.
