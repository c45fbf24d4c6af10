# A model of `check_file` from `style_checker.py`

`style_checker.py` is a line-based style checker for C files. Its engine,
`check_file`, takes the lines of one file (as `readlines()` returns them) and
returns `(errors, warnings)`. For each line it computes a few context facts,
runs four fixed checks, then sweeps the two rule tables `ERROR_REGEXPS` and
`WARNING_REGEXPS`. A rule's match can be dropped, or demoted to a "potential
error", because of the pointer pattern, a comment line or a string literal. After
the loop, a once-per-file end-of-file check runs. This project models that engine
in Dafny and proves what it reports and counts.

Files and modules:

- `pytext.dfy` (`PyText`) holds the pieces of Python's `str` that the checker
  uses: `isspace`, `strip`, `startswith` with bounds, `in`, `replace`. It also
  holds the leftmost-position scan that `re.search` performs.
- `rules.dfy` (`Rules`) holds the registry. It has the severities and their
  printed labels, one constructor per regular expression, and the rule tables as
  the source writes them. It also states Python's dict-literal semantics
  (`DictOf`), which decide what the tables contain. The patterns simple enough to
  state exactly (`elseif`, `//`, `){`, `^.{81,}$`, `\s\n$`, the string-literal
  pattern and `[^\x00-\x7F]`) have their meaning in `Builtin`. Every regular
  expression goes through an `Oracle` parameter. `Faithful(o)` says that the
  oracle agrees with `Builtin` where `Builtin` is defined.
- `engine.dfy` (`Engine`) has the per-line context (`Analyze`) and the
  specification functions. `CheckLine` gives what one iteration reports.
  `CheckFileSpec` gives what the whole call returns and prints. The method
  `CheckFile` is the source's loop, with its two counters and its `continue`
  branches, split along the loop body. It is proved to compute exactly
  `CheckFileSpec`.
- `properties.dfy` (`Properties`) holds the lemmas about the specification.

Modelling choices:

- The module-level `is_verbose` is a parameter.
- The file's lines are a `seq<string>`.
- The messages that `log_cprint` prints are an output log of
  `Diagnostic(severity, rule, printed line number)`.
- `lines[line_num + 1]` on the last line raises `IndexError`. The model
  represents this as the outcome `IndexError(line)`, which carries the printed
  number of the line that raised. It is not a precondition.

Behaviours of the code that the model keeps as written:

- The string-literal suppression compares only the start of the literal with
  the start of the rule's match. For a rule outside `COMMENT_CHECKS`, a match
  that lies wholly after the literal's closing quote is still dropped, in both
  modes; `StringStartOnlyExample` exhibits this. The exception is
  `invalid_multiplicative_spacing` on a pointer line: the pointer branch runs
  first, so in verbose mode it is a potential error wherever the literal lies.
  For a `COMMENT_CHECKS` rule, on a line that does not raise, such a match is
  a potential error in verbose mode. In non-verbose mode a `COMMENT_CHECKS`
  match counts as an error wherever the literal lies
  (`StringLiteralKeepsCommentCheck`).
- The brace-below-function warning has no `line_num > 0` guard, so it also
  applies on line 0.
- Four brace-style warning entries share one dict key. The entry that survives
  is the last one written, `\selse[^\{]*\n`, and it stays where the first one
  was. The `for`, `while` and `if` patterns are never tried.
- `eof_on_newline` fires only when the last line is exactly `"\n"`. A last line
  of blanks with a newline does not trigger it.

## Model

| member | source | states |
|---|---|---|
| `Engine.CheckFile` | style_checker.py:131-234 | returns and prints exactly what `CheckFileSpec` says. When it returns a tally, the counts are the number of ERROR and WARNING reports it printed. |
| `Engine.ScanFile` | style_checker.py:146-226 | the loop over the lines gives the fold of the per-line runs and stops at the line that raises. Its two counters equal the ERROR and WARNING reports so far. |
| `Engine.ScanStep` | style_checker.py:148-226 | one iteration extends the scan by that line's run. It raises only on the last line. |
| `Engine.CheckLineOf` | style_checker.py:148-226 | one pass of the loop body reports `CheckLine`. Each counter grows by that line's reports of its level. It raises only on the last line. |
| `Engine.StructuralChecks` | style_checker.py:158-181 | the indent, non-ASCII and blank-line-above checks append their reports, and every one of them counts as an error. |
| `Engine.RuleChecks` | style_checker.py:183-226 | the brace-below check and the two table sweeps append their reports, and the counters grow by the ERROR and WARNING reports among them. |
| `Engine.SweepErrorRules` | style_checker.py:189-213 | the inner loop over `ERROR_REGEXPS` reports each rule's diagnostics in table order. `errors` grows by the ERROR reports only. |
| `Engine.CheckErrorRule` | style_checker.py:191-213 | one rule is handled in this order: comment filter, search, pointer suppression, string-literal suppression, and then a counted error. |
| `Engine.SweepWarningRules` | style_checker.py:215-226 | the inner loop over `WARNING_REGEXPS` reports each matching rule once on a non-comment line, as a warning, and counts it. |
| `Engine.CheckWarningRule` | style_checker.py:217-226 | a warning rule is skipped on a comment line and otherwise counts one warning when its pattern matches. |
| `Engine.CheckEof` | style_checker.py:228-234 | after a full scan, `eof_on_newline` is appended and counted exactly when the last line is `"\n"`. The tally is the final counters. |
| `Engine.ErrorSweepShape` | style_checker.py:189-213 | an error sweep has no more reports than rules, only under table keys, only at that line, and never a warning. |
| `Engine.ErrorRuleDiagsShape` | style_checker.py:191-213 | one error rule reports at most once on a line, under its own key, at that line, and never as a warning. |
| `Engine.WarningSweepShape` | style_checker.py:215-226 | a warning sweep has no more reports than rules, and each one is a warning under a table key at that line. |
| `Engine.WarningRuleDiagsShape` | style_checker.py:217-226 | one warning rule reports at most once on a line, as a warning under its own key at that line. |
| `Engine.EmptyFileSpec` | style_checker.py:142-144 | an empty file prints only `empty_file` and returns `(0, 1)`. |
| `Engine.Analyze` | style_checker.py:151-156 | computes the line's context: the comment test on the stripped line, the start of the leftmost string literal, and whether the pointer, function-declaration and non-ASCII patterns match. |
| `Engine.IsCommentText` | style_checker.py:152 | defines a comment line: the stripped line's first two characters begin with `/*` or `*`. |
| `Engine.IndentViolation` | style_checker.py:158 | defines the indent test: the first four characters begin with two spaces and the line does not begin with a tab. |
| `Engine.AllowedAbove` | style_checker.py:171-176 | defines the line allowed above a function: a blank stripped line, or one that holds `#`, `//`, `/*` or `*/`. |
| `Engine.ErrorRuleDiags` | style_checker.py:191-213 | defines one error rule's reports, in source order: the comment filter, the search, pointer suppression (a potential error only in verbose mode), string-literal suppression on start positions (dropped outside `COMMENT_CHECKS`, a potential error in verbose mode), and otherwise an error. |
| `Engine.WarningRuleDiags` | style_checker.py:217-226 | defines one warning rule's report: nothing on a comment line or without a match, otherwise one warning. |
| `Engine.CheckLine` | style_checker.py:148-226 | defines one iteration's reports: the structural checks, then, unless the line matches the function pattern and is the last one (which raises), the brace check and the two sweeps. |
| `Engine.CheckFileSpec` | style_checker.py:131-234 | defines the whole call: `empty_file` and `(0, 1)` for no lines; otherwise the runs of the lines up to the one that raises, then the end-of-file check and the counts of the log. |
| `Rules.Builtin` | style_checker.py:71-118 | defines what `search` returns for the literal patterns, `\s\n$`, `^.{81,}$`, the string-literal pattern and `[^\x00-\x7F]`. |
| `PyText.Strip` | style_checker.py:151 | defines `strip()` as `lstrip` then `rstrip` over the characters for which `isspace` holds. |
| `Properties.LongLineReported` | style_checker.py:95-213 | with `^.{81,}$` searched as written, a line holding more than 80 characters besides its newline reports `line_longer_80_chars` as an error, in both modes and on comment lines too, unless it raised before the sweep. |
| `Properties.NonAsciiReportedIff` | style_checker.py:156-168 | with `[^\x00-\x7F]` searched as written, `non_ascii_character` is reported if and only if the line holds a character above 127. |
| `Properties.LineWarningReport` | style_checker.py:215-226 | under a warning key, a line reports what that warning rule reports, unless it raised. |
| `Properties.WarningReportedIff` | style_checker.py:215-226 | a warning rule is reported if and only if the line is no comment, does not raise, and its pattern matches. |
| `Properties.BraceElseReported` | style_checker.py:104-226 | a non-comment line that reaches the sweep and matches `\selse[^\{]*\n` reports `violation_of_one_true_brace_style`. |
| `Rules.ErrorRules` | style_checker.py:68-97 | the 14 entries of `ERROR_REGEXPS`, in the literal's order, each key with its pattern. |
| `Rules.WarningRules` | style_checker.py:99-105 | `WARNING_REGEXPS` as Python builds it: `spaces_in_array_access`, then `violation_of_one_true_brace_style` with `\selse[^\{]*\n`. |
| `Rules.CommentChecks` | style_checker.py:107-111 | the three rules still tried on a comment line: `line_longer_80_chars`, `line_ends_in_space`, `single_line_comment`. |
| `Rules.Label` | style_checker.py:39-40 | the printed label has the name's length and holds no underscore. |
| `Rules.Labels` | style_checker.py:34-43 | the labels are `ERROR`, `WARNING` and `POTENTIAL ERROR`. |
| `Rules.KeyInjective` | style_checker.py:68-105 | distinct rules have distinct key strings, so the model's rule identifiers stand for the source's dictionary keys one to one. |
| `Rules.KeyShape` | style_checker.py:68-105 | each key's length and next-to-last character already determine its rule. |
| `Rules.DictOfSemantics` | style_checker.py:99-105 | a dict literal keeps each key once, holding the value written last. |
| `Rules.DictOfDistinct` | style_checker.py:68-97 | a dict literal whose keys are all different keeps every entry in order. |
| `Properties.WarningRulesFromLiteral` | style_checker.py:99-105 | `WARNING_REGEXPS` holds two rules: `spaces_in_array_access`, then one brace-style rule with the `\selse[^\{]*\n` pattern. |
| `Properties.ErrorRulesFromLiteral` | style_checker.py:68-97 | `ERROR_REGEXPS` holds all 14 entries of its literal, in order. |
| `Properties.FunctionWithoutEmptyLineAboveIff` | style_checker.py:170-181 | this error is reported if and only if all hold: the function pattern matches, the line is not the first, and the line above is not blank and holds none of `#`, `//`, `/*`, `*/`. |
| `Properties.AllowedAboveRaw` | style_checker.py:171-176 | testing the stripped previous line for blankness and markers is the same as testing the line as read. |
| `Properties.BraceBelowIff` | style_checker.py:183-187 | the brace-below warning is reported if and only if the function pattern matches and the next line exists and does not start with `{`. Line 0 is included. |
| `Properties.CrashIff` | style_checker.py:183 | a line raises `IndexError` if and only if it matches the function pattern and is the last line. It has then reported only its structural checks. |
| `Properties.IndexErrorIff` | style_checker.py:148-187 | the call raises if and only if the file's last line matches the function pattern, and the error names that line. |
| `Properties.PointerSuppression` | style_checker.py:198-201 | on a pointer line, `invalid_multiplicative_spacing` is never an error. It is a potential error if and only if the mode is verbose, the line is no comment, the line does not raise, and the pattern matches. |
| `Properties.UnsuppressedMatchIsError` | style_checker.py:189-213 | a searched match that no string literal precedes and no pointer suppresses is reported as an error, never as a potential error. |
| `Properties.StringLiteralDropsRule` | style_checker.py:203-205 | a rule outside `COMMENT_CHECKS` whose match starts after a string literal's start is not reported at any level, in either mode, unless the rule is `invalid_multiplicative_spacing` on a pointer line, which is a potential error in verbose mode. |
| `Properties.StringLiteralKeepsCommentCheck` | style_checker.py:203-213 | on a line that does not raise, a `COMMENT_CHECKS` rule after a literal's start is a potential error in verbose mode and an error otherwise, and not the other level. |
| `Properties.StringStartOnlyExample` | style_checker.py:153-203 | on `s = 'a'; g(){` the literal closes before `){`, and `paren_and_curly_without_separation` is still dropped. |
| `Properties.NoMatchNoReport` | style_checker.py:194-196 | an error rule whose pattern finds nothing reports nothing. |
| `Properties.CommentErrorSweep` | style_checker.py:189-192 | on a comment line, the error table reports only `COMMENT_CHECKS` rules. |
| `Properties.CommentWarningSweep` | style_checker.py:215-218 | on a comment line, the warning table reports nothing. |
| `Properties.CommentLineReports` | style_checker.py:152-226 | a comment line keeps its structural checks. Otherwise it reports only the brace-below check and the three `COMMENT_CHECKS` rules. |
| `Properties.CommentLineIgnoresOtherPatterns` | style_checker.py:189-226 | a comment line's run depends only on its context and on the three `COMMENT_CHECKS` patterns. |
| `Properties.CommentCheckPatterns` | style_checker.py:91-111 | the `COMMENT_CHECKS` rules search for `^.{81,}$`, `\s\n$` and `//`. |
| `Properties.LineBounds` | style_checker.py:146-226 | one line adds at most 17 errors or potential errors and at most 3 warnings. |
| `Properties.FileBounds` | style_checker.py:131-234 | a returned tally has at most 17 errors per line and at most 3 warnings per line plus one. |
| `Properties.LogInLineOrder` | style_checker.py:148-233 | reports come line by line in order, numbered from 1 to one past the last line. |
| `Properties.EofIff` | style_checker.py:228-233 | on a returned tally, `eof_on_newline` is reported if and only if the last line is exactly `"\n"`, and it is then the last report. |
| `Properties.IndentIgnoresTabGuard` | style_checker.py:158 | the indent check fires if and only if the line begins with two spaces. The tab guard never decides. |
| `Properties.IndentReportedIff` | style_checker.py:158-160 | `invalid_line_indent_with_spaces` is reported on a line exactly when it begins with two spaces, in both modes, whether or not the line later raises. |
| `Properties.LongLineIff` | style_checker.py:95 | on a line as read, `^.{81,}$` matches if and only if more than 80 characters precede the newline. |
| `Properties.TrailingSpaceIff` | style_checker.py:94 | on a line as read, `\s\n$` matches if and only if the final newline follows whitespace. It matches there. |
| `Properties.LiteralPatterns` | style_checker.py:71-91 | `//`, `elseif` and `){` match if and only if Python's `in` finds them. |
| `Properties.NonAsciiIff` | style_checker.py:118 | `[^\x00-\x7F]` matches at the first character above 127, and only when there is one. |
| `PyText.StripSpec` | style_checker.py:151 | `strip()` leaves nothing if and only if the line is all whitespace. Otherwise the result starts and ends with a non-space character. |
| `PyText.ContainsFindSub` | style_checker.py:173-176 | Python's `in` holds if and only if the leftmost search finds the substring. |

## Left out

- Printing: `log_cprint`, `cprint`, `print`, the colours and the bold highlight
  of the match are left out. The model keeps only the level, the rule and the
  printed line number of each report. It drops the file name and the highlighted
  text.
- File discovery (`get_files`), `open`/`readlines`, argument parsing, the
  verbose registry dumps and the `__main__` block are left out. They are I/O and
  command-line plumbing. The verbose flag is a parameter.
- `score_func` is left out. It works on floating point (`exp`, division by 10.7).
- The other regular expressions have no semantics in the model. These are the
  control-statement, operator-spacing, preprocessor, delimiter, statement,
  paren/bracket spacing, function-call, array-access, brace-style, pointer and
  function-declaration patterns. The `Oracle` gives only the start of a match;
  the matched text is used only for printing.
- `Rules.Label`: its contract says only that the label keeps the name's length
  and has no underscore. The exact labels are stated in `Rules.Labels`.
