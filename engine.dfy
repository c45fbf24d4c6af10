/** `check_file` of `style_checker.py`: the per-line context facts, the fixed
    structural checks, the sweeps over the two rule tables and the end-of-file
    check. The functions below say what one call reports and returns; the
    method `CheckFile` is the source's loop with its two counters, proved to
    compute exactly that. */
module Engine {
  import opened PyText
  import opened Rules

  /** One report printed by `log_cprint`: its level, the rule and the line
      number as printed (the 0-based index plus one). */
  datatype Diagnostic = Diagnostic(severity: Severity, rule: RuleId, line: nat)

  /** How many reports of level `s` the log holds. */
  function Count(log: seq<Diagnostic>, s: Severity): (c: nat)
    ensures c <= |log|
  {
    if log == [] then 0
    else Count(log[..|log| - 1], s) + (if log[|log| - 1].severity == s then 1 else 0)
  }

  lemma CountSnoc(log: seq<Diagnostic>, d: Diagnostic)
    ensures forall s :: Count(log + [d], s) == Count(log, s) + (if d.severity == s then 1 else 0)
  {
    assert (log + [d])[..|log|] == log;
  }

  /** The facts computed once per line before any check runs. */
  datatype LineContext = LineContext(
    isComment: bool,           // line.strip() begins with "/*" or "*"
    stringStart: Option<nat>,  // start of the leftmost string literal
    pointer: bool,             // IS_POINTER_RE matches
    functionDecl: bool,        // IS_FUNCTION_DECLARATION_RE matches
    nonAscii: bool)            // IS_NON_ASCII matches

  // stripped.startswith(("/*", "*"), 0, 2)
  predicate IsCommentText(stripped: string) {
    StartsWithBefore(stripped, "/*", 2) || StartsWithBefore(stripped, "*", 2)
  }

  function Analyze(line: string, o: Oracle): LineContext {
    LineContext(
      IsCommentText(Strip(line)),
      o(StringLiteral)(line),
      o(PointerType)(line).Some?,
      o(FunctionDeclaration)(line).Some?,
      o(NonAscii)(line).Some?)
  }

  /** `line.startswith("  ", 0, 4) and not line.startswith(chr(9))`. */
  predicate IndentViolation(line: string) {
    StartsWithBefore(line, "  ", 4) && !("\t" <= line)
  }

  // A stripped previous line that may stand directly above a function:
  // blank, or holding a "#", "//", "/*" or "*/".
  predicate AllowedAbove(prev: string) {
    prev == "" || Contains(prev, "#") || Contains(prev, "//") || Contains(prev, "/*") || Contains(prev, "*/")
  }

  /** The indentation, non-ASCII and blank-line-above-function checks of line `n`. */
  function StructuralDiags(lines: seq<string>, n: nat, ctx: LineContext): seq<Diagnostic>
    requires n < |lines|
  {
    IndentDiags(lines[n], n) + NonAsciiDiags(ctx, n) + AboveDiags(lines, n, ctx)
  }

  // invalid_line_indent_with_spaces
  function IndentDiags(line: string, n: nat): seq<Diagnostic> {
    if IndentViolation(line) then [Diagnostic(Error, InvalidLineIndentWithSpaces, n + 1)] else []
  }

  // non_ascii_character
  function NonAsciiDiags(ctx: LineContext, n: nat): seq<Diagnostic> {
    if ctx.nonAscii then [Diagnostic(Error, NonAsciiCharacter, n + 1)] else []
  }

  // function_without_empty_line_above
  function AboveDiags(lines: seq<string>, n: nat, ctx: LineContext): seq<Diagnostic>
    requires n < |lines|
  {
    if ctx.functionDecl && n > 0 && !AllowedAbove(Strip(lines[n - 1]))
    then [Diagnostic(Error, FunctionWithoutEmptyLineAbove, n + 1)] else []
  }

  /** The reports of one error rule on a line: the comment filter, then the
      search, then the pointer and string-literal suppressions. */
  function ErrorRuleDiags(r: Rule, line: string, ctx: LineContext, verbose: bool, o: Oracle, num: nat)
    : seq<Diagnostic>
  {
    if ctx.isComment && r.name !in CommentChecks then []
    else match o(r.pattern)(line)
      case None => []
      case Some(m) =>
        if ctx.pointer && r.name == InvalidMultiplicativeSpacing then
          (if verbose then [Diagnostic(PotentialError, r.name, num)] else [])
        else if ctx.stringStart.Some? && ctx.stringStart.value < m && r.name !in CommentChecks then []
        else if ctx.stringStart.Some? && ctx.stringStart.value < m && verbose then
          [Diagnostic(PotentialError, r.name, num)]
        else [Diagnostic(Error, r.name, num)]
  }

  /** The reports of the first `k` error rules of `rs`, taken in order. */
  function ErrorSweep(rs: seq<Rule>, k: nat, line: string, ctx: LineContext, verbose: bool, o: Oracle, num: nat)
    : seq<Diagnostic>
    requires k <= |rs|
  {
    if k == 0 then []
    else ErrorSweep(rs, k - 1, line, ctx, verbose, o, num) + ErrorRuleDiags(rs[k - 1], line, ctx, verbose, o, num)
  }

  /** The report of one warning rule on a line. */
  function WarningRuleDiags(r: Rule, line: string, ctx: LineContext, o: Oracle, num: nat): seq<Diagnostic> {
    if ctx.isComment && r.name !in CommentChecks then []
    else if o(r.pattern)(line).None? then []
    else [Diagnostic(Warning, r.name, num)]
  }

  /** The reports of the first `k` warning rules of `rs`, taken in order. */
  function WarningSweep(rs: seq<Rule>, k: nat, line: string, ctx: LineContext, o: Oracle, num: nat): seq<Diagnostic>
    requires k <= |rs|
  {
    if k == 0 then []
    else WarningSweep(rs, k - 1, line, ctx, o, num) + WarningRuleDiags(rs[k - 1], line, ctx, o, num)
  }

  /** An error rule reports at most once on a line, under its own name and
      at that line, and never as a warning. */
  lemma ErrorRuleDiagsShape(r: Rule, line: string, ctx: LineContext, verbose: bool, o: Oracle, num: nat)
    ensures var ds := ErrorRuleDiags(r, line, ctx, verbose, o, num);
      |ds| <= 1 && forall i :: 0 <= i < |ds| ==> ds[i].rule == r.name && ds[i].line == num && ds[i].severity != Warning
  {
  }

  /** An error sweep reports at most once per rule, only names from the
      table, only at that line, and never a warning. */
  lemma {:induction false} ErrorSweepShape(rs: seq<Rule>, k: nat, line: string, ctx: LineContext, verbose: bool, o: Oracle, num: nat)
    requires k <= |rs|
    ensures var ds := ErrorSweep(rs, k, line, ctx, verbose, o, num);
      |ds| <= k && forall i :: 0 <= i < |ds| ==> ds[i].rule in Names(rs) && ds[i].line == num && ds[i].severity != Warning
  {
    if k > 0 {
      ErrorSweepShape(rs, k - 1, line, ctx, verbose, o, num);
      ErrorRuleDiagsShape(rs[k - 1], line, ctx, verbose, o, num);
      assert Names(rs)[k - 1] == rs[k - 1].name;
    }
  }

  /** A warning rule reports at most once on a line, as a warning under its
      own name at that line. */
  lemma WarningRuleDiagsShape(r: Rule, line: string, ctx: LineContext, o: Oracle, num: nat)
    ensures var ds := WarningRuleDiags(r, line, ctx, o, num);
      |ds| <= 1 && forall i :: 0 <= i < |ds| ==> ds[i] == Diagnostic(Warning, r.name, num)
  {
  }

  /** A warning sweep reports at most once per rule, only names from the
      table, and only warnings at that line. */
  lemma {:induction false} WarningSweepShape(rs: seq<Rule>, k: nat, line: string, ctx: LineContext, o: Oracle, num: nat)
    requires k <= |rs|
    ensures var ds := WarningSweep(rs, k, line, ctx, o, num);
      |ds| <= k && forall i :: 0 <= i < |ds| ==> ds[i].rule in Names(rs) && ds[i].severity == Warning && ds[i].line == num
  {
    if k > 0 {
      WarningSweepShape(rs, k - 1, line, ctx, o, num);
      WarningRuleDiagsShape(rs[k - 1], line, ctx, o, num);
      assert Names(rs)[k - 1] == rs[k - 1].name;
    }
  }

  /** What one iteration of the loop reports; `crashed` when the line matches
      the function pattern and is the last one, so that `lines[line_num + 1]`
      raises IndexError. */
  datatype LineRun = LineRun(log: seq<Diagnostic>, crashed: bool)

  function CheckLine(lines: seq<string>, n: nat, verbose: bool, o: Oracle): LineRun
    requires n < |lines|
  {
    var ctx := Analyze(lines[n], o);
    if ctx.functionDecl && n + 1 == |lines| then LineRun(StructuralDiags(lines, n, ctx), true)
    else LineRun(StructuralDiags(lines, n, ctx) + RuleDiags(lines, n, ctx, verbose, o), false)
  }

  /** The reports that follow the structural checks on a line that did not
      raise: the brace check on the next line, then both rule tables. */
  function RuleDiags(lines: seq<string>, n: nat, ctx: LineContext, verbose: bool, o: Oracle): seq<Diagnostic>
    requires n + 1 < |lines| || (n < |lines| && !ctx.functionDecl)
  {
    BraceDiags(lines, n, ctx)
    + ErrorSweep(ErrorRules, |ErrorRules|, lines[n], ctx, verbose, o, n + 1)
    + WarningSweep(WarningRules, |WarningRules|, lines[n], ctx, o, n + 1)
  }

  /** `function_brace_not_on_line_below_declaration`: a function declaration
      whose next line does not begin with `{`. */
  function BraceDiags(lines: seq<string>, n: nat, ctx: LineContext): seq<Diagnostic>
    requires n + 1 < |lines| || (n < |lines| && !ctx.functionDecl)
  {
    if ctx.functionDecl && !("{" <= lines[n + 1])
    then [Diagnostic(Warning, FunctionBraceNotOnLineBelowDeclaration, n + 1)] else []
  }

  /** The runs of the first `k` lines, each on its own. */
  function LineRuns(lines: seq<string>, k: nat, verbose: bool, o: Oracle): (r: seq<LineRun>)
    requires k <= |lines|
    ensures |r| == k
  {
    Tabulate((i: nat) => if i < |lines| then CheckLine(lines, i, verbose, o) else LineRun([], false), k)
  }

  lemma LineRunAt(lines: seq<string>, k: nat, verbose: bool, o: Oracle, i: nat)
    requires i < k <= |lines|
    ensures LineRuns(lines, k, verbose, o)[i] == CheckLine(lines, i, verbose, o)
  {
    TabulateAt((i: nat) => if i < |lines| then CheckLine(lines, i, verbose, o) else LineRun([], false), k, i);
  }

  /** `[f(0), ..., f(k - 1)]`. */
  function Tabulate(f: nat -> LineRun, k: nat): (r: seq<LineRun>)
    ensures |r| == k
  {
    if k == 0 then [] else Tabulate(f, k - 1) + [f(k - 1)]
  }

  lemma {:induction false} TabulateAt(f: nat -> LineRun, k: nat, i: nat)
    requires i < k
    ensures Tabulate(f, k)[i] == f(i)
  {
    if i < k - 1 {
      TabulateAt(f, k - 1, i);
    }
  }

  /** The reports of the first `k` runs, and the line (0-based) that raised,
      if one did; nothing after it runs. */
  datatype Scan = Scan(log: seq<Diagnostic>, crashedAt: Option<nat>)

  function Fold(runs: seq<LineRun>, k: nat): Scan
    requires k <= |runs|
  {
    if k == 0 then Scan([], None)
    else
      var s := Fold(runs, k - 1);
      if s.crashedAt.Some? then s
      else Scan(s.log + runs[k - 1].log, if runs[k - 1].crashed then Some(k - 1) else None)
  }

  /** `lines[-1] == "\n"`: the file ends with a line holding only a newline. */
  function EofDiags(lines: seq<string>): seq<Diagnostic>
    requires |lines| > 0
  {
    if lines[|lines| - 1] == "\n" then [Diagnostic(Warning, EofOnNewline, |lines| + 1)] else []
  }

  /** What `check_file` does: returns `(errors, warnings)`, or raises
      IndexError on the (1-based) line given. */
  datatype Outcome = Tally(errors: nat, warnings: nat) | IndexError(line: nat)

  datatype Run = Run(outcome: Outcome, log: seq<Diagnostic>)

  function CheckFileSpec(lines: seq<string>, verbose: bool, o: Oracle): Run {
    if |lines| < 1 then Run(Tally(0, 1), [Diagnostic(Warning, EmptyFile, 1)])
    else Finish(lines, Fold(LineRuns(lines, |lines|, verbose, o), |lines|))
  }

  /** The result of a non-empty file once its lines have been scanned. */
  function Finish(lines: seq<string>, s: Scan): Run
    requires |lines| > 0
  {
    if s.crashedAt.Some? then Run(IndexError(s.crashedAt.value + 1), s.log)
    else
      var log := s.log + EofDiags(lines);
      Run(Tally(Count(log, Error), Count(log, Warning)), log)
  }

  /** An empty file reports `empty_file` and returns `(0, 1)`. */
  lemma EmptyFileSpec(verbose: bool, o: Oracle)
    ensures CheckFileSpec([], verbose, o) == Run(Tally(0, 1), [Diagnostic(Warning, EmptyFile, 1)])
  {
  }

  /** `check_file`, with the file's `readlines()` as `lines`, the module-level
      `is_verbose` as a parameter and the printed reports as `log`. */
  method CheckFile(lines: seq<string>, isVerbose: bool, oracle: Oracle) returns (outcome: Outcome, log: seq<Diagnostic>)
    ensures Run(outcome, log) == CheckFileSpec(lines, isVerbose, oracle)
    ensures outcome.Tally? ==> outcome.errors == Count(log, Error) && outcome.warnings == Count(log, Warning)
  {
    if |lines| < 1 {
      log := [Diagnostic(Warning, EmptyFile, 1)];
      assert lines == [];
      EmptyFileSpec(isVerbose, oracle);
      return Tally(0, 1), log;
    }

    var errors, warnings, crashedAt;
    log, errors, warnings, crashedAt := ScanFile(lines, isVerbose, oracle);
    if crashedAt.Some? {
      return IndexError(crashedAt.value + 1), log;
    }
    outcome, log := CheckEof(lines, log, errors, warnings);
  }

  /** The loop of `check_file`: every line in turn, until one raises. */
  method ScanFile(lines: seq<string>, isVerbose: bool, oracle: Oracle)
    returns (log: seq<Diagnostic>, errors: nat, warnings: nat, crashedAt: Option<nat>)
    ensures Fold(LineRuns(lines, |lines|, isVerbose, oracle), |lines|) == Scan(log, crashedAt)
    ensures errors == Count(log, Error) && warnings == Count(log, Warning)
  {
    ghost var runs := LineRuns(lines, |lines|, isVerbose, oracle);
    errors, warnings := 0, 0;
    log := [];
    for lineNum := 0 to |lines|
      invariant Fold(runs, lineNum) == Scan(log, None)
      invariant errors == Count(log, Error) && warnings == Count(log, Warning)
    {
      var crashed;
      log, errors, warnings, crashed := ScanStep(lines, lineNum, isVerbose, oracle, runs, log, errors, warnings);
      if crashed {
        return log, errors, warnings, Some(lineNum);
      }
    }
    crashedAt := None;
  }

  /** One iteration of the loop, as a step of the scan. */
  method ScanStep(lines: seq<string>, lineNum: nat, isVerbose: bool, oracle: Oracle, ghost runs: seq<LineRun>,
                  log0: seq<Diagnostic>, errors0: nat, warnings0: nat)
    returns (log: seq<Diagnostic>, errors: nat, warnings: nat, crashed: bool)
    requires lineNum < |lines| && runs == LineRuns(lines, |lines|, isVerbose, oracle)
    requires Fold(runs, lineNum) == Scan(log0, None)
    requires errors0 == Count(log0, Error) && warnings0 == Count(log0, Warning)
    ensures Fold(runs, lineNum + 1) == Scan(log, if crashed then Some(lineNum) else None)
    ensures crashed ==> lineNum + 1 == |lines|
    ensures errors == Count(log, Error) && warnings == Count(log, Warning)
  {
    LineRunAt(lines, |lines|, isVerbose, oracle, lineNum);
    log, errors, warnings, crashed := CheckLineOf(lines, lineNum, isVerbose, oracle, log0, errors0, warnings0);
    CountAppend(log0, runs[lineNum].log);
  }

  /** The end-of-file check after a scan that did not raise, and the counts
      `check_file` returns. */
  method CheckEof(lines: seq<string>, log0: seq<Diagnostic>, errors: nat, warnings0: nat)
    returns (outcome: Outcome, log: seq<Diagnostic>)
    requires |lines| > 0
    requires errors == Count(log0, Error) && warnings0 == Count(log0, Warning)
    ensures Run(outcome, log) == Finish(lines, Scan(log0, None))
  {
    log := log0;
    var warnings := warnings0;
    // make sure the file ends on a newline
    if lines[|lines| - 1] == "\n" {
      CountSnoc(log, Diagnostic(Warning, EofOnNewline, |lines| + 1));
      log := log + [Diagnostic(Warning, EofOnNewline, |lines| + 1)];
      warnings := warnings + 1;
    }
    assert log == log0 + EofDiags(lines);
    outcome := Tally(errors, warnings);
  }

  /** One pass of the loop of `check_file` over line `lineNum`, reporting on
      `log` and counting on `errors` and `warnings`; `crashed` when the
      look-ahead to the next line raises IndexError. */
  method CheckLineOf(lines: seq<string>, lineNum: nat, isVerbose: bool, oracle: Oracle,
                     log0: seq<Diagnostic>, errors0: nat, warnings0: nat)
    returns (log: seq<Diagnostic>, errors: nat, warnings: nat, crashed: bool)
    requires lineNum < |lines|
    ensures log == log0 + CheckLine(lines, lineNum, isVerbose, oracle).log
    ensures crashed == CheckLine(lines, lineNum, isVerbose, oracle).crashed
    ensures crashed ==> lineNum + 1 == |lines|
    ensures errors == errors0 + Count(CheckLine(lines, lineNum, isVerbose, oracle).log, Error)
    ensures warnings == warnings0 + Count(CheckLine(lines, lineNum, isVerbose, oracle).log, Warning)
  {
    var ctx := Analyze(lines[lineNum], oracle);
    ghost var structural := StructuralDiags(lines, lineNum, ctx);
    log, errors := StructuralChecks(lines, lineNum, ctx, log0, errors0);
    warnings := warnings0;
    StructuralCounts(lines, lineNum, ctx);

    if ctx.functionDecl && lineNum + 1 == |lines| {
      crashed := true;
      return;
    }
    crashed := false;
    ghost var mid := log;
    ghost var rest := RuleDiags(lines, lineNum, ctx, isVerbose, oracle);
    log, errors, warnings := RuleChecks(lines, lineNum, ctx, isVerbose, oracle, log, errors, warnings);
    CountAppend(structural, rest);
    AppendAssoc(log0, structural, rest);
  }

  /** The indentation, non-ASCII and blank-line-above-function checks, in
      the order the loop body performs them. */
  method StructuralChecks(lines: seq<string>, lineNum: nat, ctx: LineContext, log0: seq<Diagnostic>, errors0: nat)
    returns (log: seq<Diagnostic>, errors: nat)
    requires lineNum < |lines|
    ensures log == log0 + StructuralDiags(lines, lineNum, ctx)
    ensures errors == errors0 + |StructuralDiags(lines, lineNum, ctx)|
  {
    log, errors := log0, errors0;
    var line := lines[lineNum];
    if IndentViolation(line) {
      errors := errors + 1;
      log := log + [Diagnostic(Error, InvalidLineIndentWithSpaces, lineNum + 1)];
    }

    if ctx.nonAscii {
      errors := errors + 1;
      log := log + [Diagnostic(Error, NonAsciiCharacter, lineNum + 1)];
    }

    if ctx.functionDecl && lineNum > 0 {
      var prevLine := Strip(lines[lineNum - 1]);
      var allowedPrevLine := prevLine == "";
      allowedPrevLine := allowedPrevLine || Contains(prevLine, "#");
      allowedPrevLine := allowedPrevLine || Contains(prevLine, "//");
      allowedPrevLine := allowedPrevLine || Contains(prevLine, "/*");
      allowedPrevLine := allowedPrevLine || Contains(prevLine, "*/");
      if !allowedPrevLine {
        errors := errors + 1;
        log := log + [Diagnostic(Error, FunctionWithoutEmptyLineAbove, lineNum + 1)];
      }
    }
  }

  /** The brace check and both rule sweeps on a line that did not raise. */
  method RuleChecks(lines: seq<string>, lineNum: nat, ctx: LineContext, isVerbose: bool, oracle: Oracle,
                    log0: seq<Diagnostic>, errors0: nat, warnings0: nat)
    returns (log: seq<Diagnostic>, errors: nat, warnings: nat)
    requires lineNum + 1 < |lines| || (lineNum < |lines| && !ctx.functionDecl)
    ensures log == log0 + RuleDiags(lines, lineNum, ctx, isVerbose, oracle)
    ensures errors == errors0 + Count(RuleDiags(lines, lineNum, ctx, isVerbose, oracle), Error)
    ensures warnings == warnings0 + Count(RuleDiags(lines, lineNum, ctx, isVerbose, oracle), Warning)
  {
    log, errors, warnings := log0, errors0, warnings0;
    var line := lines[lineNum];
    ghost var brace := BraceDiags(lines, lineNum, ctx);
    if ctx.functionDecl && !("{" <= lines[lineNum + 1]) {
      warnings := warnings + 1;
      log := log + [Diagnostic(Warning, FunctionBraceNotOnLineBelowDeclaration, lineNum + 1)];
    }
    assert log == log0 + brace;
    CountShort(brace, Error);
    CountShort(brace, Warning);

    ghost var es := ErrorSweep(ErrorRules, |ErrorRules|, line, ctx, isVerbose, oracle, lineNum + 1);
    log, errors := SweepErrorRules(ErrorRules, line, ctx, isVerbose, oracle, lineNum + 1, log, errors);
    ErrorSweepShape(ErrorRules, |ErrorRules|, line, ctx, isVerbose, oracle, lineNum + 1);
    CountNone(es, Warning);

    ghost var ws := WarningSweep(WarningRules, |WarningRules|, line, ctx, oracle, lineNum + 1);
    log, warnings := SweepWarningRules(WarningRules, line, ctx, oracle, lineNum + 1, log, warnings);
    WarningSweepShape(WarningRules, |WarningRules|, line, ctx, oracle, lineNum + 1);
    CountNone(ws, Error);

    CountAppend(brace, es);
    CountAppend(brace + es, ws);
    AppendAssoc(log0, brace, es);
    AppendAssoc(log0, brace + es, ws);
  }

  lemma StructuralCounts(lines: seq<string>, n: nat, ctx: LineContext)
    requires n < |lines|
    ensures Count(StructuralDiags(lines, n, ctx), Warning) == 0
    ensures Count(StructuralDiags(lines, n, ctx), Error) == |StructuralDiags(lines, n, ctx)|
  {
    var a, b, c := IndentDiags(lines[n], n), NonAsciiDiags(ctx, n), AboveDiags(lines, n, ctx);
    CountShort(a, Error);
    CountShort(a, Warning);
    CountShort(b, Error);
    CountShort(b, Warning);
    CountShort(c, Error);
    CountShort(c, Warning);
    CountAppend(a, b);
    CountAppend(a + b, c);
  }

  lemma {:induction false} CountNone(ds: seq<Diagnostic>, s: Severity)
    requires forall i :: 0 <= i < |ds| ==> ds[i].severity != s
    ensures Count(ds, s) == 0
  {
    if ds != [] {
      CountNone(ds[..|ds| - 1], s);
    }
  }

  lemma CountShort(ds: seq<Diagnostic>, s: Severity)
    requires |ds| <= 1
    ensures Count(ds, s) == if ds != [] && ds[0].severity == s then 1 else 0
  {
    if ds != [] {
      assert ds[..0] == [];
    }
  }

  lemma {:induction false} CountAppend(a: seq<Diagnostic>, b: seq<Diagnostic>)
    ensures forall s :: Count(a + b, s) == Count(a, s) + Count(b, s)
  {
    if b != [] {
      CountAppend(a, b[..|b| - 1]);
      assert (a + b)[..|a + b| - 1] == a + b[..|b| - 1];
    } else {
      assert a + b == a;
    }
  }

  lemma AppendAssoc(a: seq<Diagnostic>, b: seq<Diagnostic>, c: seq<Diagnostic>)
    ensures a + (b + c) == (a + b) + c
  {
  }

  /** One more rule of an error sweep appends that rule's reports, and
      its errors to the count. */
  lemma ErrorSweepStep(rules: seq<Rule>, i: nat, line: string, ctx: LineContext, verbose: bool, o: Oracle, num: nat,
                       log0: seq<Diagnostic>)
    requires i < |rules|
    ensures var done, ds := ErrorSweep(rules, i, line, ctx, verbose, o, num), ErrorRuleDiags(rules[i], line, ctx, verbose, o, num);
      log0 + ErrorSweep(rules, i + 1, line, ctx, verbose, o, num) == (log0 + done) + ds
      && Count(ErrorSweep(rules, i + 1, line, ctx, verbose, o, num), Error) == Count(done, Error) + Count(ds, Error)
  {
    var done, ds := ErrorSweep(rules, i, line, ctx, verbose, o, num), ErrorRuleDiags(rules[i], line, ctx, verbose, o, num);
    CountAppend(done, ds);
    AppendAssoc(log0, done, ds);
  }

  /** One more rule of a warning sweep appends that rule's report, and its
      warning to the count. */
  lemma WarningSweepStep(rules: seq<Rule>, i: nat, line: string, ctx: LineContext, o: Oracle, num: nat,
                         log0: seq<Diagnostic>)
    requires i < |rules|
    ensures var done, ds := WarningSweep(rules, i, line, ctx, o, num), WarningRuleDiags(rules[i], line, ctx, o, num);
      log0 + WarningSweep(rules, i + 1, line, ctx, o, num) == (log0 + done) + ds
      && Count(WarningSweep(rules, i + 1, line, ctx, o, num), Warning) == Count(done, Warning) + Count(ds, Warning)
  {
    var done, ds := WarningSweep(rules, i, line, ctx, o, num), WarningRuleDiags(rules[i], line, ctx, o, num);
    CountAppend(done, ds);
    AppendAssoc(log0, done, ds);
  }

  /** The inner loop over an error table (`ERROR_REGEXPS`) for one line,
      reporting on `log` and counting on `errors`. */
  method SweepErrorRules(rules: seq<Rule>, line: string, ctx: LineContext, isVerbose: bool, oracle: Oracle, num: nat,
                         log0: seq<Diagnostic>, errors0: nat)
    returns (log: seq<Diagnostic>, errors: nat)
    ensures log == log0 + ErrorSweep(rules, |rules|, line, ctx, isVerbose, oracle, num)
    ensures errors == errors0 + Count(ErrorSweep(rules, |rules|, line, ctx, isVerbose, oracle, num), Error)
  {
    log, errors := log0, errors0;
    for i := 0 to |rules|
      invariant log == log0 + ErrorSweep(rules, i, line, ctx, isVerbose, oracle, num)
      invariant errors == errors0 + Count(ErrorSweep(rules, i, line, ctx, isVerbose, oracle, num), Error)
    {
      ErrorSweepStep(rules, i, line, ctx, isVerbose, oracle, num, log0);
      log, errors := CheckErrorRule(rules[i], line, ctx, isVerbose, oracle, num, log, errors);
    }
  }

  /** One pass of the inner loop over `ERROR_REGEXPS`: the comment filter,
      the search, then the pointer and string-literal suppressions. */
  method CheckErrorRule(rule: Rule, line: string, ctx: LineContext, isVerbose: bool, oracle: Oracle, num: nat,
                        log0: seq<Diagnostic>, errors0: nat)
    returns (log: seq<Diagnostic>, errors: nat)
    ensures log == log0 + ErrorRuleDiags(rule, line, ctx, isVerbose, oracle, num)
    ensures errors == errors0 + Count(ErrorRuleDiags(rule, line, ctx, isVerbose, oracle, num), Error)
  {
    log, errors := log0, errors0;
    ghost var ds := ErrorRuleDiags(rule, line, ctx, isVerbose, oracle, num);
    ErrorRuleDiagsShape(rule, line, ctx, isVerbose, oracle, num);
    CountShort(ds, Error);

    if ctx.isComment && rule.name !in CommentChecks {
      return;
    }

    var reMatch := oracle(rule.pattern)(line);
    if reMatch.None? {
      return;
    }

    if ctx.pointer && rule.name == InvalidMultiplicativeSpacing {
      if isVerbose {
        log := log + [Diagnostic(PotentialError, rule.name, num)];
      }
      return;
    }

    if ctx.stringStart.Some? && ctx.stringStart.value < reMatch.value {
      if rule.name !in CommentChecks {
        return;
      } else if isVerbose {
        log := log + [Diagnostic(PotentialError, rule.name, num)];
        return;
      }
    }

    log := log + [Diagnostic(Error, rule.name, num)];
    errors := errors + 1;
  }

  /** The inner loop over a warning table (`WARNING_REGEXPS`) for one line,
      reporting on `log` and counting on `warnings`. */
  method SweepWarningRules(rules: seq<Rule>, line: string, ctx: LineContext, oracle: Oracle, num: nat,
                           log0: seq<Diagnostic>, warnings0: nat)
    returns (log: seq<Diagnostic>, warnings: nat)
    ensures log == log0 + WarningSweep(rules, |rules|, line, ctx, oracle, num)
    ensures warnings == warnings0 + Count(WarningSweep(rules, |rules|, line, ctx, oracle, num), Warning)
  {
    log, warnings := log0, warnings0;
    for i := 0 to |rules|
      invariant log == log0 + WarningSweep(rules, i, line, ctx, oracle, num)
      invariant warnings == warnings0 + Count(WarningSweep(rules, i, line, ctx, oracle, num), Warning)
    {
      WarningSweepStep(rules, i, line, ctx, oracle, num, log0);
      log, warnings := CheckWarningRule(rules[i], line, ctx, oracle, num, log, warnings);
    }
  }

  /** One pass of the inner loop over `WARNING_REGEXPS`. */
  method CheckWarningRule(rule: Rule, line: string, ctx: LineContext, oracle: Oracle, num: nat,
                          log0: seq<Diagnostic>, warnings0: nat)
    returns (log: seq<Diagnostic>, warnings: nat)
    ensures log == log0 + WarningRuleDiags(rule, line, ctx, oracle, num)
    ensures warnings == warnings0 + Count(WarningRuleDiags(rule, line, ctx, oracle, num), Warning)
  {
    log, warnings := log0, warnings0;
    if ctx.isComment && rule.name !in CommentChecks {
      return;
    }

    var reMatch := oracle(rule.pattern)(line);
    if reMatch.None? {
      return;
    }

    CountShort([Diagnostic(Warning, rule.name, num)], Warning);
    log := log + [Diagnostic(Warning, rule.name, num)];
    warnings := warnings + 1;
  }
}
