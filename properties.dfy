/** Properties of the model of `check_file`: the two rule tables as Python
    builds them, what a comment line is checked for, the conditions of the
    fixed checks, the suppressions, bounds on what one line and one file can
    report, and the end-of-file check. */
module Properties {
  import opened PyText
  import opened Rules
  import opened Engine

  /** `WARNING_REGEXPS` keeps two keys: the four brace-style entries share one
      key, so only the last one, `\selse[^\{]*\n`, survives, at the place of
      the first. */
  lemma WarningRulesFromLiteral()
    ensures DictOf(WarningEntries) == WarningRules
  {
    var e := WarningEntries;
    var a := Rule(SpacesInArrayAccess, ArrayAccessSpacing);
    var k := ViolationOfOneTrueBraceStyle;
    assert e[..1][..0] == [];
    assert DictOf(e[..1]) == [a];
    assert e[..2][..1] == e[..1];
    InsertAppendsSecond(a, Rule(k, BraceFor));
    assert DictOf(e[..2]) == [a, Rule(k, BraceFor)];
    assert e[..3][..2] == e[..2];
    InsertReplacesSecond(a, Rule(k, BraceFor), Rule(k, BraceWhile));
    assert DictOf(e[..3]) == [a, Rule(k, BraceWhile)];
    assert e[..4][..3] == e[..3];
    InsertReplacesSecond(a, Rule(k, BraceWhile), Rule(k, BraceIf));
    assert DictOf(e[..4]) == [a, Rule(k, BraceIf)];
    assert e[..4] == e[..|e| - 1];
    InsertReplacesSecond(a, Rule(k, BraceIf), Rule(k, BraceElse));
  }

  lemma InsertAppendsSecond(a: Rule, b: Rule)
    requires a.name != b.name
    ensures DictInsert([a], b) == [a, b]
  {
    assert [a][1..] == [];
  }

  lemma InsertReplacesSecond(a: Rule, b: Rule, c: Rule)
    requires a.name != c.name && b.name == c.name
    ensures DictInsert([a, b], c) == [a, c]
  {
    assert [a, b][1..] == [b];
    assert DictInsert([b], c) == [c];
  }

  /** The keys of `ERROR_REGEXPS` are all different, so the dict holds every
      entry of its literal, in order. */
  lemma ErrorRulesFromLiteral()
    ensures DistinctNames(ErrorRules)
    ensures DictOf(ErrorRules) == ErrorRules
  {
    ErrorKeysDistinct();
    DictOfDistinct(ErrorRules);
  }

  lemma ErrorKeysDistinct()
    ensures DistinctNames(ErrorRules)
  {
    ErrorIndexOf();
  }

  /** The place of each key in `ERROR_REGEXPS`. */
  function ErrorIndex(id: RuleId): int {
    match id
    case ControlStatementMissingSpace => 0
    case ElseIfMissingSpace => 1
    case InvalidMultiplicativeSpacing => 2
    case InvalidAdditiveSpacing => 3
    case PreprocessorNotFlushWithLeftMargin => 4
    case NoSpaceAfterDelimiter => 5
    case MoreThanOneStatementPerLine => 6
    case ParenWithInnerSpace => 7
    case BracketWithInnerSpace => 8
    case ParenAndCurlyWithoutSeparation => 9
    case FunctionWithSpace => 10
    case SingleLineComment => 11
    case LineEndsInSpace => 12
    case LineLonger80Chars => 13
    case _ => -1
  }

  lemma ErrorIndexOf()
    ensures forall i :: 0 <= i < |ErrorRules| ==> ErrorIndex(ErrorRules[i].name) == i
  {
  }

  /** The keys that are not keys of `ERROR_REGEXPS`. */
  predicate FixedOrWarningKey(id: RuleId) {
    id.SpacesInArrayAccess? || id.ViolationOfOneTrueBraceStyle? || id.EmptyFile?
    || id.InvalidLineIndentWithSpaces? || id.NonAsciiCharacter? || id.FunctionWithoutEmptyLineAbove?
    || id.FunctionBraceNotOnLineBelowDeclaration? || id.EofOnNewline?
  }

  lemma ErrorKeys()
    ensures forall i :: 0 <= i < |ErrorRules| ==> !FixedOrWarningKey(ErrorRules[i].name)
  {
  }

  /** A report is in an error sweep exactly when one of the swept rules makes it. */
  lemma {:induction false} ErrorSweepMember(rs: seq<Rule>, k: nat, line: string, ctx: LineContext, verbose: bool,
                                            o: Oracle, num: nat, d: Diagnostic)
    requires k <= |rs|
    ensures d in ErrorSweep(rs, k, line, ctx, verbose, o, num)
        <==> exists i :: 0 <= i < k && d in ErrorRuleDiags(rs[i], line, ctx, verbose, o, num)
  {
    if k > 0 {
      ErrorSweepMember(rs, k - 1, line, ctx, verbose, o, num, d);
    }
  }

  /** With no key repeated, what an error sweep reports under a rule's key is
      what that rule reports. */
  lemma ErrorSweepOf(rs: seq<Rule>, line: string, ctx: LineContext, verbose: bool, o: Oracle, num: nat,
                     j: nat, d: Diagnostic)
    requires DistinctNames(rs) && j < |rs| && d.rule == rs[j].name
    ensures d in ErrorSweep(rs, |rs|, line, ctx, verbose, o, num) <==> d in ErrorRuleDiags(rs[j], line, ctx, verbose, o, num)
  {
    ErrorSweepMember(rs, |rs|, line, ctx, verbose, o, num, d);
    if d in ErrorSweep(rs, |rs|, line, ctx, verbose, o, num) {
      var i :| 0 <= i < |rs| && d in ErrorRuleDiags(rs[i], line, ctx, verbose, o, num);
      ErrorRuleDiagsShape(rs[i], line, ctx, verbose, o, num);
    }
  }

  /** A report is in a warning sweep exactly when one of the swept rules makes it. */
  lemma {:induction false} WarningSweepMember(rs: seq<Rule>, k: nat, line: string, ctx: LineContext,
                                              o: Oracle, num: nat, d: Diagnostic)
    requires k <= |rs|
    ensures d in WarningSweep(rs, k, line, ctx, o, num)
        <==> exists i :: 0 <= i < k && d in WarningRuleDiags(rs[i], line, ctx, o, num)
  {
    if k > 0 {
      WarningSweepMember(rs, k - 1, line, ctx, o, num, d);
    }
  }

  /** The error table reports only under its own keys. */
  lemma ErrorTableKeys(line: string, ctx: LineContext, v: bool, o: Oracle, num: nat)
    ensures forall d :: d in ErrorSweep(ErrorRules, |ErrorRules|, line, ctx, v, o, num) ==> !FixedOrWarningKey(d.rule)
  {
    forall d | d in ErrorSweep(ErrorRules, |ErrorRules|, line, ctx, v, o, num)
      ensures !FixedOrWarningKey(d.rule)
    {
      ErrorSweepMember(ErrorRules, |ErrorRules|, line, ctx, v, o, num, d);
      var i :| 0 <= i < |ErrorRules| && d in ErrorRuleDiags(ErrorRules[i], line, ctx, v, o, num);
      ErrorRuleDiagsShape(ErrorRules[i], line, ctx, v, o, num);
      ErrorKeys();
    }
  }

  /** The warning table reports only under its own two keys. */
  lemma WarningTableKeys(line: string, ctx: LineContext, o: Oracle, num: nat)
    ensures forall d :: d in WarningSweep(WarningRules, |WarningRules|, line, ctx, o, num) ==>
      d.rule == SpacesInArrayAccess || d.rule == ViolationOfOneTrueBraceStyle
  {
    forall d | d in WarningSweep(WarningRules, |WarningRules|, line, ctx, o, num)
      ensures d.rule == SpacesInArrayAccess || d.rule == ViolationOfOneTrueBraceStyle
    {
      WarningSweepMember(WarningRules, |WarningRules|, line, ctx, o, num, d);
      var i :| 0 <= i < |WarningRules| && d in WarningRuleDiags(WarningRules[i], line, ctx, o, num);
      WarningRuleDiagsShape(WarningRules[i], line, ctx, o, num);
    }
  }

  /** Under a key of `ERROR_REGEXPS`, line `n` reports what that rule reports,
      unless the line raised before the sweep. */
  lemma LineErrorReport(lines: seq<string>, n: nat, v: bool, o: Oracle, j: nat, d: Diagnostic)
    requires n < |lines| && j < |ErrorRules| && d.rule == ErrorRules[j].name
    ensures var run := CheckLine(lines, n, v, o);
      d in run.log
      <==> !run.crashed && d in ErrorRuleDiags(ErrorRules[j], lines[n], Analyze(lines[n], o), v, o, n + 1)
  {
    var ctx := Analyze(lines[n], o);
    ErrorKeys();
    var st := StructuralDiags(lines, n, ctx);
    assert d !in st;
    if !(ctx.functionDecl && n + 1 == |lines|) {
      RuleDiagsErrorReport(lines, n, ctx, v, o, j, d);
    }
  }

  /** After the structural checks, what a line reports under a key of
      `ERROR_REGEXPS` is what that rule reports. */
  lemma RuleDiagsErrorReport(lines: seq<string>, n: nat, ctx: LineContext, v: bool, o: Oracle, j: nat, d: Diagnostic)
    requires n + 1 < |lines| || (n < |lines| && !ctx.functionDecl)
    requires j < |ErrorRules| && d.rule == ErrorRules[j].name
    ensures d in RuleDiags(lines, n, ctx, v, o) <==> d in ErrorRuleDiags(ErrorRules[j], lines[n], ctx, v, o, n + 1)
  {
    var line := lines[n];
    var b := BraceDiags(lines, n, ctx);
    var e := ErrorSweep(ErrorRules, |ErrorRules|, line, ctx, v, o, n + 1);
    var w := WarningSweep(WarningRules, |WarningRules|, line, ctx, o, n + 1);
    ErrorKeys();
    ErrorKeysDistinct();
    ErrorSweepOf(ErrorRules, line, ctx, v, o, n + 1, j, d);
    WarningTableKeys(line, ctx, o, n + 1);
    OnlyInMiddle(d, b, e, w);
  }

  lemma OnlyInMiddle(d: Diagnostic, b: seq<Diagnostic>, e: seq<Diagnostic>, w: seq<Diagnostic>)
    requires d !in b && d !in w
    ensures d in b + e + w <==> d in e
  {
  }

  /** Under the name of a check written out in the loop body, line `n`
      reports what that check reports. */
  lemma LineFixedReport(lines: seq<string>, n: nat, v: bool, o: Oracle, d: Diagnostic)
    requires n < |lines|
    requires d.rule in {InvalidLineIndentWithSpaces, NonAsciiCharacter, FunctionWithoutEmptyLineAbove,
                        FunctionBraceNotOnLineBelowDeclaration}
    ensures var ctx := Analyze(lines[n], o); var run := CheckLine(lines, n, v, o);
      d in run.log <==> d in StructuralDiags(lines, n, ctx) || (!run.crashed && d in BraceDiags(lines, n, ctx))
  {
    var ctx := Analyze(lines[n], o);
    if !(ctx.functionDecl && n + 1 == |lines|) {
      ErrorTableKeys(lines[n], ctx, v, o, n + 1);
      WarningTableKeys(lines[n], ctx, o, n + 1);
    }
  }

  /** A previous line that is not blank and holds none of `#`, `//`, `/*`,
      `*/`, stated on the line as read rather than on its stripped form. */
  predicate CodeLine(prev: string) {
    (exists i :: 0 <= i < |prev| && !IsSpace(prev[i]))
    && !Contains(prev, "#") && !Contains(prev, "//") && !Contains(prev, "/*") && !Contains(prev, "*/")
  }

  lemma AllowedAboveRaw(prev: string)
    ensures AllowedAbove(Strip(prev)) <==> !CodeLine(prev)
  {
    StripSpec(prev);
    ContainsStripped(prev, "#");
    ContainsStripped(prev, "//");
    ContainsStripped(prev, "/*");
    ContainsStripped(prev, "*/");
  }

  /** `function_without_empty_line_above` is reported on a line exactly when
      the line declares a function, is not the first line, and the line
      above it is neither blank nor holds a comment marker or `#`. */
  lemma FunctionWithoutEmptyLineAboveIff(lines: seq<string>, n: nat, v: bool, o: Oracle)
    requires n < |lines|
    ensures Diagnostic(Error, FunctionWithoutEmptyLineAbove, n + 1) in CheckLine(lines, n, v, o).log
      <==> o(FunctionDeclaration)(lines[n]).Some? && n > 0 && CodeLine(lines[n - 1])
  {
    LineFixedReport(lines, n, v, o, Diagnostic(Error, FunctionWithoutEmptyLineAbove, n + 1));
    if n > 0 {
      AllowedAboveRaw(lines[n - 1]);
    }
  }

  /** Line `n` raises IndexError exactly when it declares a function and is
      the last line; what it reports then is its structural checks alone. */
  lemma CrashIff(lines: seq<string>, n: nat, v: bool, o: Oracle)
    requires n < |lines|
    ensures var run := CheckLine(lines, n, v, o);
      (run.crashed <==> o(FunctionDeclaration)(lines[n]).Some? && n + 1 == |lines|)
      && (run.crashed ==> run.log == StructuralDiags(lines, n, Analyze(lines[n], o)))
  {
  }

  /** Below the last line nothing can be looked up: a function declared there
      raises, so `function_brace_not_on_line_below_declaration` is reported
      exactly for a declaration whose next line exists and does not begin
      with `{`. */
  lemma BraceBelowIff(lines: seq<string>, n: nat, v: bool, o: Oracle)
    requires n < |lines|
    ensures Diagnostic(Warning, FunctionBraceNotOnLineBelowDeclaration, n + 1) in CheckLine(lines, n, v, o).log
      <==> o(FunctionDeclaration)(lines[n]).Some? && n + 1 < |lines| && !("{" <= lines[n + 1])
  {
    LineFixedReport(lines, n, v, o, Diagnostic(Warning, FunctionBraceNotOnLineBelowDeclaration, n + 1));
  }

  /** A scan over runs none of which raised does not stop. */
  lemma {:induction false} FoldNoCrash(runs: seq<LineRun>, k: nat)
    requires k <= |runs| && forall i :: 0 <= i < k ==> !runs[i].crashed
    ensures Fold(runs, k).crashedAt == None
  {
    if k > 0 {
      FoldNoCrash(runs, k - 1);
    }
  }

  /** No line before the last one raises, so the scan reaches every line. */
  lemma NoEarlyCrash(lines: seq<string>, v: bool, o: Oracle, k: nat)
    requires k < |lines|
    ensures Fold(LineRuns(lines, |lines|, v, o), k).crashedAt == None
  {
    var runs := LineRuns(lines, |lines|, v, o);
    forall i | 0 <= i < k
      ensures !runs[i].crashed
    {
      LineRunAt(lines, |lines|, v, o, i);
      CrashIff(lines, i, v, o);
    }
    FoldNoCrash(runs, k);
  }

  /** A scan whose runs before the last did not raise stops exactly when
      the last one raised, at the last one. */
  lemma FoldCrashLast(runs: seq<LineRun>)
    requires |runs| > 0 && Fold(runs, |runs| - 1).crashedAt == None
    ensures var c := Fold(runs, |runs|).crashedAt;
      (c.Some? <==> runs[|runs| - 1].crashed) && (c.Some? ==> c.value == |runs| - 1)
  {
  }

  /** `check_file` raises IndexError exactly when the file's last line
      declares a function, and it names that line. */
  lemma IndexErrorIff(lines: seq<string>, v: bool, o: Oracle)
    ensures var r := CheckFileSpec(lines, v, o);
      (r.outcome.IndexError? <==> |lines| > 0 && o(FunctionDeclaration)(lines[|lines| - 1]).Some?)
      && (r.outcome.IndexError? ==> r.outcome.line == |lines|)
  {
    if |lines| > 0 {
      var runs := LineRuns(lines, |lines|, v, o);
      NoEarlyCrash(lines, v, o, |lines| - 1);
      FoldCrashLast(runs);
      LineRunAt(lines, |lines|, v, o, |lines| - 1);
      CrashIff(lines, |lines| - 1, v, o);
    }
  }

  /** A line on which the pointer pattern matches never reports
      `invalid_multiplicative_spacing` as an error; in verbose mode its match
      is reported as a potential error instead. */
  lemma PointerSuppression(lines: seq<string>, n: nat, v: bool, o: Oracle)
    requires n < |lines| && o(PointerType)(lines[n]).Some?
    ensures Diagnostic(Error, InvalidMultiplicativeSpacing, n + 1) !in CheckLine(lines, n, v, o).log
    ensures Diagnostic(PotentialError, InvalidMultiplicativeSpacing, n + 1) in CheckLine(lines, n, v, o).log
      <==> v && !CheckLine(lines, n, v, o).crashed && !IsCommentText(Strip(lines[n]))
           && o(MultiplicativeSpacing)(lines[n]).Some?
  {
    LineErrorReport(lines, n, v, o, 2, Diagnostic(Error, InvalidMultiplicativeSpacing, n + 1));
    LineErrorReport(lines, n, v, o, 2, Diagnostic(PotentialError, InvalidMultiplicativeSpacing, n + 1));
  }

  /** A string literal on the line starts before the match of `p`. */
  predicate StringBefore(o: Oracle, line: string, p: Pattern) {
    o(StringLiteral)(line).Some? && o(p)(line).Some? && o(StringLiteral)(line).value < o(p)(line).value
  }

  /** A match of an error rule that no string literal precedes, and that is
      not the multiplicative-spacing rule on a pointer line, is reported as
      an error, on any line that reaches the sweep and is searched for it. */
  lemma UnsuppressedMatchIsError(lines: seq<string>, n: nat, v: bool, o: Oracle, j: nat)
    requires n + 1 < |lines| || (n < |lines| && o(FunctionDeclaration)(lines[n]).None?)
    requires j < |ErrorRules| && (j != 2 || o(PointerType)(lines[n]).None?)
    requires !IsCommentText(Strip(lines[n])) || ErrorRules[j].name in CommentChecks
    requires o(ErrorRules[j].pattern)(lines[n]).Some? && !StringBefore(o, lines[n], ErrorRules[j].pattern)
    ensures Diagnostic(Error, ErrorRules[j].name, n + 1) in CheckLine(lines, n, v, o).log
    ensures Diagnostic(PotentialError, ErrorRules[j].name, n + 1) !in CheckLine(lines, n, v, o).log
  {
    LineErrorReport(lines, n, v, o, j, Diagnostic(Error, ErrorRules[j].name, n + 1));
    LineErrorReport(lines, n, v, o, j, Diagnostic(PotentialError, ErrorRules[j].name, n + 1));
  }

  /** A string literal that starts before the match drops every rule that is
      not one of `COMMENT_CHECKS`, in both modes; only the start positions
      are compared, so the literal may well have ended before the match. */
  lemma StringLiteralDropsRule(lines: seq<string>, n: nat, v: bool, o: Oracle, j: nat, sev: Severity)
    requires n < |lines| && j < |ErrorRules| && (j != 2 || o(PointerType)(lines[n]).None?)
    requires ErrorRules[j].name !in CommentChecks && StringBefore(o, lines[n], ErrorRules[j].pattern)
    ensures Diagnostic(sev, ErrorRules[j].name, n + 1) !in CheckLine(lines, n, v, o).log
  {
    LineErrorReport(lines, n, v, o, j, Diagnostic(sev, ErrorRules[j].name, n + 1));
  }

  /** After a string literal's start, a rule of `COMMENT_CHECKS` is still
      reported: as a potential error in verbose mode, and otherwise as an
      error that is counted. */
  lemma StringLiteralKeepsCommentCheck(lines: seq<string>, n: nat, v: bool, o: Oracle, j: nat)
    requires n + 1 < |lines| || (n < |lines| && o(FunctionDeclaration)(lines[n]).None?)
    requires j < |ErrorRules| && ErrorRules[j].name in CommentChecks
    requires StringBefore(o, lines[n], ErrorRules[j].pattern)
    ensures Diagnostic(if v then PotentialError else Error, ErrorRules[j].name, n + 1) in CheckLine(lines, n, v, o).log
    ensures Diagnostic(if v then Error else PotentialError, ErrorRules[j].name, n + 1) !in CheckLine(lines, n, v, o).log
  {
    LineErrorReport(lines, n, v, o, j, Diagnostic(PotentialError, ErrorRules[j].name, n + 1));
    LineErrorReport(lines, n, v, o, j, Diagnostic(Error, ErrorRules[j].name, n + 1));
  }

  /** The line of `StringStartOnlyExample`. */
  const ExampleLine: string := "s = 'a'; g(){\n"

  /** In `ExampleLine` the string literal `'a'` starts at index 4 and closes
      at index 6. */
  lemma ExampleLiteral()
    ensures Builtin(StringLiteral, ExampleLine) == Some(4) && ExampleLine[6] == '\''
  {
    var line := ExampleLine;
    var p := (i: nat) => StringLiteralAt(line, i);
    assert forall j: nat :: p(j) == StringLiteralAt(line, j);
    LeftmostSpec(p, 0, |line|);
    assert StringLiteralAt(line, 4) by {
      assert line[6] == line[4];
    }
    assert forall i :: 0 <= i < 4 ==> line[i] != '\'' && line[i] != '"';
  }

  /** In `ExampleLine`, `){` is found at index 11. */
  lemma ExampleParenCurly()
    ensures Builtin(ParenCurly, ExampleLine) == Some(11)
  {
    var line := ExampleLine;
    FindSubSpec(line, "){");
    assert SubAt(line, "){", 11);
    forall j | 0 <= j < 11
      ensures !SubAt(line, "){", j)
    {
      assert line[j] != ')';
      if j + 2 <= |line| {
        assert line[j..j + 2][0] == line[j];
      }
    }
  }

  /** Only the start positions are compared: on `ExampleLine` the string
      literal closes long before `){`, and yet
      `paren_and_curly_without_separation` is not reported. */
  lemma StringStartOnlyExample(lines: seq<string>, n: nat, v: bool, o: Oracle, sev: Severity)
    requires n < |lines| && lines[n] == ExampleLine
    requires o(StringLiteral)(ExampleLine) == Builtin(StringLiteral, ExampleLine)
    requires o(ParenCurly)(ExampleLine) == Builtin(ParenCurly, ExampleLine)
    ensures o(StringLiteral)(ExampleLine) == Some(4) && o(ParenCurly)(ExampleLine) == Some(11)
    ensures Diagnostic(sev, ParenAndCurlyWithoutSeparation, n + 1) !in CheckLine(lines, n, v, o).log
  {
    ExampleLiteral();
    ExampleParenCurly();
    StringLiteralDropsRule(lines, n, v, o, 9, sev);
  }

  /** An error rule whose pattern does not match reports nothing. */
  lemma NoMatchNoReport(lines: seq<string>, n: nat, v: bool, o: Oracle, j: nat, sev: Severity)
    requires n < |lines| && j < |ErrorRules| && o(ErrorRules[j].pattern)(lines[n]).None?
    ensures Diagnostic(sev, ErrorRules[j].name, n + 1) !in CheckLine(lines, n, v, o).log
  {
    LineErrorReport(lines, n, v, o, j, Diagnostic(sev, ErrorRules[j].name, n + 1));
  }

  /** On a comment line the error table reports only `COMMENT_CHECKS` rules. */
  lemma CommentErrorSweep(line: string, ctx: LineContext, v: bool, o: Oracle, num: nat)
    requires ctx.isComment
    ensures forall d :: d in ErrorSweep(ErrorRules, |ErrorRules|, line, ctx, v, o, num) ==> d.rule in CommentChecks
  {
    forall d | d in ErrorSweep(ErrorRules, |ErrorRules|, line, ctx, v, o, num)
      ensures d.rule in CommentChecks
    {
      ErrorSweepMember(ErrorRules, |ErrorRules|, line, ctx, v, o, num, d);
      var i :| 0 <= i < |ErrorRules| && d in ErrorRuleDiags(ErrorRules[i], line, ctx, v, o, num);
      ErrorRuleDiagsShape(ErrorRules[i], line, ctx, v, o, num);
    }
  }

  /** On a comment line the warning table reports nothing: neither of its
      keys is one of `COMMENT_CHECKS`. */
  lemma CommentWarningSweep(line: string, ctx: LineContext, o: Oracle, num: nat)
    requires ctx.isComment
    ensures WarningSweep(WarningRules, |WarningRules|, line, ctx, o, num) == []
  {
    assert WarningSweep(WarningRules, 1, line, ctx, o, num) == [];
  }

  /** A comment line still gets its structural checks, and otherwise can only
      report the brace check and the three `COMMENT_CHECKS` rules. */
  lemma CommentLineReports(lines: seq<string>, n: nat, v: bool, o: Oracle)
    requires n < |lines| && IsCommentText(Strip(lines[n]))
    ensures var log := CheckLine(lines, n, v, o).log;
      StructuralDiags(lines, n, Analyze(lines[n], o)) <= log
      && forall d :: d in log ==>
           d.rule in CommentChecks
           || d.rule in {InvalidLineIndentWithSpaces, NonAsciiCharacter, FunctionWithoutEmptyLineAbove,
                         FunctionBraceNotOnLineBelowDeclaration}
  {
    var ctx := Analyze(lines[n], o);
    if !(ctx.functionDecl && n + 1 == |lines|) {
      CommentRuleDiags(lines, n, ctx, v, o);
    }
  }

  /** After the structural checks a comment line reports only the brace check
      and `COMMENT_CHECKS` rules. */
  lemma CommentRuleDiags(lines: seq<string>, n: nat, ctx: LineContext, v: bool, o: Oracle)
    requires n + 1 < |lines| || (n < |lines| && !ctx.functionDecl)
    requires ctx.isComment
    ensures forall d :: d in RuleDiags(lines, n, ctx, v, o) ==>
      d.rule in CommentChecks || d.rule == FunctionBraceNotOnLineBelowDeclaration
  {
    CommentErrorSweep(lines[n], ctx, v, o, n + 1);
    CommentWarningSweep(lines[n], ctx, o, n + 1);
  }

  /** The rules of `COMMENT_CHECKS` search for `^.{81,}$`, `\s\n$` and `//`. */
  lemma CommentCheckPatterns()
    ensures forall i :: 0 <= i < |ErrorRules| && ErrorRules[i].name in CommentChecks ==>
      ErrorRules[i].pattern == LongLine || ErrorRules[i].pattern == TrailingSpace || ErrorRules[i].pattern == Comment
  {
  }

  /** A sweep over a comment line depends only on the patterns of the
      `COMMENT_CHECKS` rules. */
  lemma {:induction false} CommentSweepAgnostic(rs: seq<Rule>, k: nat, line: string, ctx: LineContext, v: bool,
                                                o1: Oracle, o2: Oracle, num: nat)
    requires k <= |rs| && ctx.isComment
    requires forall i :: 0 <= i < k && rs[i].name in CommentChecks ==> o1(rs[i].pattern)(line) == o2(rs[i].pattern)(line)
    ensures ErrorSweep(rs, k, line, ctx, v, o1, num) == ErrorSweep(rs, k, line, ctx, v, o2, num)
  {
    if k > 0 {
      CommentSweepAgnostic(rs, k - 1, line, ctx, v, o1, o2, num);
    }
  }

  /** A comment line is never searched for the other patterns: two oracles
      that agree on the line's context and on the three `COMMENT_CHECKS`
      patterns give the same run. */
  lemma CommentLineIgnoresOtherPatterns(lines: seq<string>, n: nat, v: bool, o1: Oracle, o2: Oracle)
    requires n < |lines| && Analyze(lines[n], o1) == Analyze(lines[n], o2) && IsCommentText(Strip(lines[n]))
    requires o1(LongLine)(lines[n]) == o2(LongLine)(lines[n])
    requires o1(TrailingSpace)(lines[n]) == o2(TrailingSpace)(lines[n])
    requires o1(Comment)(lines[n]) == o2(Comment)(lines[n])
    ensures CheckLine(lines, n, v, o1) == CheckLine(lines, n, v, o2)
  {
    var ctx := Analyze(lines[n], o1);
    CommentCheckPatterns();
    CommentSweepAgnostic(ErrorRules, |ErrorRules|, lines[n], ctx, v, o1, o2, n + 1);
    CommentWarningSweep(lines[n], ctx, o1, n + 1);
    CommentWarningSweep(lines[n], ctx, o2, n + 1);
  }

  /** Every report has one of the three levels. */
  lemma {:induction false} CountLevels(ds: seq<Diagnostic>)
    ensures Count(ds, Error) + Count(ds, PotentialError) + Count(ds, Warning) == |ds|
  {
    if ds != [] {
      CountLevels(ds[..|ds| - 1]);
    }
  }

  /** The parts of a line's log that follow the structural checks. */
  lemma RuleDiagsBounds(lines: seq<string>, n: nat, ctx: LineContext, v: bool, o: Oracle)
    requires n + 1 < |lines| || (n < |lines| && !ctx.functionDecl)
    ensures var r := RuleDiags(lines, n, ctx, v, o);
      Count(r, Error) + Count(r, PotentialError) <= 14 && Count(r, Warning) <= 3
  {
    var b := BraceDiags(lines, n, ctx);
    var e := ErrorSweep(ErrorRules, |ErrorRules|, lines[n], ctx, v, o, n + 1);
    var w := WarningSweep(WarningRules, |WarningRules|, lines[n], ctx, o, n + 1);
    ErrorSweepShape(ErrorRules, |ErrorRules|, lines[n], ctx, v, o, n + 1);
    WarningSweepShape(WarningRules, |WarningRules|, lines[n], ctx, o, n + 1);
    CountNone(e, Warning);
    CountNone(w, Error);
    CountNone(w, PotentialError);
    CountShort(b, Error);
    CountShort(b, PotentialError);
    CountShort(b, Warning);
    CountLevels(e);
    CountLevels(w);
    CountAppend(b, e);
    CountAppend(b + e, w);
  }

  /** One line reports at most 17 errors or potential errors (3 structural
      checks and 14 error rules) and at most 3 warnings (the brace check and
      2 warning rules). */
  lemma LineBounds(lines: seq<string>, n: nat, v: bool, o: Oracle)
    requires n < |lines|
    ensures var log := CheckLine(lines, n, v, o).log;
      Count(log, Error) + Count(log, PotentialError) <= 17 && Count(log, Warning) <= 3
  {
    var ctx := Analyze(lines[n], o);
    var st := StructuralDiags(lines, n, ctx);
    StructuralCounts(lines, n, ctx);
    CountLevels(st);
    if !(ctx.functionDecl && n + 1 == |lines|) {
      var r := RuleDiags(lines, n, ctx, v, o);
      RuleDiagsBounds(lines, n, ctx, v, o);
      CountAppend(st, r);
    }
  }

  /** A scan of runs that each report at most 17 errors and 3 warnings. */
  lemma {:induction false} FoldBounds(runs: seq<LineRun>, k: nat)
    requires k <= |runs|
    requires forall i :: 0 <= i < k ==> Count(runs[i].log, Error) <= 17 && Count(runs[i].log, Warning) <= 3
    ensures Count(Fold(runs, k).log, Error) <= 17 * k && Count(Fold(runs, k).log, Warning) <= 3 * k
  {
    if k > 0 {
      FoldBounds(runs, k - 1);
      CountAppend(Fold(runs, k - 1).log, runs[k - 1].log);
    }
  }

  /** The first `k` lines report at most 17 errors and 3 warnings each. */
  lemma ScanBounds(lines: seq<string>, v: bool, o: Oracle, k: nat)
    requires k <= |lines|
    ensures var log := Fold(LineRuns(lines, |lines|, v, o), k).log;
      Count(log, Error) <= 17 * k && Count(log, Warning) <= 3 * k
  {
    var runs := LineRuns(lines, |lines|, v, o);
    forall i | 0 <= i < k
      ensures Count(runs[i].log, Error) <= 17 && Count(runs[i].log, Warning) <= 3
    {
      LineRunAt(lines, |lines|, v, o, i);
      LineBounds(lines, i, v, o);
    }
    FoldBounds(runs, k);
  }

  /** The counts `check_file` returns are at most 17 errors per line and 3
      warnings per line, plus the end-of-file warning. */
  lemma FileBounds(lines: seq<string>, v: bool, o: Oracle)
    ensures var r := CheckFileSpec(lines, v, o);
      r.outcome.Tally? ==> r.outcome.errors <= 17 * |lines| && r.outcome.warnings <= 3 * |lines| + 1
  {
    if |lines| > 0 {
      var s := Fold(LineRuns(lines, |lines|, v, o), |lines|);
      ScanBounds(lines, v, o, |lines|);
      var eof := EofDiags(lines);
      CountShort(eof, Error);
      CountShort(eof, Warning);
      CountAppend(s.log, eof);
    }
  }

  /** Every report of `ds` is at line `num`. */
  ghost predicate AtLine(ds: seq<Diagnostic>, num: nat) {
    forall i :: 0 <= i < |ds| ==> ds[i].line == num
  }

  lemma AtLineAppend(a: seq<Diagnostic>, b: seq<Diagnostic>, num: nat)
    requires AtLine(a, num) && AtLine(b, num)
    ensures AtLine(a + b, num)
  {
    assert forall i :: 0 <= i < |a + b| ==> (a + b)[i] == if i < |a| then a[i] else b[i - |a|];
  }

  /** Everything line `n` reports carries its printed number `n + 1`. */
  lemma LineNumbers(lines: seq<string>, n: nat, v: bool, o: Oracle)
    requires n < |lines|
    ensures AtLine(CheckLine(lines, n, v, o).log, n + 1)
  {
    var ctx := Analyze(lines[n], o);
    var st := StructuralDiags(lines, n, ctx);
    AtLineAppend(IndentDiags(lines[n], n), NonAsciiDiags(ctx, n), n + 1);
    AtLineAppend(IndentDiags(lines[n], n) + NonAsciiDiags(ctx, n), AboveDiags(lines, n, ctx), n + 1);
    if !(ctx.functionDecl && n + 1 == |lines|) {
      var b := BraceDiags(lines, n, ctx);
      var e := ErrorSweep(ErrorRules, |ErrorRules|, lines[n], ctx, v, o, n + 1);
      var w := WarningSweep(WarningRules, |WarningRules|, lines[n], ctx, o, n + 1);
      ErrorSweepShape(ErrorRules, |ErrorRules|, lines[n], ctx, v, o, n + 1);
      WarningSweepShape(WarningRules, |WarningRules|, lines[n], ctx, o, n + 1);
      AtLineAppend(b, e, n + 1);
      AtLineAppend(b + e, w, n + 1);
      AtLineAppend(st, b + e + w, n + 1);
    }
  }

  /** Reports in a log never go back to an earlier line. */
  ghost predicate InLineOrder(log: seq<Diagnostic>) {
    forall i, j :: 0 <= i < j < |log| ==> log[i].line <= log[j].line
  }

  /** Every report of `log` is at a line from 1 to `hi`. */
  ghost predicate LinesUpTo(log: seq<Diagnostic>, hi: nat) {
    forall i :: 0 <= i < |log| ==> 1 <= log[i].line <= hi
  }

  /** Reports of a later line appended to an ordered log keep it ordered. */
  lemma AppendInOrder(a: seq<Diagnostic>, b: seq<Diagnostic>, lo: nat, hi: nat)
    requires InLineOrder(a) && LinesUpTo(a, lo) && AtLine(b, hi) && 1 <= hi && lo <= hi
    ensures InLineOrder(a + b) && LinesUpTo(a + b, hi)
  {
    assert forall i :: 0 <= i < |a + b| ==> (a + b)[i] == if i < |a| then a[i] else b[i - |a|];
  }

  /** A scan of runs, each reporting at its own line, is in line order and
      stays within the lines scanned. */
  lemma {:induction false} FoldInOrder(runs: seq<LineRun>, k: nat)
    requires k <= |runs|
    requires forall i :: 0 <= i < k ==> AtLine(runs[i].log, i + 1)
    ensures InLineOrder(Fold(runs, k).log) && LinesUpTo(Fold(runs, k).log, k)
  {
    if k > 0 {
      FoldInOrder(runs, k - 1);
      var s := Fold(runs, k - 1);
      if s.crashedAt.None? {
        AppendInOrder(s.log, runs[k - 1].log, k - 1, k);
      }
    }
  }

  /** The runs of a file's lines each report at their own line. */
  lemma RunsAtTheirLines(lines: seq<string>, v: bool, o: Oracle, runs: seq<LineRun>)
    requires runs == LineRuns(lines, |lines|, v, o)
    ensures forall i :: 0 <= i < |runs| ==> AtLine(runs[i].log, i + 1)
  {
    forall i | 0 <= i < |runs|
      ensures AtLine(runs[i].log, i + 1)
    {
      LineRunAt(lines, |lines|, v, o, i);
      LineNumbers(lines, i, v, o);
    }
  }

  /** `check_file` reports line by line, in order, and `eof_on_newline`
      carries the number one past the last line. */
  lemma LogInLineOrder(lines: seq<string>, v: bool, o: Oracle)
    ensures var log := CheckFileSpec(lines, v, o).log;
      InLineOrder(log) && LinesUpTo(log, |lines| + 1)
  {
    if |lines| > 0 {
      var runs := LineRuns(lines, |lines|, v, o);
      RunsAtTheirLines(lines, v, o, runs);
      FoldInOrder(runs, |lines|);
      var s := Fold(runs, |lines|);
      if s.crashedAt.None? {
        AppendInOrder(s.log, EofDiags(lines), |lines|, |lines| + 1);
      }
    }
  }

  /** `eof_on_newline` is reported exactly when the last line is a lone
      newline, and then it is the last report. */
  lemma EofIff(lines: seq<string>, v: bool, o: Oracle)
    requires |lines| > 0
    ensures var r := CheckFileSpec(lines, v, o);
      r.outcome.Tally? ==>
        (Diagnostic(Warning, EofOnNewline, |lines| + 1) in r.log <==> lines[|lines| - 1] == "\n")
        && (lines[|lines| - 1] == "\n" ==> r.log[|r.log| - 1] == Diagnostic(Warning, EofOnNewline, |lines| + 1))
  {
    var runs := LineRuns(lines, |lines|, v, o);
    RunsAtTheirLines(lines, v, o, runs);
    FoldInOrder(runs, |lines|);
  }

  /** The indentation check's `not line.startswith(chr(9))` never decides
      anything: a line that begins with two spaces does not begin with a tab. */
  lemma IndentIgnoresTabGuard(line: string)
    ensures IndentViolation(line) <==> StartsWithBefore(line, "  ", 4)
  {
    if StartsWithBefore(line, "  ", 4) {
      assert line[0] == ' ';
    }
  }

  /** A line as `readlines()` gives it: a newline can only be its last
      character. */
  predicate ReadLine(s: string) {
    forall i :: 0 <= i < |s| - 1 ==> s[i] != '\n'
  }

  /** The line without its newline. */
  function Content(s: string): (c: string)
    ensures c <= s
  {
    if s != [] && s[|s| - 1] == '\n' then s[..|s| - 1] else s
  }

  /** On a line as read, `^.{81,}$` matches exactly when the line holds more
      than 80 characters besides its newline. */
  lemma LongLineIff(s: string)
    requires ReadLine(s)
    ensures LongLineMatch(s) <==> |Content(s)| > 80
  {
    if LongLineMatch(s) {
      var k :| 81 <= k <= |s| && NoNewlineBefore(s, k) && (k == |s| || (k == |s| - 1 && s[k] == '\n'));
      if k == |s| {
        assert s[|s| - 1] != '\n';
        assert Content(s) == s;
      } else {
        assert Content(s) == s[..k];
      }
      assert |Content(s)| > 80;
    }
    if |Content(s)| > 80 {
      var k := |Content(s)|;
      if s[|s| - 1] == '\n' {
        assert k == |s| - 1 && s[k] == '\n';
      } else {
        assert k == |s|;
      }
      assert NoNewlineBefore(s, k);
    }
  }

  /** On a line as read, `\s\n$` matches exactly when the newline that ends
      it follows a whitespace character, and it matches there. */
  lemma TrailingSpaceIff(s: string)
    requires ReadLine(s)
    ensures var r := Builtin(TrailingSpace, s);
      (r.Some? <==> |s| >= 2 && s[|s| - 1] == '\n' && IsSpace(s[|s| - 2]))
      && (r.Some? ==> r.value == |s| - 2)
  {
    var p := (i: nat) => TrailingSpaceAt(s, i);
    assert forall j: nat :: p(j) == TrailingSpaceAt(s, j);
    LeftmostSpec(p, 0, |s|);
    if |s| >= 2 && s[|s| - 1] == '\n' && IsSpace(s[|s| - 2]) {
      assert p(|s| - 2);
    }
  }

  /** The literal patterns find something exactly when Python's `in` does. */
  lemma LiteralPatterns(s: string)
    ensures Builtin(Comment, s).Some? <==> Contains(s, "//")
    ensures Builtin(ElseIf, s).Some? <==> Contains(s, "elseif")
    ensures Builtin(ParenCurly, s).Some? <==> Contains(s, "){")
  {
    ContainsFindSub(s, "//");
    ContainsFindSub(s, "elseif");
    ContainsFindSub(s, "){");
  }

  /** `[^\x00-\x7F]` matches at the first character beyond ASCII. */
  lemma NonAsciiIff(s: string)
    ensures var r := Builtin(NonAscii, s);
      (r.Some? <==> exists i :: 0 <= i < |s| && s[i] as int > 127)
      && (r.Some? ==> r.value < |s| && s[r.value] as int > 127 && forall i :: 0 <= i < r.value ==> s[i] as int <= 127)
  {
    var p := (i: nat) => NonAsciiAt(s, i);
    assert forall j: nat :: p(j) == NonAsciiAt(s, j);
    LeftmostSpec(p, 0, |s|);
    var r := Builtin(NonAscii, s);
    if r.Some? {
      assert NonAsciiAt(s, r.value);
      forall i | 0 <= i < r.value
        ensures s[i] as int <= 127
      {
        assert !p(i);
      }
    }
    if exists i :: 0 <= i < |s| && s[i] as int > 127 {
      var i :| 0 <= i < |s| && s[i] as int > 127;
      assert p(i);
    }
  }

  /** With `^.{81,}$` searched as written, a line as read that holds more
      than 80 characters besides its newline reports `line_longer_80_chars`
      as an error, in both modes, on a comment line as on any other, unless
      it raised before the sweep. */
  lemma LongLineReported(lines: seq<string>, n: nat, v: bool, o: Oracle)
    requires Faithful(o)
    requires n + 1 < |lines| || (n < |lines| && o(FunctionDeclaration)(lines[n]).None?)
    requires ReadLine(lines[n]) && |Content(lines[n])| > 80
    ensures Diagnostic(Error, LineLonger80Chars, n + 1) in CheckLine(lines, n, v, o).log
    ensures Diagnostic(PotentialError, LineLonger80Chars, n + 1) !in CheckLine(lines, n, v, o).log
  {
    LongLineIff(lines[n]);
    assert o(LongLine)(lines[n]) == Some(0);
    assert ErrorRules[13] == Rule(LineLonger80Chars, LongLine);
    UnsuppressedMatchIsError(lines, n, v, o, 13);
  }

  /** With `[^\x00-\x7F]` searched as written, `non_ascii_character` is
      reported on a line exactly when the line holds a character above 127;
      the check runs before anything can raise. */
  lemma NonAsciiReportedIff(lines: seq<string>, n: nat, v: bool, o: Oracle)
    requires Faithful(o) && n < |lines|
    ensures Diagnostic(Error, NonAsciiCharacter, n + 1) in CheckLine(lines, n, v, o).log
      <==> exists i :: 0 <= i < |lines[n]| && lines[n][i] as int > 127
  {
    var d := Diagnostic(Error, NonAsciiCharacter, n + 1);
    var ctx := Analyze(lines[n], o);
    LineFixedReport(lines, n, v, o, d);
    NonAsciiIff(lines[n]);
    assert d in StructuralDiags(lines, n, ctx) <==> ctx.nonAscii;
  }

  /** `invalid_line_indent_with_spaces` is reported exactly when the line
      begins with two spaces, whatever the mode, the oracle or a raise. */
  lemma IndentReportedIff(lines: seq<string>, n: nat, v: bool, o: Oracle)
    requires n < |lines|
    ensures Diagnostic(Error, InvalidLineIndentWithSpaces, n + 1) in CheckLine(lines, n, v, o).log
      <==> StartsWithBefore(lines[n], "  ", 4)
  {
    LineFixedReport(lines, n, v, o, Diagnostic(Error, InvalidLineIndentWithSpaces, n + 1));
    IndentIgnoresTabGuard(lines[n]);
  }

  /** What a line reports under a key of `WARNING_REGEXPS` is what that
      warning rule reports, unless the line raised before the sweep. */
  lemma LineWarningReport(lines: seq<string>, n: nat, v: bool, o: Oracle, j: nat, d: Diagnostic)
    requires n < |lines| && j < |WarningRules| && d.rule == WarningRules[j].name
    ensures var run := CheckLine(lines, n, v, o);
      d in run.log
      <==> !run.crashed && d in WarningRuleDiags(WarningRules[j], lines[n], Analyze(lines[n], o), o, n + 1)
  {
    var ctx := Analyze(lines[n], o);
    var line := lines[n];
    assert d !in StructuralDiags(lines, n, ctx);
    if !(ctx.functionDecl && n + 1 == |lines|) {
      var b := BraceDiags(lines, n, ctx);
      var e := ErrorSweep(ErrorRules, |ErrorRules|, line, ctx, v, o, n + 1);
      var w := WarningSweep(WarningRules, |WarningRules|, line, ctx, o, n + 1);
      ErrorTableKeys(line, ctx, v, o, n + 1);
      WarningSweepMember(WarningRules, |WarningRules|, line, ctx, o, n + 1, d);
      if d in w {
        var i :| 0 <= i < |WarningRules| && d in WarningRuleDiags(WarningRules[i], line, ctx, o, n + 1);
        WarningRuleDiagsShape(WarningRules[i], line, ctx, o, n + 1);
        assert i == j;
      }
      assert d !in b && d !in e;
      assert RuleDiags(lines, n, ctx, v, o) == b + e + w;
    }
  }

  /** A warning rule is reported on a line exactly when the line is not a
      comment, does not raise before the sweep, and its pattern matches; the
      warning table is the counterpart of `UnsuppressedMatchIsError`. */
  lemma WarningReportedIff(lines: seq<string>, n: nat, v: bool, o: Oracle, j: nat)
    requires n < |lines| && j < |WarningRules|
    ensures Diagnostic(Warning, WarningRules[j].name, n + 1) in CheckLine(lines, n, v, o).log
      <==> !CheckLine(lines, n, v, o).crashed && !IsCommentText(Strip(lines[n]))
           && o(WarningRules[j].pattern)(lines[n]).Some?
  {
    LineWarningReport(lines, n, v, o, j, Diagnostic(Warning, WarningRules[j].name, n + 1));
  }

  /** In particular, the one brace-style pattern that survives in the table,
      `\selse[^\{]*\n`, reports its warning on a non-comment line that
      reaches the sweep. */
  lemma BraceElseReported(lines: seq<string>, n: nat, v: bool, o: Oracle)
    requires n + 1 < |lines| || (n < |lines| && o(FunctionDeclaration)(lines[n]).None?)
    requires !IsCommentText(Strip(lines[n])) && o(BraceElse)(lines[n]).Some?
    ensures Diagnostic(Warning, ViolationOfOneTrueBraceStyle, n + 1) in CheckLine(lines, n, v, o).log
  {
    WarningReportedIff(lines, n, v, o, 1);
  }

  /** The oracle that searches with the stated meaning where there is one
      and finds nothing elsewhere. */
  function BuiltinOracle(): Oracle {
    (p: Pattern) => (s: string) => if Interpreted(p) then Builtin(p, s) else None
  }

  lemma BuiltinOracleFaithful()
    ensures Faithful(BuiltinOracle())
  {
  }
}
