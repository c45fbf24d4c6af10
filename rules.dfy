/** The rule registry of `style_checker.py`: the severities, the patterns, the
    two name-keyed rule tables and the list of rules that still apply on comment
    lines, together with the meaning of the patterns simple enough to state
    exactly. The other regular expressions are left to an `Oracle`. */
module Rules {
  import opened PyText

  /** `LogColours`: the level a diagnostic is printed with. */
  datatype Severity = Error | Warning | PotentialError

  /** The enum member's name. */
  function Name(s: Severity): string {
    match s
    case Error => "ERROR"
    case Warning => "WARNING"
    case PotentialError => "POTENTIAL_ERROR"
  }

  /** `LogColours.__repr__`: the name with each underscore shown as a space. */
  function Label(s: Severity): (r: string)
    ensures |r| == |Name(s)|
    ensures forall i :: 0 <= i < |r| ==> r[i] != '_'
  {
    ReplaceChar(Name(s), '_', ' ')
  }

  /** The three levels as they are printed; only `POTENTIAL_ERROR` changes. */
  lemma Labels()
    ensures Label(Error) == "ERROR" && Label(Warning) == "WARNING"
    ensures Label(PotentialError) == "POTENTIAL ERROR"
  {
    var e, w, p := Label(Error), Label(Warning), Label(PotentialError);
    assert forall i :: 0 <= i < |e| ==> e[i] == "ERROR"[i];
    assert forall i :: 0 <= i < |w| ==> w[i] == "WARNING"[i];
    assert forall i :: 0 <= i < |p| ==> p[i] == "POTENTIAL ERROR"[i];
  }

  /** One constructor per regular expression of the source, both those of the
      rule tables and those that compute a line's context. */
  datatype Pattern =
    | ControlStatement      // \b(if|else|for|while|switch|case)\b[:\{\(]
    | ElseIf                // elseif
    | MultiplicativeSpacing
    | AdditiveSpacing
    | PreprocessorIndent    // ^\s+#
    | DelimiterSpacing      // [,;]\w
    | MultipleStatements    // ^(?!for|case);[^;]+;
    | ParenInnerSpace
    | BracketInnerSpace
    | ParenCurly            // \)\{
    | FunctionCallSpace
    | Comment               // //
    | TrailingSpace         // \s\n$
    | LongLine              // ^.{81,}$
    | ArrayAccessSpacing
    | BraceFor              // \sfor[^\{]*\n
    | BraceWhile            // \swhile[^\{]*\n
    | BraceIf               // \sif[^\{]*\n
    | BraceElse             // \selse[^\{]*\n
    | StringLiteral         // ([\'\"])(.*?)\1
    | PointerType
    | FunctionDeclaration
    | NonAscii              // [^\x00-\x7F]

  /** The patterns whose meaning this model states exactly. */
  predicate Interpreted(p: Pattern) {
    p.ElseIf? || p.ParenCurly? || p.Comment? || p.TrailingSpace?
    || p.LongLine? || p.StringLiteral? || p.NonAscii?
  }

  /** `^.{81,}$` matches at position 0: at least 81 characters other than a
      newline, then the end of the string or a newline that ends it. */
  predicate LongLineMatch(s: string) {
    exists k | 81 <= k <= |s| :: NoNewlineBefore(s, k) && (k == |s| || (k == |s| - 1 && s[k] == '\n'))
  }

  /** The first `k` characters of `s` hold no newline. */
  predicate NoNewlineBefore(s: string, k: nat)
    requires k <= |s|
  {
    forall i | 0 <= i < k :: s[i] != '\n'
  }

  /** `\s\n$` matches at position `i`. */
  predicate TrailingSpaceAt(s: string, i: nat) {
    i + 2 <= |s| && IsSpace(s[i]) && s[i + 1] == '\n'
    && (i + 2 == |s| || (i + 3 == |s| && s[i + 2] == '\n'))
  }

  /** `([\'\"])(.*?)\1` matches at position `i`: a quote, and later the same
      quote with no newline in between. */
  predicate StringLiteralAt(s: string, i: nat) {
    i < |s| && (s[i] == '\'' || s[i] == '"')
    && exists j | i < j < |s| :: s[j] == s[i] && forall k | i < k < j :: s[k] != '\n'
  }

  /** `[^\x00-\x7F]` matches at position `i`. */
  predicate NonAsciiAt(s: string, i: nat) {
    i < |s| && s[i] as int > 127
  }

  /** `regex.search(line)` for an interpreted pattern `p`, as the start of
      the match. */
  function Builtin(p: Pattern, s: string): Option<nat>
    requires Interpreted(p)
  {
    match p
    case ElseIf => FindSub(s, "elseif")
    case ParenCurly => FindSub(s, "){")
    case Comment => FindSub(s, "//")
    case TrailingSpace => Leftmost((i: nat) => TrailingSpaceAt(s, i), 0, |s|)
    case LongLine => if LongLineMatch(s) then Some(0) else None
    case StringLiteral => Leftmost((i: nat) => StringLiteralAt(s, i), 0, |s|)
    case NonAscii => Leftmost((i: nat) => NonAsciiAt(s, i), 0, |s|)
  }

  /** Python's `re` as the checker uses it: for each pattern, what
      `regex.search(line)` returns, reduced to the start of the match. */
  type Oracle = Pattern -> string -> Option<nat>

  /** The oracle agrees with the meaning stated here for every pattern simple
      enough to state exactly. */
  ghost predicate Faithful(o: Oracle) {
    forall p: Pattern, s: string :: Interpreted(p) ==> o(p)(s) == Builtin(p, s)
  }

  /** The name of every rule the checker reports, one constructor per
      distinct string the source uses: the keys of the two tables and the
      names of the checks written out in `check_file`. */
  datatype RuleId =
    | ControlStatementMissingSpace | ElseIfMissingSpace
    | InvalidMultiplicativeSpacing | InvalidAdditiveSpacing | PreprocessorNotFlushWithLeftMargin
    | NoSpaceAfterDelimiter | MoreThanOneStatementPerLine
    | ParenWithInnerSpace | BracketWithInnerSpace | ParenAndCurlyWithoutSeparation
    | FunctionWithSpace | SingleLineComment | LineEndsInSpace | LineLonger80Chars
    | SpacesInArrayAccess | ViolationOfOneTrueBraceStyle
    | EmptyFile | InvalidLineIndentWithSpaces | NonAsciiCharacter
    | FunctionWithoutEmptyLineAbove | FunctionBraceNotOnLineBelowDeclaration | EofOnNewline

  /** The string the source uses for a rule. */
  function Key(id: RuleId): string {
    match id
    case ControlStatementMissingSpace => "control_statement_missing_space"
    case ElseIfMissingSpace => "else_if_missing_space"
    case InvalidMultiplicativeSpacing => "invalid_multiplicative_spacing"
    case InvalidAdditiveSpacing => "invalid_additive_spacing"
    case PreprocessorNotFlushWithLeftMargin => "preprocessor_not_flush_with_left_margin"
    case NoSpaceAfterDelimiter => "no_space_after_delimiter"
    case MoreThanOneStatementPerLine => "more_than_one_statement_per_line"
    case ParenWithInnerSpace => "paren_with_inner_space"
    case BracketWithInnerSpace => "bracket_with_inner_space"
    case ParenAndCurlyWithoutSeparation => "paren_and_curly_without_separation"
    case FunctionWithSpace => "function_with_space"
    case SingleLineComment => "single_line_comment"
    case LineEndsInSpace => "line_ends_in_space"
    case LineLonger80Chars => "line_longer_80_chars"
    case SpacesInArrayAccess => "spaces_in_array_access"
    case ViolationOfOneTrueBraceStyle => "violation_of_one_true_brace_style"
    case EmptyFile => "empty_file"
    case InvalidLineIndentWithSpaces => "invalid_line_indent_with_spaces"
    case NonAsciiCharacter => "non_ascii_character"
    case FunctionWithoutEmptyLineAbove => "function_without_empty_line_above"
    case FunctionBraceNotOnLineBelowDeclaration => "function_brace_not_on_line_below_declaration"
    case EofOnNewline => "eof_on_newline"
  }

  /** Distinct rules have distinct key strings, so comparing `RuleId`s is
      comparing the source's keys. */
  lemma KeyInjective()
    ensures forall a, b :: Key(a) == Key(b) ==> a == b
  {
    forall a, b | Key(a) == Key(b)
      ensures a == b
    {
      KeyShape(a);
      KeyShape(b);
    }
  }

  /** The rule whose key has length `len` and next-to-last character `penult`, if any. */
  function RuleOfKeyShape(len: int, penult: char): Option<RuleId> {
    match (len, penult)
    case (31, 'c') => Some(ControlStatementMissingSpace)
    case (21, 'c') => Some(ElseIfMissingSpace)
    case (30, 'n') => Some(InvalidMultiplicativeSpacing)
    case (24, 'n') => Some(InvalidAdditiveSpacing)
    case (39, 'i') => Some(PreprocessorNotFlushWithLeftMargin)
    case (24, 'e') => Some(NoSpaceAfterDelimiter)
    case (32, 'n') => Some(MoreThanOneStatementPerLine)
    case (22, 'c') => Some(ParenWithInnerSpace)
    case (24, 'c') => Some(BracketWithInnerSpace)
    case (34, 'o') => Some(ParenAndCurlyWithoutSeparation)
    case (19, 'c') => Some(FunctionWithSpace)
    case (19, 'n') => Some(SingleLineComment)
    case (18, 'c') => Some(LineEndsInSpace)
    case (20, 'r') => Some(LineLonger80Chars)
    case (22, 's') => Some(SpacesInArrayAccess)
    case (33, 'l') => Some(ViolationOfOneTrueBraceStyle)
    case (10, 'l') => Some(EmptyFile)
    case (31, 'e') => Some(InvalidLineIndentWithSpaces)
    case (19, 'e') => Some(NonAsciiCharacter)
    case (33, 'v') => Some(FunctionWithoutEmptyLineAbove)
    case (44, 'o') => Some(FunctionBraceNotOnLineBelowDeclaration)
    case (14, 'n') => Some(EofOnNewline)
    case _ => None
  }

  /** A key's length and next-to-last character already tell the rule. */
  lemma KeyShape(id: RuleId)
    ensures |Key(id)| > 1 && RuleOfKeyShape(|Key(id)|, Key(id)[|Key(id)| - 2]) == Some(id)
  {
    match id
    case ControlStatementMissingSpace =>
    case ElseIfMissingSpace =>
    case InvalidMultiplicativeSpacing =>
    case InvalidAdditiveSpacing =>
    case PreprocessorNotFlushWithLeftMargin =>
    case NoSpaceAfterDelimiter =>
    case MoreThanOneStatementPerLine =>
    case ParenWithInnerSpace =>
    case BracketWithInnerSpace =>
    case ParenAndCurlyWithoutSeparation =>
    case FunctionWithSpace =>
    case SingleLineComment =>
    case LineEndsInSpace =>
    case LineLonger80Chars =>
    case SpacesInArrayAccess =>
    case ViolationOfOneTrueBraceStyle =>
    case EmptyFile =>
    case InvalidLineIndentWithSpaces =>
    case NonAsciiCharacter =>
    case FunctionWithoutEmptyLineAbove =>
    case FunctionBraceNotOnLineBelowDeclaration =>
    case EofOnNewline =>
  }

  /** A named rule: one key and value of a rule table. */
  datatype Rule = Rule(name: RuleId, pattern: Pattern)

  /** `ERROR_REGEXPS`, in the order of its literal. */
  const ErrorRules: seq<Rule> := [
    Rule(ControlStatementMissingSpace, ControlStatement),
    Rule(ElseIfMissingSpace, ElseIf),
    Rule(InvalidMultiplicativeSpacing, MultiplicativeSpacing),
    Rule(InvalidAdditiveSpacing, AdditiveSpacing),
    Rule(PreprocessorNotFlushWithLeftMargin, PreprocessorIndent),
    Rule(NoSpaceAfterDelimiter, DelimiterSpacing),
    Rule(MoreThanOneStatementPerLine, MultipleStatements),
    Rule(ParenWithInnerSpace, ParenInnerSpace),
    Rule(BracketWithInnerSpace, BracketInnerSpace),
    Rule(ParenAndCurlyWithoutSeparation, ParenCurly),
    Rule(FunctionWithSpace, FunctionCallSpace),
    Rule(SingleLineComment, Comment),
    Rule(LineEndsInSpace, TrailingSpace),
    Rule(LineLonger80Chars, LongLine)
  ]

  /** The key-value pairs written in the literal of `WARNING_REGEXPS`; four of
      them share one key. */
  const WarningEntries: seq<Rule> := [
    Rule(SpacesInArrayAccess, ArrayAccessSpacing),
    Rule(ViolationOfOneTrueBraceStyle, BraceFor),
    Rule(ViolationOfOneTrueBraceStyle, BraceWhile),
    Rule(ViolationOfOneTrueBraceStyle, BraceIf),
    Rule(ViolationOfOneTrueBraceStyle, BraceElse)
  ]

  /** `WARNING_REGEXPS` as Python builds it from `WarningEntries`
      (lemma `Properties.WarningRulesFromLiteral`). */
  const WarningRules: seq<Rule> := [
    Rule(SpacesInArrayAccess, ArrayAccessSpacing),
    Rule(ViolationOfOneTrueBraceStyle, BraceElse)
  ]

  /** `COMMENT_CHECKS`. */
  const CommentChecks: seq<RuleId> := [LineLonger80Chars, LineEndsInSpace, SingleLineComment]

  function Names(rs: seq<Rule>): (r: seq<RuleId>)
    ensures |r| == |rs| && forall i :: 0 <= i < |rs| ==> r[i] == rs[i].name
  {
    if rs == [] then [] else [rs[0].name] + Names(rs[1..])
  }

  /** No key occurs twice. */
  predicate DistinctNames(rs: seq<Rule>) {
    forall i, j :: 0 <= i < j < |rs| ==> rs[i].name != rs[j].name
  }

  /** The value a dictionary holds for `k`. */
  function Lookup(d: seq<Rule>, k: RuleId): Option<Pattern> {
    if d == [] then None else if d[0].name == k then Some(d[0].pattern) else Lookup(d[1..], k)
  }

  /** `d[e.name] = e.pattern` on a Python dictionary kept as its entries in
      insertion order: an existing key keeps its place and takes the new value,
      a new key goes last. */
  function DictInsert(d: seq<Rule>, e: Rule): seq<Rule>
  {
    if d == [] then [e]
    else if d[0].name == e.name then [e] + d[1..]
    else [d[0]] + DictInsert(d[1..], e)
  }

  /** The dictionary that a Python dict literal with the entries `es` builds. */
  function DictOf(es: seq<Rule>): seq<Rule> {
    if es == [] then [] else DictInsert(DictOf(es[..|es| - 1]), es[|es| - 1])
  }

  lemma {:induction false} InsertKeepsKeysDistinct(d: seq<Rule>, e: Rule)
    requires DistinctNames(d)
    ensures DistinctNames(DictInsert(d, e))
    ensures forall k :: k in Names(DictInsert(d, e)) <==> k in Names(d) || k == e.name
  {
    if d != [] && d[0].name != e.name {
      InsertKeepsKeysDistinct(d[1..], e);
      var r := DictInsert(d, e);
      assert r == [d[0]] + DictInsert(d[1..], e);
      assert Names(d) == [d[0].name] + Names(d[1..]);
      assert Names(r) == [d[0].name] + Names(DictInsert(d[1..], e));
      assert d[0].name !in Names(d[1..]);
    } else if d != [] {
      assert Names(DictInsert(d, e)) == [e.name] + Names(d[1..]);
      assert Names(d) == [d[0].name] + Names(d[1..]);
    }
  }

  lemma {:induction false} InsertSetsValue(d: seq<Rule>, e: Rule)
    ensures Lookup(DictInsert(d, e), e.name) == Some(e.pattern)
    ensures forall k :: k != e.name ==> Lookup(DictInsert(d, e), k) == Lookup(d, k)
  {
    if d != [] && d[0].name != e.name {
      InsertSetsValue(d[1..], e);
      assert DictInsert(d, e) == [d[0]] + DictInsert(d[1..], e);
      assert ([d[0]] + DictInsert(d[1..], e))[1..] == DictInsert(d[1..], e);
    } else if d != [] {
      assert ([e] + d[1..])[1..] == d[1..];
    }
  }

  /** `k` is not a key of `d`. */
  predicate KeyAbsent(d: seq<Rule>, k: RuleId) {
    forall i :: 0 <= i < |d| ==> d[i].name != k
  }

  lemma {:induction false} InsertNewKeyAppends(d: seq<Rule>, e: Rule)
    requires KeyAbsent(d, e.name)
    ensures DictInsert(d, e) == d + [e]
  {
    if d != [] {
      assert KeyAbsent(d[1..], e.name) by {
        forall i | 0 <= i < |d[1..]|
          ensures d[1..][i].name != e.name
        {
          assert d[1..][i] == d[i + 1];
        }
      }
      InsertNewKeyAppends(d[1..], e);
      assert d == [d[0]] + d[1..];
    }
  }

  /** The value of the last entry with key `k`. */
  function LastValue(es: seq<Rule>, k: RuleId): Option<Pattern> {
    if es == [] then None
    else if es[|es| - 1].name == k then Some(es[|es| - 1].pattern)
    else LastValue(es[..|es| - 1], k)
  }

  /** A dict literal has each of its keys once, holding the value written last. */
  lemma {:induction false} DictOfSemantics(es: seq<Rule>)
    ensures DistinctNames(DictOf(es))
    ensures forall k :: k in Names(DictOf(es)) <==> k in Names(es)
    ensures forall k :: Lookup(DictOf(es), k) == LastValue(es, k)
  {
    if es != [] {
      var init, e := es[..|es| - 1], es[|es| - 1];
      DictOfSemantics(init);
      InsertKeepsKeysDistinct(DictOf(init), e);
      InsertSetsValue(DictOf(init), e);
      assert es == init + [e];
      assert Names(es) == Names(init) + [e.name];
    }
  }

  /** With no key repeated, the dict keeps every entry in the literal's order. */
  lemma {:induction false} DictOfDistinct(es: seq<Rule>)
    requires DistinctNames(es)
    ensures DictOf(es) == es
  {
    if es != [] {
      var init, e := es[..|es| - 1], es[|es| - 1];
      assert DistinctNames(init);
      DictOfDistinct(init);
      assert KeyAbsent(init, e.name);
      InsertNewKeyAppends(init, e);
      assert es == init + [e];
    }
  }
}
