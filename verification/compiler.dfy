/**
 * The surface-syntax front end (compiler.py): comment stripping, the token
 * scanner, and the recursive-descent parser that turns tokens into nodes.
 *
 * Character classes follow Python's for ASCII text: whitespace is what
 * `str.isspace` accepts below code point 128, a word character is `[A-Za-z0-9_]`
 * and a digit is `[0-9]`.
 */
module Compiler {
  import opened Ast
  import opened Results

  // ---------------------------------------------------------------------------
  // Character classes
  // ---------------------------------------------------------------------------

  predicate IsSpace(c: char) {
    9 <= c as int <= 13 || 28 <= c as int <= 32
  }

  predicate IsDigit(c: char) {
    '0' <= c <= '9'
  }

  predicate IsWordChar(c: char) {
    'a' <= c <= 'z' || 'A' <= c <= 'Z' || IsDigit(c) || c == '_'
  }

  predicate IsCommentChar(c: char) {
    c == '#' || c == ';'
  }

  /** A character that can belong to a bare token: not whitespace, a parenthesis or a quote. */
  predicate IsPlainChar(c: char) {
    !IsSpace(c) && c != '(' && c != ')' && c != '"'
  }

  predicate Blank(s: string) {
    forall i :: 0 <= i < |s| ==> IsSpace(s[i])
  }

  // ---------------------------------------------------------------------------
  // Lines
  // ---------------------------------------------------------------------------

  /** `source.split("\n")`. */
  function SplitLines(s: string): (lines: seq<string>)
    ensures |lines| >= 1
    ensures forall k :: 0 <= k < |lines| ==> '\n' !in lines[k]
    decreases |s|
  {
    if |s| == 0 then [""]
    else
      var rest := SplitLines(s[1..]);
      if s[0] == '\n' then [""] + rest
      else [[s[0]] + rest[0]] + rest[1..]
  }

  /** `"\n".join(lines)`. */
  function JoinLines(lines: seq<string>): string {
    if |lines| == 0 then ""
    else if |lines| == 1 then lines[0]
    else lines[0] + "\n" + JoinLines(lines[1..])
  }

  lemma {:induction false} JoinSplitLines(s: string)
    ensures JoinLines(SplitLines(s)) == s
    decreases |s|
  {
    if |s| > 0 {
      JoinSplitLines(s[1..]);
      var rest := SplitLines(s[1..]);
      if s[0] == '\n' {
        assert s == "\n" + s[1..];
      } else if |rest| == 1 {
        assert s == [s[0]] + s[1..];
      } else {
        assert JoinLines(rest) == rest[0] + "\n" + JoinLines(rest[1..]);
        assert s == [s[0]] + s[1..];
      }
    }
  }

  lemma {:induction false} SplitLineWithoutBreak(a: string)
    requires '\n' !in a
    ensures SplitLines(a) == [a]
    decreases |a|
  {
    if |a| > 0 {
      SplitLineWithoutBreak(a[1..]);
      assert [a[0]] + a[1..] == a;
    }
  }

  lemma {:induction false} SplitAtBreak(a: string, b: string)
    requires '\n' !in a
    ensures SplitLines(a + "\n" + b) == [a] + SplitLines(b)
    decreases |a|
  {
    var s := a + "\n" + b;
    if |a| == 0 {
      assert s[1..] == b;
    } else {
      assert s[1..] == a[1..] + "\n" + b;
      SplitAtBreak(a[1..], b);
      assert [a[0]] + a[1..] == a;
    }
  }

  /** Splitting the joined lines gives the lines back when none holds a line break. */
  lemma {:induction false} SplitJoinLines(lines: seq<string>)
    requires |lines| >= 1
    requires forall k :: 0 <= k < |lines| ==> '\n' !in lines[k]
    ensures SplitLines(JoinLines(lines)) == lines
    decreases |lines|
  {
    if |lines| == 1 {
      SplitLineWithoutBreak(lines[0]);
    } else {
      SplitJoinLines(lines[1..]);
      SplitAtBreak(lines[0], JoinLines(lines[1..]));
      assert [lines[0]] + lines[1..] == lines;
    }
  }

  // ---------------------------------------------------------------------------
  // Comments
  // ---------------------------------------------------------------------------

  /** Leading whitespace removed. */
  function LStrip(s: string): (r: string)
    ensures |r| <= |s| && r == s[|s| - |r|..]
    ensures r == [] || !IsSpace(r[0])
    decreases |s|
  {
    if |s| > 0 && IsSpace(s[0]) then LStrip(s[1..]) else s
  }

  /** What `LStrip` removes is whitespace only. */
  lemma {:induction false} LStripRemovesBlank(s: string)
    ensures Blank(s[..|s| - |LStrip(s)|])
    decreases |s|
  {
    if |s| > 0 && IsSpace(s[0]) {
      var t := s[1..];
      LStripRemovesBlank(t);
      var m := |t| - |LStrip(t)|;
      forall i | 0 <= i < m + 1
        ensures IsSpace(s[i])
      {
        if i > 0 {
          assert s[i] == t[..m][i - 1];
        }
      }
    }
  }

  /** Trailing whitespace removed (`str.rstrip()`). */
  function RStrip(s: string): (r: string)
    ensures |r| <= |s| && r == s[..|r|]
    ensures r == [] || !IsSpace(r[|r| - 1])
    decreases |s|
  {
    if |s| > 0 && IsSpace(s[|s| - 1]) then RStrip(s[..|s| - 1]) else s
  }

  /** What `RStrip` removes is whitespace only. */
  lemma {:induction false} RStripRemovesBlank(s: string)
    ensures Blank(s[|RStrip(s)|..])
    decreases |s|
  {
    if |s| > 0 && IsSpace(s[|s| - 1]) {
      var t := s[..|s| - 1];
      RStripRemovesBlank(t);
      assert s[|RStrip(s)|..] == t[|RStrip(t)|..] + [s[|s| - 1]];
    }
  }

  /** `line.strip()` starts with `#` or `;`. */
  predicate FullLineComment(line: string) {
    var t := LStrip(line);
    |t| > 0 && IsCommentChar(t[0])
  }

  /** The number of double quotes in `s`. */
  function QuoteCount(s: string): nat {
    if |s| == 0 then 0
    else QuoteCount(s[..|s| - 1]) + (if s[|s| - 1] == '"' then 1 else 0)
  }

  /** Position `j` of `line` lies inside a double-quoted region: an odd number of quotes precede it. */
  predicate InsideQuotes(line: string, j: nat)
    requires j <= |line|
  {
    QuoteCount(line[..j]) % 2 == 1
  }

  /**
   * The inline-comment scan from position `i`, with `inString` the quote parity so
   * far: the first `#` or `;` outside quotes, or -1 when there is none.
   */
  function CommentFrom(line: string, i: nat, inString: bool): (c: int)
    requires i <= |line|
    requires inString == InsideQuotes(line, i)
    ensures c == -1 || i <= c < |line|
    decreases |line| - i
  {
    if i == |line| then -1
    else
      assert line[..i + 1][..i] == line[..i];
      if line[i] == '"' then CommentFrom(line, i + 1, !inString)
      else if !inString && IsCommentChar(line[i]) then i
      else CommentFrom(line, i + 1, inString)
  }

  /**
   * `CommentFrom` finds the first comment character outside quotes from `i` on:
   * the one it returns is outside quotes, every earlier one is inside, and -1
   * means all of them are inside.
   */
  lemma {:induction false} CommentFromFirst(line: string, i: nat, inString: bool)
    requires i <= |line|
    requires inString == InsideQuotes(line, i)
    ensures var c := CommentFrom(line, i, inString);
      && (c == -1 ==> forall j :: i <= j < |line| && IsCommentChar(line[j]) ==> InsideQuotes(line, j))
      && (c >= 0 ==> IsCommentChar(line[c]) && !InsideQuotes(line, c))
      && (c >= 0 ==> forall j :: i <= j < c && IsCommentChar(line[j]) ==> InsideQuotes(line, j))
    decreases |line| - i
  {
    if i < |line| {
      assert line[..i + 1][..i] == line[..i];
      if line[i] == '"' {
        CommentFromFirst(line, i + 1, !inString);
      } else if !(!inString && IsCommentChar(line[i])) {
        CommentFromFirst(line, i + 1, inString);
      }
    }
  }

  function CommentStart(line: string): int {
    CommentFrom(line, 0, false)
  }

  /** One line of `tokenize`'s comment pass. */
  function ProcessLine(line: string): (r: string)
    ensures r <= line
  {
    if FullLineComment(line) then ""
    else
      var c := CommentStart(line);
      if c >= 0 then RStrip(line[..c]) else line
  }

  /**
   * A whole-line comment becomes empty; a line whose comment characters all lie
   * inside quotes is kept unchanged.
   */
  lemma ProcessLineCases(line: string)
    ensures FullLineComment(line) ==> ProcessLine(line) == ""
    ensures !FullLineComment(line) && (forall j :: 0 <= j < |line| && IsCommentChar(line[j]) ==> InsideQuotes(line, j))
            ==> ProcessLine(line) == line
  {
    CommentFromFirst(line, 0, false);
  }

  /** The comment pass over the whole source: every line processed, line breaks kept. */
  function StripComments(source: string): string {
    var lines := SplitLines(source);
    JoinLines(seq(|lines|, k requires 0 <= k < |lines| => ProcessLine(lines[k])))
  }

  /** A line without `#` or `;` passes the comment pass unchanged. */
  lemma LineWithoutCommentCharUnchanged(line: string)
    requires forall j :: 0 <= j < |line| ==> !IsCommentChar(line[j])
    ensures ProcessLine(line) == line
  {
    CommentFromFirst(line, 0, false);
    var t := LStrip(line);
    if |t| > 0 {
      assert t[0] == line[|line| - |t|];
    }
  }


  /** The comment pass keeps the number of lines. */
  lemma StripCommentsKeepsLines(source: string)
    ensures |SplitLines(StripComments(source))| == |SplitLines(source)|
  {
    var lines := SplitLines(source);
    var processed := seq(|lines|, k requires 0 <= k < |lines| => ProcessLine(lines[k]));
    forall k | 0 <= k < |processed|
      ensures '\n' !in processed[k]
    {
      assert processed[k] <= lines[k];
    }
    SplitJoinLines(processed);
  }

  // ---------------------------------------------------------------------------
  // Scanner: the regular expression
  //   "[^"]*" | :[\w\d_]+ | \$[\w\d_]+ | [()] | [^\s()"]+
  // tried alternative by alternative at each position, skipping a character
  // where none matches.
  // ---------------------------------------------------------------------------

  /** Index of the first double quote in `s`, or -1. */
  function FindQuote(s: string): (k: int)
    ensures -1 <= k < |s|
  {
    if |s| == 0 then -1
    else if s[0] == '"' then 0
    else
      var k := FindQuote(s[1..]);
      if k == -1 then -1 else k + 1
  }

  /** `FindQuote` finds the first double quote: none comes before it, and -1 means there is none. */
  lemma {:induction false} FindQuoteFirst(s: string)
    ensures var k := FindQuote(s);
      (k >= 0 ==> s[k] == '"' && '"' !in s[..k]) && (k == -1 ==> '"' !in s)
  {
    if |s| > 0 && s[0] != '"' {
      FindQuoteFirst(s[1..]);
      assert s == [s[0]] + s[1..];
      var k := FindQuote(s[1..]);
      if k >= 0 {
        assert s[..k + 1] == [s[0]] + s[1..][..k];
      }
    }
  }

  /** Length of the longest prefix of `s` made of word characters. */
  function WordRun(s: string): (n: nat)
    ensures n <= |s|
  {
    if |s| > 0 && IsWordChar(s[0]) then 1 + WordRun(s[1..]) else 0
  }

  /** `WordRun` is the longest word prefix: all of it is word characters and the next one is not. */
  lemma {:induction false} WordRunLongest(s: string)
    ensures forall j :: 0 <= j < WordRun(s) ==> IsWordChar(s[j])
    ensures WordRun(s) < |s| ==> !IsWordChar(s[WordRun(s)])
  {
    if |s| > 0 && IsWordChar(s[0]) {
      WordRunLongest(s[1..]);
    }
  }

  /** Length of the longest prefix of `s` made of plain characters. */
  function PlainRun(s: string): (n: nat)
    ensures n <= |s|
  {
    if |s| > 0 && IsPlainChar(s[0]) then 1 + PlainRun(s[1..]) else 0
  }

  /** `PlainRun` is the longest plain prefix: all of it is plain characters and the next one is not. */
  lemma {:induction false} PlainRunLongest(s: string)
    ensures forall j :: 0 <= j < PlainRun(s) ==> IsPlainChar(s[j])
    ensures PlainRun(s) < |s| ==> !IsPlainChar(s[PlainRun(s)])
  {
    if |s| > 0 && IsPlainChar(s[0]) {
      PlainRunLongest(s[1..]);
    }
  }

  /** Length of the token that the pattern matches at the start of `s`, 0 if none does. */
  function MatchLength(s: string): (n: nat)
    requires |s| > 0
    ensures n <= |s|
    ensures n > 0 ==> !IsSpace(s[0])
  {
    if s[0] == '"' then
      var k := FindQuote(s[1..]);
      if k >= 0 then k + 2 else 0
    else if (s[0] == ':' || s[0] == '$') && WordRun(s[1..]) > 0 then 1 + WordRun(s[1..])
    else if s[0] == '(' || s[0] == ')' then 1
    else PlainRun(s)
  }

  /** `re.findall` of the token pattern over `text` from position `pos` on. */
  function ScanFrom(text: string, pos: nat): (tokens: seq<string>)
    requires pos <= |text|
    decreases |text| - pos
  {
    if pos == |text| then []
    else
      var n := MatchLength(text[pos..]);
      if n == 0 then ScanFrom(text, pos + 1) else [text[pos..pos + n]] + ScanFrom(text, pos + n)
  }

  /** `re.findall` of the token pattern over `s`. */
  function Scan(s: string): seq<string> {
    ScanFrom(s, 0)
  }

  /** The final filter of `tokenize`: tokens that are not all whitespace. */
  function NonBlankTokens(tokens: seq<string>): (kept: seq<string>)
    ensures forall k :: 0 <= k < |kept| ==> !Blank(kept[k])
    ensures |kept| <= |tokens|
  {
    if |tokens| == 0 then []
    else if Blank(tokens[0]) then NonBlankTokens(tokens[1..])
    else [tokens[0]] + NonBlankTokens(tokens[1..])
  }

  /** What `Compiler.tokenize` returns for `source`. */
  function Tokens(source: string): seq<string> {
    NonBlankTokens(Scan(StripComments(source)))
  }

  /** The blank filter removes nothing: every scanned token starts with a non-blank character. */
  lemma {:induction false} ScanHasNoBlankTokens(tokens: seq<string>)
    requires forall k :: 0 <= k < |tokens| ==> |tokens[k]| > 0 && !IsSpace(tokens[k][0])
    ensures NonBlankTokens(tokens) == tokens
  {
    if |tokens| > 0 {
      assert !Blank(tokens[0]);
      ScanHasNoBlankTokens(tokens[1..]);
      assert [tokens[0]] + tokens[1..] == tokens;
    }
  }

  /** Every token the scanner finds from `pos` on is non-empty and starts with a non-blank character. */
  lemma {:induction false} ScanTokensStartNonBlank(text: string, pos: nat)
    requires pos <= |text|
    ensures forall k :: 0 <= k < |ScanFrom(text, pos)| ==>
      |ScanFrom(text, pos)[k]| > 0 && !IsSpace(ScanFrom(text, pos)[k][0])
    decreases |text| - pos
  {
    if pos < |text| {
      var n := MatchLength(text[pos..]);
      if n == 0 {
        ScanTokensStartNonBlank(text, pos + 1);
      } else {
        ScanTokensStartNonBlank(text, pos + n);
        assert text[pos..pos + n][0] == text[pos..][0];
      }
    }
  }

  /** Every token `tokenize` returns comes straight from the scanner. */
  lemma TokensAreScanned(source: string)
    ensures Tokens(source) == Scan(StripComments(source))
  {
    ScanTokensStartNonBlank(StripComments(source), 0);
    ScanHasNoBlankTokens(Scan(StripComments(source)));
  }

  /** A scanner step where nothing matches at `pos`: one character is skipped. */
  lemma SkipStep(text: string, pos: nat, found: seq<string>)
    requires pos < |text| && MatchLength(text[pos..]) == 0
    requires Scan(text) == found + ScanFrom(text, pos)
    ensures Scan(text) == found + ScanFrom(text, pos + 1)
  {
  }

  /** A scanner step where a token of length `n` matches at `pos`: it is taken and scanning resumes after it. */
  lemma TakeStep(text: string, pos: nat, found: seq<string>, n: nat)
    requires pos < |text| && n == MatchLength(text[pos..]) && n > 0
    requires Scan(text) == found + ScanFrom(text, pos)
    ensures pos + n <= |text|
    ensures Scan(text) == (found + [text[pos..pos + n]]) + ScanFrom(text, pos + n)
  {
    var token, rest := text[pos..pos + n], ScanFrom(text, pos + n);
    assert ScanFrom(text, pos) == [token] + rest;
    assert found + ([token] + rest) == (found + [token]) + rest;
  }

  // ---------------------------------------------------------------------------
  // Atoms
  // ---------------------------------------------------------------------------

  predicate IsDigits(s: string) {
    |s| > 0 && forall i :: 0 <= i < |s| ==> IsDigit(s[i])
  }

  /** The value of a string of decimal digits. */
  function DigitsValue(s: string): nat
    requires forall i :: 0 <= i < |s| ==> IsDigit(s[i])
  {
    if |s| == 0 then 0
    else
      assert IsDigit(s[|s| - 1]);
      DigitsValue(s[..|s| - 1]) * 10 + (s[|s| - 1] as int - '0' as int)
  }

  /** `s.replace(".", "", 1)`. */
  function RemoveFirstDot(s: string): (r: string)
    ensures '.' !in s ==> r == s
  {
    if |s| == 0 then s
    else if s[0] == '.' then s[1..]
    else [s[0]] + RemoveFirstDot(s[1..])
  }

  /** The dot case of `replace(".", "", 1)`: the first `.` goes and nothing else changes. */
  lemma {:induction false} RemoveFirstDotAt(s: string, k: nat)
    requires k < |s| && s[k] == '.' && '.' !in s[..k]
    ensures RemoveFirstDot(s) == s[..k] + s[k + 1..]
  {
    if k > 0 {
      assert s[0] == s[..k][0];
      assert s[1..][..k - 1] == s[1..k];
      RemoveFirstDotAt(s[1..], k - 1);
      assert s[1..][k..] == s[k + 1..];
      assert [s[0]] + s[1..k] == s[..k];
    }
  }

  function LowerChar(c: char): char {
    if 'A' <= c <= 'Z' then (c as int - 'A' as int + 'a' as int) as char else c
  }

  /** `s.lower()` on ASCII letters. */
  function Lower(s: string): (r: string)
    ensures |r| == |s|
    ensures forall i :: 0 <= i < |s| ==> r[i] == LowerChar(s[i])
  {
    if |s| == 0 then "" else [LowerChar(s[0])] + Lower(s[1..])
  }

  predicate IsIntLiteral(t: string) {
    IsDigits(t) || (StartsWith(t, '-') && IsDigits(t[1..]))
  }

  predicate IsFloatLiteral(t: string) {
    IsDigits(RemoveFirstDot(t)) || (StartsWith(t, '-') && IsDigits(RemoveFirstDot(t[1..])))
  }

  /** `int(t)` for an integer literal. */
  function IntValue(t: string): int
    requires IsIntLiteral(t)
  {
    if IsDigits(t) then DigitsValue(t) else -(DigitsValue(t[1..]) as int)
  }

  /** The conversion chain of `parse_expression` for a token that is not a parenthesis. */
  function ConvertAtom(t: string): Node {
    if StartsWith(t, '"') && t[|t| - 1] == '"' then Str(if |t| >= 2 then t[1..|t| - 1] else "")
    else if HasSigil(t) then Str(t)
    else if IsIntLiteral(t) then Int(IntValue(t))
    else if IsFloatLiteral(t) then Float(t)
    else if Lower(t) == "true" then Bool(true)
    else if Lower(t) == "false" then Bool(false)
    else if Lower(t) == "nil" || Lower(t) == "null" then Null
    else Str(t)
  }

  // ---------------------------------------------------------------------------
  // Parser
  // ---------------------------------------------------------------------------

  datatype ParseError = UnexpectedClose

  /**
   * `parse_expression` with the cursor at `pos`: the node read and the new
   * cursor. At or past the end it yields `None` and leaves the cursor alone;
   * otherwise the cursor moves forward.
   */
  function ParseExpr(toks: seq<string>, pos: nat): (r: Result<(Node, nat), ParseError>)
    requires pos <= |toks|
    ensures r.Ok? ==> r.value.1 <= |toks|
    ensures pos == |toks| ==> r == Ok((Null, pos))
    ensures pos < |toks| && r.Ok? ==> pos < r.value.1
    decreases |toks| - pos, 0
  {
    if pos == |toks| then Ok((Null, pos))
    else if toks[pos] == "(" then
      match ParseItems(toks, pos + 1, [])
      case Ok((items, p)) => Ok((List(items), p))
      case Err(e) => Err(e)
    else if toks[pos] == ")" then Err(UnexpectedClose)
    else Ok((ConvertAtom(toks[pos]), pos + 1))
  }

  /**
   * The element loop of a list opened before `pos`: sub-expressions up to the
   * next `)`, which is consumed, or up to the end of the tokens.
   */
  function ParseItems(toks: seq<string>, pos: nat, acc: seq<Node>): (r: Result<(seq<Node>, nat), ParseError>)
    requires pos <= |toks|
    ensures r.Ok? ==> pos <= r.value.1 <= |toks|
    decreases |toks| - pos, 1
  {
    if pos < |toks| && toks[pos] != ")" then
      match ParseExpr(toks, pos)
      case Ok((node, p)) => ParseItems(toks, p, acc + [node])
      case Err(e) => Err(e)
    else if pos < |toks| then Ok((acc, pos + 1))
    else Ok((acc, pos))
  }

  /** The top-level loop of `compile_to_list`: parse until the tokens run out, dropping `None` results. */
  function ParseAll(toks: seq<string>, pos: nat, acc: seq<Node>): Result<seq<Node>, ParseError>
    requires pos <= |toks|
    decreases |toks| - pos
  {
    if pos == |toks| then Ok(acc)
    else
      match ParseExpr(toks, pos)
      case Ok((node, p)) => ParseAll(toks, p, if node == Null then acc else acc + [node])
      case Err(e) => Err(e)
  }

  /** What `compile_to_list` returns for a file whose text is `source`. */
  function Compile(source: string): Result<seq<Node>, ParseError> {
    ParseAll(Tokens(source), 0, [])
  }

  /**
   * The parser yields `None` exactly at the end of the tokens or for a
   * `nil`/`null` token; a `)` where a node is expected is a syntax error.
   */
  lemma ParseExprNull(toks: seq<string>, pos: nat)
    requires pos <= |toks|
    ensures var r := ParseExpr(toks, pos);
      r.Ok? && r.value.0 == Null <==> pos == |toks| || (toks[pos] != "(" && toks[pos] != ")" && ConvertAtom(toks[pos]) == Null)
    ensures pos < |toks| && toks[pos] == ")" ==> ParseExpr(toks, pos) == Err(UnexpectedClose)
  {
  }

  /** A list left open at the end of the tokens ends there, keeping what was read, without an error. */
  lemma {:induction false} UnterminatedList(toks: seq<string>, pos: nat, acc: seq<Node>)
    requires pos <= |toks|
    requires forall j :: pos <= j < |toks| ==> toks[j] != ")" && toks[j] != "("
    ensures ParseItems(toks, pos, acc) == Ok((acc + ConvertAll(toks[pos..]), |toks|))
    decreases |toks| - pos
  {
    if pos < |toks| {
      var node := ConvertAtom(toks[pos]);
      assert ParseExpr(toks, pos) == Ok((node, pos + 1));
      ParseItemsStep(toks, pos, acc, node, pos + 1);
      UnterminatedList(toks, pos + 1, acc + [node]);
      assert toks[pos..] == [toks[pos]] + toks[pos + 1..];
      ConvertAllAppend([toks[pos]], toks[pos + 1..]);
      assert ConvertAll([toks[pos]]) == [node];
      assert acc + ([node] + ConvertAll(toks[pos + 1..])) == acc + [node] + ConvertAll(toks[pos + 1..]);
    } else {
      assert acc + ConvertAll(toks[pos..]) == acc;
    }
  }

  /**
   * The element loop never raises: it stops at the first `)` it meets at its
   * own level, and a nested list consumes its own `)`. So `parse_expression`
   * raises exactly when it meets a `)` first.
   */
  lemma {:induction false} ParseItemsNeverRaises(toks: seq<string>, pos: nat, acc: seq<Node>)
    requires pos <= |toks|
    ensures ParseItems(toks, pos, acc).Ok?
    decreases |toks| - pos, 1
  {
    if pos < |toks| && toks[pos] != ")" {
      ParseExprRaises(toks, pos);
      var next := ParseExpr(toks, pos).value;
      ParseItemsStep(toks, pos, acc, next.0, next.1);
      ParseItemsNeverRaises(toks, next.1, acc + [next.0]);
    }
  }

  lemma {:induction false} ParseExprRaises(toks: seq<string>, pos: nat)
    requires pos <= |toks|
    ensures ParseExpr(toks, pos).Err? <==> pos < |toks| && toks[pos] == ")"
    decreases |toks| - pos, 0
  {
    if pos < |toks| && toks[pos] == "(" {
      ParseItemsNeverRaises(toks, pos + 1, []);
    }
  }

  /**
   * A list left open at the end of the tokens, whatever it contains: with no
   * `)` ahead, the element loop runs to the end of the tokens and keeps the
   * elements collected so far.
   */
  lemma {:induction false} OpenItemsRunToEnd(toks: seq<string>, pos: nat, acc: seq<Node>)
    requires pos <= |toks|
    requires forall j :: pos <= j < |toks| ==> toks[j] != ")"
    ensures var r := ParseItems(toks, pos, acc);
      r.Ok? && r.value.1 == |toks| && acc <= r.value.0
    decreases |toks| - pos, 1
  {
    if pos < |toks| {
      OpenExprRunsToEnd(toks, pos);
      var next := ParseExpr(toks, pos).value;
      ParseItemsStep(toks, pos, acc, next.0, next.1);
      OpenItemsRunToEnd(toks, next.1, acc + [next.0]);
    }
  }

  /** With no `)` ahead, a node is read without error, and a `(` runs to the end of the tokens. */
  lemma {:induction false} OpenExprRunsToEnd(toks: seq<string>, pos: nat)
    requires pos < |toks|
    requires forall j :: pos <= j < |toks| ==> toks[j] != ")"
    ensures var r := ParseExpr(toks, pos);
      r.Ok? && (toks[pos] == "(" ==> r.value.0.List? && r.value.1 == |toks|)
    decreases |toks| - pos, 0
  {
    if toks[pos] == "(" {
      OpenItemsRunToEnd(toks, pos + 1, []);
    }
  }

  /** Each token converted as an atom. */
  function ConvertAll(ts: seq<string>): (nodes: seq<Node>)
    ensures |nodes| == |ts|
  {
    seq(|ts|, j requires 0 <= j < |ts| => ConvertAtom(ts[j]))
  }

  lemma ConvertAllAppend(a: seq<string>, b: seq<string>)
    ensures ConvertAll(a + b) == ConvertAll(a) + ConvertAll(b)
  {
    var l, r := ConvertAll(a + b), ConvertAll(a) + ConvertAll(b);
    forall j | 0 <= j < |l|
      ensures l[j] == r[j]
    {
      if j < |a| {
        assert (a + b)[j] == a[j];
      } else {
        assert (a + b)[j] == b[j - |a|];
      }
    }
  }

  // ---------------------------------------------------------------------------
  // Emitting tokens for a node: the inverse of the parser
  // ---------------------------------------------------------------------------

  function DigitChar(d: nat): char
    requires d < 10
  {
    ('0' as int + d) as char
  }

  /** The decimal digits of `n`, most significant first. */
  function NatToString(n: nat): (s: string)
    ensures IsDigits(s)
  {
    if n < 10 then [DigitChar(n)] else NatToString(n / 10) + [DigitChar(n % 10)]
  }

  /** `str(i)` for an integer. */
  function IntToString(i: int): string {
    if i < 0 then "-" + NatToString(-i) else NatToString(i)
  }

  lemma {:induction false} DigitsValueOfNatToString(n: nat)
    ensures DigitsValue(NatToString(n)) == n
  {
    var s := NatToString(n);
    if n >= 10 {
      DigitsValueOfNatToString(n / 10);
      assert s[..|s| - 1] == NatToString(n / 10);
    }
  }

  /**
   * The tokens that spell a node: a list in parentheses, a string quoted, an
   * integer in decimal, a float as its literal, `true`, `false` and `nil`.
   */
  function Emit(n: Node): (toks: seq<string>)
    ensures |toks| > 0 && (n.List? ==> toks[0] == "(")
    decreases n, 1
  {
    match n
    case List(items) => ["("] + EmitAll(items) + [")"]
    case Str(s) => ["\"" + s + "\""]
    case Int(i) => [IntToString(i)]
    case Float(text) => [text]
    case Bool(b) => [if b then "true" else "false"]
    case Null => ["nil"]
  }

  function EmitAll(nodes: seq<Node>): seq<string>
    decreases nodes, 0
  {
    if |nodes| == 0 then [] else Emit(nodes[0]) + EmitAll(nodes[1..])
  }

  /** A node the parser can produce: every float is kept as a float literal that is not an integer literal. */
  predicate Parsable(n: Node)
    decreases n, 1
  {
    match n
    case List(items) => AllParsable(items)
    case Float(text) => IsFloatLiteral(text) && !IsIntLiteral(text)
    case _ => true
  }

  predicate AllParsable(nodes: seq<Node>)
    decreases nodes, 0
  {
    forall i :: 0 <= i < |nodes| ==> Parsable(nodes[i])
  }

  /** The conversion chain reads back every atom from the token that spells it. */
  lemma ConvertAtomInverse(n: Node)
    requires !n.List? && Parsable(n)
    ensures Emit(n)[0] != "(" && Emit(n)[0] != ")" && ConvertAtom(Emit(n)[0]) == n
  {
    match n
    case Str(s) => ConvertQuoted(s);
    case Int(i) => ConvertInteger(i);
    case Float(text) => FloatLiteralIsPlain(text);
    case Bool(b) =>
      if b {
        ConvertWord("true");
        assert Lower("true") == "true";
      } else {
        ConvertWord("false");
        assert Lower("false") == "false";
      }
    case Null =>
      ConvertWord("nil");
      assert Lower("nil") == "nil";
  }

  /**
   * A word of ASCII letters is taken by none of the numeric cases; the
   * keywords are recognised whatever their case (`TRUE`, `Nil`), and any
   * other word is kept as is.
   */
  lemma ConvertWord(t: string)
    requires |t| > 0 && forall i :: 0 <= i < |t| ==> 'a' <= t[i] <= 'z' || 'A' <= t[i] <= 'Z'
    ensures t != "(" && t != ")"
    ensures ConvertAtom(t) ==
      if Lower(t) == "true" then Bool(true) else if Lower(t) == "false" then Bool(false)
      else if Lower(t) == "nil" || Lower(t) == "null" then Null else Str(t)
  {
    assert !IsDigits(RemoveFirstDot(t)) by {
      RemoveFirstDotHead(t);
    }
    assert !IsDigits(t) && !StartsWith(t, '-') && !StartsWith(t, '"') && !HasSigil(t);
  }

  /** A token that starts with `:` or `$` is kept as is, sigil included. */
  lemma ConvertSigil(t: string)
    requires HasSigil(t)
    ensures t != "(" && t != ")" && ConvertAtom(t) == Str(t)
  {
    assert !StartsWith(t, '"');
  }

  lemma RemoveFirstDotHead(s: string)
    requires |s| > 0 && s[0] != '.'
    ensures |RemoveFirstDot(s)| > 0 && RemoveFirstDot(s)[0] == s[0]
  {
  }

  lemma ConvertQuoted(s: string)
    ensures var t := "\"" + s + "\""; t != "(" && t != ")" && ConvertAtom(t) == Str(s)
  {
    var t := "\"" + s + "\"";
    assert t[0] == '"' && t[|t| - 1] == '"';
    assert t[1..|t| - 1] == s;
  }

  lemma ConvertInteger(i: int)
    ensures var t := IntToString(i); t != "(" && t != ")" && ConvertAtom(t) == Int(i)
  {
    var t := IntToString(i);
    if i < 0 {
      DigitsValueOfNatToString(-i);
      assert t[1..] == NatToString(-i);
      assert !IsDigits(t) by { assert !IsDigit(t[0]); }
      assert IsIntLiteral(t);
      assert IntValue(t) == i;
    } else {
      DigitsValueOfNatToString(i);
      assert IsDigit(t[0]);
      assert IsIntLiteral(t);
    }
    assert !StartsWith(t, '"') && !HasSigil(t);
  }

  /** A float literal starts with a digit, a `.` or a `-`, so no earlier case of the chain takes it. */
  lemma FloatLiteralIsPlain(t: string)
    requires IsFloatLiteral(t) && !IsIntLiteral(t)
    ensures t != "(" && t != ")" && ConvertAtom(t) == Float(t)
  {
    var u := if IsDigits(RemoveFirstDot(t)) then t else t[1..];
    RemoveFirstDotShape(u);
    if !IsDigits(RemoveFirstDot(t)) {
      assert t[0] == '-';
    }
    assert |t| > 0 && (IsDigit(t[0]) || t[0] == '.' || t[0] == '-');
    assert !StartsWith(t, '"') && !HasSigil(t);
  }

  lemma {:induction false} RemoveFirstDotShape(s: string)
    requires IsDigits(RemoveFirstDot(s))
    ensures |s| > 0 && (IsDigit(s[0]) || s[0] == '.')
  {
    if |s| > 0 && s[0] != '.' {
      assert RemoveFirstDot(s)[0] == s[0];
    }
  }

  /** The tokens `ts` stand in `toks` one after the other from position `pos` on. */
  predicate TokensAt(toks: seq<string>, pos: nat, ts: seq<string>)
    decreases |ts|
  {
    pos + |ts| <= |toks| && (|ts| > 0 ==> toks[pos] == ts[0] && TokensAt(toks, pos + 1, ts[1..]))
  }

  /** Two runs of tokens stand one after the other exactly when their concatenation stands there. */
  lemma {:induction false} TokensAtAppend(toks: seq<string>, pos: nat, a: seq<string>, b: seq<string>)
    ensures TokensAt(toks, pos, a + b) <==> TokensAt(toks, pos, a) && TokensAt(toks, pos + |a|, b)
    decreases |a|
  {
    if |a| == 0 {
      assert a + b == b;
    } else {
      assert (a + b)[1..] == a[1..] + b;
      TokensAtAppend(toks, pos + 1, a[1..], b);
    }
  }

  /** Whatever follows a position stands there. */
  lemma {:induction false} TokensAtSuffix(toks: seq<string>, pos: nat)
    requires pos <= |toks|
    ensures TokensAt(toks, pos, toks[pos..])
    decreases |toks| - pos
  {
    if pos < |toks| {
      assert toks[pos..][1..] == toks[pos + 1..];
      TokensAtSuffix(toks, pos + 1);
    }
  }

  /**
   * Parsing the tokens that spell a node, wherever they stand in the token
   * list, gives the node back and moves the cursor just past them.
   */
  lemma {:induction false} ParseEmit(n: Node, toks: seq<string>, pos: nat)
    requires Parsable(n) && TokensAt(toks, pos, Emit(n))
    ensures ParseExpr(toks, pos) == Ok((n, pos + |Emit(n)|))
    decreases n, 1
  {
    assert toks[pos] == Emit(n)[0];
    match n
    case List(items) =>
      var inner := EmitAll(items);
      assert Emit(n) == ["("] + (inner + [")"]);
      TokensAtAppend(toks, pos, ["("], inner + [")"]);
      ParseEmitItems(items, toks, pos + 1, []);
      assert [] + items == items;
    case _ =>
      ConvertAtomInverse(n);
  }

  /** The item loop reads back a list's items from their tokens and consumes the closing `)`. */
  lemma {:induction false} ParseEmitItems(items: seq<Node>, toks: seq<string>, pos: nat, acc: seq<Node>)
    requires AllParsable(items) && TokensAt(toks, pos, EmitAll(items) + [")"])
    ensures ParseItems(toks, pos, acc) == Ok((acc + items, pos + |EmitAll(items)| + 1))
    decreases items, 1
  {
    if |items| == 0 {
      assert EmitAll(items) + [")"] == [")"];
      ParseItemsClose(toks, pos, acc);
      assert acc + items == acc;
    } else {
      ParseEmitSomeItems(items, toks, pos, acc);
    }
  }

  lemma {:induction false} ParseEmitSomeItems(items: seq<Node>, toks: seq<string>, pos: nat, acc: seq<Node>)
    requires |items| > 0 && AllParsable(items) && TokensAt(toks, pos, EmitAll(items) + [")"])
    ensures ParseItems(toks, pos, acc) == Ok((acc + items, pos + |EmitAll(items)| + 1))
    decreases items, 0
  {
    var k := pos + |Emit(items[0])|;
    ParseFirstItem(items, toks, pos, acc);
    ParseEmitItems(items[1..], toks, k, acc + [items[0]]);
    ParseItemsCompose(toks, pos, k, acc, items, k + |EmitAll(items[1..])| + 1);
  }

  /** The first item of a list is read back, and the tokens of the other items and the `)` follow it. */
  lemma ParseFirstItem(items: seq<Node>, toks: seq<string>, pos: nat, acc: seq<Node>)
    requires |items| > 0 && AllParsable(items) && TokensAt(toks, pos, EmitAll(items) + [")"])
    ensures AllParsable(items[1..])
    ensures |EmitAll(items)| == |Emit(items[0])| + |EmitAll(items[1..])|
    ensures TokensAt(toks, pos + |Emit(items[0])|, EmitAll(items[1..]) + [")"])
    ensures ParseItems(toks, pos, acc) == ParseItems(toks, pos + |Emit(items[0])|, acc + [items[0]])
    decreases items, 0, 0
  {
    var first, rest := Emit(items[0]), EmitAll(items[1..]) + [")"];
    assert EmitAll(items) + [")"] == first + rest;
    TokensAtAppend(toks, pos, first, rest);
    assert items[0] in items;
    ParseItem(items[0], toks, pos, acc);
  }

  /** The loop's result after the first item, carried back to the position before it. */
  lemma ParseItemsCompose(toks: seq<string>, pos: nat, k: nat, acc: seq<Node>, items: seq<Node>, end: nat)
    requires |items| > 0 && pos <= k <= |toks|
    requires ParseItems(toks, pos, acc) == ParseItems(toks, k, acc + [items[0]])
    requires ParseItems(toks, k, acc + [items[0]]) == Ok((acc + [items[0]] + items[1..], end))
    ensures ParseItems(toks, pos, acc) == Ok((acc + items, end))
  {
    AppendFirst(acc, items);
  }

  /** The item loop stops at `)`, consumes it and returns what it has gathered. */
  lemma ParseItemsClose(toks: seq<string>, pos: nat, acc: seq<Node>)
    requires pos < |toks| && toks[pos] == ")"
    ensures ParseItems(toks, pos, acc) == Ok((acc, pos + 1))
  {
  }

  lemma AppendFirst(acc: seq<Node>, items: seq<Node>)
    requires |items| > 0
    ensures acc + [items[0]] + items[1..] == acc + items
  {
    assert [items[0]] + items[1..] == items;
  }

  /** An item of a list is read back from its tokens and appended to what the loop has gathered. */
  lemma ParseItem(n: Node, toks: seq<string>, pos: nat, acc: seq<Node>)
    requires Parsable(n) && TokensAt(toks, pos, Emit(n))
    ensures ParseItems(toks, pos, acc) == ParseItems(toks, pos + |Emit(n)|, acc + [n])
    decreases n, 2
  {
    ParseEmit(n, toks, pos);
    EmitStart(n);
    assert toks[pos] == Emit(n)[0];
    ParseItemsStep(toks, pos, acc, n, pos + |Emit(n)|);
  }

  /** One turn of the item loop: an item that does not start with `)` is parsed and appended. */
  lemma ParseItemsStep(toks: seq<string>, pos: nat, acc: seq<Node>, node: Node, next: nat)
    requires pos < |toks| && toks[pos] != ")" && ParseExpr(toks, pos) == Ok((node, next))
    ensures next <= |toks|
    ensures ParseItems(toks, pos, acc) == ParseItems(toks, next, acc + [node])
  {
  }

  /** The first token that spells a parsable node is never `)`. */
  lemma EmitStart(n: Node)
    requires Parsable(n)
    ensures Emit(n)[0] != ")"
  {
    if !n.List? {
      ConvertAtomInverse(n);
    }
  }

  /**
   * The top-level loop reads back any sequence of parsable nodes from their
   * tokens, provided none of them is `None`, which the loop drops.
   */
  lemma ParseAllEmit(nodes: seq<Node>)
    requires AllParsable(nodes) && forall i :: 0 <= i < |nodes| ==> nodes[i] != Null
    ensures ParseAll(EmitAll(nodes), 0, []) == Ok(nodes)
  {
    var toks := EmitAll(nodes);
    TokensAtSuffix(toks, 0);
    assert toks[0..] == toks;
    ParseAllFrom(nodes, toks, 0, []);
    assert [] + nodes == nodes;
  }

  /** `ParseAll` over tokens whose remainder from `pos` spells `nodes`. */
  lemma {:induction false} ParseAllFrom(nodes: seq<Node>, toks: seq<string>, pos: nat, acc: seq<Node>)
    requires AllParsable(nodes) && forall i :: 0 <= i < |nodes| ==> nodes[i] != Null
    requires TokensAt(toks, pos, EmitAll(nodes)) && pos + |EmitAll(nodes)| == |toks|
    ensures ParseAll(toks, pos, acc) == Ok(acc + nodes)
    decreases |nodes|, 1
  {
    if |nodes| == 0 {
      assert acc + nodes == acc;
    } else {
      ParseAllFromCons(nodes, toks, pos, acc);
    }
  }

  lemma {:induction false} ParseAllFromCons(nodes: seq<Node>, toks: seq<string>, pos: nat, acc: seq<Node>)
    requires |nodes| > 0
    requires AllParsable(nodes) && forall i :: 0 <= i < |nodes| ==> nodes[i] != Null
    requires TokensAt(toks, pos, EmitAll(nodes)) && pos + |EmitAll(nodes)| == |toks|
    ensures ParseAll(toks, pos, acc) == Ok(acc + nodes)
    decreases |nodes|, 0
  {
    var first, rest := Emit(nodes[0]), EmitAll(nodes[1..]);
    assert EmitAll(nodes) == first + rest;
    TokensAtAppend(toks, pos, first, rest);
    TailPreconditions(nodes);
    ParseEmit(nodes[0], toks, pos);
    ParseAllFrom(nodes[1..], toks, pos + |first|, acc + [nodes[0]]);
    AppendFirst(acc, nodes);
    ParseAllStep(toks, pos, acc, nodes[0], pos + |first|);
  }

  lemma TailPreconditions(nodes: seq<Node>)
    requires |nodes| > 0
    requires AllParsable(nodes) && forall i :: 0 <= i < |nodes| ==> nodes[i] != Null
    ensures nodes[0] != Null && Parsable(nodes[0])
    ensures AllParsable(nodes[1..]) && forall i :: 0 <= i < |nodes[1..]| ==> nodes[1..][i] != Null
  {
    assert nodes[0] in nodes;
  }

  /** One turn of the top-level loop. */
  lemma ParseAllStep(toks: seq<string>, pos: nat, acc: seq<Node>, node: Node, next: nat)
    requires pos < |toks| && ParseExpr(toks, pos) == Ok((node, next))
    ensures next <= |toks|
    ensures ParseAll(toks, pos, acc) == ParseAll(toks, next, if node == Null then acc else acc + [node])
  {
  }

  // ---------------------------------------------------------------------------
  // The Compiler object
  // ---------------------------------------------------------------------------

  class Compiler {
    var tokens: seq<string>
    var currentToken: nat

    constructor ()
      ensures tokens == [] && currentToken == 0
    {
      tokens := [];
      currentToken := 0;
    }

    /** `tokenize`: the comment pass line by line, then the scanner and the blank filter. */
    method Tokenize(source: string) returns (result: seq<string>)
      ensures result == Tokens(source)
      ensures forall k :: 0 <= k < |result| ==> !Blank(result[k])
    {
      var text := StripCommentLines(source);
      var found := FindTokens(text);
      result := DropBlank(found);
    }

    /** The loop over the lines of `source` that empties comment lines and cuts inline comments. */
    method StripCommentLines(source: string) returns (text: string)
      ensures text == StripComments(source)
    {
      var lines := SplitLines(source);
      var processed: seq<string> := [];
      for k := 0 to |lines|
        invariant |processed| == k
        invariant forall j :: 0 <= j < k ==> processed[j] == ProcessLine(lines[j])
      {
        var line := lines[k];
        if FullLineComment(line) {
          assert ProcessLine(lines[k]) == "";
          processed := processed + [""];
          continue;
        }
        var commentStart := InlineCommentStart(line);
        if commentStart >= 0 {
          line := RStrip(line[..commentStart]);
        }
        assert line == ProcessLine(lines[k]);
        processed := processed + [line];
      }
      ghost var expected := seq(|lines|, k requires 0 <= k < |lines| => ProcessLine(lines[k]));
      assert processed == expected by {
        assert |processed| == |expected|;
        forall j | 0 <= j < |processed|
          ensures processed[j] == expected[j]
        {
        }
      }
      text := JoinLines(processed);
    }

    /** The character loop that toggles the quote flag and stops at the first comment character outside quotes. */
    method InlineCommentStart(line: string) returns (commentStart: int)
      ensures commentStart == CommentStart(line)
    {
      commentStart := -1;
      var inString := false;
      var i := 0;
      while i < |line|
        invariant 0 <= i <= |line|
        invariant inString == InsideQuotes(line, i)
        invariant CommentFrom(line, i, inString) == CommentStart(line)
      {
        assert line[..i + 1][..i] == line[..i];
        if line[i] == '"' {
          inString := !inString;
        } else if !inString && IsCommentChar(line[i]) {
          commentStart := i;
          return;
        }
        i := i + 1;
      }
    }

    /** `re.findall` written out: at each position take the first alternative that matches, else skip a character. */
    method FindTokens(text: string) returns (found: seq<string>)
      ensures found == Scan(text)
    {
      found := [];
      var pos := 0;
      while pos < |text|
        invariant 0 <= pos <= |text|
        invariant Scan(text) == found + ScanFrom(text, pos)
      {
        var n := MatchLength(text[pos..]);
        if n == 0 {
          SkipStep(text, pos, found);
          pos := pos + 1;
        } else {
          TakeStep(text, pos, found, n);
          found := found + [text[pos..pos + n]];
          pos := pos + n;
        }
      }
    }

    /** The closing list comprehension of `tokenize` that keeps tokens with a non-blank character. */
    method DropBlank(found: seq<string>) returns (result: seq<string>)
      ensures result == NonBlankTokens(found)
    {
      result := [];
      for k := 0 to |found|
        invariant NonBlankTokens(found) == result + NonBlankTokens(found[k..])
      {
        assert found[k..] == [found[k]] + found[k + 1..];
        if !Blank(found[k]) {
          result := result + [found[k]];
        }
      }
      assert found[|found|..] == [];
    }

    /** `parse_expression`: reads one node at the cursor and advances past it. */
    method ParseExpression() returns (r: Result<Node, ParseError>)
      requires currentToken <= |tokens|
      modifies this`currentToken
      ensures currentToken <= |tokens|
      ensures match ParseExpr(tokens, old(currentToken))
              case Ok((node, p)) => r == Ok(node) && currentToken == p
              case Err(e) => r == Err(e)
      decreases |tokens| - currentToken
    {
      if currentToken >= |tokens| {
        return Ok(Null);
      }
      var token := tokens[currentToken];
      if token == "(" {
        currentToken := currentToken + 1;
        var result: seq<Node> := [];
        while currentToken < |tokens| && tokens[currentToken] != ")"
          invariant old(currentToken) < currentToken <= |tokens|
          invariant ParseItems(tokens, old(currentToken) + 1, []) == ParseItems(tokens, currentToken, result)
          decreases |tokens| - currentToken
        {
          var element := ParseExpression();
          if element.Err? {
            return Err(element.error);
          }
          result := result + [element.value];
        }
        if currentToken < |tokens| && tokens[currentToken] == ")" {
          currentToken := currentToken + 1;
        }
        return Ok(List(result));
      } else if token == ")" {
        return Err(UnexpectedClose);
      } else {
        currentToken := currentToken + 1;
        return Ok(ConvertAtom(token));
      }
    }

    /** `compile_to_list` once the file's text is read: tokenize, then parse every top-level node. */
    method CompileToList(source: string) returns (r: Result<seq<Node>, ParseError>)
      modifies this
      ensures tokens == Tokens(source)
      ensures r == Compile(source)
    {
      tokens := Tokenize(source);
      currentToken := 0;
      var expressions: seq<Node> := [];
      while currentToken < |tokens|
        invariant currentToken <= |tokens|
        invariant tokens == Tokens(source)
        invariant Compile(source) == ParseAll(tokens, currentToken, expressions)
        decreases |tokens| - currentToken
      {
        var expr := ParseExpression();
        if expr.Err? {
          return Err(expr.error);
        }
        if expr.value != Null {
          expressions := expressions + [expr.value];
        }
      }
      return Ok(expressions);
    }
  }
}
