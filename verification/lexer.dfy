/** The lexical analyser: a character-level scan of the source text into a
    line-tagged token sequence. The token type is a string, as in the
    implementation: a keyword or symbol stands for itself, and identifiers and
    numbers have the types "ident" and "number" with their name or value. */
module Lexer {
  import opened MachineInt
  import opened Wrappers

  /** `STerminator`: the line a token starts on, its type, and its value as
      a number or name (0 and "" where they do not apply). */
  datatype Token = Token(line: nat, kind: string, number: int, name: string)

  datatype LexError =
    | UnknownOperator(line: nat)  // a ':' not followed by '='
    | NumberTooLarge              // `std::stoi` throws on a value above INT32_MAX

  /** The characters that start an operator or separator. */
  const SpecialSymbolStarts: set<char> := {'.', '=', ';', ',', ':', '<', '>', '+', '-', '*', '/', '(', ')'}

  const Keywords: set<string> := {"const", "var", "procedure", "call", "begin", "end", "if", "then", "while", "do", "odd"}

  /** Every operator or separator token the scan can produce. */
  const Symbols: set<string> := {".", "=", ";", ",", ":=", "<", "<=", "<>", ">", ">=", "+", "-", "*", "/", "(", ")"}

  predicate IsDigit(c: char) { '0' <= c <= '9' }

  predicate IsIdentifierStart(c: char) { c == '_' || 'a' <= c <= 'z' || 'A' <= c <= 'Z' }

  predicate IsWordChar(c: char) { IsIdentifierStart(c) || IsDigit(c) }

  /** A character of a digit run (`word` false) or of a word run. */
  predicate InRun(c: char, word: bool) { if word then IsWordChar(c) else IsDigit(c) }

  predicate ValidIdentifier(w: string)
  {
    |w| > 0 && IsIdentifierStart(w[0]) && forall i :: 0 <= i < |w| ==> IsWordChar(w[i])
  }

  /** The tokens a scan can emit: symbols and keywords carry no value,
      numbers fit in an `int`, identifiers are well-formed non-keywords. */
  predicate WellFormed(t: Token)
  {
    || (t.kind in Symbols && t.number == 0 && t.name == "")
    || (t.kind in Keywords && t.number == 0 && t.name == "")
    || (t.kind == "number" && 0 <= t.number <= INT32_MAX && t.name == "")
    || (t.kind == "ident" && ValidIdentifier(t.name) && t.name !in Keywords && t.number == 0)
  }

  function Symbol(line: nat, kind: string): Token
  {
    Token(line, kind, 0, "")
  }

  /** The end of the maximal run of digits (or word characters) from `pos`. */
  function RunEnd(src: string, pos: nat, word: bool): (end: nat)
    requires pos <= |src|
    ensures pos <= end <= |src|
    ensures forall i :: pos <= i < end ==> InRun(src[i], word)
    ensures end == |src| || !InRun(src[end], word)
    decreases |src| - pos
  {
    if pos < |src| && InRun(src[pos], word) then RunEnd(src, pos + 1, word) else pos
  }

  /** The position of the next line feed at or after `pos`, or the end. */
  function CommentEnd(src: string, pos: nat): (end: nat)
    requires pos <= |src|
    ensures pos <= end <= |src|
    ensures forall i :: pos <= i < end ==> src[i] != '\n'
    ensures end == |src| || src[end] == '\n'
    decreases |src| - pos
  {
    if pos < |src| && src[pos] != '\n' then CommentEnd(src, pos + 1) else pos
  }

  function DigitValue(c: char): nat
  {
    if IsDigit(c) then (c - '0') as nat else 0
  }

  /** The decimal value of a digit string, most significant digit first. */
  function DecimalValue(digits: string): nat
  {
    if |digits| == 0 then 0
    else DecimalValue(digits[..|digits| - 1]) * 10 + DigitValue(digits[|digits| - 1])
  }

  /** The shortest decimal spelling of `n`. */
  function DecimalString(n: nat): (s: string)
    ensures |s| > 0 && forall i :: 0 <= i < |s| ==> IsDigit(s[i])
  {
    if n < 10 then [('0' as int + n) as char]
    else DecimalString(n / 10) + [('0' as int + n % 10) as char]
  }

  lemma {:induction false} DecimalRoundTrip(n: nat)
    ensures DecimalValue(DecimalString(n)) == n
  {
    var s := DecimalString(n);
    if n >= 10 {
      DecimalRoundTrip(n / 10);
      assert s[..|s| - 1] == DecimalString(n / 10);
    }
  }

  /** Where one iteration of the scanning loop leaves the scan. */
  datatype Scan = Scan(token: Option<Token>, next: nat, line: nat)

  /** One iteration of the loop in `LexicalAnalyze`, at position `pos`. */
  function ScanOne(src: string, pos: nat, line: nat): (r: Result<Scan, LexError>)
    requires pos < |src|
    ensures r.Success? ==> pos < r.value.next <= |src|
    ensures r.Success? ==> r.value.line == line + (if src[pos] == '\n' then 1 else 0)
    ensures r.Success? && r.value.token.Some? ==>
      r.value.token.value.line == line && WellFormed(r.value.token.value)
  {
    var c := src[pos];
    var hasNext := pos + 1 < |src|;
    if c in SpecialSymbolStarts then
      if c == ':' then
        if hasNext && src[pos + 1] == '=' then Success(Scan(Some(Symbol(line, ":=")), pos + 2, line))
        else Failure(UnknownOperator(line))
      else if c == '<' then
        if hasNext && src[pos + 1] == '>' then Success(Scan(Some(Symbol(line, "<>")), pos + 2, line))
        else if hasNext && src[pos + 1] == '=' then Success(Scan(Some(Symbol(line, "<=")), pos + 2, line))
        else Success(Scan(Some(Symbol(line, "<")), pos + 1, line))
      else if c == '>' then
        if hasNext && src[pos + 1] == '=' then Success(Scan(Some(Symbol(line, ">=")), pos + 2, line))
        else Success(Scan(Some(Symbol(line, ">")), pos + 1, line))
      else if c == '/' then
        if hasNext && src[pos + 1] == '/' then Success(Scan(None, CommentEnd(src, pos + 2), line))
        else Success(Scan(Some(Symbol(line, "/")), pos + 1, line))
      else
        SingleCharSymbol(c);
        Success(Scan(Some(Symbol(line, [c])), pos + 1, line))
    else if IsDigit(c) then
      var end := RunEnd(src, pos, false);
      var value := DecimalValue(src[pos..end]);
      if value > INT32_MAX then Failure(NumberTooLarge)
      else Success(Scan(Some(Token(line, "number", value, "")), end, line))
    else if IsIdentifierStart(c) then
      var end := RunEnd(src, pos, true);
      var word := src[pos..end];
      if word in Keywords then Success(Scan(Some(Symbol(line, word)), end, line))
      else Success(Scan(Some(Token(line, "ident", 0, word)), end, line))
    else if c == '\n' then Success(Scan(None, pos + 1, line + 1))
    else Success(Scan(None, pos + 1, line))
  }

  lemma SingleCharSymbol(c: char)
    requires c in SpecialSymbolStarts && c != ':' && c != '<' && c != '>' && c != '/'
    ensures [c] in Symbols
  {
  }

  /** The scan from position `pos` on, starting on line `line`. */
  function LexFrom(src: string, pos: nat, line: nat): (r: Result<seq<Token>, LexError>)
    requires pos <= |src|
    ensures r.Success? ==> forall i :: 0 <= i < |r.value| ==> WellFormed(r.value[i])
    ensures r.Success? ==> forall i :: 0 <= i < |r.value| ==> line <= r.value[i].line
    ensures r.Success? ==> forall i, j :: 0 <= i <= j < |r.value| ==> r.value[i].line <= r.value[j].line
    decreases |src| - pos
  {
    if pos == |src| then Success([])
    else
      var scan :- ScanOne(src, pos, line);
      var rest :- LexFrom(src, scan.next, scan.line);
      match scan.token
      case None => Success(rest)
      case Some(t) => Success([t] + rest)
  }

  /** `LexicalAnalyze`: the whole text, starting on line 1. */
  function Lex(src: string): Result<seq<Token>, LexError>
  {
    LexFrom(src, 0, 1)
  }
}
