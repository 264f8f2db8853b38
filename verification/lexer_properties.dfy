/** What the scan does with each character class, and a round trip: the
    text obtained by spelling out well-formed tokens separated by blanks
    scans back to the same tokens. */
module LexerProperties {
  import opened MachineInt
  import opened Wrappers
  import opened Lexer

  /** Operators: `:=` needs both characters, `<` and `>` take the longest
      of `<>`, `<=`, `>=`, and the other symbol characters stand alone. */
  lemma ScanOperators(src: string, pos: nat, line: nat)
    requires pos < |src|
    ensures var r := ScanOne(src, pos, line);
      var second := if pos + 1 < |src| then src[pos + 1] else ' ';
      && (src[pos] == ':' ==>
            (r.Success? <==> second == '=')
            && (r.Success? ==> r.value == Scan(Some(Symbol(line, ":=")), pos + 2, line))
            && (r.Failure? ==> r.error == UnknownOperator(line)))
      && (src[pos] == '<' ==>
            r == Success(if second == '>' then Scan(Some(Symbol(line, "<>")), pos + 2, line)
                         else if second == '=' then Scan(Some(Symbol(line, "<=")), pos + 2, line)
                         else Scan(Some(Symbol(line, "<")), pos + 1, line)))
      && (src[pos] == '>' ==>
            r == Success(if second == '=' then Scan(Some(Symbol(line, ">=")), pos + 2, line)
                         else Scan(Some(Symbol(line, ">")), pos + 1, line)))
      && (src[pos] in {'.', '=', ';', ',', '+', '-', '*', '(', ')'} ==>
            r == Success(Scan(Some(Symbol(line, [src[pos]])), pos + 1, line)))
      && (src[pos] == '/' && second != '/' ==>
            r == Success(Scan(Some(Symbol(line, "/")), pos + 1, line)))
  {
  }

  /** `//` starts a comment that runs up to, not including, the next line
      feed; it produces no token. */
  lemma ScanComment(src: string, pos: nat, line: nat)
    requires pos + 1 < |src| && src[pos] == '/' && src[pos + 1] == '/'
    ensures ScanOne(src, pos, line).Success?
    ensures var s := ScanOne(src, pos, line).value;
      && s.token.None? && s.line == line && pos + 2 <= s.next
      && (forall i :: pos + 2 <= i < s.next ==> src[i] != '\n')
      && (s.next == |src| || src[s.next] == '\n')
  {
  }

  /** A maximal run of digits is one number token holding its decimal
      value; a value beyond `int` is an error. */
  lemma ScanNumber(src: string, pos: nat, line: nat)
    requires pos < |src| && IsDigit(src[pos])
    ensures var r := ScanOne(src, pos, line);
      var end := RunEnd(src, pos, false);
      && (forall i :: pos <= i < end ==> IsDigit(src[i]))
      && (end == |src| || !IsDigit(src[end]))
      && (r.Failure? <==> DecimalValue(src[pos..end]) > INT32_MAX)
      && (r.Failure? ==> r.error == NumberTooLarge)
      && (r.Success? ==> r.value == Scan(Some(Token(line, "number", DecimalValue(src[pos..end]), "")), end, line))
  {
  }

  /** A letter or underscore starts a maximal run of word characters; the
      word is its own token type when it is a keyword, else an "ident". */
  lemma ScanWord(src: string, pos: nat, line: nat)
    requires pos < |src| && IsIdentifierStart(src[pos])
    ensures var r := ScanOne(src, pos, line);
      var end := RunEnd(src, pos, true);
      var word := src[pos..end];
      && (forall i :: pos <= i < end ==> IsWordChar(src[i]))
      && (end == |src| || !IsWordChar(src[end]))
      && (word in Keywords ==> r == Success(Scan(Some(Token(line, word, 0, "")), end, line)))
      && (word !in Keywords ==> r == Success(Scan(Some(Token(line, "ident", 0, word)), end, line)))
  {
  }

  /** A line feed bumps the line counter; any other character outside the
      symbol, digit and word classes is skipped without a token or error. */
  lemma ScanSkips(src: string, pos: nat, line: nat)
    requires pos < |src|
    requires src[pos] !in SpecialSymbolStarts && !IsDigit(src[pos]) && !IsIdentifierStart(src[pos])
    ensures src[pos] == '\n' ==> ScanOne(src, pos, line) == Success(Scan(None, pos + 1, line + 1))
    ensures src[pos] != '\n' ==> ScanOne(src, pos, line) == Success(Scan(None, pos + 1, line))
  {
  }

  // ---------------------------------------------------------------------
  // Spelling tokens back out

  /** The text of a token: the decimal digits of a number, the name of an
      identifier, and the type itself for keywords and symbols. */
  function Render(t: Token): string
  {
    if t.kind == "number" && t.number >= 0 then DecimalString(t.number)
    else if t.kind == "ident" then t.name
    else t.kind
  }

  /** Tokens spelt out, each followed by a blank. */
  function RenderAll(ts: seq<Token>): string
  {
    if |ts| == 0 then "" else Render(ts[0]) + " " + RenderAll(ts[1..])
  }

  /** The tokens moved to line `line`. */
  function OnLine(ts: seq<Token>, line: nat): seq<Token>
  {
    if |ts| == 0 then [] else [ts[0].(line := line)] + OnLine(ts[1..], line)
  }

  /** Tokens already on `line` stay as they are. */
  lemma {:induction false} OnLineSame(ts: seq<Token>, line: nat)
    requires forall i :: 0 <= i < |ts| ==> ts[i].line == line
    ensures OnLine(ts, line) == ts
  {
    if |ts| > 0 {
      OnLineSame(ts[1..], line);
      assert ts == [ts[0]] + ts[1..];
    }
  }

  lemma KeywordsAreWords(w: string)
    requires w in Keywords
    ensures ValidIdentifier(w) && forall i :: 0 <= i < |w| ==> 'a' <= w[i] <= 'z'
  {
  }

  /** A maximal run is determined by where its characters stop. */
  lemma RunEndAt(src: string, pos: nat, end: nat, word: bool)
    requires pos <= end < |src|
    requires forall i :: pos <= i < end ==> InRun(src[i], word)
    requires !InRun(src[end], word)
    ensures RunEnd(src, pos, word) == end
  {
  }

  /** A run spelt out and followed by a blank ends at the blank. */
  lemma SpeltRun(src: string, pos: nat, w: string, word: bool)
    requires SpeltAt(src, pos, w) && forall i :: 0 <= i < |w| ==> InRun(w[i], word)
    ensures RunEnd(src, pos, word) == pos + |w|
    ensures src[pos..pos + |w|] == w
  {
    forall i | pos <= i < pos + |w| ensures InRun(src[i], word) {
      assert src[pos + (i - pos)] == w[i - pos];
    }
    RunEndAt(src, pos, pos + |w|, word);
  }

  /** The characters of `src` from `pos` spell `w`, followed by a blank. */
  predicate SpeltAt(src: string, pos: nat, w: string)
  {
    && pos + |w| < |src|
    && (forall i :: 0 <= i < |w| ==> src[pos + i] == w[i])
    && src[pos + |w|] == ' '
  }

  /** A well-formed token spelt out and followed by a blank scans back to
      itself, ending just before the blank. */
  lemma ScanRendered(src: string, pos: nat, t: Token, line: nat)
    requires WellFormed(t) && SpeltAt(src, pos, Render(t))
    ensures |Render(t)| > 0
    ensures ScanOne(src, pos, line) == Success(Scan(Some(t.(line := line)), pos + |Render(t)|, line))
  {
    if t.kind == "number" {
      ScanRenderedNumber(src, pos, t, line);
    } else if t.kind == "ident" || t.kind in Keywords {
      ScanRenderedWord(src, pos, t, line);
    } else {
      ScanSymbol(src, pos, t, line);
    }
  }

  lemma ScanRenderedNumber(src: string, pos: nat, t: Token, line: nat)
    requires WellFormed(t) && t.kind == "number" && SpeltAt(src, pos, Render(t))
    ensures |Render(t)| > 0
    ensures ScanOne(src, pos, line) == Success(Scan(Some(t.(line := line)), pos + |Render(t)|, line))
  {
    var w := DecimalString(t.number);
    assert Render(t) == w;
    DecimalRoundTrip(t.number);
    SpeltRun(src, pos, w, false);
    assert DecimalValue(src[pos..pos + |w|]) == t.number <= INT32_MAX;
    assert src[pos] == w[0];
    ScanNumber(src, pos, line);
    assert t.(line := line) == Token(line, "number", t.number, "");
  }

  lemma ScanRenderedWord(src: string, pos: nat, t: Token, line: nat)
    requires WellFormed(t) && (t.kind == "ident" || t.kind in Keywords) && SpeltAt(src, pos, Render(t))
    ensures |Render(t)| > 0
    ensures ScanOne(src, pos, line) == Success(Scan(Some(t.(line := line)), pos + |Render(t)|, line))
  {
    var w := Render(t);
    if t.kind in Keywords {
      KeywordsAreWords(t.kind);
    }
    assert ValidIdentifier(w);
    SpeltRun(src, pos, w, true);
    assert src[pos] == w[0];
    ScanWord(src, pos, line);
    if t.kind in Keywords {
      assert t.(line := line) == Symbol(line, w);
    } else {
      assert t.(line := line) == Token(line, "ident", 0, w);
    }
  }

  lemma ScanSymbol(src: string, pos: nat, t: Token, line: nat)
    requires t.kind in Symbols && t.number == 0 && t.name == ""
    requires SpeltAt(src, pos, t.kind)
    ensures ScanOne(src, pos, line) == Success(Scan(Some(t.(line := line)), pos + |t.kind|, line))
  {
    var k := t.kind;
    assert t.(line := line) == Symbol(line, k);
    assert src[pos] == k[0];
    if |k| == 2 {
      assert src[pos + 1] == k[1];
    } else {
      assert src[pos + 1] == ' ';
    }
  }

  /** A suffix that starts with a word and a blank spells the word there. */
  lemma SpeltFromSuffix(src: string, pos: nat, w: string, rest: string)
    requires pos <= |src| && src[pos..] == w + " " + rest
    ensures SpeltAt(src, pos, w)
    ensures src[pos + |w| + 1..] == rest
  {
    forall i | 0 <= i < |w| ensures src[pos + i] == w[i] {
      assert src[pos..][i] == src[pos + i];
    }
    assert src[pos..][|w|] == src[pos + |w|];
    assert src[pos + |w| + 1..] == src[pos..][|w| + 1..];
  }

  /** One unfolding of the scan at a token: the token in front of the scan
      of the rest. */
  lemma LexFromToken(src: string, pos: nat, line: nat, t: Token, next: nat, rest: seq<Token>)
    requires pos < |src| && ScanOne(src, pos, line) == Success(Scan(Some(t), next, line))
    requires next <= |src| && LexFrom(src, next, line) == Success(rest)
    ensures LexFrom(src, pos, line) == Success([t] + rest)
  {
  }

  /** One unfolding of the scan at a character that yields no token. */
  lemma LexFromSkip(src: string, pos: nat, line: nat, next: nat, rest: seq<Token>)
    requires pos < |src| && ScanOne(src, pos, line) == Success(Scan(None, next, line))
    requires next <= |src| && LexFrom(src, next, line) == Success(rest)
    ensures LexFrom(src, pos, line) == Success(rest)
  {
  }

  /** A blank is skipped without a token. */
  lemma ScanBlank(src: string, pos: nat, line: nat)
    requires pos < |src| && src[pos] == ' '
    ensures ScanOne(src, pos, line) == Success(Scan(None, pos + 1, line))
  {
  }

  /** The text after the first spelt-out token and its blank is the
      spelling of the remaining tokens. */
  lemma RenderedTail(src: string, pos: nat, ts: seq<Token>)
    requires |ts| > 0 && pos <= |src| && src[pos..] == RenderAll(ts)
    ensures SpeltAt(src, pos, Render(ts[0]))
    ensures pos + |Render(ts[0])| + 1 <= |src|
    ensures src[pos + |Render(ts[0])| + 1..] == RenderAll(ts[1..])
  {
    SpeltFromSuffix(src, pos, Render(ts[0]), RenderAll(ts[1..]));
  }

  /** The scan of a spelt-out token, its blank, and a text that scans to
      `rest`. */
  lemma LexRenderedCons(src: string, pos: nat, t: Token, line: nat, rest: seq<Token>)
    requires WellFormed(t) && SpeltAt(src, pos, Render(t))
    requires LexFrom(src, pos + |Render(t)| + 1, line) == Success(rest)
    ensures LexFrom(src, pos, line) == Success([t.(line := line)] + rest)
  {
    var n := |Render(t)|;
    ScanRendered(src, pos, t, line);
    ScanBlank(src, pos + n, line);
    LexFromSkip(src, pos + n, line, pos + n + 1, rest);
    LexFromToken(src, pos, line, t.(line := line), pos + n, rest);
  }

  /** Every token of `ts` is well formed, stated one token at a time. */
  predicate AllWellFormed(ts: seq<Token>)
  {
    |ts| == 0 || (WellFormed(ts[0]) && AllWellFormed(ts[1..]))
  }

  lemma {:induction false} AllWellFormedEach(ts: seq<Token>)
    requires forall i :: 0 <= i < |ts| ==> WellFormed(ts[i])
    ensures AllWellFormed(ts)
  {
    if |ts| > 0 {
      assert forall i :: 0 <= i < |ts[1..]| ==> ts[1..][i] == ts[i + 1];
      AllWellFormedEach(ts[1..]);
    }
  }

  /** From `pos` on, `src` spells out `ts`, each token followed by a blank,
      and nothing else. */
  predicate SpeltFrom(src: string, pos: nat, ts: seq<Token>)
    decreases |ts|
  {
    if |ts| == 0 then pos == |src|
    else SpeltAt(src, pos, Render(ts[0])) && SpeltFrom(src, pos + |Render(ts[0])| + 1, ts[1..])
  }

  /** The spelt-out text of `ts` spells `ts` one token at a time. */
  lemma {:induction false} SpeltFromRendered(src: string, pos: nat, ts: seq<Token>)
    requires pos <= |src| && src[pos..] == RenderAll(ts)
    ensures SpeltFrom(src, pos, ts)
    decreases |ts|, 1
  {
    if |ts| > 0 {
      RenderedTail(src, pos, ts);
      SpeltFromStep(src, pos, ts);
    } else {
      assert |src[pos..]| == 0;
    }
  }

  /** The first token spelt out in front of the spelt-out rest. */
  lemma {:induction false} SpeltFromStep(src: string, pos: nat, ts: seq<Token>)
    requires |ts| > 0 && SpeltAt(src, pos, Render(ts[0]))
    requires pos + |Render(ts[0])| + 1 <= |src| && src[pos + |Render(ts[0])| + 1..] == RenderAll(ts[1..])
    ensures SpeltFrom(src, pos, ts)
    decreases |ts|, 0
  {
    SpeltFromRendered(src, pos + |Render(ts[0])| + 1, ts[1..]);
    SpeltFromCons(src, pos, ts);
  }

  /** One unfolding of `SpeltFrom`. */
  lemma SpeltFromCons(src: string, pos: nat, ts: seq<Token>)
    requires |ts| > 0 && SpeltAt(src, pos, Render(ts[0]))
    requires SpeltFrom(src, pos + |Render(ts[0])| + 1, ts[1..])
    ensures SpeltFrom(src, pos, ts)
  {
  }

  /** Scanning the spelt-out text of well-formed tokens gives them back,
      every one on the starting line. */
  lemma {:induction false} LexRendered(src: string, pos: nat, ts: seq<Token>, line: nat)
    requires pos <= |src| && SpeltFrom(src, pos, ts)
    requires AllWellFormed(ts)
    ensures LexFrom(src, pos, line) == Success(OnLine(ts, line))
    decreases |ts|
  {
    if |ts| > 0 {
      LexRendered(src, pos + |Render(ts[0])| + 1, ts[1..], line);
      LexRenderedCons(src, pos, ts[0], line, OnLine(ts[1..], line));
    }
  }

  /** The round trip on a whole text: tokens on line 1, spelt out with
      blanks, scan back to exactly themselves. */
  lemma LexRoundTrip(ts: seq<Token>)
    requires forall i :: 0 <= i < |ts| ==> WellFormed(ts[i]) && ts[i].line == 1
    ensures Lex(RenderAll(ts)) == Success(ts)
  {
    var src := RenderAll(ts);
    assert src[0..] == src;
    AllWellFormedEach(ts);
    SpeltFromRendered(src, 0, ts);
    LexRendered(src, 0, ts, 1);
    OnLineSame(ts, 1);
  }
}
