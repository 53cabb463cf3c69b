/** The lexer `gettok` (droplet.cpp:23-75).

    The C function keeps one character of lookahead in the static
    `lastChar`, pulls characters with `getchar`, and writes the globals
    `IdStr` and `numVal`.  Here the input is a finite string; `getchar`
    returns `EOF` (-1) forever once it is used up.

    The state of the lexer between calls is described by `Rest()`: the
    lookahead character followed by the characters not yet read (empty once
    `lastChar` is `EOF`).  One call of `gettok` is a function of that stream,
    `Lex`, and the method `Lexer.GetTok` is proved to follow it.
 */
module Lexing {
  import opened Tokens

  const EOF := -1

  // Character classes of the C locale, on the `int` that `getchar` returns.
  // Codes above 255 never come from `getchar`; they belong to no class.

  predicate IsSpace(c: int) { c == 32 || 9 <= c <= 13 }
  predicate IsAlpha(c: int) { 65 <= c <= 90 || 97 <= c <= 122 }
  predicate IsDigit(c: int) { 48 <= c <= 57 }
  predicate IsAlnum(c: int) { IsAlpha(c) || IsDigit(c) }

  /** The runs that `gettok` consumes greedily. */
  datatype Run =
    | Blank        // whitespace before a token (line 26)
    | Word         // the rest of an identifier (line 32)
    | Numeral      // digits and dots of a number (line 51)
    | CommentBody  // anything up to an end of line (line 61)

  predicate InRun(c: int, k: Run) {
    match k
    case Blank => IsSpace(c)
    case Word => IsAlnum(c)
    case Numeral => IsDigit(c) || c == '.' as int
    case CommentBody => c != '\n' as int && c != '\r' as int
  }

  /** Length of the longest prefix of `s` whose characters are all in run `k`. */
  function Span(s: string, k: Run): (n: nat)
    ensures n <= |s|
    ensures forall i :: 0 <= i < n ==> InRun(s[i] as int, k)
    ensures n < |s| ==> !InRun(s[n] as int, k)
  {
    if s != [] && InRun(s[0] as int, k) then 1 + Span(s[1..], k) else 0
  }

  /** What is left of `s` once the longest run of `k` is consumed. */
  function Skip(s: string, k: Run): string {
    s[Span(s, k)..]
  }

  /** The code `gettok` returns for an identifier-shaped word (lines 36-42). */
  function KeywordCode(word: string): (code: int)
    ensures WritesIdStr(code)
    ensures code == TokDef <==> word == "droplet"
    ensures code == TokExtern <==> word == "extern"
  {
    if word == "droplet" then TokDef
    else if word == "extern" then TokExtern
    else TokIdentifier
  }

  /** Whether `gettok` writes `IdStr` when it returns `code`. */
  predicate WritesIdStr(code: int) {
    code == TokDef || code == TokExtern || code == TokIdentifier
  }

  /** The result of one call of `gettok` on the stream `s`: the code it
      returns, the text it wrote into `IdStr` or `numVal` (empty when it
      writes neither), and the stream left behind.  `FellOff` is a call that
      runs off the end of the function without a `return` (line 75), which
      is undefined behaviour in C. */
  datatype LexStep =
    | Lexed(code: int, text: string, rest: string)
    | FellOff

  /** One call of `gettok` on the stream `s` (lookahead character first):
      blanks are skipped (lines 26-28), then the token is read. */
  function Lex(s: string): (r: LexStep)
    ensures r.Lexed? ==> |r.rest| < |s| && r.rest == s[|s| - |r.rest|..]
    decreases |s|, 1
  {
    LexToken(Skip(s, Blank))
  }

  /** The rest of a call of `gettok` once `lastChar` is not a blank
      (lines 30-75). */
  function LexToken(t: string): (r: LexStep)
    ensures r.Lexed? ==> |r.rest| < |t| && r.rest == t[|t| - |r.rest|..]
    decreases |t|, 0
  {
    if t == [] then FellOff
    else if IsAlpha(t[0] as int) then
      var n := Span(t, Word);
      Lexed(KeywordCode(t[..n]), t[..n], t[n..])
    else if IsDigit(t[0] as int) || t[0] == '.' then
      var n := Span(t, Numeral);
      Lexed(TokNumber, t[..n], t[n..])
    else if t[0] == '#' then
      var u := Skip(t[1..], CommentBody);
      if u == [] then Lexed(TokEof, "", [])
      else Lex(u)
    else FellOff
  }

  /** Consuming one character of a run does not change where the run ends. */
  lemma SkipStep(s: string, k: Run)
    requires s != [] && InRun(s[0] as int, k)
    ensures Skip(s, k) == Skip(s[1..], k)
  {
    assert Span(s, k) == 1 + Span(s[1..], k);
  }

  /** A run already consumed up to a character outside it is the whole run. */
  lemma {:induction false} SpanOfSplit(p: string, q: string, k: Run)
    requires forall i :: 0 <= i < |p| ==> InRun(p[i] as int, k)
    requires q == [] || !InRun(q[0] as int, k)
    ensures Span(p + q, k) == |p|
  {
    if p != [] {
      assert (p + q)[1..] == p[1..] + q;
      SpanOfSplit(p[1..], q, k);
    }
  }

  /** The maximal run is the only prefix that is all in the run and is not
      followed by another character of it. */
  lemma SpanUnique(s: string, k: Run, n: nat)
    requires n <= |s|
    requires forall i :: 0 <= i < n ==> InRun(s[i] as int, k)
    requires n < |s| ==> !InRun(s[n] as int, k)
    ensures Span(s, k) == n
  {
    assert s == s[..n] + s[n..];
    SpanOfSplit(s[..n], s[n..], k);
  }

  /** Consuming a prefix of whitespace does not change what is lexed. */
  lemma {:induction false} SkipBlankPrefix(w: string, s: string)
    requires forall i :: 0 <= i < |w| ==> IsSpace(w[i] as int)
    ensures Skip(w + s, Blank) == Skip(s, Blank)
  {
    if w == [] {
      assert w + s == s;
    } else {
      assert (w + s)[1..] == w[1..] + s;
      SkipStep(w + s, Blank);
      SkipBlankPrefix(w[1..], s);
    }
  }

  /** Whitespace before a token is skipped: a prefix of blanks changes
      nothing about the call of `gettok` (lines 26-28). */
  lemma LexSkipsBlanks(w: string, s: string)
    requires forall i :: 0 <= i < |w| ==> IsSpace(w[i] as int)
    ensures Lex(w + s) == Lex(s)
  {
    SkipBlankPrefix(w, s);
  }

  /** Blanks never enter a lexeme: the text written into `IdStr` or
      `numVal` holds no whitespace character. */
  lemma {:induction false} LexemeHasNoBlank(s: string)
    ensures Lex(s).Lexed? ==> forall i :: 0 <= i < |Lex(s).text| ==> !IsSpace(Lex(s).text[i] as int)
    decreases |s|
  {
    var t := Skip(s, Blank);
    if t == [] {
    } else if IsAlpha(t[0] as int) {
      RunHasNoBlank(t, Word);
    } else if IsDigit(t[0] as int) || t[0] == '.' {
      RunHasNoBlank(t, Numeral);
    } else if t[0] == '#' {
      var u := Skip(t[1..], CommentBody);
      if u != [] {
        LexemeHasNoBlank(u);
      }
    }
  }

  /** The words and numerals `gettok` reads hold no whitespace. */
  lemma RunHasNoBlank(t: string, k: Run)
    requires k == Word || k == Numeral
    ensures forall i :: 0 <= i < |t[..Span(t, k)]| ==> !IsSpace(t[..Span(t, k)][i] as int)
  {
    var n := Span(t, k);
    forall i | 0 <= i < n
      ensures !IsSpace(t[..n][i] as int)
    {
      assert t[..n][i] == t[i] && InRun(t[i] as int, k);
    }
  }

  /** A stream whose first character is not a blank is lexed as it stands. */
  lemma LexNoBlank(t: string)
    requires t == [] || !IsSpace(t[0] as int)
    ensures Lex(t) == LexToken(t)
  {
    assert Span(t, Blank) == 0;
  }

  /** Identifiers and keywords (lines 30-43): when the first non-blank
      character is a letter, the word is the maximal alphanumeric run that
      starts there, it is returned as `tok_def` exactly when it is
      "droplet", as `tok_extern` exactly when it is "extern", and as
      `tok_identifier` otherwise; the character after the run stays as
      lookahead. */
  lemma IdentifierToken(w: string, word: string, s: string)
    requires forall i :: 0 <= i < |w| ==> IsSpace(w[i] as int)
    requires word != [] && IsAlpha(word[0] as int)
    requires forall i :: 0 <= i < |word| ==> IsAlnum(word[i] as int)
    requires s == [] || !IsAlnum(s[0] as int)
    ensures Lex(w + word + s).Lexed?
    ensures Lex(w + word + s).text == word && Lex(w + word + s).rest == s
    ensures Lex(w + word + s).code == TokDef <==> word == "droplet"
    ensures Lex(w + word + s).code == TokExtern <==> word == "extern"
    ensures Lex(w + word + s).code == TokIdentifier <==> word != "droplet" && word != "extern"
  {
    var t := word + s;
    Regroup(w, word, s, [], []);
    LexSkipsBlanks(w, t);
    LexNoBlank(t);
    LexWordStep(t, word, s);
    assert Lex(w + word + s) == Lexed(KeywordCode(word), word, s);
  }

  /** Numbers (lines 45-55): a digit or `.` starts the maximal run of digits
      and dots; the run is the literal, however many dots it holds, and the
      character after it stays as lookahead. */
  lemma NumberToken(w: string, numeral: string, s: string)
    requires forall i :: 0 <= i < |w| ==> IsSpace(w[i] as int)
    requires numeral != []
    requires forall i :: 0 <= i < |numeral| ==> InRun(numeral[i] as int, Numeral)
    requires s == [] || !InRun(s[0] as int, Numeral)
    ensures Lex(w + numeral + s) == Lexed(TokNumber, numeral, s)
  {
    var t := numeral + s;
    Regroup(w, numeral, s, [], []);
    LexSkipsBlanks(w, t);
    LexNoBlank(t);
    LexNumeralStep(t, numeral, s);
  }

  /** A literal with several dots is accepted as it stands. */
  lemma MultiDotNumber(s: string)
    requires s == [] || !InRun(s[0] as int, Numeral)
    ensures Lex("1.2.3" + s) == Lexed(TokNumber, "1.2.3", s)
  {
    NumberToken([], "1.2.3", s);
    assert [] + "1.2.3" + s == "1.2.3" + s;
  }

  /** A `#` makes `gettok` consume the rest of the line and then either
      return `tok_eof` or start over (lines 57-69). */
  lemma CommentStep(t: string)
    requires t != [] && t[0] == '#'
    ensures Lex(t) == LexToken(t)
    ensures LexToken(t) == if Skip(t[1..], CommentBody) == [] then Lexed(TokEof, "", [])
                           else Lex(Skip(t[1..], CommentBody))
  {
    LexNoBlank(t);
  }

  /** A comment body is consumed up to the first end of line. */
  lemma CommentBodyEnds(body: string, s: string)
    requires forall i :: 0 <= i < |body| ==> InRun(body[i] as int, CommentBody)
    requires s == [] || !InRun(s[0] as int, CommentBody)
    ensures Skip(body + s, CommentBody) == s
  {
    SpanOfSplit(body, s, CommentBody);
    assert (body + s)[|body|..] == s;
  }

  /** Comments (lines 57-65) are transparent: a `#` line comment ended by a
      newline or carriage return is skipped and lexing starts again after
      it. */
  lemma CommentSkipped(w: string, body: string, eol: char, s: string)
    requires forall i :: 0 <= i < |w| ==> IsSpace(w[i] as int)
    requires forall i :: 0 <= i < |body| ==> InRun(body[i] as int, CommentBody)
    requires eol == '\n' || eol == '\r'
    ensures Lex(w + ['#'] + body + [eol] + s) == Lex(s)
  {
    var t := ['#'] + (body + ([eol] + s));
    Regroup(w, ['#'], body, [eol], s);
    assert t[1..] == body + ([eol] + s);
    LexSkipsBlanks(w, t);
    CommentBodyEnds(body, [eol] + s);
    CommentStep(t);
    LexSkipsBlanks([eol], s);
  }

  /** A comment that runs to the end of the input yields `tok_eof` and
      leaves `lastChar` at `EOF` (lines 63-69). */
  lemma CommentAtEnd(w: string, body: string)
    requires forall i :: 0 <= i < |w| ==> IsSpace(w[i] as int)
    requires forall i :: 0 <= i < |body| ==> InRun(body[i] as int, CommentBody)
    ensures Lex(w + ['#'] + body) == Lexed(TokEof, "", [])
  {
    var t := ['#'] + (body + []);
    assert w + ['#'] + body == w + t;
    LexSkipsBlanks(w, t);
    CommentBodyEnds(body, []);
    CommentStep(t);
  }

  /** `gettok` never returns a character code: every token it returns is one
      of the negative enumerators, so the statements after line 70 that
      would return an operator character never run. */
  lemma {:induction false} NoCharacterTokens(s: string)
    ensures Lex(s).Lexed? ==> TokNumber <= Lex(s).code <= TokEof
    decreases |s|
  {
    var t := Skip(s, Blank);
    if t != [] && !IsAlpha(t[0] as int) && !IsDigit(t[0] as int) && t[0] != '.' && t[0] == '#' {
      var u := Skip(t[1..], CommentBody);
      if u != [] {
        NoCharacterTokens(u);
        assert Lex(s) == Lex(u);
      }
    } else {
      assert Lex(s) == LexToken(t);
    }
  }

  /** `gettok` runs off its end when, after the blanks it skips, it meets
      the end of the input or a character that starts no token (line 75).
      In particular at the end of the input outside a comment it does not
      return `tok_eof`. */
  lemma FallsOffAtEndOrOther(w: string, s: string)
    requires forall i :: 0 <= i < |w| ==> IsSpace(w[i] as int)
    requires s == [] || !(IsAlnum(s[0] as int) || s[0] == '.' || s[0] == '#' || IsSpace(s[0] as int))
    ensures Lex(w + s) == FellOff
  {
    LexSkipsBlanks(w, s);
    LexNoBlank(s);
  }

  /** `tok_eof` is only returned when the input is used up, and after it the
      next call runs off the end of `gettok`. */
  lemma {:induction false} EofIsLast(s: string)
    ensures Lex(s).Lexed? && Lex(s).code == TokEof ==> Lex(s).rest == [] && Lex(Lex(s).rest) == FellOff
    decreases |s|
  {
    var t := Skip(s, Blank);
    if t != [] && !IsAlpha(t[0] as int) && !IsDigit(t[0] as int) && t[0] != '.' && t[0] == '#' {
      var u := Skip(t[1..], CommentBody);
      if u != [] {
        EofIsLast(u);
      }
    }
    LexNoBlank([]);
  }

  /** The token sequence successive calls of `gettok` return on the stream
      `s`, up to the first call that runs off the end of the function;
      `idStr` and `numText` are the globals before the first call. */
  function TokenStream(s: string, idStr: string, numText: string): (ts: seq<Token>)
    ensures |ts| <= |s|
    decreases |s|
  {
    match Lex(s)
    case FellOff => []
    case Lexed(code, text, rest) =>
      NoCharacterTokens(s);
      var idStr' := if WritesIdStr(code) then text else idStr;
      var numText' := if code == TokNumber then text else numText;
      [TokenOf(code, idStr', numText')] + TokenStream(rest, idStr', numText')
  }

  /** A token sequence with no character token, in which `tok_eof` can
      only be the last token. */
  predicate NoCharactersEofLast(ts: seq<Token>) {
    (forall i :: 0 <= i < |ts| ==> !ts[i].Char?) &&
    (forall i :: 0 <= i < |ts| - 1 ==> !ts[i].Eof?)
  }

  /** No token the lexer produces is a character, so a parser fed by this
      lexer never sees `(`, `)` or `,`; and `tok_eof` can only be the last
      token. */
  lemma {:induction false} StreamHasNoCharacters(s: string, idStr: string, numText: string)
    ensures NoCharactersEofLast(TokenStream(s, idStr, numText))
    decreases |s|
  {
    match Lex(s)
    case FellOff =>
    case Lexed(code, text, rest) =>
      NoCharacterTokens(s);
      EofIsLast(s);
      var idStr' := if WritesIdStr(code) then text else idStr;
      var numText' := if code == TokNumber then text else numText;
      var tok := TokenOf(code, idStr', numText');
      var tail := TokenStream(rest, idStr', numText');
      assert tok.Eof? ==> tail == [];
      StreamHasNoCharacters(rest, idStr', numText');
      NoCharactersCons(tok, tail);
  }

  /** A token that is not a character in front of a sequence with no
      character token, and not `tok_eof` unless the sequence is empty. */
  lemma NoCharactersCons(tok: Token, tail: seq<Token>)
    requires !tok.Char? && (tok.Eof? ==> tail == []) && NoCharactersEofLast(tail)
    ensures NoCharactersEofLast([tok] + tail)
  {
    var ts := [tok] + tail;
    forall i | 0 < i < |ts|
      ensures ts[i] == tail[i - 1]
    {
    }
  }

  /** Concatenation regrouped to the right. */
  lemma Regroup(a: string, b: string, c: string, d: string, e: string)
    ensures a + b + c + d + e == a + (b + (c + (d + e)))
    ensures a + b + c == a + (b + c)
  {
  }

  /** A suffix of a stream is a slice of it followed by the rest. */
  lemma SliceSplit(s: string, i: nat, j: nat)
    requires i <= j <= |s|
    ensures s[i..] == s[i..j] + s[j..]
  {
  }

  /** The call when `lastChar` starts an identifier (lines 30-43). */
  lemma LexWordStep(t: string, word: string, after: string)
    requires t == word + after && word != [] && IsAlpha(word[0] as int)
    requires forall i :: 0 <= i < |word| ==> IsAlnum(word[i] as int)
    requires after == [] || !IsAlnum(after[0] as int)
    ensures LexToken(t) == Lexed(KeywordCode(word), word, after)
  {
    SpanOfSplit(word, after, Word);
    assert t[..|word|] == word && t[|word|..] == after;
  }

  /** The call when `lastChar` starts a number (lines 45-55). */
  lemma LexNumeralStep(t: string, numeral: string, after: string)
    requires t == numeral + after && numeral != [] && !IsAlpha(numeral[0] as int)
    requires forall i :: 0 <= i < |numeral| ==> InRun(numeral[i] as int, Numeral)
    requires after == [] || !InRun(after[0] as int, Numeral)
    ensures LexToken(t) == Lexed(TokNumber, numeral, after)
  {
    SpanOfSplit(numeral, after, Numeral);
    assert t[..|numeral|] == numeral && t[|numeral|..] == after;
  }

  /** The lexer's state.  `stream` is the sequence of values `lastChar`
      takes in turn: the blank it is initialised with, then the input;
      `pos` is the position of `lastChar` in it, and `|stream|` stands for
      `EOF`.  `idStr` and `numText` are the globals `gettok` writes. */
  class Lexer {
    const stream: string
    var pos: nat
    var lastChar: int
    var idStr: string
    var numText: string  // the literal handed to `strtod`; stands for `numVal`

    ghost predicate Valid()
      reads this`pos, this`lastChar
    {
      pos <= |stream| && lastChar == if pos < |stream| then stream[pos] as int else EOF
    }

    /** The stream `gettok` reads from: `lastChar`, then the unread input. */
    ghost function Rest(): string
      reads this`pos
      requires pos <= |stream|
    {
      stream[pos..]
    }

    /** The state at program start: `static int lastChar = ' '`, with the
        characters `getchar` will return after it. */
    constructor (input: string)
      ensures Valid() && stream == " " + input
      ensures Rest() == " " + input && idStr == "" && numText == ""
    {
      stream, pos, lastChar := " " + input, 0, ' ' as int;
      idStr, numText := "", "";
    }

    /** `lastChar = getchar()`: the next character, or `EOF` for ever once
        the input is used up. */
    method NextChar()
      requires Valid()
      modifies this`pos, this`lastChar
      ensures Valid()
      ensures pos == if old(pos) < |stream| then old(pos) + 1 else old(pos)
    {
      if pos < |stream| {
        pos := pos + 1;
      }
      lastChar := if pos < |stream| then stream[pos] as int else EOF;
    }

    /** Lines 26-28: `while (isspace(lastChar)) lastChar = getchar();` */
    method SkipBlanks()
      requires Valid()
      modifies this`pos, this`lastChar
      ensures Valid() && Rest() == Skip(old(Rest()), Blank)
      ensures Lex(old(Rest())) == LexToken(Rest())
    {
      ghost var s := Rest();
      while IsSpace(lastChar)
        invariant Valid() && old(pos) <= pos
        invariant Skip(Rest(), Blank) == Skip(s, Blank)
        decreases |stream| - pos
      {
        SkipStep(Rest(), Blank);
        NextChar();
      }
      assert Span(Rest(), Blank) == 0;
    }

    /** Lines 31-34: the maximal alphanumeric run starting at `lastChar`
        goes into `IdStr`. */
    method ReadWord()
      requires Valid() && IsAlpha(lastChar)
      modifies this`pos, this`lastChar, this`idStr
      ensures Valid() && old(pos) < pos && idStr == stream[old(pos)..pos]
      ensures forall i :: 0 <= i < |idStr| ==> IsAlnum(idStr[i] as int)
      ensures pos == |stream| || !IsAlnum(stream[pos] as int)
    {
      idStr := [lastChar as char];
      NextChar();
      while IsAlnum(lastChar)
        invariant Valid() && old(pos) < pos && idStr == stream[old(pos)..pos]
        invariant forall i :: 0 <= i < |idStr| ==> IsAlnum(idStr[i] as int)
        decreases |stream| - pos
      {
        idStr := idStr + [lastChar as char];
        NextChar();
      }
    }

    /** Lines 46-51: the maximal run of digits and dots starting at
        `lastChar`. */
    method ReadNumeral() returns (numStr: string)
      requires Valid() && (IsDigit(lastChar) || lastChar == '.' as int)
      modifies this`pos, this`lastChar
      ensures Valid() && old(pos) < pos && numStr == stream[old(pos)..pos]
      ensures forall i :: 0 <= i < |numStr| ==> InRun(numStr[i] as int, Numeral)
      ensures pos == |stream| || !InRun(stream[pos] as int, Numeral)
    {
      numStr := [];
      while true
        invariant Valid() && old(pos) <= pos < |stream| && numStr == stream[old(pos)..pos]
        invariant forall i :: 0 <= i < |numStr| ==> InRun(numStr[i] as int, Numeral)
        invariant InRun(lastChar, Numeral)
        decreases |stream| - pos
      {
        numStr := numStr + [lastChar as char];
        NextChar();
        if !(IsDigit(lastChar) || lastChar == '.' as int) {
          break;
        }
      }
    }

    /** Lines 58-61: after the `#`, consume up to an end of line or `EOF`. */
    method SkipCommentBody()
      requires Valid() && lastChar == '#' as int
      modifies this`pos, this`lastChar
      ensures Valid() && Rest() == Skip(old(Rest())[1..], CommentBody)
    {
      ghost var body := Rest()[1..];
      NextChar();
      while lastChar != EOF && lastChar != '\n' as int && lastChar != '\r' as int
        invariant Valid() && old(pos) < pos
        invariant Skip(Rest(), CommentBody) == Skip(body, CommentBody)
        decreases |stream| - pos
      {
        SkipStep(Rest(), CommentBody);
        NextChar();
      }
      assert Span(Rest(), CommentBody) == 0;
    }

    /** The call that started with `idStr0` and `numText0` did what
        `st` says: it returned `st.code`, left `st.rest` to read and wrote
        `st.text` into `IdStr` or `numVal` as the code requires, or it ran
        off the end of `gettok` exactly when `st` does. */
    ghost predicate Follows(st: LexStep, r: TokResult, idStr0: string, numText0: string)
      reads this`pos, this`idStr, this`numText
      requires pos <= |stream|
    {
      (r.FellOffEnd? <==> st.FellOff?) &&
      (r.Returned? ==>
        st.Lexed? && r.code == st.code && Rest() == st.rest &&
        idStr == (if WritesIdStr(r.code) then st.text else idStr0) &&
        numText == (if r.code == TokNumber then st.text else numText0))
    }

    /** `gettok` (lines 23-75): does what `Lex` says of the stream it
        starts on. */
    method GetTok() returns (r: TokResult)
      requires Valid()
      modifies this`pos, this`lastChar, this`idStr, this`numText
      ensures Valid()
      ensures Follows(Lex(old(Rest())), r, old(idStr), old(numText))
      ensures r.Returned? ==> old(pos) < pos
      decreases |stream| - pos, 2
    {
      ghost var st, idStr0, numText0 := Lex(Rest()), idStr, numText;
      SkipBlanks();
      assert idStr == idStr0 && numText == numText0;
      r := Dispatch(st);
    }

    /** Lines 30-75 once the blanks are skipped: dispatches on the first
        character that is not a blank. */
    method Dispatch(ghost st: LexStep) returns (r: TokResult)
      requires Valid() && !IsSpace(lastChar) && st == LexToken(Rest())
      modifies this`pos, this`lastChar, this`idStr, this`numText
      ensures Valid()
      ensures Follows(st, r, old(idStr), old(numText))
      ensures r.Returned? ==> old(pos) < pos
      decreases |stream| - pos, 1
    {
      if IsAlpha(lastChar) {
        r := LexWord();
      } else if IsDigit(lastChar) || lastChar == '.' as int {
        r := LexNumeral();
      } else if lastChar == '#' as int {
        r := LexComment();
      } else {
        // Line 75: control reaches the end of a function returning int.
        r := FellOffEnd;
      }
    }

    /** Lines 30-43: an identifier or keyword. */
    method LexWord() returns (r: TokResult)
      requires Valid() && IsAlpha(lastChar)
      modifies this`pos, this`lastChar, this`idStr
      ensures Valid()
      ensures Follows(LexToken(old(Rest())), r, old(idStr), numText)
      ensures r.Returned? && WritesIdStr(r.code) && old(pos) < pos
    {
      ghost var t := Rest();
      ReadWord();
      SliceSplit(stream, old(pos), pos);
      LexWordStep(t, idStr, Rest());
      assert WritesIdStr(KeywordCode(idStr));
      if idStr == "droplet" {
        return Returned(TokDef);
      }
      if idStr == "extern" {
        return Returned(TokExtern);
      }
      return Returned(TokIdentifier);
    }

    /** Lines 45-55: a number. */
    method LexNumeral() returns (r: TokResult)
      requires Valid() && (IsDigit(lastChar) || lastChar == '.' as int)
      modifies this`pos, this`lastChar, this`numText
      ensures Valid()
      ensures Follows(LexToken(old(Rest())), r, idStr, old(numText))
      ensures r.Returned? ==> old(pos) < pos
    {
      ghost var t := Rest();
      var numStr := ReadNumeral();
      SliceSplit(stream, old(pos), pos);
      LexNumeralStep(t, numStr, Rest());
      numText := numStr;
      return Returned(TokNumber);
    }

    /** Lines 57-74: a comment, then the next token or `tok_eof`. */
    method LexComment() returns (r: TokResult)
      requires Valid() && lastChar == '#' as int
      modifies this`pos, this`lastChar, this`idStr, this`numText
      ensures Valid()
      ensures Follows(LexToken(old(Rest())), r, old(idStr), old(numText))
      ensures r.Returned? ==> old(pos) < pos
      decreases |stream| - pos, 0
    {
      ghost var t := Rest();
      CommentStep(t);
      SkipCommentBody();
      if lastChar != EOF {
        r := GetTok();
        return;
      }
      // Here lastChar == EOF, so the test on line 67 always holds and
      // lines 71-73 are never reached.
      return Returned(TokEof);
    }
  }

  /** What a call of `gettok` does: return a code, or run off its end. */
  datatype TokResult = Returned(code: int) | FellOffEnd
}
