/**
 * The lexer, Parser::tokenize (src/Parser.cpp:53-137): a scanner over the
 * bytes of the source text.
 *
 * `ScanAt` states what one iteration of the scanning loop does at a
 * position, `Lex` the whole token sequence, and the method `Tokenize`, which
 * keeps the loops of the C++ code, is proved to compute `Lex`.
 */
module Lexer {
  import opened Errors
  import opened Values
  import opened Tokens
  import Glyphs

  predicate IsAlpha(c: char) {
    'a' <= c <= 'z' || 'A' <= c <= 'Z'
  }

  /** std::isalnum(c) || c == '_' */
  predicate IsWordChar(c: char) {
    IsAlpha(c) || IsDigit(c) || c == '_'
  }

  /** The byte classes over which the scanner takes maximal runs. */
  datatype Run = DigitsAndDots | WordChars | NotQuote | NotNewline

  predicate InRun(c: char, run: Run) {
    match run
    case DigitsAndDots => IsDigit(c) || c == '.'
    case WordChars => IsWordChar(c)
    case NotQuote => c != '"'
    case NotNewline => c != '\n'
  }

  /** The end of the maximal run of `run` bytes starting at i. */
  function RunEnd(text: string, i: nat, run: Run): (j: nat)
    requires i <= |text|
    ensures i <= j <= |text|
    ensures forall k :: i <= k < j ==> InRun(text[k], run)
    ensures j < |text| ==> !InRun(text[j], run)
    decreases |text| - i
  {
    if i < |text| && InRun(text[i], run) then RunEnd(text, i + 1, run) else i
  }

  predicate StartsWithAt(text: string, pos: nat, key: string) {
    pos + |key| <= |text| && text[pos..pos + |key|] == key
  }

  /** The index of the first glyph of a table, from index i on, that starts at pos. */
  function FirstGlyph(table: seq<(string, string)>, text: string, pos: nat, i: nat): (r: Option<nat>)
    requires i <= |table|
    ensures r.Some? ==> i <= r.value < |table| && StartsWithAt(text, pos, table[r.value].0)
    ensures r.Some? ==> forall j :: i <= j < r.value ==> !StartsWithAt(text, pos, table[j].0)
    ensures r.None? ==> forall j :: i <= j < |table| ==> !StartsWithAt(text, pos, table[j].0)
    decreases |table| - i
  {
    if i == |table| then None
    else if StartsWithAt(text, pos, table[i].0) then Some(i)
    else FirstGlyph(table, text, pos, i + 1)
  }

  /** The glyph the scanner matches at pos, trying the table in order. */
  function MatchGlyph(text: string, pos: nat): Option<string> {
    match FirstGlyph(Glyphs.Table, text, pos, 0)
    case Some(i) => Some(Glyphs.Table[i].0)
    case None => None
  }

  lemma {:induction false} TableLongestFirst(i: nat, j: nat)
    requires i <= j < |Glyphs.Table|
    ensures |Glyphs.Table[i].0| >= |Glyphs.Table[j].0|
    decreases j - i
  {
    Glyphs.TableShape();
    if i < j {
      TableLongestFirst(i + 1, j);
    }
  }

  /**
   * The matched glyph is a longest one: no glyph of the table that also
   * starts at pos is longer (so 😌😌 is never split into two 😌).
   */
  lemma MatchIsLongest(text: string, pos: nat, k: nat)
    requires k < |Glyphs.Table| && StartsWithAt(text, pos, Glyphs.Table[k].0)
    ensures MatchGlyph(text, pos).Some?
    ensures |Glyphs.Table[k].0| <= |MatchGlyph(text, pos).value|
  {
    var r := FirstGlyph(Glyphs.Table, text, pos, 0);
    TableLongestFirst(r.value, k);
  }

  predicate StartsNumber(text: string, pos: nat)
    requires pos < |text|
  {
    IsDigit(text[pos]) || (text[pos] == '-' && pos + 1 < |text| && IsDigit(text[pos + 1]))
  }

  /** What one iteration of the scanning loop produces: at most one token, and where it continues. */
  datatype Scan = Scan(token: Option<Token>, next: nat)

  /** A string literal opening at pos: the bytes up to the closing quote, which is skipped. */
  function StringAt(text: string, pos: nat): (s: Scan)
    requires pos < |text|
    ensures pos < s.next <= |text|
  {
    var close := RunEnd(text, pos + 1, NotQuote);
    Scan(Some(NewToken(StringLit, text[pos + 1..close])), if close < |text| then close + 1 else close)
  }

  /** A number at pos: an optional '-', then the run of digits and dots. */
  function NumberAt(text: string, pos: nat): (s: Scan)
    requires pos < |text| && StartsNumber(text, pos)
    ensures pos < s.next <= |text|
  {
    var digits := if text[pos] == '-' then pos + 1 else pos;
    var end := RunEnd(text, digits, DigitsAndDots);
    Scan(Some(NewToken(Number, text[pos..end])), end)
  }

  /** An identifier at pos: the run of letters, digits and '_'. */
  function WordAt(text: string, pos: nat): (s: Scan)
    requires pos < |text| && (IsAlpha(text[pos]) || text[pos] == '_')
    ensures pos < s.next <= |text|
  {
    var end := RunEnd(text, pos, WordChars);
    Scan(Some(NewToken(Name, text[pos..end])), end)
  }

  /** An operator at pos: the first glyph of the table that starts there, else the single byte. */
  function OperatorAt(text: string, pos: nat): (s: Scan)
    requires pos < |text|
    ensures pos < s.next <= |text|
  {
    match FirstGlyph(Glyphs.Table, text, pos, 0)
    case Some(i) =>
      Glyphs.TableShape();
      Scan(Some(NewToken(Operator, Glyphs.Table[i].0)), pos + |Glyphs.Table[i].0|)
    case None =>
      Scan(Some(NewToken(Operator, [text[pos]])), pos + 1)
  }

  /**
   * One iteration of the scanning loop at pos, in the C++ priority order:
   * white space, a comment, a string, a number, an identifier, a glyph of
   * the table, and else a single byte.
   */
  function ScanAt(text: string, pos: nat): (s: Scan)
    requires pos < |text|
    ensures pos < s.next <= |text|
  {
    if IsSpace(text[pos]) then Scan(None, pos + 1)
    else if StartsWithAt(text, pos, Glyphs.Comment) then Scan(None, RunEnd(text, pos, NotNewline))
    else if text[pos] == '"' then StringAt(text, pos)
    else if StartsNumber(text, pos) then NumberAt(text, pos)
    else if IsAlpha(text[pos]) || text[pos] == '_' then WordAt(text, pos)
    else OperatorAt(text, pos)
  }

  /** What one scanning step produces, for each kind of token. */
  lemma ScanAtShape(text: string, pos: nat)
    requires pos < |text|
    // white space and comments produce no token; a comment runs up to the next newline
    ensures var s := ScanAt(text, pos);
      s.token.None? <==> IsSpace(text[pos]) || StartsWithAt(text, pos, Glyphs.Comment)
    ensures var s := ScanAt(text, pos);
      s.token.None? && !IsSpace(text[pos]) ==>
        (s.next == |text| || text[s.next] == '\n') && forall k :: pos <= k < s.next ==> text[k] != '\n'
    ensures var s := ScanAt(text, pos);
      s.token.Some? ==> s.token.value.kind in {StringLit, Number, Name, Operator} && s.token.value.line == 0 && s.token.value.column == 0
    // a string is the raw bytes up to the closing quote, or to the end of the input
    ensures var s := ScanAt(text, pos);
      s.token.Some? && s.token.value.kind == StringLit ==>
        var body := s.token.value.text;
        text[pos] == '"' && pos + 1 + |body| <= |text| && text[pos + 1..pos + 1 + |body|] == body &&
        (forall k :: 0 <= k < |body| ==> body[k] != '"') &&
        (pos + 1 + |body| < |text| ==> text[pos + 1 + |body|] == '"' && s.next == pos + 2 + |body|) &&
        (pos + 1 + |body| == |text| ==> s.next == |text|)
    // a number is an optional '-' before a digit, then the longest run of digits and dots
    ensures var s := ScanAt(text, pos);
      s.token.Some? && s.token.value.kind == Number ==>
        StartsNumber(text, pos) && s.token.value.text == text[pos..s.next] &&
        (forall k :: pos < k < s.next ==> IsDigit(text[k]) || text[k] == '.') &&
        (s.next < |text| ==> !(IsDigit(text[s.next]) || text[s.next] == '.'))
    // an identifier is the longest run of letters, digits and '_' starting with a letter or '_'
    ensures var s := ScanAt(text, pos);
      s.token.Some? && s.token.value.kind == Name ==>
        (IsAlpha(text[pos]) || text[pos] == '_') && s.token.value.text == text[pos..s.next] &&
        (forall k :: pos <= k < s.next ==> IsWordChar(text[k])) &&
        (s.next < |text| ==> !IsWordChar(text[s.next]))
    // otherwise a glyph of the table that starts here, and else exactly one byte
    ensures var s := ScanAt(text, pos);
      s.token.Some? && s.token.value.kind == Operator ==>
        s.token.value.text == text[pos..s.next] &&
        (MatchGlyph(text, pos).Some? ==> s.token.value.text == MatchGlyph(text, pos).value) &&
        (MatchGlyph(text, pos).None? ==> s.next == pos + 1)
  {
    if !IsSpace(text[pos]) && StartsWithAt(text, pos, Glyphs.Comment) {
      assert text[pos..pos + 4] == Glyphs.Comment;
    }
  }

  /** The tokens of text from pos on, ending with the END_OF_FILE token. */
  function LexFrom(text: string, pos: nat): seq<Token>
    decreases |text| - pos
  {
    if pos >= |text| then [NewToken(EndOfFile, "")]
    else
      var s := ScanAt(text, pos);
      (if s.token.Some? then [s.token.value] else []) + LexFrom(text, s.next)
  }

  /** Parser::tokenize(text) */
  function Lex(text: string): seq<Token> {
    LexFrom(text, 0)
  }

  /**
   * The token sequence ends with exactly one END_OF_FILE token, whose text is
   * empty; every earlier token is a string, number, name or operator (the
   * lexer never produces BOOLEAN, KEYWORD or DELIMITER tokens).
   */
  predicate EndsWithEof(tokens: seq<Token>) {
    && |tokens| >= 1
    && tokens[|tokens| - 1] == NewToken(EndOfFile, "")
    && forall i :: 0 <= i < |tokens| - 1 ==> tokens[i].kind in {StringLit, Number, Name, Operator}
  }

  lemma {:induction false} LexFromEndsWithEof(text: string, pos: nat)
    ensures EndsWithEof(LexFrom(text, pos))
    decreases |text| - pos
  {
    if pos < |text| {
      ScanAtShape(text, pos);
      LexFromEndsWithEof(text, ScanAt(text, pos).next);
    }
  }

  /** tokenize always ends with one END_OF_FILE token and emits only scanned kinds before it. */
  lemma LexEndsWithEof(text: string)
    ensures EndsWithEof(Lex(text))
  {
    LexFromEndsWithEof(text, 0);
  }

  /** The comment test of the C++ loop, byte by byte, is StartsWithAt for the marker. */
  lemma NoCommentStart(text: string, pos: nat)
    requires pos < |text|
    requires !(pos + 4 <= |text| && text[pos] == '\U{F0}' && text[pos + 1] == '\U{9F}'
               && text[pos + 2] == '\U{92}' && text[pos + 3] == '\U{A9}')
    ensures !StartsWithAt(text, pos, Glyphs.Comment)
  {
  }

  /** The comment branch: skip up to, not over, the next newline. */
  method SkipComment(text: string, pos: nat) returns (next: nat)
    requires pos < |text|
    ensures next == RunEnd(text, pos, NotNewline)
  {
    next := pos;
    while next < |text| && text[next] != '\n'
      invariant pos <= next <= |text|
      invariant RunEnd(text, next, NotNewline) == RunEnd(text, pos, NotNewline)
    {
      next := next + 1;
    }
  }

  /** The string branch: the bytes up to the closing quote, which is skipped if present. */
  method ScanString(text: string, pos: nat) returns (token: Token, next: nat)
    requires pos < |text| && text[pos] == '"'
    ensures StringAt(text, pos) == Scan(Some(token), next)
  {
    next := pos + 1;
    var str := "";
    while next < |text| && text[next] != '"'
      invariant pos + 1 <= next <= |text|
      invariant str == text[pos + 1..next]
      invariant RunEnd(text, next, NotQuote) == RunEnd(text, pos + 1, NotQuote)
    {
      str := str + [text[next]];
      next := next + 1;
    }
    if next < |text| {
      next := next + 1;
    }
    token := NewToken(StringLit, str);
  }

  /** The number branch: an optional '-', then digits and dots. */
  method ScanNumber(text: string, pos: nat) returns (token: Token, next: nat)
    requires pos < |text| && StartsNumber(text, pos)
    ensures NumberAt(text, pos) == Scan(Some(token), next)
  {
    next := pos;
    var num := "";
    if text[next] == '-' {
      num := num + [text[next]];
      next := next + 1;
    }
    ghost var digits := next;
    while next < |text| && (IsDigit(text[next]) || text[next] == '.')
      invariant digits <= next <= |text|
      invariant num == text[pos..next]
      invariant RunEnd(text, next, DigitsAndDots) == RunEnd(text, digits, DigitsAndDots)
    {
      num := num + [text[next]];
      next := next + 1;
    }
    token := NewToken(Number, num);
  }

  /** The identifier branch: letters, digits and '_'. */
  method ScanWord(text: string, pos: nat) returns (token: Token, next: nat)
    requires pos < |text| && (IsAlpha(text[pos]) || text[pos] == '_')
    ensures WordAt(text, pos) == Scan(Some(token), next)
  {
    next := pos;
    var id := "";
    while next < |text| && IsWordChar(text[next])
      invariant pos <= next <= |text|
      invariant id == text[pos..next]
      invariant RunEnd(text, next, WordChars) == RunEnd(text, pos, WordChars)
    {
      id := id + [text[next]];
      next := next + 1;
    }
    token := NewToken(Name, id);
  }

  /** The loop over the glyph table: the index of the first glyph that starts at pos. */
  method FindGlyph(table: seq<(string, string)>, text: string, pos: nat) returns (r: Option<nat>)
    ensures r == FirstGlyph(table, text, pos, 0)
  {
    var i := 0;
    while i < |table|
      invariant 0 <= i <= |table|
      invariant FirstGlyph(table, text, pos, i) == FirstGlyph(table, text, pos, 0)
    {
      var key := table[i].0;
      if pos + |key| <= |text| && text[pos..pos + |key|] == key {
        return Some(i);
      }
      i := i + 1;
    }
    return None;
  }

  /** The operator branch: the first glyph of the table that starts here, else one byte. */
  method ScanOperator(text: string, pos: nat) returns (token: Token, next: nat)
    requires pos < |text|
    ensures OperatorAt(text, pos) == Scan(Some(token), next)
  {
    var found := FindGlyph(Glyphs.Table, text, pos);
    if found.Some? {
      var key := Glyphs.Table[found.value].0;
      token, next := NewToken(Operator, key), pos + |key|;
    } else {
      token, next := NewToken(Operator, [text[pos]]), pos + 1;
    }
  }

  /** One iteration of the scanning loop of Parser::tokenize. */
  method ScanOne(text: string, pos: nat) returns (token: Option<Token>, next: nat)
    requires pos < |text|
    ensures ScanAt(text, pos) == Scan(token, next)
  {
    if IsSpace(text[pos]) {
      return None, pos + 1;
    } else if pos + 4 <= |text| && text[pos] == '\U{F0}' && text[pos + 1] == '\U{9F}'
      && text[pos + 2] == '\U{92}' && text[pos + 3] == '\U{A9}'
    {
      assert text[pos..pos + 4] == Glyphs.Comment;
      next := SkipComment(text, pos);
      return None, next;
    }
    NoCommentStart(text, pos);
    var t: Token;
    if text[pos] == '"' {
      t, next := ScanString(text, pos);
    } else if IsDigit(text[pos]) || (text[pos] == '-' && pos + 1 < |text| && IsDigit(text[pos + 1])) {
      t, next := ScanNumber(text, pos);
    } else if IsAlpha(text[pos]) || text[pos] == '_' {
      t, next := ScanWord(text, pos);
    } else {
      t, next := ScanOperator(text, pos);
    }
    token := Some(t);
  }

  /** Parser::tokenize, with the loops of the C++ code. */
  method Tokenize(text: string) returns (result: seq<Token>)
    ensures result == Lex(text)
    ensures EndsWithEof(result)
  {
    result := [];
    var pos: nat := 0;
    while pos < |text|
      invariant pos <= |text|
      invariant result + LexFrom(text, pos) == Lex(text)
      decreases |text| - pos
    {
      var token, next := ScanOne(text, pos);
      if token.Some? {
        result := result + [token.value];
      }
      pos := next;
    }
    result := result + [NewToken(EndOfFile, "")];
    LexEndsWithEof(text);
  }
}
