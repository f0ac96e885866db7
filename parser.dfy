/**
 * The recursive-descent parser (include/Parser.hpp, src/Parser.cpp:139-505).
 *
 * The parser object holds the token vector and a cursor into it; every
 * parse method moves the cursor forward and returns a tree. The only
 * failure is the "Unexpected token" exception of parseArgument, which
 * propagates out of every caller, so a parse method returns a Result.
 *
 * Each parse method is specified by the tree shape of the Grammar module it
 * returns, by the cursor never moving back, and, where the C++ code
 * guarantees it, by the cursor moving forward.
 */
module Parsing {
  import opened Errors
  import opened Tokens
  import opened Trees
  import opened Grammar
  import Lexer
  import Glyphs

  class Parser {
    var tokens: seq<Token>
    var current: nat

    /**
     * The cursor is on a token, the vector ends with its END_OF_FILE token,
     * and the cursor has moved or there is more than that token (advance
     * reads tokens[current - 1]).
     */
    ghost predicate Valid()
      reads this
    {
      Lexer.EndsWithEof(tokens) && current < |tokens| && (current > 0 || |tokens| > 1)
    }

    /** Parser::Parser: no tokens yet. */
    constructor ()
      ensures tokens == [] && current == 0
    {
      tokens := [];
      current := 0;
    }

    /** Parser::peek: the current token, or a fresh END_OF_FILE token past the end. */
    function Peek(): Token
      reads this
    {
      if current >= |tokens| then NewToken(EndOfFile, "") else tokens[current]
    }

    /** Parser::isAtEnd */
    predicate IsAtEnd()
      reads this
    {
      current >= |tokens| || Peek().kind == EndOfFile
    }

    /** Parser::check: not at the end, and the current token has this text. */
    predicate Check(value: string)
      reads this
    {
      !IsAtEnd() && Peek().text == value
    }

    /** The test parseStatement, parseForDecl and parseForUpdates use to recognise an assignment. */
    predicate StartsAssignment()
      reads this
    {
      Peek().kind == Name && |tokens| > current + 1 && tokens[current + 1].text == Glyphs.Assign
    }

    /**
     * The text of an "Unexpected token" error raised at or after `from`: that
     * of a token no argument can begin with.
     */
    ghost predicate Unexpected(text: string, from: nat)
      reads this
    {
      exists j :: from <= j < |tokens| && !StartsArgument(tokens[j]) && tokens[j].text == text
    }

    /** The current token is an operator of one of the binary levels 1 to k. */
    predicate AtOperator(k: nat)
      requires k <= TopLevel
      reads this
      decreases k
    {
      k > 0 && (AtOperator(k - 1) || (!IsAtEnd() && Peek().text in LevelOps(k)))
    }

    /** A level stops where neither its own operators nor those of the levels below it follow. */
    lemma StopsAtLevel(k: nat)
      requires 1 <= k <= TopLevel
      requires !AtOperator(k - 1) && !(!IsAtEnd() && Peek().text in LevelOps(k))
      ensures !AtOperator(k)
    {
    }

    // The loop tests of the binary levels: each holds exactly on an operator of its level.

    lemma LogicalOrTest()
      ensures (Check(Glyphs.Or) || Check("||")) <==> !IsAtEnd() && Peek().text in LevelOps(5)
    {
    }

    lemma LogicalAndTest()
      ensures (Check(Glyphs.And) || Check("&&")) <==> !IsAtEnd() && Peek().text in LevelOps(4)
    {
    }

    lemma EqualityTest()
      ensures (Check(Glyphs.EqualEqual) || Check(Glyphs.NotEqual) || Check(Glyphs.Less)
               || Check(Glyphs.Greater) || Check(Glyphs.LessEqual) || Check(Glyphs.GreaterEqual))
              <==> !IsAtEnd() && Peek().text in LevelOps(3)
    {
    }

    lemma AdditiveTest()
      ensures (Check(Glyphs.Plus) || Check(Glyphs.Minus) || Check("+") || Check("-"))
              <==> !IsAtEnd() && Peek().text in LevelOps(2)
    {
    }

    lemma MultiplicativeTest()
      ensures (Check(Glyphs.Times) || Check(Glyphs.Divide) || Check(Glyphs.Modulo)
               || Check("*") || Check("/") || Check("%"))
              <==> !IsAtEnd() && Peek().text in LevelOps(1)
    {
    }

    /** In a valid parser the end is reached exactly on the last token. */
    lemma AtEndIsLastToken()
      requires Valid()
      ensures IsAtEnd() <==> current == |tokens| - 1
      ensures IsAtEnd() ==> Peek() == NewToken(EndOfFile, "")
    {
    }

    /**
     * Parser::advance: step over the current token unless at the end, and
     * return the token before the cursor. At the end this is the token
     * before END_OF_FILE again, and the cursor stays.
     */
    method Advance() returns (t: Token)
      requires Valid()
      modifies this`current
      ensures Valid()
      ensures current == if old(IsAtEnd()) then old(current) else old(current) + 1
      ensures !old(IsAtEnd()) ==> t == old(Peek())
      ensures t == tokens[current - 1]
      ensures Step(tokens, old(current), current)
    {
      if !IsAtEnd() {
        current := current + 1;
      }
      t := tokens[current - 1];
    }

    /** Parser::match: step over the current token exactly when it has this text. */
    method Match(value: string) returns (b: bool)
      requires Valid()
      modifies this`current
      ensures Valid()
      ensures b == old(Check(value))
      ensures current == if b then old(current) + 1 else old(current)
      ensures b ==> SpelledBy([Checked(value)], tokens, old(current), current)
    {
      if Check(value) {
        var _ := Advance();
        SpelledByStep(Checked(value), tokens, old(current), current);
        return true;
      }
      return false;
    }

    // ---------------------------------------------------------------------
    // Parser::parse
    // ---------------------------------------------------------------------

    /**
     * Parser::parse: tokenize the text, then parse statements until the end;
     * the result is a "stmt" node over them, spelled by every token before
     * END_OF_FILE. The only failure is an "Unexpected token" error naming a
     * token no argument can begin with.
     */
    method Parse(text: string) returns (r: Result<Tree>)
      modifies this
      ensures tokens == Lexer.Lex(text)
      ensures r.Ok? ==> IsProgram(r.value) && IsAtEnd() && current == |tokens| - 1
      ensures r.Ok? ==> SpelledBy(Unparse(r.value), tokens, 0, current)
      ensures r.Err? ==> r.error.UnexpectedToken? && Unexpected(r.error.text, 0)
    {
      tokens := Lexer.Tokenize(text);
      current := 0;
      var root := Leafless("stmt");
      UnparseCollection("stmt");
      while !IsAtEnd()
        invariant tokens == Lexer.Lex(text)
        invariant Lexer.EndsWithEof(tokens) && current < |tokens|
        invariant IsProgram(root)
        invariant SpelledBy(Unparse(root), tokens, 0, current)
        decreases |tokens| - current
      {
        ghost var mid := current;
        var stmt := ParseStatement();
        if stmt.Err? {
          return Err(stmt.error);
        }
        SpelledSequence(root, stmt.value, tokens, 0, mid, current);
        ProgramAdd(root, stmt.value);
        root := root.AddTree(stmt.value);
      }
      return Ok(root);
    }

    // ---------------------------------------------------------------------
    // Statements
    // ---------------------------------------------------------------------

    /**
     * Parser::parseStatement: the first token picks the statement; a name
     * followed by 😌 is an assignment; anything else is an expression.
     */
    method ParseStatement() returns (r: Result<Tree>)
      requires Valid()
      modifies this`current
      ensures Valid() && old(current) <= current
      ensures r.Ok? ==> IsStatement(r.value) && old(current) < current
      ensures r.Ok? ==> SpelledBy(Unparse(r.value), tokens, old(current), current)
      ensures r.Err? ==> r.error.UnexpectedToken? && Unexpected(r.error.text, old(current))
      ensures r.Ok? && old(Check(Glyphs.Decl)) ==> r.value.data == "declare_stmt"
      ensures r.Ok? && old(Check(Glyphs.Print)) ==> r.value.data == "print_stmt"
      ensures r.Ok? && old(Check(Glyphs.If)) ==> r.value.data == "if_stmt"
      ensures r.Ok? && old(Check(Glyphs.While)) ==> r.value.data == "while_stmt"
      ensures r.Ok? && old(Check(Glyphs.For)) ==> r.value.data == "for_stmt"
      ensures old(Check(Glyphs.Break) || Check(Glyphs.Continue)) ==> r.Ok? && r.value.data == "flow_stmt"
      ensures r.Ok? && old(StartsAssignment() && Peek().text !in StatementKeywords) ==> r.value.data == "assignment_stmt"
      decreases |tokens| - current, 14
    {
      if Check(Glyphs.Decl) {
        r := ParseDeclare();
      } else if Check(Glyphs.Print) {
        r := ParsePrint();
      } else if Check(Glyphs.If) {
        r := ParseConditional(Glyphs.If, "if_stmt");
      } else if Check(Glyphs.While) {
        r := ParseConditional(Glyphs.While, "while_stmt");
      } else if Check(Glyphs.For) {
        r := ParseFor();
      } else if Check(Glyphs.Break) || Check(Glyphs.Continue) {
        var t := ParseFlow();
        r := Ok(t);
      } else if StartsAssignment() {
        r := ParseAssignment();
      } else {
        r := ParseExpression();
        ExpressionIsStatement(r);
      }
    }

    /** Parser::parseAssignmentStatement: name 😌 expression (the 😌 is skipped unseen). */
    method ParseAssignment() returns (r: Result<Tree>)
      requires Valid() && Peek().kind == Name
      modifies this`current
      ensures Valid() && old(current) < current
      ensures r.Ok? ==> IsAssignment(r.value)
      ensures r.Ok? ==> r.value.children[0] == Subtree(Tree("name", [Leaf(old(Peek()))]))
      ensures r.Ok? ==> SpelledBy(Unparse(r.value), tokens, old(current), current)
      ensures r.Err? ==> r.error.UnexpectedToken? && Unexpected(r.error.text, old(current))
      decreases |tokens| - current, 12
    {
      var stmt := Leafless("assignment_stmt");
      var name := Advance();
      stmt := stmt.AddTree(Leafless("name").AddToken(name));
      ghost var c1 := current;
      SpelledByStep(Kept(name), tokens, old(current), c1);
      var _ := Advance();
      SpelledByStep(Skipped, tokens, c1, current);
      SpelledByJoin([Kept(name)], [Skipped], tokens, old(current), c1, current);
      ghost var c2 := current;
      var e :- ParseExpression();
      SpelledByJoin([Kept(name)] + [Skipped], Unparse(e), tokens, old(current), c2, current);
      UnparseAssignment(name, e);
      stmt := stmt.AddTree(e);
      return Ok(stmt);
    }

    /**
     * Parser::parseDeclareStatement: 📢, then names separated by 🗿, each
     * optionally followed by 😌 and an initial value.
     */
    method ParseDeclare() returns (r: Result<Tree>)
      requires Valid() && Check(Glyphs.Decl)
      modifies this`current
      ensures Valid() && old(current) < current
      ensures r.Ok? ==> IsDeclare(r.value)
      ensures r.Ok? ==> SpelledBy(Unparse(r.value), tokens, old(current), current) && !Check(Glyphs.Comma)
      ensures r.Err? ==> r.error.UnexpectedToken? && Unexpected(r.error.text, old(current))
      decreases |tokens| - current, 12
    {
      var stmt := Leafless("declare_stmt");
      var keyword := Advance();
      SpelledByStep(Checked(Glyphs.Decl), tokens, old(current), current);
      UnparseDeclare(stmt);
      var more := true;
      while more
        invariant Valid() && old(current) < current
        invariant stmt.data == "declare_stmt" && (|stmt.children| == 0 || IsDeclare(stmt)) && (more || IsDeclare(stmt))
        invariant more ==> SpelledBy(Opened(stmt) + Separator(stmt), tokens, old(current), current)
        invariant !more ==> SpelledBy(Opened(stmt), tokens, old(current), current) && !Check(Glyphs.Comma)
        decreases |tokens| - current + (if more then 1 else 0)
      {
        stmt :- ParseDeclarator(stmt, old(current));
        more := Match(Glyphs.Comma);
        if more {
          SpelledByJoin(Opened(stmt), Separator(stmt), tokens, old(current), current - 1, current);
        }
      }
      UnparseDeclare(stmt);
      return Ok(stmt);
    }

    /**
     * One declared name of parseDeclareStatement: the next token under a
     * name node, then, after a 😌, the initial value. The declaration read
     * so far, with the 🗿 before this name, is spelled from `from`.
     */
    method ParseDeclarator(stmt: Tree, ghost from: nat) returns (r: Result<Tree>)
      requires Valid() && stmt.data == "declare_stmt" && (|stmt.children| == 0 || IsDeclare(stmt))
      requires current > 0
      requires SpelledBy(Opened(stmt) + Separator(stmt), tokens, from, current)
      modifies this`current
      ensures Valid() && old(current) <= current
      ensures r.Ok? ==> IsDeclare(r.value) && |r.value.children| > |stmt.children|
      ensures r.Ok? ==> r.value.children[..|stmt.children|] == stmt.children
      ensures r.Ok? ==> SpelledBy(Opened(r.value), tokens, from, current)
      ensures r.Err? ==> r.error.UnexpectedToken? && Unexpected(r.error.text, old(current))
      decreases |tokens| - current, 12
    {
      var name := Advance();
      SpelledByStep(Taken(name), tokens, old(current), current);
      SpelledDeclareName(stmt, name, tokens, from, old(current), current);
      var t := DeclareName(stmt, name);
      ghost var c1 := current;
      var hasValue := Match(Glyphs.Assign);
      if hasValue {
        ghost var c2 := current;
        var e :- ParseExpression();
        SpelledDeclareValue(t, e, tokens, from, c1, c2, current);
        var named := t;
        t := DeclareValue(t, e);
        ChildrenKept(stmt, named, t);
      }
      return Ok(t);
    }

    /** Parser::parseFlowStatement: ⏸ gives a break node, ⏩ a continue node. */
    method ParseFlow() returns (t: Tree)
      requires Valid() && (Check(Glyphs.Break) || Check(Glyphs.Continue))
      modifies this`current
      ensures Valid() && current == old(current) + 1
      ensures IsFlow(t)
      ensures t.children[0] == Subtree(Leafless(if old(Check(Glyphs.Break)) then "break_stmt" else "continue_stmt"))
      ensures SpelledBy(Unparse(t), tokens, old(current), current)
    {
      t := Leafless("flow_stmt");
      var token := Advance();
      SpelledByStep(Checked(token.text), tokens, old(current), current);
      UnparseFlow();
      if token.text == Glyphs.Break {
        t := t.AddTree(Leafless("break_stmt"));
      } else if token.text == Glyphs.Continue {
        t := t.AddTree(Leafless("continue_stmt"));
      }
    }

    /** Parser::parsePrintStatement: 🖨 👉 expression 👈 (the brackets are skipped unseen). */
    method ParsePrint() returns (r: Result<Tree>)
      requires Valid() && Check(Glyphs.Print)
      modifies this`current
      ensures Valid() && old(current) < current
      ensures r.Ok? ==> IsPrint(r.value)
      ensures r.Ok? ==> SpelledBy(Unparse(r.value), tokens, old(current), current)
      ensures r.Err? ==> r.error.UnexpectedToken? && Unexpected(r.error.text, old(current))
      decreases |tokens| - current, 12
    {
      var stmt := Leafless("print_stmt");
      ghost var read: seq<Slot> := [];
      ghost var c := current;
      var keyword := Advance();
      SpelledByStep(Checked(Glyphs.Print), tokens, c, current);
      read := [Checked(Glyphs.Print)];
      c := current;
      var _ := Advance();
      SpelledByStep(Skipped, tokens, c, current);
      SpelledByJoin(read, [Skipped], tokens, old(current), c, current);
      read := read + [Skipped];
      c := current;
      var e :- ParseExpression();
      SpelledByJoin(read, Unparse(e), tokens, old(current), c, current);
      read := read + Unparse(e);
      stmt := stmt.AddTree(e);
      c := current;
      var _ := Advance();
      SpelledByStep(Skipped, tokens, c, current);
      SpelledByJoin(read, [Skipped], tokens, old(current), c, current);
      UnparsePrint(e);
      return Ok(stmt);
    }

    /**
     * Parser::parseIfStatement and Parser::parseWhileStatement, which are
     * the same code with another tag: keyword 👉 condition 👈 🍽 suite 🥂.
     * No 🏳 or 🏁 branch is parsed.
     */
    method ParseConditional(keyword: string, tag: string) returns (r: Result<Tree>)
      requires Valid() && Check(keyword)
      requires (keyword == Glyphs.If && tag == "if_stmt") || (keyword == Glyphs.While && tag == "while_stmt")
      modifies this`current
      ensures Valid() && old(current) < current
      ensures r.Ok? ==> IsConditional(r.value, tag)
      ensures r.Ok? ==> SpelledBy(Unparse(r.value), tokens, old(current), current)
      ensures r.Err? ==> r.error.UnexpectedToken? && Unexpected(r.error.text, old(current))
      decreases |tokens| - current, 12
    {
      var stmt := Leafless(tag);
      var first := Advance();
      ghost var c := current;
      SpelledByStep(Checked(keyword), tokens, old(current), c);
      var _ := Advance();
      SpelledByStep(Skipped, tokens, c, current);
      SpelledByJoin([Checked(keyword)], [Skipped], tokens, old(current), c, current);
      c := current;
      var cond :- ParseExpression();
      SpelledByJoin([Checked(keyword)] + [Skipped], Unparse(cond), tokens, old(current), c, current);
      stmt := stmt.AddTree(cond);
      var body :- ParseBody([Checked(keyword)] + [Skipped] + Unparse(cond), old(current));
      stmt := stmt.AddTree(body);
      UnparseConditional(keyword, tag, cond, body);
      return Ok(stmt);
    }

    /** Parser::parseForStatement: 📀 👉 decl 👄 test 👄 updates 👈 🍽 suite 🥂. */
    method ParseFor() returns (r: Result<Tree>)
      requires Valid() && Check(Glyphs.For)
      modifies this`current
      ensures Valid() && old(current) < current
      ensures r.Ok? ==> IsFor(r.value)
      ensures r.Ok? ==> SpelledBy(Unparse(r.value), tokens, old(current), current)
      ensures r.Err? ==> r.error.UnexpectedToken? && Unexpected(r.error.text, old(current))
      decreases |tokens| - current, 12
    {
      var stmt := Leafless("for_stmt");
      var keyword := Advance();
      ghost var c := current;
      SpelledByStep(Checked(Glyphs.For), tokens, old(current), c);
      var _ := Advance();
      SpelledByStep(Skipped, tokens, c, current);
      SpelledByJoin([Checked(Glyphs.For)], [Skipped], tokens, old(current), c, current);
      var clauses :- ParseForClauses(old(current));
      var (decl, test, updates) := clauses;
      stmt := stmt.AddTree(decl).AddTree(test).AddTree(updates);
      var body :- ParseBody([Checked(Glyphs.For)] + [Skipped] + Unparse(decl) + [Skipped] + Unparse(test) + [Skipped]
                            + Unparse(updates), old(current));
      stmt := stmt.AddTree(body);
      UnparseFor(decl, test, updates, body);
      return Ok(stmt);
    }

    /**
     * The three clauses of parseForStatement between its brackets, each but
     * the last followed by a 👄: a declaration or assignment, a test and an
     * update. What the statement read before them is spelled from `from`.
     */
    method ParseForClauses(ghost from: nat) returns (r: Result<(Tree, Tree, Tree)>)
      requires Valid() && SpelledBy([Checked(Glyphs.For)] + [Skipped], tokens, from, current)
      modifies this`current
      ensures Valid() && old(current) <= current
      ensures r.Ok? ==> IsForDecl(r.value.0) && IsForTest(r.value.1) && IsForUpdates(r.value.2)
      ensures r.Ok? ==> SpelledBy([Checked(Glyphs.For)] + [Skipped] + Unparse(r.value.0) + [Skipped] + Unparse(r.value.1)
                                  + [Skipped] + Unparse(r.value.2), tokens, from, current)
      ensures r.Err? ==> r.error.UnexpectedToken? && Unexpected(r.error.text, old(current))
      decreases |tokens| - current, 14
    {
      ghost var read := [Checked(Glyphs.For)] + [Skipped];
      var decl :- ParseForDecl();
      SpelledByJoin(read, Unparse(decl), tokens, from, old(current), current);
      read := read + Unparse(decl);
      ghost var c := current;
      var _ := Advance();
      SpelledByStep(Skipped, tokens, c, current);
      SpelledByJoin(read, [Skipped], tokens, from, c, current);
      read := read + [Skipped];
      c := current;
      var test :- ParseForTest();
      SpelledByJoin(read, Unparse(test), tokens, from, c, current);
      read := read + Unparse(test);
      c := current;
      var _ := Advance();
      SpelledByStep(Skipped, tokens, c, current);
      SpelledByJoin(read, [Skipped], tokens, from, c, current);
      read := read + [Skipped];
      c := current;
      var updates :- ParseForUpdates();
      SpelledByJoin(read, Unparse(updates), tokens, from, c, current);
      return Ok((decl, test, updates));
    }

    /**
     * The tail parseIfStatement, parseWhileStatement and parseForStatement
     * share: 👈 🍽 suite 🥂, the three delimiters skipped unseen. What the
     * statement read before it, `read`, is spelled from `from`.
     */
    method ParseBody(ghost read: seq<Slot>, ghost from: nat) returns (r: Result<Tree>)
      requires Valid() && SpelledBy(read, tokens, from, current)
      modifies this`current
      ensures Valid() && old(current) <= current
      ensures r.Ok? ==> IsSuite(r.value)
      ensures r.Ok? ==> SpelledBy(read + [Skipped] + [Skipped] + Unparse(r.value) + [Skipped], tokens, from, current)
      ensures r.Err? ==> r.error.UnexpectedToken? && Unexpected(r.error.text, old(current))
      decreases |tokens| - current, 16
    {
      var _ := Advance();
      SpelledByStep(Skipped, tokens, old(current), current);
      SpelledByJoin(read, [Skipped], tokens, from, old(current), current);
      ghost var c := current;
      var _ := Advance();
      SpelledByStep(Skipped, tokens, c, current);
      SpelledByJoin(read + [Skipped], [Skipped], tokens, from, c, current);
      c := current;
      var body :- ParseSuite();
      SpelledByJoin(read + [Skipped] + [Skipped], Unparse(body), tokens, from, c, current);
      c := current;
      var _ := Advance();
      SpelledByStep(Skipped, tokens, c, current);
      SpelledByJoin(read + [Skipped] + [Skipped] + Unparse(body), [Skipped], tokens, from, c, current);
      return Ok(body);
    }

    /** Parser::parseSuite: statements up to 🥂 or the end, which is not consumed. */
    method ParseSuite() returns (r: Result<Tree>)
      requires Valid()
      modifies this`current
      ensures Valid() && old(current) <= current
      ensures r.Ok? ==> IsSuite(r.value) && (Check(Glyphs.CloseBrace) || IsAtEnd())
      ensures r.Ok? ==> SpelledBy(Unparse(r.value), tokens, old(current), current)
      ensures r.Err? ==> r.error.UnexpectedToken? && Unexpected(r.error.text, old(current))
      decreases |tokens| - current, 15
    {
      var suite := Leafless("suite");
      UnparseCollection("suite");
      SpelledByNothing(tokens, current);
      while !Check(Glyphs.CloseBrace) && !IsAtEnd()
        invariant Valid() && old(current) <= current
        invariant IsSuite(suite)
        invariant SpelledBy(Unparse(suite), tokens, old(current), current)
        decreases |tokens| - current
      {
        ghost var mid := current;
        var stmt :- ParseStatement();
        SpelledSequence(suite, stmt, tokens, old(current), mid, current);
        SuiteAdd(suite, stmt);
        suite := suite.AddTree(stmt);
      }
      return Ok(suite);
    }

    /** Parser::parseForDecl: a declaration, an assignment, or nothing. */
    method ParseForDecl() returns (r: Result<Tree>)
      requires Valid()
      modifies this`current
      ensures Valid() && old(current) <= current
      ensures r.Ok? ==> IsForDecl(r.value)
      ensures r.Ok? ==> (|r.value.children| == 0 <==> !old(Check(Glyphs.Decl)) && !old(StartsAssignment()))
      ensures r.Ok? ==> SpelledBy(Unparse(r.value), tokens, old(current), current)
      ensures r.Err? ==> r.error.UnexpectedToken? && Unexpected(r.error.text, old(current))
      decreases |tokens| - current, 13
    {
      var decl := Leafless("for_decl");
      UnparseCollection("for_decl");
      SpelledByNothing(tokens, current);
      if Check(Glyphs.Decl) {
        var d :- ParseDeclare();
        UnparseSingle("for_decl", d);
        decl := decl.AddTree(d);
      } else if StartsAssignment() {
        var a :- ParseAssignment();
        UnparseSingle("for_decl", a);
        decl := decl.AddTree(a);
      }
      return Ok(decl);
    }

    /** Parser::parseForTest: an expression, or nothing when the next token is 👄. */
    method ParseForTest() returns (r: Result<Tree>)
      requires Valid()
      modifies this`current
      ensures Valid() && old(current) <= current
      ensures r.Ok? ==> IsForTest(r.value)
      ensures r.Ok? ==> (|r.value.children| == 0 <==> old(Check(Glyphs.Semicolon)))
      ensures r.Ok? ==> SpelledBy(Unparse(r.value), tokens, old(current), current)
      ensures r.Err? ==> r.error.UnexpectedToken? && Unexpected(r.error.text, old(current))
      decreases |tokens| - current, 12
    {
      var test := Leafless("for_test");
      UnparseCollection("for_test");
      SpelledByNothing(tokens, current);
      if !Check(Glyphs.Semicolon) {
        var e :- ParseExpression();
        UnparseSingle("for_test", e);
        test := test.AddTree(e);
      }
      return Ok(test);
    }

    /** Parser::parseForUpdates: one assignment, or nothing. */
    method ParseForUpdates() returns (r: Result<Tree>)
      requires Valid()
      modifies this`current
      ensures Valid() && old(current) <= current
      ensures r.Ok? ==> IsForUpdates(r.value)
      ensures r.Ok? ==> (|r.value.children| == 0 <==> !old(StartsAssignment()))
      ensures r.Ok? ==> SpelledBy(Unparse(r.value), tokens, old(current), current)
      ensures r.Err? ==> r.error.UnexpectedToken? && Unexpected(r.error.text, old(current))
      decreases |tokens| - current, 13
    {
      var updates := Leafless("for_updates");
      UnparseCollection("for_updates");
      SpelledByNothing(tokens, current);
      if StartsAssignment() {
        var a :- ParseAssignment();
        UnparseSingle("for_updates", a);
        updates := updates.AddTree(a);
      }
      return Ok(updates);
    }

    // ---------------------------------------------------------------------
    // Expressions
    // ---------------------------------------------------------------------

    /**
     * Parser::parseExpression. Like every level below it, it reads as far
     * as its operators allow: it stops on no operator of any binary level.
     */
    method ParseExpression() returns (r: Result<Tree>)
      requires Valid()
      modifies this`current
      ensures Valid() && old(current) <= current
      ensures r.Ok? ==> IsExpression(r.value) && old(current) < current
      ensures r.Ok? ==> SpelledBy(Unparse(r.value), tokens, old(current), current) && !AtOperator(TopLevel)
      ensures r.Err? ==> r.error.UnexpectedToken? && Unexpected(r.error.text, old(current))
      decreases |tokens| - current, 11
    {
      r := ParseLogicalOr();
    }

    /** Parser::parseLogicalOrExpression: logical-and operands joined by 😇 or ||, to the left. */
    method ParseLogicalOr() returns (r: Result<Tree>)
      requires Valid()
      modifies this`current
      ensures Valid() && old(current) <= current
      ensures r.Ok? ==> IsLevel(r.value, 5) && old(current) < current
      ensures r.Ok? ==> SpelledBy(Unparse(r.value), tokens, old(current), current) && !AtOperator(5)
      ensures r.Err? ==> r.error.UnexpectedToken? && Unexpected(r.error.text, old(current))
      decreases |tokens| - current, 10
    {
      var expr :- ParseLogicalAnd();
      while Check(Glyphs.Or) || Check("||")
        invariant Valid() && old(current) < current
        invariant IsLevel(expr, 5)
        invariant SpelledBy(Unparse(expr), tokens, old(current), current) && !AtOperator(4)
        decreases |tokens| - current
      {
        assert Peek().text in LevelOps(5) by { LogicalOrTest(); }
        expr :- LogicalOrRound(expr, old(current));
      }
      assert !AtOperator(5) by {
        LogicalOrTest();
        StopsAtLevel(5);
      }
      return Ok(expr);
    }

    /** One round of Parser::parseLogicalOrExpression's loop: the operator, then the next operand. */
    method LogicalOrRound(expr: Tree, ghost from: nat) returns (r: Result<Tree>)
      requires Valid() && from < current && !IsAtEnd() && Peek().text in LevelOps(5)
      requires IsLevel(expr, 5) && SpelledBy(Unparse(expr), tokens, from, current)
      modifies this`current
      ensures Valid() && old(current) < current
      ensures r.Ok? ==> r.value.data == "logicalorexpression" && |r.value.children| == 3
                        && r.value.children[0] == Subtree(expr) && r.value.children[1] == Leaf(old(Peek()))
      ensures r.Ok? ==> IsLevel(r.value, 5) && SpelledBy(Unparse(r.value), tokens, from, current) && !AtOperator(4)
      ensures r.Err? ==> r.error.UnexpectedToken? && Unexpected(r.error.text, old(current))
      decreases |tokens| - current, 9
    {
      var op := Advance();
      ghost var c2 := current;
      var right :- ParseLogicalAnd();
      SpelledByStep(Kept(op), tokens, old(current), c2);
      SpelledBinary(5, expr, op, right, tokens, from, old(current), c2, current);
      return Ok(Leafless("logicalorexpression").AddTree(expr).AddToken(op).AddTree(right));
    }

    /** Parser::parseLogicalAndExpression: equality operands joined by 😠 or &&, to the left. */
    method ParseLogicalAnd() returns (r: Result<Tree>)
      requires Valid()
      modifies this`current
      ensures Valid() && old(current) <= current
      ensures r.Ok? ==> IsLevel(r.value, 4) && old(current) < current
      ensures r.Ok? ==> SpelledBy(Unparse(r.value), tokens, old(current), current) && !AtOperator(4)
      ensures r.Err? ==> r.error.UnexpectedToken? && Unexpected(r.error.text, old(current))
      decreases |tokens| - current, 9
    {
      var expr :- ParseInclusiveOr();
      while Check(Glyphs.And) || Check("&&")
        invariant Valid() && old(current) < current
        invariant IsLevel(expr, 4)
        invariant SpelledBy(Unparse(expr), tokens, old(current), current) && !AtOperator(3)
        decreases |tokens| - current
      {
        assert Peek().text in LevelOps(4) by { LogicalAndTest(); }
        expr :- LogicalAndRound(expr, old(current));
      }
      assert !AtOperator(4) by {
        LogicalAndTest();
        StopsAtLevel(4);
      }
      return Ok(expr);
    }

    /** One round of Parser::parseLogicalAndExpression's loop: the operator, then the next operand. */
    method LogicalAndRound(expr: Tree, ghost from: nat) returns (r: Result<Tree>)
      requires Valid() && from < current && !IsAtEnd() && Peek().text in LevelOps(4)
      requires IsLevel(expr, 4) && SpelledBy(Unparse(expr), tokens, from, current)
      modifies this`current
      ensures Valid() && old(current) < current
      ensures r.Ok? ==> r.value.data == "logicalandexpression" && |r.value.children| == 3
                        && r.value.children[0] == Subtree(expr) && r.value.children[1] == Leaf(old(Peek()))
      ensures r.Ok? ==> IsLevel(r.value, 4) && SpelledBy(Unparse(r.value), tokens, from, current) && !AtOperator(3)
      ensures r.Err? ==> r.error.UnexpectedToken? && Unexpected(r.error.text, old(current))
      decreases |tokens| - current, 8
    {
      var op := Advance();
      ghost var c2 := current;
      var right :- ParseInclusiveOr();
      SpelledByStep(Kept(op), tokens, old(current), c2);
      SpelledBinary(4, expr, op, right, tokens, from, old(current), c2, current);
      return Ok(Leafless("logicalandexpression").AddTree(expr).AddToken(op).AddTree(right));
    }

    /** Parser::parseInclusiveOrExpression: passes the equality level through. */
    method ParseInclusiveOr() returns (r: Result<Tree>)
      requires Valid()
      modifies this`current
      ensures Valid() && old(current) <= current
      ensures r.Ok? ==> IsLevel(r.value, 3) && old(current) < current
      ensures r.Ok? ==> SpelledBy(Unparse(r.value), tokens, old(current), current) && !AtOperator(3)
      ensures r.Err? ==> r.error.UnexpectedToken? && Unexpected(r.error.text, old(current))
      decreases |tokens| - current, 8
    {
      r := ParseExclusiveOr();
    }

    /** Parser::parseExclusiveOrExpression: passes the equality level through. */
    method ParseExclusiveOr() returns (r: Result<Tree>)
      requires Valid()
      modifies this`current
      ensures Valid() && old(current) <= current
      ensures r.Ok? ==> IsLevel(r.value, 3) && old(current) < current
      ensures r.Ok? ==> SpelledBy(Unparse(r.value), tokens, old(current), current) && !AtOperator(3)
      ensures r.Err? ==> r.error.UnexpectedToken? && Unexpected(r.error.text, old(current))
      decreases |tokens| - current, 7
    {
      r := ParseAnd();
    }

    /** Parser::parseAndExpression: passes the equality level through. */
    method ParseAnd() returns (r: Result<Tree>)
      requires Valid()
      modifies this`current
      ensures Valid() && old(current) <= current
      ensures r.Ok? ==> IsLevel(r.value, 3) && old(current) < current
      ensures r.Ok? ==> SpelledBy(Unparse(r.value), tokens, old(current), current) && !AtOperator(3)
      ensures r.Err? ==> r.error.UnexpectedToken? && Unexpected(r.error.text, old(current))
      decreases |tokens| - current, 6
    {
      r := ParseEquality();
    }

    /** Parser::parseEqualityExpression: additive operands joined by the six comparison glyphs, to the left. */
    method ParseEquality() returns (r: Result<Tree>)
      requires Valid()
      modifies this`current
      ensures Valid() && old(current) <= current
      ensures r.Ok? ==> IsLevel(r.value, 3) && old(current) < current
      ensures r.Ok? ==> SpelledBy(Unparse(r.value), tokens, old(current), current) && !AtOperator(3)
      ensures r.Err? ==> r.error.UnexpectedToken? && Unexpected(r.error.text, old(current))
      decreases |tokens| - current, 5
    {
      var expr :- ParseAdditive();
      while Check(Glyphs.EqualEqual) || Check(Glyphs.NotEqual) || Check(Glyphs.Less)
        || Check(Glyphs.Greater) || Check(Glyphs.LessEqual) || Check(Glyphs.GreaterEqual)
        invariant Valid() && old(current) < current
        invariant IsLevel(expr, 3)
        invariant SpelledBy(Unparse(expr), tokens, old(current), current) && !AtOperator(2)
        decreases |tokens| - current
      {
        assert Peek().text in LevelOps(3) by { EqualityTest(); }
        expr :- EqualityRound(expr, old(current));
      }
      assert !AtOperator(3) by {
        EqualityTest();
        StopsAtLevel(3);
      }
      return Ok(expr);
    }

    /** One round of Parser::parseEqualityExpression's loop: the operator, then the next operand. */
    method EqualityRound(expr: Tree, ghost from: nat) returns (r: Result<Tree>)
      requires Valid() && from < current && !IsAtEnd() && Peek().text in LevelOps(3)
      requires IsLevel(expr, 3) && SpelledBy(Unparse(expr), tokens, from, current)
      modifies this`current
      ensures Valid() && old(current) < current
      ensures r.Ok? ==> r.value.data == "equalityexpression" && |r.value.children| == 3
                        && r.value.children[0] == Subtree(expr) && r.value.children[1] == Leaf(old(Peek()))
      ensures r.Ok? ==> IsLevel(r.value, 3) && SpelledBy(Unparse(r.value), tokens, from, current) && !AtOperator(2)
      ensures r.Err? ==> r.error.UnexpectedToken? && Unexpected(r.error.text, old(current))
      decreases |tokens| - current, 4
    {
      var op := Advance();
      ghost var c2 := current;
      var right :- ParseAdditive();
      SpelledByStep(Kept(op), tokens, old(current), c2);
      SpelledBinary(3, expr, op, right, tokens, from, old(current), c2, current);
      return Ok(Leafless("equalityexpression").AddTree(expr).AddToken(op).AddTree(right));
    }

    /** Parser::parseAdditiveExpression: multiplicative operands joined by ➕ ➖ + -, to the left. */
    method ParseAdditive() returns (r: Result<Tree>)
      requires Valid()
      modifies this`current
      ensures Valid() && old(current) <= current
      ensures r.Ok? ==> IsLevel(r.value, 2) && old(current) < current
      ensures r.Ok? ==> SpelledBy(Unparse(r.value), tokens, old(current), current) && !AtOperator(2)
      ensures r.Err? ==> r.error.UnexpectedToken? && Unexpected(r.error.text, old(current))
      decreases |tokens| - current, 4
    {
      var expr :- ParseMultiplicative();
      while Check(Glyphs.Plus) || Check(Glyphs.Minus) || Check("+") || Check("-")
        invariant Valid() && old(current) < current
        invariant IsLevel(expr, 2)
        invariant SpelledBy(Unparse(expr), tokens, old(current), current) && !AtOperator(1)
        decreases |tokens| - current
      {
        assert Peek().text in LevelOps(2) by { AdditiveTest(); }
        expr :- AdditiveRound(expr, old(current));
      }
      assert !AtOperator(2) by {
        AdditiveTest();
        StopsAtLevel(2);
      }
      return Ok(expr);
    }

    /** One round of Parser::parseAdditiveExpression's loop: the operator, then the next operand. */
    method AdditiveRound(expr: Tree, ghost from: nat) returns (r: Result<Tree>)
      requires Valid() && from < current && !IsAtEnd() && Peek().text in LevelOps(2)
      requires IsLevel(expr, 2) && SpelledBy(Unparse(expr), tokens, from, current)
      modifies this`current
      ensures Valid() && old(current) < current
      ensures r.Ok? ==> r.value.data == "additiveexpression" && |r.value.children| == 3
                        && r.value.children[0] == Subtree(expr) && r.value.children[1] == Leaf(old(Peek()))
      ensures r.Ok? ==> IsLevel(r.value, 2) && SpelledBy(Unparse(r.value), tokens, from, current) && !AtOperator(1)
      ensures r.Err? ==> r.error.UnexpectedToken? && Unexpected(r.error.text, old(current))
      decreases |tokens| - current, 3
    {
      var op := Advance();
      ghost var c2 := current;
      var right :- ParseMultiplicative();
      SpelledByStep(Kept(op), tokens, old(current), c2);
      SpelledBinary(2, expr, op, right, tokens, from, old(current), c2, current);
      return Ok(Leafless("additiveexpression").AddTree(expr).AddToken(op).AddTree(right));
    }

    /** Parser::parseMultiplicativeExpression: cast operands joined by ✖ ➗ 📎 * / %, to the left. */
    method ParseMultiplicative() returns (r: Result<Tree>)
      requires Valid()
      modifies this`current
      ensures Valid() && old(current) <= current
      ensures r.Ok? ==> IsLevel(r.value, 1) && old(current) < current
      ensures r.Ok? ==> SpelledBy(Unparse(r.value), tokens, old(current), current) && !AtOperator(1)
      ensures r.Err? ==> r.error.UnexpectedToken? && Unexpected(r.error.text, old(current))
      decreases |tokens| - current, 3
    {
      var expr :- ParseCast();
      while Check(Glyphs.Times) || Check(Glyphs.Divide) || Check(Glyphs.Modulo)
        || Check("*") || Check("/") || Check("%")
        invariant Valid() && old(current) < current
        invariant IsLevel(expr, 1)
        invariant SpelledBy(Unparse(expr), tokens, old(current), current) && !AtOperator(0)
        decreases |tokens| - current
      {
        assert Peek().text in LevelOps(1) by { MultiplicativeTest(); }
        expr :- MultiplicativeRound(expr, old(current));
      }
      assert !AtOperator(1) by {
        MultiplicativeTest();
        StopsAtLevel(1);
      }
      return Ok(expr);
    }

    /** One round of Parser::parseMultiplicativeExpression's loop: the operator, then the next operand. */
    method MultiplicativeRound(expr: Tree, ghost from: nat) returns (r: Result<Tree>)
      requires Valid() && from < current && !IsAtEnd() && Peek().text in LevelOps(1)
      requires IsLevel(expr, 1) && SpelledBy(Unparse(expr), tokens, from, current)
      modifies this`current
      ensures Valid() && old(current) < current
      ensures r.Ok? ==> r.value.data == "multiplicativeexpression" && |r.value.children| == 3
                        && r.value.children[0] == Subtree(expr) && r.value.children[1] == Leaf(old(Peek()))
      ensures r.Ok? ==> IsLevel(r.value, 1) && SpelledBy(Unparse(r.value), tokens, from, current) && !AtOperator(0)
      ensures r.Err? ==> r.error.UnexpectedToken? && Unexpected(r.error.text, old(current))
      decreases |tokens| - current, 2
    {
      var op := Advance();
      ghost var c2 := current;
      var right :- ParseCast();
      SpelledByStep(Kept(op), tokens, old(current), c2);
      SpelledBinary(1, expr, op, right, tokens, from, old(current), c2, current);
      return Ok(Leafless("multiplicativeexpression").AddTree(expr).AddToken(op).AddTree(right));
    }

    /** Parser::parseCastExpression: an optional ❗ 〰 ! ~ before an argument, under a castexpression node. */
    method ParseCast() returns (r: Result<Tree>)
      requires Valid()
      modifies this`current
      ensures Valid() && old(current) <= current
      ensures r.Ok? ==> IsLevel(r.value, 0) && old(current) < current
      ensures r.Ok? ==> (|r.value.children| == 2 <==>
                         old(Check(Glyphs.Not) || Check(Glyphs.Tilde) || Check("!") || Check("~")))
      ensures r.Ok? ==> SpelledBy(Unparse(r.value), tokens, old(current), current)
      ensures r.Err? ==> r.error.UnexpectedToken? && Unexpected(r.error.text, old(current))
      decreases |tokens| - current, 2
    {
      var expr := Leafless("castexpression");
      if Check(Glyphs.Not) || Check(Glyphs.Tilde) || Check("!") || Check("~") {
        var op := Advance();
        expr := expr.AddToken(op);
        ghost var mid := current;
        SpelledByStep(Kept(op), tokens, old(current), mid);
        var arg :- ParseArgument();
        SpelledCast(op, arg, tokens, old(current), mid, current);
        expr := expr.AddTree(arg);
      } else {
        var arg :- ParseArgument();
        SpelledBareCast(arg, tokens, old(current), current);
        expr := expr.AddTree(arg);
      }
      return Ok(expr);
    }

    /**
     * Parser::parseArgument: a boolean, number, name or string literal, or
     * 👉 expression 👈 (the closing bracket is skipped unseen); anything
     * else is an "Unexpected token" error naming the current token.
     */
    method ParseArgument() returns (r: Result<Tree>)
      requires Valid()
      modifies this`current
      ensures Valid() && old(current) <= current
      ensures r.Ok? ==> IsArgument(r.value) && old(current) < current
      ensures r.Ok? ==> SpelledBy(ArgumentSlots(r.value), tokens, old(current), current)
      ensures r.Ok? && IsLiteralTag(r.value.data) ==> current == old(current) + 1
      ensures old(Check(Glyphs.True) || Check(Glyphs.False)) ==> r == Ok(Tree("boolean", [Leaf(old(Peek()))]))
      ensures old(!Check(Glyphs.True) && !Check(Glyphs.False)) ==>
                (old(Peek().kind) == Number ==> r == Ok(Tree("number", [Leaf(old(Peek()))]))) &&
                (old(Peek().kind) == Name ==> r == Ok(Tree("name", [Leaf(old(Peek()))]))) &&
                (old(Peek().kind) == StringLit ==> r == Ok(Tree("string", [Leaf(old(Peek()))])))
      ensures (old(!Check(Glyphs.True) && !Check(Glyphs.False) && Peek().kind !in {Number, Name, StringLit} && !Check(Glyphs.OpenParen))
               ==> r == Err(UnexpectedToken(old(Peek()).text)))
      ensures r.Err? ==> r.error.UnexpectedToken? && Unexpected(r.error.text, old(current))
      decreases |tokens| - current, 1
    {
      if Check(Glyphs.True) || Check(Glyphs.False) {
        var t := Advance();
        SpelledByStep(Kept(t), tokens, old(current), current);
        UnparseTokenNode("boolean", t);
        return Ok(Leafless("boolean").AddToken(t));
      }
      if Peek().kind == Number {
        var t := Advance();
        SpelledByStep(Kept(t), tokens, old(current), current);
        UnparseTokenNode("number", t);
        return Ok(Leafless("number").AddToken(t));
      }
      if Peek().kind == Name {
        var t := Advance();
        SpelledByStep(Kept(t), tokens, old(current), current);
        UnparseTokenNode("name", t);
        return Ok(Leafless("name").AddToken(t));
      }
      if Peek().kind == StringLit {
        var t := Advance();
        SpelledByStep(Kept(t), tokens, old(current), current);
        UnparseTokenNode("string", t);
        return Ok(Leafless("string").AddToken(t));
      }
      var open := Match(Glyphs.OpenParen);
      if open {
        ghost var c1 := current;
        var e :- ParseExpression();
        ghost var c2 := current;
        var _ := Advance();
        SpelledByStep(Skipped, tokens, c2, current);
        SpelledByJoin([Checked(Glyphs.OpenParen)], Unparse(e), tokens, old(current), c1, c2);
        SpelledByJoin([Checked(Glyphs.OpenParen)] + Unparse(e), [Skipped], tokens, old(current), c2, current);
        ExpressionArgumentSlots(e);
        return Ok(e);
      }
      assert !StartsArgument(tokens[current]);
      return Err(UnexpectedToken(Peek().text));
    }
  }

  /** An expression result is a statement result. */
  lemma ExpressionIsStatement(r: Result<Tree>)
    requires r.Ok? ==> IsExpression(r.value)
    ensures r.Ok? ==> IsStatement(r.value)
  {
  }

  /** The first tokens of the statements parseStatement recognises by their keyword. */
  const StatementKeywords: set<string> :=
    {Glyphs.Decl, Glyphs.Print, Glyphs.If, Glyphs.While, Glyphs.For, Glyphs.Break, Glyphs.Continue}

  /** Adding a name node to a declaration (or to the empty declare_stmt node) gives a declaration. */
  function DeclareName(stmt: Tree, name: Token): (t: Tree)
    requires stmt.data == "declare_stmt" && (|stmt.children| == 0 || IsDeclare(stmt))
    ensures IsDeclare(t) && IsNameNode(t.children[|t.children| - 1])
    ensures t == stmt.AddTree(Tree("name", [Leaf(name)]))
    ensures t.children[..|stmt.children|] == stmt.children
  {
    var t := stmt.AddTree(Leafless("name").AddToken(name));
    var n := |stmt.children|;
    assert forall i :: 0 <= i < n ==> t.children[i] == stmt.children[i];
    assert IsNameNode(t.children[n]);
    assert IsDeclare(t) by {
      forall i | 0 < i < |t.children|
        ensures DeclaredAt(t.children, i)
      {
        if i < n {
          assert DeclaredAt(stmt.children, i);
          assert t.children[i] == stmt.children[i] && t.children[i - 1] == stmt.children[i - 1];
        }
      }
    }
    t
  }

  /** Children kept by two extensions in turn are kept by both together. */
  lemma ChildrenKept(s: Tree, t: Tree, u: Tree)
    requires |s.children| <= |t.children| <= |u.children|
    requires t.children[..|s.children|] == s.children && u.children[..|t.children|] == t.children
    ensures u.children[..|s.children|] == s.children
  {
    assert u.children[..|s.children|] == u.children[..|t.children|][..|s.children|];
  }

  /** An initial value may follow a name in a declaration. */
  function DeclareValue(stmt: Tree, e: Tree): (t: Tree)
    requires IsDeclare(stmt) && IsNameNode(stmt.children[|stmt.children| - 1]) && IsExpression(e)
    ensures IsDeclare(t) && t == stmt.AddTree(e)
    ensures t.children[..|stmt.children|] == stmt.children
  {
    var t := stmt.AddTree(e);
    var n := |stmt.children|;
    assert forall i :: 0 <= i < n ==> t.children[i] == stmt.children[i];
    assert IsNameNode(t.children[n - 1]) && IsExpressionChild(t.children[n]);
    assert IsDeclare(t) by {
      forall i | 0 < i < |t.children|
        ensures DeclaredAt(t.children, i)
      {
        if i < n {
          assert DeclaredAt(stmt.children, i);
          assert t.children[i] == stmt.children[i] && t.children[i - 1] == stmt.children[i - 1];
        }
      }
    }
    t
  }
}
