# emojilang in Dafny

emojilang is a small scripting language whose keywords and operators are
emoji. A program goes through four stages:

1. The driver appends a newline to the text of a program.
2. `Parser` splits the text into tokens and builds a parse tree of `Tree`
   nodes. Each child of a node is either a token or a sub-tree.
3. `EmojiTransformer` rewrites the emoji operator tokens of that tree to their
   plain spelling.
4. `EmojiInterpreter` walks the tree against a `SymbolTable`, a stack of
   scopes that map names to values. `print` statements write lines.

This project models those four stages, one module per source file:

| module | models |
|---|---|
| `Tokens` | tokens and their equality |
| `Trees` | parse trees, their `addChild` overloads and the pretty printer |
| `Symbols` | the scope stack |
| `Glyphs` | the emoji spellings, as UTF-8 byte strings |
| `Lexer` | `Parser::tokenize` |
| `Parsing` | the `Parser` class |
| `Grammar` | the shapes of tree the parser builds |
| `Transformer` | `EmojiTransformer` |
| `Values`, `Operators` | the value conversions and operators of the interpreter |
| `Semantics` | what evaluating a tree does, as functions of the program state |
| `Interpreter` | the `EmojiInterpreter` class, with its loops, proved equal to `Semantics` |
| `Behaviour` | properties of whole statements and expressions |
| `Pipeline` | the driver's sequence of parse, transform, run |

Several properties of the language come straight from the code and are
proved about the model:

- **An `if` statement never runs its body.** The parser does not keep the
  `if` keyword token in the `if_stmt` node. `visitIfStatement` only acts on
  keyword tokens, so a parsed `if` evaluates to nothing and changes nothing.
  The parser also never builds `elif` or `else` branches.
- **Declaration initialisers are ignored.** In `decl x = e`, the parser stores
  `e` as a bare expression, but `visitDeclareStatement` only evaluates
  `assignment_stmt` children. Every declared name holds `0`.
- **Equality is text-based.** The equality visitor builds the text
  `"a op b "` and answers true only when that text contains `==` and both
  operands print the same. Every other comparison answers false.
- **`break` and `continue` are strings.** A statement that evaluates to the
  string `"break"` stops a suite exactly as `break` does. A `continue` does
  not skip a `for` loop's update clause.
- **No short-circuit.** Both operands of `and` and `or` are always evaluated.

The parser's results are tied to the tokens it reads. `Grammar.Unparse`
lists, for a tree, the tokens it is read from: its leaves in order
(`Kept`), the declared names, which `advance()` takes without looking at
them (`Taken`), the keywords and separators whose text the parser checks
and drops (`Checked`), and the closing brackets and other delimiters that
`advance()` steps over unseen (`Skipped`). `Grammar.SpelledBy(slots,
tokens, from, to)` says that `tokens[from..to]` fills those slots one by
one. Each parse method ensures that the tree it returns is spelled by
exactly the tokens it consumed, `tokens[old(current)..current]`, and that
every error is the "Unexpected token" error raised on a token that cannot
begin an argument.

## Model

| member | source | states |
|---|---|---|
| Tokens.NewToken | src/Token.cpp:3-4 | a new token has the given kind and text and position (0, 0) |
| Tokens.ToStringOfNewToken | src/Token.cpp:6-8 | a token prints as its text and equals its own text |
| Tokens.EqualityIgnoresPosition | src/Token.cpp:10-16 | token equality and comparison with a string ignore line and column |
| Tokens.EqualsIsEquivalence | src/Token.cpp:14-16 | token equality is reflexive, symmetric and transitive |
| Tokens.EqualsAgreesWithText | src/Token.cpp:10-16 | equal tokens compare alike against any string; two tokens are equal exactly when their kinds agree and one's text equals the other's printed form |
| Trees.Tree.AddChild | src/Tree.cpp:9-11 | appending a child keeps the tag and the earlier children and puts the child last |
| Trees.Tree.AddText | src/Tree.cpp:13-16 | appending a text adds one string token that prints as that text |
| Trees.Tree.AddToken | src/Tree.cpp:18-20 | appending a token adds it as the last child, a leaf |
| Trees.Tree.AddTree | src/Tree.cpp:22-24 | appending a tree adds it as the last child, a sub-tree |
| Trees.Leafless | src/Tree.cpp:4-7 | a new node has its tag and no children |
| Trees.PrettyAddChild | src/Tree.cpp:26-48 | printing a node with one more child appends exactly that child's printout |
| Trees.PrettyLineCount | src/Tree.cpp:26-36 | the printout of a tree has one line per node and per token |
| Trees.PrettyChildrenLineCount | src/Tree.cpp:30-34 | the printout of a list of children has one line per node and token below them |
| Trees.PrettyNodeLineCount | src/Tree.cpp:38-48 | the printout of one child has one line per node and token in it |
| Symbols.Find | src/SymbolTable.cpp:40-47 | the index of the innermost scope binding the name (no later scope binds it), or -1 |
| Symbols.AddBinding | src/SymbolTable.cpp:23-38 | a successful declaration keeps the number of scopes |
| Symbols.UpdateBinding | src/SymbolTable.cpp:49-55 | a successful assignment keeps the number of scopes |
| Symbols.SymbolTable.constructor | src/SymbolTable.cpp:4 | a new table has no scopes |
| Symbols.SymbolTable.AddScope | src/SymbolTable.cpp:19-21 | pushes one empty scope on top |
| Symbols.SymbolTable.AddSymbol | src/SymbolTable.cpp:23-38 | fails with no scope or on redeclaration in the innermost scope (then nothing changes); otherwise binds the name in the innermost scope, an absent value as 0 |
| Symbols.SymbolTable.DoesSymbolExist | src/SymbolTable.cpp:40-47 | returns the innermost scope that binds the name, and -1 exactly when none does |
| Symbols.SymbolTable.UpdateSymbol | src/SymbolTable.cpp:49-55 | fails, changing nothing, exactly when no scope binds the name; otherwise overwrites the innermost binding |
| Symbols.SymbolTable.GetValue | src/SymbolTable.cpp:57-63 | the innermost binding of the name, and the undeclared error exactly when no scope binds it |
| Symbols.SymbolTable.RemoveScope | src/SymbolTable.cpp:65-70 | fails on an empty table; otherwise pops exactly the innermost scope |
| Symbols.FindIsInnermost | src/SymbolTable.cpp:41-46 | any index binding the name with no later scope binding it is the one the search finds |
| Symbols.FindSameDomains | src/SymbolTable.cpp:40-47 | the search depends only on which scopes bind the name, not on the values |
| Symbols.LookupAfterDeclare | src/SymbolTable.cpp:32-37 | a name read right after its declaration gives the declared value (0 for none) |
| Symbols.LookupOtherAfterDeclare | src/SymbolTable.cpp:32-37 | declaring one name leaves what every other name reads unchanged |
| Symbols.LookupAfterAssign | src/SymbolTable.cpp:49-55 | a name read right after an assignment gives the assigned value |
| Symbols.AssignChangesOneBinding | src/SymbolTable.cpp:54 | an assignment changes only the scope that held the name, and no other name's value |
| Symbols.ShadowingInNewScope | src/SymbolTable.cpp:19-38 | in a freshly pushed scope any name may be declared again; it shadows the outer binding and leaves the outer scopes untouched |
| Symbols.PushPopRestores | src/SymbolTable.cpp:65-70 | pushing and then popping a scope gives back the stack as it was |
| Glyphs.TableShape | src/Parser.cpp:12-51 | the 36 emoji spellings, each of at least 3 bytes, ordered longest first |
| Lexer.RunEnd | src/Parser.cpp:93-113 | the end of the longest run of bytes of one class from a position |
| Lexer.FirstGlyph | src/Parser.cpp:115-125 | the first table entry spelled at a position; none before it, and none at all when absent |
| Lexer.TableLongestFirst | src/Parser.cpp:115-125 | an earlier table entry is never shorter than a later one |
| Lexer.MatchIsLongest | src/Parser.cpp:115-125 | whenever some emoji is spelled at a position, a match is found, at least as long as that emoji |
| Lexer.StringAt | src/Parser.cpp:81-90 | scanning a string literal always moves forward and stays in the text |
| Lexer.NumberAt | src/Parser.cpp:93-103 | scanning a number always moves forward and stays in the text |
| Lexer.WordAt | src/Parser.cpp:106-113 | scanning an identifier always moves forward and stays in the text |
| Lexer.OperatorAt | src/Parser.cpp:115-132 | scanning an emoji or single byte always moves forward and stays in the text |
| Lexer.ScanAt | src/Parser.cpp:57-132 | one step of the scanner always moves forward and stays in the text |
| Lexer.ScanAtShape | src/Parser.cpp:57-132 | white space and comments give no token, a comment runs to the newline; strings are the bytes up to the closing quote; numbers, identifiers and emoji are the longest match; otherwise exactly one byte |
| Lexer.LexFromEndsWithEof | src/Parser.cpp:135 | the tokens from any position end with exactly one end-of-file token |
| Lexer.LexEndsWithEof | src/Parser.cpp:53-137 | tokenising never fails and ends with exactly one end-of-file token |
| Lexer.NoCommentStart | src/Parser.cpp:67-71 | the comment emoji starts only where its four bytes are |
| Lexer.SkipComment | src/Parser.cpp:73-75 | the loop stops at the first newline after the comment, or at the end |
| Lexer.ScanString | src/Parser.cpp:81-90 | the loop yields the string token and position the scanner specifies |
| Lexer.ScanNumber | src/Parser.cpp:93-103 | the loop yields the number token and position the scanner specifies |
| Lexer.ScanWord | src/Parser.cpp:106-113 | the loop yields the identifier token and position the scanner specifies |
| Lexer.FindGlyph | src/Parser.cpp:115-125 | the loop over the glyph table stops at the first glyph spelled at the position, or finds none |
| Lexer.ScanOperator | src/Parser.cpp:115-132 | the loop over the emoji table yields the operator token the scanner specifies |
| Lexer.ScanOne | src/Parser.cpp:57-132 | one iteration of the tokenize loop agrees with the scanner |
| Lexer.Tokenize | src/Parser.cpp:53-137 | the token list is the lexical reading of the text and ends with end-of-file |
| Grammar.ExpressionRoot | src/Parser.cpp:328-426 | every parsed expression has a cast or binary-level tag at its root |
| Parsing.Parser.constructor | src/Parser.cpp:8-10 | a new parser has no tokens and stands at 0 |
| Parsing.Parser.AtEndIsLastToken | src/Parser.cpp:180-182 | the parser is at the end exactly on the last token, and that token is end-of-file |
| Parsing.Parser.Advance | src/Parser.cpp:162-165 | moves one token forward unless at the end, and returns the token just passed |
| Parsing.Parser.Match | src/Parser.cpp:167-173 | consumes one token exactly when the current one has the given text |
| Parsing.Parser.Parse | src/Parser.cpp:139-153 | the tokens are the text's tokens; on success the tree is a well-formed program, every token before end-of-file was read, and the tree is spelled by exactly those tokens, statement after statement; an error is the unexpected-token error on a token of the input that cannot begin an argument |
| Parsing.Parser.ParseStatement | src/Parser.cpp:185-199 | a well-formed statement spelled by exactly the (at least one) tokens consumed; its tag is chosen by the leading keyword (declaration, print, if, while, for, break/continue, assignment); an error names a token that cannot begin an argument |
| Parsing.Parser.ParseAssignment | src/Parser.cpp:212-223 | an assignment spelled by the name token it started on (kept as the target), one skipped token and the tokens of its expression |
| Parsing.Parser.ParseDeclare | src/Parser.cpp:225-248 | a declaration spelled by the declaration keyword, then names separated by commas, each optionally followed by the assignment glyph and an expression; it stops where no comma follows |
| Parsing.Parser.ParseDeclarator | src/Parser.cpp:237-245 | one more name, taken unseen, and, after the assignment glyph, its expression: the earlier children are kept and the declaration read so far is spelled from its start |
| Parsing.Parser.ParseFlow | src/Parser.cpp:250-263 | consumes exactly the keyword and builds a break node for break and a continue node for continue |
| Parsing.Parser.ParsePrint | src/Parser.cpp:265-274 | a print statement spelled by the print keyword, a skipped bracket, the tokens of its one expression and a skipped bracket |
| Parsing.Parser.ParseConditional | src/Parser.cpp:276-306 | an if or while node holding only a condition and a suite, spelled by the keyword (checked, not kept), a skipped bracket, the condition's tokens, two skipped delimiters, the suite's tokens and a skipped closer |
| Parsing.Parser.ParseFor | src/Parser.cpp:308-326 | a for node with declaration, test, updates and body, in that order, spelled by the keyword, the clauses with their skipped separators and the body |
| Parsing.Parser.ParseForClauses | src/Parser.cpp:313-317 | the three clauses between the brackets of a for statement, with the skipped separators between them, spelled after what the statement read before |
| Parsing.Parser.ParseBody | src/Parser.cpp:283-288 | the closing bracket, the skipped opener and the suite of an if, while or for statement, and the skipped closer after it, spelled after what the statement read before |
| Parsing.Parser.ParseSuite | src/Parser.cpp:462-473 | a suite of well-formed statements spelled by exactly the tokens consumed, stopped at a closing brace or the end, which it does not consume |
| Parsing.Parser.ParseForDecl | src/Parser.cpp:475-485 | empty exactly when neither a declaration nor an assignment follows; spelled by exactly the tokens consumed |
| Parsing.Parser.ParseForTest | src/Parser.cpp:487-495 | empty exactly when the semicolon follows at once; spelled by exactly the tokens consumed |
| Parsing.Parser.ParseForUpdates | src/Parser.cpp:497-505 | empty exactly when no assignment follows; spelled by exactly the tokens consumed |
| Parsing.Parser.ParseExpression | src/Parser.cpp:328-330 | a well-formed expression spelled by exactly the (at least one) tokens consumed, which stops only where the next token is no binary operator of any level |
| Parsing.Parser.ParseLogicalOr | src/Parser.cpp:333-345 | a logical-or level spelled by exactly the tokens consumed, its operators folded to the left, stopped where the next token is no operator of this level or a lower one |
| Parsing.Parser.LogicalOrRound | src/Parser.cpp:337-341 | one operator of the level and its right operand: a three-child node over the tree so far, the operator leaf and the operand, spelled from where the tree so far began; the operand stops at the logical-and operators |
| Parsing.Parser.ParseLogicalAnd | src/Parser.cpp:347-359 | a logical-and level spelled by exactly the tokens consumed, folded to the left, stopped where the next token is no operator of this level or a lower one |
| Parsing.Parser.LogicalAndRound | src/Parser.cpp:351-355 | one logical-and operator and its right operand, as for logical or |
| Parsing.Parser.ParseInclusiveOr | src/Parser.cpp:361-363 | passes the equality level through: no inclusive-or node is built, and the same spelling and stop hold |
| Parsing.Parser.ParseExclusiveOr | src/Parser.cpp:365-367 | passes the equality level through: no exclusive-or node is built, and the same spelling and stop hold |
| Parsing.Parser.ParseAnd | src/Parser.cpp:369-371 | passes the equality level through: no and node is built, and the same spelling and stop hold |
| Parsing.Parser.ParseEquality | src/Parser.cpp:373-385 | an equality level spelled by exactly the tokens consumed, folded to the left, stopped where the next token is no comparison, additive or multiplicative operator |
| Parsing.Parser.EqualityRound | src/Parser.cpp:377-381 | one comparison operator and its right operand, as for logical or |
| Parsing.Parser.ParseAdditive | src/Parser.cpp:387-399 | an additive level spelled by exactly the tokens consumed, folded to the left, stopped where the next token is no additive or multiplicative operator |
| Parsing.Parser.AdditiveRound | src/Parser.cpp:391-395 | one additive operator and its right operand, as for logical or |
| Parsing.Parser.ParseMultiplicative | src/Parser.cpp:401-413 | a multiplicative level spelled by exactly the tokens consumed, folded to the left, stopped where the next token is no multiplicative operator |
| Parsing.Parser.MultiplicativeRound | src/Parser.cpp:405-409 | one multiplicative operator and its right operand, as for logical or |
| Parsing.Parser.ParseCast | src/Parser.cpp:415-426 | a cast node with two children exactly when a not or tilde comes first; spelled by that operator and the argument's tokens |
| Parsing.Parser.ParseArgument | src/Parser.cpp:428-460 | a boolean, number, name or string leaf node for the matching token, consuming exactly that one token; a parenthesised expression spelled with its opening bracket checked and its closing one skipped; otherwise the unexpected-token error on the current token |
| Parsing.ExpressionIsStatement | src/Parser.cpp:198 | an expression is accepted as a statement |
| Parsing.DeclareName | src/Parser.cpp:229-231 | appending a name keeps the declaration well formed and its earlier children |
| Parsing.DeclareValue | src/Parser.cpp:233-235 | appending an initialiser after a name keeps the declaration well formed |
| Parsing.ChildrenKept | src/Parser.cpp:229-235 | appending a name and then an initialiser keeps every earlier child of the declaration |
| Grammar.SpelledByStep | src/Parser.cpp:162-165 | one advance() fills one slot: the token it passes, or nothing at end-of-file for a slot read unseen |
| Grammar.SpelledByJoin | src/Parser.cpp:139-505 | the tokens read one after another spell the slots read one after another |
| Grammar.OpenedAddChild | src/Tree.cpp:9-11 | appending a child appends its slots to the node's spelling |
| Grammar.BinaryIsLevel | src/Parser.cpp:333-413 | folding one more operator and operand of a level gives a node of that level |
| Grammar.UnparseBinary | src/Parser.cpp:333-413 | a binary node is spelled by its left operand, its operator and its right operand |
| Grammar.SpelledBinary | src/Parser.cpp:333-413 | the tokens of the left operand, the operator and the right operand spell the new binary node |
| Grammar.UnparseAssignment | src/Parser.cpp:212-223 | an assignment is spelled by its name, one skipped token and its expression |
| Grammar.UnparsePrint | src/Parser.cpp:265-274 | a print statement is spelled by its keyword, a skipped bracket, its expression and a skipped bracket |
| Grammar.UnparseConditional | src/Parser.cpp:276-306 | an if or while statement is spelled by its keyword, a skipped bracket, the condition, two skipped delimiters, the suite and a skipped closer |
| Grammar.UnparseFor | src/Parser.cpp:308-326 | a for statement is spelled by its keyword, the three clauses between skipped delimiters, then the suite |
| Grammar.UnparseSequence | src/Parser.cpp:462-473 | a collecting node with one more child is spelled by its old spelling followed by the child's |
| Grammar.SpelledSequence | src/Parser.cpp:139-153 | the tokens of a program or suite so far, then those of a statement, spell the node with that statement added |
| Grammar.ProgramAdd | src/Parser.cpp:147-150 | adding a well-formed statement keeps a program well formed |
| Grammar.SuiteAdd | src/Parser.cpp:466-470 | adding a well-formed statement keeps a suite well formed |
| Grammar.UnparseSingle | src/Parser.cpp:475-505 | a for clause with one child is spelled by that child |
| Grammar.UnparseCast | src/Parser.cpp:415-426 | a cast node is spelled by its operator, if any, and its argument |
| Grammar.SpelledCast | src/Parser.cpp:415-422 | the operator and the argument's tokens spell the two-child cast node |
| Grammar.SpelledBareCast | src/Parser.cpp:423-425 | the argument's tokens spell the one-child cast node |
| Grammar.UnparseFlow | src/Parser.cpp:250-263 | a break or continue statement is spelled by its keyword alone |
| Grammar.DeclareNameSlots | src/Parser.cpp:229-231 | a further declared name adds the comma before it, when there is an earlier child, and the name, taken unseen |
| Grammar.DeclareValueSlots | src/Parser.cpp:233-235 | an initialiser adds the assignment glyph and its expression |
| Grammar.SpelledDeclareName | src/Parser.cpp:229-231 | the tokens of the declaration so far and the next name spell the declaration with that name |
| Grammar.SpelledDeclareValue | src/Parser.cpp:233-235 | the tokens of the declaration so far, the assignment glyph and the expression spell the declaration with that initialiser |
| Transformer.Visit | src/EmojiTransformer.cpp:19-47 | the walk produces the normalised tree |
| Transformer.VisitChildren | src/EmojiTransformer.cpp:49-55 | visiting the sub-trees of a handled node completes its normalisation |
| Transformer.RewriteEachToken | src/EmojiTransformer.cpp:96-188 | the binary and if handlers rewrite the spelling of every token child by their table |
| Transformer.VisitBoolean | src/EmojiTransformer.cpp:72-81 | the boolean handler rewrites the first child only |
| Transformer.VisitCast | src/EmojiTransformer.cpp:83-94 | the cast handler rewrites the operator only when there are two children |
| Transformer.NormalizePreservesShape | src/EmojiTransformer.cpp:19-55 | normalisation changes only token texts: tags, child counts and token kinds stay |
| Transformer.NormalizeChildPreservesShape | src/EmojiTransformer.cpp:49-55 | normalising one child changes only token texts |
| Transformer.RewriteTextIdempotent | src/EmojiTransformer.cpp:96-188 | rewriting an already rewritten spelling changes nothing |
| Transformer.SpellingsArePlain | src/EmojiTransformer.cpp:57-188 | no plain spelling a handler produces is itself one of the glyphs that handler rewrites |
| Transformer.NormalizeIdempotent | src/EmojiTransformer.cpp:19-55 | running the transformer twice gives the same tree as running it once |
| Transformer.NormalizeChildIdempotent | src/EmojiTransformer.cpp:49-55 | normalising a child twice is normalising it once |
| Transformer.RewriteOnlyOwnGlyphs | src/EmojiTransformer.cpp:57-188 | a token changes only when its handler's table lists its spelling, and then to the listed plain spelling |
| Transformer.OtherTagsKeepTokens | src/EmojiTransformer.cpp:19-47 | nodes without a handler keep their tokens |
| Transformer.EqualityHandlerIsGetMatch | src/EmojiTransformer.cpp:124-133 | the equality handler rewrites through getMatch |
| Transformer.GetMatchSpellings | src/EmojiTransformer.cpp:190-195 | getMatch maps the six comparison emoji to six comparison operators, leaves anything else alone, is idempotent and gives `==` only for the double-equals emoji or `==` itself |
| Transformer.NormalizedEqualityOperator | src/EmojiTransformer.cpp:124-133 | a parsed comparison operator becomes one of `<`, `>`, `>=`, `<=`, `==`, `!=`, and `==` exactly for the double-equals emoji |
| Transformer.NormalizedArithmeticOperator | src/EmojiTransformer.cpp:96-122 | a parsed additive operator becomes `+` or `-`, a multiplicative one `*`, `/` or `%` |
| Values.DigitValue | src/EmojiInterpreter.cpp:535-552 | a digit's value is below ten |
| Values.DigitChar | src/EmojiInterpreter.cpp:485-498 | the digit written for a value below ten reads back as that value |
| Values.NatToString | src/EmojiInterpreter.cpp:485-498 | a natural number prints as a non-empty run of digits with no leading zero |
| Values.SkipSpace | src/EmojiInterpreter.cpp:545-549 | skipping leading white space leaves a suffix that starts with no space |
| Values.DigitPrefix | src/EmojiInterpreter.cpp:545-549 | the longest prefix of digits |
| Values.DigitsValueOfNatToString | src/EmojiInterpreter.cpp:485-498 | reading back the digits printed for a natural number gives that number |
| Values.DigitPrefixOfDigits | src/EmojiInterpreter.cpp:545-549 | a string of digits is its own digit prefix |
| Values.StoiOfIntToString | src/EmojiInterpreter.cpp:535-552 | reading back a printed int gives that int |
| Values.IntToStringIsZero | src/EmojiInterpreter.cpp:485-498 | an int prints as `0` exactly when it is zero |
| Values.ValueToBoolOfString | src/EmojiInterpreter.cpp:519-533 | a value other than a double has the same truth as its printed form |
| Values.ValueToIntOfString | src/EmojiInterpreter.cpp:535-552 | an int, a string or nothing converts to the same int as its printed form |
| Values.ValueToStringIsZero | src/EmojiInterpreter.cpp:485-498 | a value other than a double prints as `0` exactly when it is nothing, the int 0 or the string `0` |
| Values.ValueToDoubleThroughInt | src/EmojiInterpreter.cpp:500-517 | nothing, an int or a bool converts to the double of the int it converts to; a string that is no number converts to 0.0 |
| Operators.CRem | src/EmojiInterpreter.cpp:176-177 | the C remainder is smaller than the divisor in magnitude and has the sign of the dividend |
| Operators.CRemDivision | src/EmojiInterpreter.cpp:176-177 | dividend = divisor × truncated quotient + C remainder |
| Operators.IntResult | src/EmojiInterpreter.cpp:139-171 | an int result is defined exactly when it fits in 32 bits |
| Operators.IntRem | src/EmojiInterpreter.cpp:176-177 | `%` on ints is defined exactly when the divisor is non-zero and not INT_MIN % -1, and then gives the C remainder |
| Operators.Pow2 | src/EmojiInterpreter.cpp:210-265 | a power of two is at least 1 |
| Operators.Pow2Add | src/EmojiInterpreter.cpp:210-265 | powers of two multiply by adding exponents |
| Operators.Pow2Word | src/EmojiInterpreter.cpp:210-265 | 2 to the 32 is 0x1_0000_0000 |
| Operators.Combine | src/EmojiInterpreter.cpp:210-265 | a bit operation on two bits gives a bit |
| Operators.Bitwise | src/EmojiInterpreter.cpp:210-265 | a bit operation on w-bit words gives a w-bit word |
| Operators.ToUnsigned | src/EmojiInterpreter.cpp:210-265 | an int's two's-complement word is below 2^32 and equal to it modulo 2^32 |
| Operators.FromUnsigned | src/EmojiInterpreter.cpp:210-265 | reading a word as an int is the inverse of the two's-complement word |
| Operators.BitNot | src/EmojiInterpreter.cpp:112-126 | `~x` is `-x - 1` |
| Operators.XorTwice | src/EmojiInterpreter.cpp:229-246 | xor-ing twice with the same word gives back the original |
| Operators.WithAllOnes | src/EmojiInterpreter.cpp:210-246 | and with all ones is the identity; xor with all ones is the complement |
| Operators.WithZero | src/EmojiInterpreter.cpp:248-265 | or with zero is the identity |
| Operators.BitXorCancels | src/EmojiInterpreter.cpp:229-246 | `(x ^ y) ^ y == x` on ints |
| Operators.BitIdentities | src/EmojiInterpreter.cpp:210-265 | `x & -1 == x` and `x \| 0 == x` on ints |
| Operators.BitNotIsComplement | src/EmojiInterpreter.cpp:112-126 | `~x == x ^ -1` on ints |
| Operators.Step | src/EmojiInterpreter.cpp:128-303 | an operator the level does not know leaves the left value as it was; only arithmetic can fail, and only with undefined behaviour; bitwise operators give ints, logical ones booleans, `/` always a double |
| Operators.IntArithmetic | src/EmojiInterpreter.cpp:139-171 | `+`, `-` and `*` on two ints give the exact result when it fits in 32 bits, and undefined behaviour exactly when it does not |
| Operators.ModuloIsTruncating | src/EmojiInterpreter.cpp:176-177 | `%` converts both sides to int and truncates toward zero, failing exactly on zero and INT_MIN % -1 |
| Operators.CastValue | src/EmojiInterpreter.cpp:112-126 | not gives the negated truth, tilde the complement of the int, any other operator nothing |
| Operators.DoubleNegation | src/EmojiInterpreter.cpp:112-126 | two nots give the value's truth as a boolean |
| Operators.DoubleComplement | src/EmojiInterpreter.cpp:112-126 | two tildes give the value as an int |
| Operators.NumberText | src/EmojiInterpreter.cpp:88-102 | a literal without a dot is an int, and only one with a dot can be a double |
| Operators.NumberTextOfInt | src/EmojiInterpreter.cpp:88-102 | the literal of a printed int reads back as that int |
| Operators.BooleanText | src/EmojiInterpreter.cpp:104-110 | a boolean literal is true exactly for `true` or the tick emoji |
| Operators.HasDoubleEqualsAt | src/EmojiInterpreter.cpp:201 | the text contains `==` exactly when two adjacent `=` occur in it |
| Operators.JoinedHasDoubleEquals | src/EmojiInterpreter.cpp:187-201 | joining two texts with a space contains `==` exactly when one of them does |
| Semantics.ExecChild | src/EmojiInterpreter.cpp:15-57 | evaluating a child never gains fuel, only appends output, and on success restores the scope depth |
| Semantics.Exec | src/EmojiInterpreter.cpp:15-48 | evaluating a node never gains fuel, only appends output, and on success restores the scope depth |
| Semantics.ExecLast | src/EmojiInterpreter.cpp:65-71 | a statement list evaluates every child in order, with the same guarantees |
| Semantics.ExecChildren | src/EmojiInterpreter.cpp:59-63 | visitChildren evaluates every child in order, with the same guarantees |
| Semantics.ExecCast | src/EmojiInterpreter.cpp:112-126 | the cast visitor keeps the same guarantees |
| Semantics.ExecFold | src/EmojiInterpreter.cpp:128-303 | the binary visitors keep the same guarantees |
| Semantics.FoldFrom | src/EmojiInterpreter.cpp:133-152 | the operator loop of a binary visitor keeps the same guarantees |
| Semantics.ExecEquality | src/EmojiInterpreter.cpp:184-208 | the equality visitor keeps the same guarantees |
| Semantics.EqualityText | src/EmojiInterpreter.cpp:187-198 | the text the equality visitor builds is a string |
| Semantics.ExecPrint | src/EmojiInterpreter.cpp:312-318 | the print visitor keeps the same guarantees |
| Semantics.ExecAssignment | src/EmojiInterpreter.cpp:320-343 | the assignment visitor keeps the same guarantees |
| Semantics.ExecDeclare | src/EmojiInterpreter.cpp:345-365 | a declaration that succeeds gives nothing and ends with the declaring flag cleared; after a failure the flag is not stated (the exception skips the reset, so it stays set) |
| Semantics.DeclareFrom | src/EmojiInterpreter.cpp:348-360 | the loop over the declaration's children keeps the same guarantees |
| Semantics.ExecSuite | src/EmojiInterpreter.cpp:367-380 | the suite visitor keeps the same guarantees |
| Semantics.Scoped | src/EmojiInterpreter.cpp:390-392 | a body run between pushing and popping a scope leaves the scope depth as it was |
| Semantics.ExecIf | src/EmojiInterpreter.cpp:382-407 | the if visitor keeps the same guarantees |
| Semantics.ExecWhile | src/EmojiInterpreter.cpp:409-425 | a while loop gives nothing and keeps the same guarantees |
| Semantics.ExecFor | src/EmojiInterpreter.cpp:427-451 | a for loop gives nothing and keeps the same guarantees |
| Semantics.ForFrom | src/EmojiInterpreter.cpp:433-446 | the loop of a for statement gives nothing and keeps the same guarantees |
| Interpreter.EmojiInterpreter.constructor | src/EmojiInterpreter.cpp:7-8 | the new interpreter holds the tree, no scopes and no output |
| Interpreter.EmojiInterpreter.Start | src/EmojiInterpreter.cpp:10-13 | runs the program in one new global scope, as the semantics specifies |
| Interpreter.EmojiInterpreter.Visit | src/EmojiInterpreter.cpp:15-48 | dispatching on the tag gives the result and new state the semantics specifies |
| Interpreter.EmojiInterpreter.VisitChild | src/EmojiInterpreter.cpp:50-57 | a token gives its text, a sub-tree is visited, as the semantics specifies |
| Interpreter.EmojiInterpreter.VisitName | src/EmojiInterpreter.cpp:80-86 | a name reads its innermost binding, or the undeclared error |
| Interpreter.EmojiInterpreter.VisitStatement | src/EmojiInterpreter.cpp:65-71 | the statement loop matches the semantics |
| Interpreter.EmojiInterpreter.VisitChildren | src/EmojiInterpreter.cpp:59-63 | the child loop matches the semantics |
| Interpreter.EmojiInterpreter.VisitCast | src/EmojiInterpreter.cpp:112-126 | the cast visitor matches the semantics |
| Interpreter.EmojiInterpreter.VisitFold | src/EmojiInterpreter.cpp:128-303 | the operator loop of the seven binary visitors matches the semantics |
| Interpreter.EmojiInterpreter.VisitEquality | src/EmojiInterpreter.cpp:184-208 | the equality visitor, text building and re-evaluation included, matches the semantics |
| Interpreter.EmojiInterpreter.VisitPrint | src/EmojiInterpreter.cpp:312-318 | printing matches the semantics |
| Interpreter.EmojiInterpreter.VisitAssignment | src/EmojiInterpreter.cpp:320-343 | the assignment visitor matches the semantics |
| Interpreter.EmojiInterpreter.VisitDeclare | src/EmojiInterpreter.cpp:345-365 | the declaration loop matches the semantics |
| Interpreter.EmojiInterpreter.VisitSuite | src/EmojiInterpreter.cpp:367-380 | the suite loop, stopping at a flow signal, matches the semantics |
| Interpreter.EmojiInterpreter.VisitScoped | src/EmojiInterpreter.cpp:390-392 | push a scope, visit, pop the scope, as the semantics specifies |
| Interpreter.EmojiInterpreter.VisitIf | src/EmojiInterpreter.cpp:382-407 | the branch search matches the semantics |
| Interpreter.EmojiInterpreter.VisitWhile | src/EmojiInterpreter.cpp:409-425 | the while loop matches the semantics, and does nothing with fewer than two children |
| Interpreter.EmojiInterpreter.VisitFor | src/EmojiInterpreter.cpp:427-451 | the for statement, with its outer scope, matches the semantics |
| Interpreter.EmojiInterpreter.ForLoop | src/EmojiInterpreter.cpp:433-446 | the test, body and update loop matches the semantics |
| Interpreter.EmojiInterpreter.ForRound | src/EmojiInterpreter.cpp:433-446 | one pass of the loop either ends it with the result the semantics gives, or uses up fuel and leaves the rest of the loop with the same outcome |
| Behaviour.PureTreeKeepsState | src/EmojiInterpreter.cpp:73-303 | an expression built from literals and operators leaves the state untouched and can fail only with an undeclared name or undefined behaviour |
| Behaviour.PureChildKeepsState | src/EmojiInterpreter.cpp:50-57 | the same holds for a child |
| Behaviour.PureFoldKeepsState | src/EmojiInterpreter.cpp:133-152 | the same holds for the operator loop |
| Behaviour.PureEqualityTextKeepsState | src/EmojiInterpreter.cpp:187-198 | the same holds for the text of an equality |
| Behaviour.LevelIsPure | src/Parser.cpp:333-426 | every parsed binary level is such an expression |
| Behaviour.ArgumentIsPure | src/Parser.cpp:428-460 | every parsed argument is such an expression |
| Behaviour.NormalizeKeepsPure | src/EmojiTransformer.cpp:19-55 | normalisation keeps an expression free of side effects |
| Behaviour.ExpressionHasNoEffect | src/EmojiInterpreter.cpp:15-48 | a parsed expression, normalised or not, leaves scopes, output and fuel untouched |
| Behaviour.BinaryEvaluatesBothOperands | src/EmojiInterpreter.cpp:131-137 | a binary node evaluates its left operand, then its right operand, then applies the operator |
| Behaviour.LogicalOperatorsEvaluateBothSides | src/EmojiInterpreter.cpp:267-303 | `and` and `or` fail exactly when one operand fails, and otherwise give the conjunction or disjunction of both truths: no short-circuit |
| Behaviour.ComparisonText | src/EmojiInterpreter.cpp:187-201 | the text `"a op b "` contains `==` exactly when the operator or one of the printed operands does |
| Behaviour.EqualityOfPureOperands | src/EmojiInterpreter.cpp:184-208 | a comparison is true exactly when `==` occurs in the operator or an operand and both operands print the same |
| Behaviour.PureEquality | src/EmojiInterpreter.cpp:184-208 | the equality visitor's answer for side-effect-free operands |
| Behaviour.NormalizedComparison | src/EmojiInterpreter.cpp:184-208 | after normalisation, only the double-equals emoji (or an operand containing `==`) can make a comparison true, and then only when both sides print alike |
| Behaviour.NumberLiteralValue | src/EmojiInterpreter.cpp:88-102 | the literal of an int evaluates to that int, before and after normalisation |
| Behaviour.BooleanLiteralValue | src/EmojiInterpreter.cpp:104-110 | the tick emoji evaluates to true and the cross to false, before and after normalisation |
| Behaviour.FlowStatementValue | src/EmojiInterpreter.cpp:470-482 | break gives the string `break` and continue the string `continue`, changing nothing |
| Behaviour.PrintAppendsOneLine | src/EmojiInterpreter.cpp:312-318 | print appends exactly the printed value as one line |
| Behaviour.NameNodeUnchanged | src/EmojiTransformer.cpp:19-47 | the transformer leaves names alone |
| Behaviour.NormalizedAssignment | src/EmojiTransformer.cpp:19-47 | normalisation keeps an assignment's shape and its target |
| Behaviour.AssignmentStores | src/EmojiInterpreter.cpp:320-343 | outside a declaration, assignment succeeds exactly when the name is declared and then the name reads the value; inside one, it succeeds exactly when the innermost scope lacks the name and then binds it |
| Behaviour.DeclareFromNames | src/EmojiInterpreter.cpp:348-360 | the declaration loop declares the names in order and does nothing with initialisers |
| Behaviour.DeclarationIgnoresInitialisers | src/EmojiInterpreter.cpp:345-365 | a parsed declaration only declares its names and clears the flag: initialisers are never evaluated |
| Behaviour.DeclareAllFrames | src/SymbolTable.cpp:23-38 | a successful declaration keeps the number of scopes, leaves the outer scopes untouched and adds every declared name, bound to 0, to the innermost scope |
| Behaviour.DeclaredNamesHoldZero | src/SymbolTable.cpp:32-37 | after a successful declaration every declared name reads 0 |
| Behaviour.NormalizedDeclaration | src/EmojiTransformer.cpp:19-55 | normalisation keeps a declaration's shape and its names |
| Behaviour.ExpressionTag | src/Parser.cpp:328-426 | a parsed expression's root has one of the expression tags |
| Behaviour.SameNames | src/EmojiInterpreter.cpp:348-360 | the declared names depend only on the name children |
| Behaviour.SuiteValue | src/EmojiInterpreter.cpp:367-380 | a suite gives nothing or a flow signal |
| Behaviour.StringBreakStopsSuite | src/EmojiInterpreter.cpp:371-375 | a string statement `"break"` stops a suite exactly like break |
| Behaviour.QuietPrefix | src/EmojiInterpreter.cpp:368-377 | children that give no flow signal only carry the state on: the suite continues from the first other child as if started there |
| Behaviour.SuiteStopsAtFirstSignal | src/EmojiInterpreter.cpp:368-377 | when the children before k give no flow signal and child k gives break or continue, the suite's run is child k's run: no later child runs |
| Behaviour.QuietSuiteRunsToEnd | src/EmojiInterpreter.cpp:367-380 | a suite whose children give no flow signal ends in the state they reach, with no value |
| Behaviour.ExecOfFold | src/EmojiInterpreter.cpp:15-48 | a node with a binary-expression tag is evaluated by the operator loop of that level |
| Behaviour.ScopedDeclarationsVanish | src/EmojiInterpreter.cpp:390-392 | declarations inside a block are gone after it: every scope has the names it had before |
| Behaviour.IfWithoutTokens | src/EmojiInterpreter.cpp:382-407 | an if node without keyword tokens gives nothing and changes nothing |
| Behaviour.ParsedIfDoesNothing | src/Parser.cpp:276-290 | every parsed if statement, normalised or not, gives nothing and changes nothing |
| Behaviour.ForBreakSkipsUpdate | src/EmojiInterpreter.cpp:441-443 | a body that breaks ends the loop without running the update |
| Behaviour.ForContinueRunsUpdate | src/EmojiInterpreter.cpp:441-445 | a body that continues still runs the update, then tests again |
| Behaviour.WhileIteration | src/EmojiInterpreter.cpp:411-422 | after a true condition the body runs in its own scope; a break ends the loop, anything else tests again |
| Pipeline.RunSource | src/main.cpp:70-82 | the tokens parsed are those of the text with a newline appended; a text that does not parse prints nothing and reports the text of one of those tokens that cannot begin an argument; otherwise the tree is a program spelled by all of those tokens up to end of file, and the output is that of the transformed tree run from a fresh interpreter |
| Pipeline.StartLeavesGlobalScope | src/EmojiInterpreter.cpp:10-13 | a program that runs to the end leaves exactly the global scope |

The functions that only compute the model have no contract of their own.
The rows above that state their properties are:

- `Values.ValueToString`, `ValueToBool`, `ValueToInt`, `ValueToDouble`, `IntToString`, `Stoi` (src/EmojiInterpreter.cpp:485-552): `ValueToStringIsZero`, `ValueToBoolOfString`, `ValueToIntOfString`, `ValueToDoubleThroughInt`, `IntToStringIsZero`, `StoiOfIntToString`, `DigitsValueOfNatToString`.
- `Trees.Pretty`, `PrettyChildren`, `PrettyNode` (src/Tree.cpp:26-48): `PrettyAddChild` and the `Pretty...LineCount` lemmas.
- `Lexer.Lex`, `LexFrom`, `ScanAt` (src/Parser.cpp:53-137): `LexEndsWithEof`, `LexFromEndsWithEof`, `ScanAt`, `ScanAtShape`, and the method `Tokenize`, which is proved to compute `Lex`.
- `Transformer.Normalize`, `NormalizeChild`, `GetMatch`, `RewriteText` (src/EmojiTransformer.cpp:19-195): `Visit`, which is proved to compute `Normalize`, and `NormalizePreservesShape`, `NormalizeIdempotent`, `RewriteOnlyOwnGlyphs`, `RewriteTextIdempotent`, `GetMatchSpellings`.
- `Symbols.Lookup`, `ValueOf` (src/SymbolTable.cpp:40-63): `FindIsInnermost`, `LookupAfterDeclare`, `LookupOtherAfterDeclare`, `LookupAfterAssign`, and the method `GetValue`.
- `Parsing.Parser.Peek`, `Check`, `IsAtEnd` (src/Parser.cpp:155-182): `AtEndIsLastToken`, `Advance`, `Match`.
- `Operators.CDiv` (src/EmojiInterpreter.cpp:176-177): `CRemDivision`. `Abs` is a helper.
- `Operators.BitAnd`, `BitOr`, `BitXor`, `BitwiseInt` (src/EmojiInterpreter.cpp:210-265): `Bitwise`, `XorTwice`, `WithAllOnes`, `WithZero`, `BitXorCancels`, `BitIdentities`.
- `Operators.Arith` (src/EmojiInterpreter.cpp:139-171): `IntArithmetic` and `Step`.

## Left out

- The driver's file handling, banners, command-line arguments and exception printing (`src/main.cpp` outside lines 70-82) are I/O and are not modelled. `print` appends to an output sequence instead of writing to standard output.
- `main.py` and `EmojiTransformer.py` are an older Python version and are not part of this model.
- Floating point is opaque. `double` is an abstract type. `std::stod`, `std::to_string` of a double, arithmetic, comparison with 0 and the cast to `int` are parameters (`FloatOps`) with no properties assumed.
- Behaviour C++ leaves undefined is an explicit `UndefinedBehaviour` error, not a precondition. This covers int overflow in `+`, `-` and `*`, `%` by zero, `INT_MIN % -1`, and the equality visitor reading a missing third child. The real program's behaviour in those cases is not modelled.
- Loops run on fuel. Each evaluation of a loop condition costs one unit, and an exhausted budget ends the run with `OutOfFuel`. A program that never stops is therefore not modelled past its budget.
- Trees are values. The C++ code shares nodes through `shared_ptr` and the transformer assigns token text in place. Here the transformer returns a new tree. Aliasing between trees is not modelled.
- Emoji matching tries the glyph table longest first. The C++ code iterates an `unordered_map`, whose order is unspecified. The model fixes an order that can never match a prefix of a longer glyph.
- Character classes (`isspace`, `isdigit`, `isalpha`, `isalnum`) are the ASCII ones. Input is a string of bytes, one character per byte.
- `Parser::parseSimpleStatement` and `Parser::parseCompoundStatement` (src/Parser.cpp:201-210) are never called and are not modelled.
- `SymbolTable::debugSymbolTable` (src/SymbolTable.cpp:6-17) only prints, and is not modelled.
- Trees.PrettyLineCount: the line count is proved only for trees whose token texts contain no newline. A string literal holding a newline adds lines.
- The null-tree checks in `EmojiInterpreter::visit` are not modelled, since a tree in the model is never null.
- `Interpreter.EmojiInterpreter.VisitFold` stands for the seven binary visitors, whose loops are identical apart from the operator step.
- `Interpreter.EmojiInterpreter.ForLoop` is the `while (true)` loop of `visitForStatement`, split out as its own method. `ForRound` is one pass of that loop.
- `Parsing.Parser.ParseBody` and `Parsing.Parser.ParseForClauses` are stretches of the if, while and for parsers, and the `...Round` methods are one pass of each binary level's loop. They are split out as methods of their own; the source has them inline.
- Parsing.Parser.Parse: the contract does not say which token sequences are rejected. It says only that an error names a token of the input that cannot begin an argument.
- Grammar.SpelledBy: a `Skipped` slot fits any token, because the parser steps over those delimiters without checking them. The spelling therefore does not pin which closer was written.
- Grammar.SpelledBy: at end-of-file `advance()` does not move. A statement cut short by the end of input can therefore be spelled by fewer tokens than it has slots, as long as every missing slot is one read unseen (`Skipped` or `Taken`).
- `visitForDecl` and `visitForUpdates` are `VisitChildren` followed by an empty result.
- `visitFlowStatement` is the function `Semantics.FlowSignal`.
- Symbols.AddBinding: its own contract states only that the number of scopes is kept. The full effect is stated by `Symbols.SymbolTable.AddSymbol`.
- Symbols.UpdateBinding: its own contract states only that the number of scopes is kept. The full effect is stated by `Symbols.SymbolTable.UpdateSymbol`.
- Semantics.Exec and the other `Semantics` functions: their own contracts state only fuel, output and scope depth. The result of each construct is stated by the `Behaviour` lemmas and by the interpreter methods that are proved equal to them.
