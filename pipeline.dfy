/**
 * What the driver does with the text of one program (src/main.cpp:70-82):
 * a newline is appended, the text is parsed, the transformer rewrites the
 * tree's glyphs, and a fresh interpreter runs the result.
 */
module Pipeline {
  import opened Errors
  import opened Values
  import opened Trees
  import opened Semantics
  import Grammar
  import Lexer
  import Parsing
  import Transformer
  import Interpreter

  /** The parsed tree (or the parse error), and the value and printed lines of the run. */
  datatype Session = Session(parsed: Result<Tree>, result: Result<Value>, output: seq<string>)

  /** The state a new interpreter starts from. */
  function Fresh(fuel: nat): State {
    State([], false, [], fuel)
  }

  /**
   * Parse, transform, interpret. The parser reads the tokens of the text
   * with a newline appended. A text that does not parse prints nothing and
   * reports the text of one of those tokens that cannot begin an argument;
   * otherwise the tree is a program spelled by all of them up to the end of
   * file, and the run is the evaluation of the transformed tree from a fresh
   * state.
   */
  method RunSource(text: string, fp: FloatOps, fuel: nat) returns (s: Session)
    ensures s.parsed.Err? ==>
              && s.parsed.error.UnexpectedToken? && s.result == Err(s.parsed.error) && s.output == []
              && var toks := Lexer.Lex(text + "\n");
                 exists j :: 0 <= j < |toks| && !Grammar.StartsArgument(toks[j]) && toks[j].text == s.parsed.error.text
    ensures s.parsed.Ok? ==>
              && Grammar.IsProgram(s.parsed.value)
              && (var toks := Lexer.Lex(text + "\n");
                  |toks| > 0 && Grammar.SpelledBy(Grammar.Unparse(s.parsed.value), toks, 0, |toks| - 1))
              && var run := Start(Transformer.Normalize(s.parsed.value), Fresh(fuel), fp);
                 s.result == run.result && s.output == run.st.output
  {
    var parser := new Parsing.Parser();
    var tree := parser.Parse(text + "\n");
    if tree.Err? {
      return Session(tree, Err(tree.error), []);
    }
    var normalized := Transformer.Visit(tree.value);
    var interpreter := new Interpreter.EmojiInterpreter(normalized, fp, fuel);
    var r := interpreter.Start();
    s := Session(tree, r, interpreter.output);
  }

  /**
   * A program that runs to the end leaves exactly the global scope start
   * opened, whatever it declared inside blocks.
   */
  lemma StartLeavesGlobalScope(t: Tree, fuel: nat, fp: FloatOps)
    ensures var run := Start(t, Fresh(fuel), fp);
            run.result.Ok? ==> |run.st.frames| == 1
  {
    var run := Exec(t, Fresh(fuel).(frames := [map[]]), fp);
    assert Fresh(fuel).frames + [map[]] == [map[]];
    assert run.result.Ok? ==> ScopesKept([map[]], run.st.frames);
  }
}
