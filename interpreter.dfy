/**
 * EmojiInterpreter (include/EmojiInterpreter.hpp, src/EmojiInterpreter.cpp):
 * a tree-walking evaluator that owns a symbol table and updates it, and the
 * isAssignmentDeclaration flag, as it visits the parse tree. Every visit
 * method is proved to compute exactly what the function of the same visitor
 * in module Semantics describes, on the state the method starts from.
 *
 * Printing to standard output is modelled by appending the printed line to
 * `output`; `fuel` bounds the number of loop iterations (see Semantics).
 */
module Interpreter {
  import opened Errors
  import opened Values
  import opened Tokens
  import opened Trees
  import opened Symbols
  import opened Operators
  import opened Semantics

  class EmojiInterpreter {
    const symbolTable: SymbolTable
    const parseTree: Tree
    const fp: FloatOps
    var isAssignmentDeclaration: bool
    var output: seq<string>
    var fuel: nat

    /** The state of the evaluation, as Semantics sees it. */
    ghost function Now(): State
      reads this, symbolTable
    {
      State(symbolTable.table, isAssignmentDeclaration, output, fuel)
    }

    /** EmojiInterpreter::EmojiInterpreter: an empty symbol table, the flag cleared. */
    constructor (tree: Tree, fp: FloatOps, fuel: nat)
      ensures parseTree == tree && this.fp == fp && fresh(symbolTable)
      ensures Now() == State([], false, [], fuel)
    {
      symbolTable := new SymbolTable();
      parseTree := tree;
      this.fp := fp;
      isAssignmentDeclaration := false;
      output := [];
      this.fuel := fuel;
    }

    /** EmojiInterpreter::start: open the global scope, then visit the whole tree. */
    method Start() returns (r: Result<Value>)
      modifies this, symbolTable
      ensures Run(r, Now()) == Semantics.Start(parseTree, old(Now()), fp)
    {
      symbolTable.AddScope();
      r := Visit(parseTree);
    }

    /** visit(TreePtr): dispatch on the node's tag. */
    method Visit(t: Tree) returns (r: Result<Value>)
      modifies this, symbolTable
      ensures Run(r, Now()) == Exec(t, old(Now()), fp)
      decreases fuel, t, 2, 0
    {
      var cs := t.children;
      if t.data == "stmt" {
        r := VisitStatement(t);
      } else if t.data == "string" {
        r := Ok(StringValue(t));
      } else if t.data == "name" {
        r := VisitName(t);
      } else if t.data == "number" {
        r := Ok(NumberValue(t, fp));
      } else if t.data == "boolean" {
        r := Ok(BooleanValue(t));
      } else if t.data == "castexpression" {
        r := VisitCast(t);
      } else if t.data == "additiveexpression" {
        r := VisitFold(t, Additive);
      } else if t.data == "multiplicativeexpression" {
        r := VisitFold(t, Multiplicative);
      } else if t.data == "equalityexpression" {
        r := VisitEquality(t);
      } else if t.data == "andexpression" {
        r := VisitFold(t, BitwiseAnd);
      } else if t.data == "exclusiveorexpression" {
        r := VisitFold(t, ExclusiveOr);
      } else if t.data == "inclusiveorexpression" {
        r := VisitFold(t, InclusiveOr);
      } else if t.data == "logicalandexpression" {
        r := VisitFold(t, LogicalAnd);
      } else if t.data == "logicalorexpression" {
        r := VisitFold(t, LogicalOr);
      } else if t.data == "exp" {
        if |cs| > 0 {
          r := VisitChild(cs[0]);
        } else {
          r := Ok(Unit);
        }
      } else if t.data == "print_stmt" {
        r := VisitPrint(t);
      } else if t.data == "assignment_stmt" {
        r := VisitAssignment(t);
      } else if t.data == "declare_stmt" {
        r := VisitDeclare(t);
      } else if t.data == "suite" {
        r := VisitSuite(t);
      } else if t.data == "if_stmt" {
        r := VisitIf(t);
      } else if t.data == "while_stmt" {
        r := VisitWhile(t);
      } else if t.data == "for_stmt" {
        r := VisitFor(t);
      } else if t.data == "for_decl" {
        r := VisitChildren(t);
      } else if t.data == "for_test" {
        if |cs| == 0 {
          r := Ok(Bool(true));
        } else {
          r := VisitChild(cs[0]);
        }
      } else if t.data == "for_updates" {
        r := VisitChildren(t);
      } else if t.data == "flow_stmt" {
        r := Ok(FlowSignal(cs));
      } else {
        r := VisitChildren(t);
      }
    }

    /** visit(const TreeNode&): a subtree is visited, a token evaluates to its text. */
    method VisitChild(c: Child) returns (r: Result<Value>)
      modifies this, symbolTable
      ensures Run(r, Now()) == ExecChild(c, old(Now()), fp)
      decreases fuel, c, 3, 0
    {
      match c
      case Subtree(tree) =>
        r := Visit(tree);
      case Leaf(token) =>
        r := Ok(Str(token.text));
    }

    /** visitName: the innermost binding of the name token. */
    method VisitName(t: Tree) returns (r: Result<Value>)
      ensures r == NameValue(t, symbolTable.table)
    {
      if FirstIsToken(t) {
        r := symbolTable.GetValue(t.children[0].token.text);
      } else {
        r := Ok(Unit);
      }
    }

    /** visitStatement: visit every child; the value is the last one's. */
    method VisitStatement(t: Tree) returns (r: Result<Value>)
      modifies this, symbolTable
      ensures Run(r, Now()) == ExecLast(t, 0, Unit, old(Now()), fp)
      decreases fuel, t, 1, 0
    {
      var result := Unit;
      var i := 0;
      while i < |t.children|
        invariant i <= |t.children|
        invariant fuel <= old(fuel)
        invariant ExecLast(t, i, result, Now(), fp) == ExecLast(t, 0, Unit, old(Now()), fp)
      {
        var c := VisitChild(t.children[i]);
        if c.Err? {
          return c;
        }
        result := c.value;
        i := i + 1;
      }
      return Ok(result);
    }

    /** visitChildren: visit every child for its effect. */
    method VisitChildren(t: Tree) returns (r: Result<Value>)
      modifies this, symbolTable
      ensures Run(r, Now()) == ExecChildren(t, old(Now()), fp)
      decreases fuel, t, 1, 0
    {
      ghost var last := Unit;
      var i := 0;
      while i < |t.children|
        invariant i <= |t.children|
        invariant fuel <= old(fuel)
        invariant ExecLast(t, i, last, Now(), fp) == ExecLast(t, 0, Unit, old(Now()), fp)
      {
        var c := VisitChild(t.children[i]);
        if c.Err? {
          return c;
        }
        last := c.value;
        i := i + 1;
      }
      return Ok(Unit);
    }

    /** visitCastExpression */
    method VisitCast(t: Tree) returns (r: Result<Value>)
      modifies this, symbolTable
      ensures Run(r, Now()) == ExecCast(t, old(Now()), fp)
      decreases fuel, t, 1, 0
    {
      var cs := t.children;
      if |cs| == 1 {
        r := VisitChild(cs[0]);
      } else if |cs| == 2 {
        var op := TokenText(cs[0]);
        var operand := VisitChild(cs[1]);
        if operand.Err? {
          return operand;
        }
        r := Ok(CastValue(op, operand.value, fp));
      } else {
        r := Ok(Unit);
      }
    }

    /**
     * The seven binary-expression visitors (additive, multiplicative, and,
     * exclusive or, inclusive or, logical and, logical or): the first
     * operand, then for each operator and right operand one Step.
     */
    method VisitFold(t: Tree, kind: FoldKind) returns (r: Result<Value>)
      modifies this, symbolTable
      ensures Run(r, Now()) == ExecFold(t, kind, old(Now()), fp)
      decreases fuel, t, 1, 0
    {
      var cs := t.children;
      if |cs| == 0 {
        return Ok(Unit);
      }
      var first := VisitChild(cs[0]);
      if first.Err? {
        return first;
      }
      var value := first.value;
      var i := 1;
      while i < |cs|
        invariant 1 <= i
        invariant fuel <= old(fuel)
        invariant FoldFrom(t, kind, i, value, Now(), fp) == ExecFold(t, kind, old(Now()), fp)
        decreases |cs| - i
      {
        if i + 1 >= |cs| {
          break;
        }
        var op := TokenText(cs[i]);
        var right := VisitChild(cs[i + 1]);
        if right.Err? {
          return right;
        }
        var next := Step(kind, op, value, right.value, fp);
        if next.Err? {
          return Err(next.error);
        }
        value := next.value;
        i := i + 2;
      }
      return Ok(value);
    }

    /** visitEqualityExpression */
    method VisitEquality(t: Tree) returns (r: Result<Value>)
      modifies this, symbolTable
      ensures Run(r, Now()) == ExecEquality(t, old(Now()), fp)
      decreases fuel, t, 1, 0
    {
      var cs := t.children;
      if |cs| == 0 {
        return Ok(Unit);
      }
      var first := VisitChild(cs[0]);
      if first.Err? {
        return first;
      }
      ghost var afterFirst := Now();
      var text := ValueToString(first.value, fp) + " ";
      var i := 1;
      while i < |cs|
        invariant 1 <= i
        invariant fuel <= old(fuel)
        invariant EqualityText(t, i, text, Now(), fp)
               == EqualityText(t, 1, ValueToString(first.value, fp) + " ", afterFirst, fp)
        decreases |cs| - i
      {
        if i + 1 >= |cs| {
          break;
        }
        var op := TokenText(cs[i]);
        var operand := VisitChild(cs[i + 1]);
        if operand.Err? {
          return operand;
        }
        text := text + (op + " " + ValueToString(operand.value, fp) + " ");
        i := i + 2;
      }
      if !HasDoubleEquals(text) {
        return Ok(Bool(false));
      }
      var left := VisitChild(cs[0]);
      if left.Err? {
        return left;
      }
      if |cs| < 3 {
        return Err(UndefinedBehaviour("children[2] out of range"));
      }
      var right := VisitChild(cs[2]);
      if right.Err? {
        return right;
      }
      return Ok(Bool(ValueToString(left.value, fp) == ValueToString(right.value, fp)));
    }

    /** visitPrintStatement: print the text of the first child's value. */
    method VisitPrint(t: Tree) returns (r: Result<Value>)
      modifies this, symbolTable
      ensures Run(r, Now()) == ExecPrint(t, old(Now()), fp)
      decreases fuel, t, 1, 0
    {
      if |t.children| > 0 {
        var value := VisitChild(t.children[0]);
        if value.Err? {
          return value;
        }
        output := output + [ValueToString(value.value, fp)];
      }
      return Ok(Unit);
    }

    /** visitAssignmentStatement */
    method VisitAssignment(t: Tree) returns (r: Result<Value>)
      modifies this, symbolTable
      ensures Run(r, Now()) == ExecAssignment(t, old(Now()), fp)
      decreases fuel, t, 1, 0
    {
      if |t.children| < 2 {
        return Ok(Unit);
      }
      var symbol := AssignedName(t);
      var value := VisitChild(t.children[1]);
      if value.Err? {
        return value;
      }
      var out: Outcome;
      if isAssignmentDeclaration {
        out := symbolTable.AddSymbol(symbol, value.value);
      } else {
        out := symbolTable.UpdateSymbol(symbol, value.value);
      }
      if out.Fail? {
        return Err(out.error);
      }
      return Ok(Unit);
    }

    /** visitDeclareStatement */
    method VisitDeclare(t: Tree) returns (r: Result<Value>)
      modifies this, symbolTable
      ensures Run(r, Now()) == ExecDeclare(t, old(Now()), fp)
      decreases fuel, t, 1, 0
    {
      var cs := t.children;
      isAssignmentDeclaration := true;
      var i := 0;
      while i < |cs|
        invariant i <= |cs|
        invariant fuel <= old(fuel)
        invariant DeclareFrom(t, i, Now(), fp) == DeclareFrom(t, 0, old(Now()).(declaring := true), fp)
      {
        var c := cs[i];
        if c.Subtree? {
          if c.tree.data == "name" {
            if FirstIsToken(c.tree) {
              var out := symbolTable.AddSymbol(c.tree.children[0].token.text, Unit);
              if out.Fail? {
                return Err(out.error);
              }
            }
          } else if c.tree.data == "assignment_stmt" {
            var value := Visit(c.tree);
            if value.Err? {
              return value;
            }
          }
        }
        i := i + 1;
      }
      isAssignmentDeclaration := false;
      return Ok(Unit);
    }

    /** visitSuite: visit the subtrees in turn; hand back the first break or continue. */
    method VisitSuite(t: Tree) returns (r: Result<Value>)
      modifies this, symbolTable
      ensures Run(r, Now()) == ExecSuite(t, 0, old(Now()), fp)
      decreases fuel, t, 1, 0
    {
      var i := 0;
      while i < |t.children|
        invariant i <= |t.children|
        invariant fuel <= old(fuel)
        invariant ExecSuite(t, i, Now(), fp) == ExecSuite(t, 0, old(Now()), fp)
      {
        if t.children[i].Subtree? {
          var ret := Visit(t.children[i].tree);
          if ret.Err? || IsFlowSignal(ret.value) {
            return ret;
          }
        }
        i := i + 1;
      }
      return Ok(Unit);
    }

    /** addScope, visit, removeScope. */
    method VisitScoped(c: Child) returns (r: Result<Value>)
      modifies this, symbolTable
      ensures Run(r, Now()) == Scoped(c, old(Now()), fp)
      decreases fuel, c, 4, 0
    {
      symbolTable.AddScope();
      r := VisitChild(c);
      if r.Err? {
        return;
      }
      var out := symbolTable.RemoveScope();
      assert out.Pass?;
    }

    /** visitIfStatement */
    method VisitIf(t: Tree) returns (r: Result<Value>)
      modifies this, symbolTable
      ensures Run(r, Now()) == ExecIf(t, 0, old(Now()), fp)
      decreases fuel, t, 1, 0
    {
      var cs := t.children;
      var i := 0;
      while i < |cs|
        invariant i <= |cs|
        invariant fuel <= old(fuel)
        invariant ExecIf(t, i, Now(), fp) == ExecIf(t, 0, old(Now()), fp)
      {
        if cs[i].Leaf? {
          var token := TokenText(cs[i]);
          if token in IfWords {
            if i + 2 < |cs| {
              var cond := VisitChild(cs[i + 1]);
              if cond.Err? {
                return cond;
              }
              if ValueToBool(cond.value, fp) {
                r := VisitScoped(cs[i + 2]);
                return;
              }
            }
          } else if token in ElseWords {
            if i + 1 < |cs| {
              r := VisitScoped(cs[i + 1]);
              return;
            }
          }
        }
        i := i + 1;
      }
      return Ok(Unit);
    }

    /** visitWhileStatement */
    method VisitWhile(t: Tree) returns (r: Result<Value>)
      modifies this, symbolTable
      ensures Run(r, Now()) == if |t.children| >= 2 then ExecWhile(t, old(Now()), fp) else Ret(Unit, old(Now()))
      decreases fuel, t, 1, 0
    {
      if |t.children| < 2 {
        return Ok(Unit);
      }
      while true
        invariant fuel <= old(fuel)
        invariant ExecWhile(t, Now(), fp) == ExecWhile(t, old(Now()), fp)
        decreases fuel
      {
        if fuel == 0 {
          return Err(OutOfFuel);
        }
        fuel := fuel - 1;
        var cond := VisitChild(t.children[0]);
        if cond.Err? {
          return cond;
        }
        if !ValueToBool(cond.value, fp) {
          return Ok(Unit);
        }
        var ret := VisitScoped(t.children[1]);
        if ret.Err? {
          return ret;
        }
        if ret.value == Str("break") {
          return Ok(Unit);
        }
      }
    }

    /** visitForStatement: the outer scope around the declaration part and the loop. */
    method VisitFor(t: Tree) returns (r: Result<Value>)
      modifies this, symbolTable
      ensures Run(r, Now()) == ExecFor(t, old(Now()), fp)
      decreases fuel, t, 1, 0
    {
      var cs := t.children;
      if |cs| < 4 {
        return Ok(Unit);
      }
      symbolTable.AddScope();
      var decl := VisitChild(cs[0]);
      if decl.Err? {
        return decl;
      }
      var loop := ForLoop(t);
      if loop.Err? {
        return loop;
      }
      var out := symbolTable.RemoveScope();
      assert out.Pass?;
      return Ok(Unit);
    }

    /** The loop of visitForStatement: test, body in its own scope, updates. */
    method ForLoop(t: Tree) returns (r: Result<Value>)
      requires |t.children| >= 4
      modifies this, symbolTable
      ensures Run(r, Now()) == ForFrom(t, old(Now()), fp)
      decreases fuel, t, 0, 1
    {
      while true
        invariant fuel <= old(fuel)
        invariant ForFrom(t, Now(), fp) == ForFrom(t, old(Now()), fp)
        decreases fuel
      {
        if fuel == 0 {
          return Err(OutOfFuel);
        }
        var stop: bool;
        stop, r := ForRound(t);
        if stop {
          return;
        }
      }
    }

    /**
     * One pass of visitForStatement's loop: either the loop ends with `r`,
     * or the test held, the body ran without break and the updates ran.
     */
    method ForRound(t: Tree) returns (stop: bool, r: Result<Value>)
      requires |t.children| >= 4 && fuel > 0
      modifies this, symbolTable
      ensures stop ==> Run(r, Now()) == ForFrom(t, old(Now()), fp)
      ensures !stop ==> fuel < old(fuel) && ForFrom(t, Now(), fp) == ForFrom(t, old(Now()), fp)
      decreases fuel, t, 0, 0
    {
      var cs := t.children;
      fuel := fuel - 1;
      stop := true;
      var cond := VisitChild(cs[1]);
      if cond.Err? {
        return stop, cond;
      }
      if !ValueToBool(cond.value, fp) {
        return stop, Ok(Unit);
      }
      var ret := VisitScoped(cs[3]);
      if ret.Err? {
        return stop, ret;
      }
      if ret.value == Str("break") {
        return stop, Ok(Unit);
      }
      r := VisitChild(cs[2]);
      stop := r.Err?;
    }
  }
}
