/**
 * The meaning of EmojiInterpreter::visit as a function: the value a tree
 * evaluates to (or the exception evaluation throws) together with the state
 * after it. The state is the scope stack of the symbol table, the
 * isAssignmentDeclaration flag, the lines printed so far and the number of
 * loop iterations still allowed.
 *
 * Each function follows one visitor of src/EmojiInterpreter.cpp; the loops
 * of the visitors are the functions named ...From, which take the index the
 * loop has reached. The interpreter class (module Interpreter) runs the
 * same visitors as imperative methods and is proved to agree with these.
 */
module Semantics {
  import opened Errors
  import opened Values
  import opened Tokens
  import opened Trees
  import opened Symbols
  import opened Operators
  import Glyphs

  datatype State = State(frames: seq<Frame>, declaring: bool, output: seq<string>, fuel: nat)

  /** The outcome of a visit: its value or exception, and the state it leaves. */
  datatype Run = Run(result: Result<Value>, st: State)

  /**
   * What every visit keeps: it uses up no more loop iterations than it had,
   * it only appends to the output, and when it returns normally it leaves as
   * many scopes as it found.
   */
  predicate Follows(st: State, r: Run) {
    && r.st.fuel <= st.fuel
    && st.output <= r.st.output
    && (r.result.Ok? ==> ScopesKept(st.frames, r.st.frames))
  }

  /**
   * The scope discipline of a visit that returns normally: as many scopes
   * as before, every scope but the innermost binds the same names, and the
   * innermost one can only have gained names. (Values may change: an
   * assignment updates the innermost binding wherever it is.)
   */
  predicate ScopesKept(before: seq<Frame>, after: seq<Frame>) {
    && |after| == |before|
    && (forall j :: 0 <= j < |before| - 1 ==> after[j].Keys == before[j].Keys)
    && (|before| > 0 ==> before[|before| - 1].Keys <= after[|before| - 1].Keys)
  }

  function Ret(v: Value, st: State): Run {
    Run(Ok(v), st)
  }

  // ---------------------------------------------------------------------
  // Reading tokens out of nodes
  // ---------------------------------------------------------------------

  /** EmojiInterpreter::getTokenValue: the text of a token child, "" for a subtree. */
  function TokenText(c: Child): string {
    if c.Leaf? then c.token.text else ""
  }

  /** Whether the first child of a node is a token. */
  predicate FirstIsToken(t: Tree) {
    |t.children| > 0 && t.children[0].Leaf?
  }

  /** visitString */
  function StringValue(t: Tree): Value {
    if FirstIsToken(t) then Str(t.children[0].token.text) else Str("")
  }

  /** visitName: the innermost binding of the name, which throws when there is none. */
  function NameValue(t: Tree, frames: seq<Frame>): Result<Value> {
    if FirstIsToken(t) then ValueOf(frames, t.children[0].token.text) else Ok(Unit)
  }

  /** visitNumber */
  function NumberValue(t: Tree, fp: FloatOps): Value {
    if FirstIsToken(t) then NumberText(t.children[0].token.text, fp) else Int(0)
  }

  /** visitBoolean */
  function BooleanValue(t: Tree): Value {
    if FirstIsToken(t) then BooleanText(t.children[0].token.text) else Bool(false)
  }

  /** The symbol visitAssignmentStatement assigns: the token of the name subtree, "" if there is none. */
  function AssignedName(t: Tree): string
    requires |t.children| > 0
  {
    var c := t.children[0];
    if c.Subtree? && FirstIsToken(c.tree) then c.tree.children[0].token.text else ""
  }

  /** visitFlowStatement: "break" or "continue" for the first break or continue subtree. */
  function FlowSignal(cs: seq<Child>): Value {
    if cs == [] then Unit
    else if cs[0].Subtree? && cs[0].tree.data == "break_stmt" then Str("break")
    else if cs[0].Subtree? && cs[0].tree.data == "continue_stmt" then Str("continue")
    else FlowSignal(cs[1..])
  }

  /** The values a suite hands back to the loop around it. */
  predicate IsFlowSignal(v: Value) {
    v == Str("break") || v == Str("continue")
  }

  const IfWords: set<string> := {"if", "elif", Glyphs.If, Glyphs.Elif}
  const ElseWords: set<string> := {"else", Glyphs.Else}

  /** The tag of the visitor for each kind of binary expression. */
  function FoldTag(kind: FoldKind): string {
    match kind
    case Additive => "additiveexpression"
    case Multiplicative => "multiplicativeexpression"
    case BitwiseAnd => "andexpression"
    case ExclusiveOr => "exclusiveorexpression"
    case InclusiveOr => "inclusiveorexpression"
    case LogicalAnd => "logicalandexpression"
    case LogicalOr => "logicalorexpression"
  }

  // ---------------------------------------------------------------------
  // Evaluation
  // ---------------------------------------------------------------------

  /** visit(const TreeNode&): a subtree is visited, a token evaluates to its text. */
  function ExecChild(c: Child, st: State, fp: FloatOps): (r: Run)
    ensures Follows(st, r)
    decreases st.fuel, c, 3, 0
  {
    match c
    case Subtree(tree) => Exec(tree, st, fp)
    case Leaf(token) => Ret(Str(token.text), st)
  }

  /** visit(TreePtr): dispatch on the node's tag, in the order of the C++ chain. */
  function Exec(t: Tree, st: State, fp: FloatOps): (r: Run)
    ensures Follows(st, r)
    decreases st.fuel, t, 2, 0
  {
    var cs := t.children;
    if t.data == "stmt" then ExecLast(t, 0, Unit, st, fp)
    else if t.data == "string" then Ret(StringValue(t), st)
    else if t.data == "name" then Run(NameValue(t, st.frames), st)
    else if t.data == "number" then Ret(NumberValue(t, fp), st)
    else if t.data == "boolean" then Ret(BooleanValue(t), st)
    else if t.data == "castexpression" then ExecCast(t, st, fp)
    else if t.data == "additiveexpression" then ExecFold(t, Additive, st, fp)
    else if t.data == "multiplicativeexpression" then ExecFold(t, Multiplicative, st, fp)
    else if t.data == "equalityexpression" then ExecEquality(t, st, fp)
    else if t.data == "andexpression" then ExecFold(t, BitwiseAnd, st, fp)
    else if t.data == "exclusiveorexpression" then ExecFold(t, ExclusiveOr, st, fp)
    else if t.data == "inclusiveorexpression" then ExecFold(t, InclusiveOr, st, fp)
    else if t.data == "logicalandexpression" then ExecFold(t, LogicalAnd, st, fp)
    else if t.data == "logicalorexpression" then ExecFold(t, LogicalOr, st, fp)
    else if t.data == "exp" then (if |cs| > 0 then ExecChild(cs[0], st, fp) else Ret(Unit, st))
    else if t.data == "print_stmt" then ExecPrint(t, st, fp)
    else if t.data == "assignment_stmt" then ExecAssignment(t, st, fp)
    else if t.data == "declare_stmt" then ExecDeclare(t, st, fp)
    else if t.data == "suite" then ExecSuite(t, 0, st, fp)
    else if t.data == "if_stmt" then ExecIf(t, 0, st, fp)
    else if t.data == "while_stmt" then (if |cs| >= 2 then ExecWhile(t, st, fp) else Ret(Unit, st))
    else if t.data == "for_stmt" then ExecFor(t, st, fp)
    else if t.data == "for_decl" then ExecChildren(t, st, fp)
    else if t.data == "for_test" then (if |cs| == 0 then Ret(Bool(true), st) else ExecChild(cs[0], st, fp))
    else if t.data == "for_updates" then ExecChildren(t, st, fp)
    else if t.data == "flow_stmt" then Ret(FlowSignal(cs), st)
    else ExecChildren(t, st, fp)
  }

  /** visitStatement from child i on: every child in turn; the value is the last child's. */
  function ExecLast(t: Tree, i: nat, last: Value, st: State, fp: FloatOps): (r: Run)
    requires i <= |t.children|
    ensures Follows(st, r)
    decreases st.fuel, t, 0, |t.children| - i
  {
    if i == |t.children| then Ret(last, st)
    else
      var r := ExecChild(t.children[i], st, fp);
      if r.result.Err? then r else ExecLast(t, i + 1, r.result.value, r.st, fp)
  }

  /** visitChildren, for the nodes whose visitor returns nothing. */
  function ExecChildren(t: Tree, st: State, fp: FloatOps): (r: Run)
    ensures Follows(st, r)
    decreases st.fuel, t, 1, 0
  {
    var r := ExecLast(t, 0, Unit, st, fp);
    if r.result.Err? then r else Ret(Unit, r.st)
  }

  /** visitCastExpression */
  function ExecCast(t: Tree, st: State, fp: FloatOps): (r: Run)
    ensures Follows(st, r)
    decreases st.fuel, t, 1, 0
  {
    var cs := t.children;
    if |cs| == 1 then ExecChild(cs[0], st, fp)
    else if |cs| == 2 then
      var r := ExecChild(cs[1], st, fp);
      if r.result.Err? then r else Ret(CastValue(TokenText(cs[0]), r.result.value, fp), r.st)
    else Ret(Unit, st)
  }

  /** The binary-expression visitors: the first operand, then the operator loop. */
  function ExecFold(t: Tree, kind: FoldKind, st: State, fp: FloatOps): (r: Run)
    ensures Follows(st, r)
    decreases st.fuel, t, 1, 0
  {
    if |t.children| == 0 then Ret(Unit, st)
    else
      var r := ExecChild(t.children[0], st, fp);
      if r.result.Err? then r else FoldFrom(t, kind, 1, r.result.value, r.st, fp)
  }

  /**
   * The operator loop from child i on: while an operator and a right
   * operand remain, evaluate the operand and combine it into the running
   * value (the operand is evaluated whatever the operator is).
   */
  function FoldFrom(t: Tree, kind: FoldKind, i: nat, value: Value, st: State, fp: FloatOps): (r: Run)
    ensures Follows(st, r)
    decreases st.fuel, t, 0, |t.children| - i
  {
    if i + 1 >= |t.children| then Ret(value, st)
    else
      var r := ExecChild(t.children[i + 1], st, fp);
      if r.result.Err? then r
      else
        match Step(kind, TokenText(t.children[i]), value, r.result.value, fp)
        case Err(e) => Run(Err(e), r.st)
        case Ok(v) => FoldFrom(t, kind, i + 2, v, r.st, fp)
  }

  /**
   * visitEqualityExpression: the operands and operators are printed into
   * one text, each followed by a space; when the text contains "==", the
   * first and the third child are evaluated again and their texts compared;
   * otherwise the value is false.
   */
  function ExecEquality(t: Tree, st: State, fp: FloatOps): (r: Run)
    ensures Follows(st, r)
    decreases st.fuel, t, 1, 0
  {
    var cs := t.children;
    if |cs| == 0 then Ret(Unit, st)
    else
      var first := ExecChild(cs[0], st, fp);
      if first.result.Err? then first
      else
        var e := EqualityText(t, 1, ValueToString(first.result.value, fp) + " ", first.st, fp);
        if e.result.Err? then e
        else if !HasDoubleEquals(e.result.value.s) then Ret(Bool(false), e.st)
        else
          var left := ExecChild(cs[0], e.st, fp);
          if left.result.Err? then left
          else if |cs| < 3 then Run(Err(UndefinedBehaviour("children[2] out of range")), left.st)
          else
            var right := ExecChild(cs[2], left.st, fp);
            if right.result.Err? then right
            else Ret(Bool(ValueToString(left.result.value, fp) == ValueToString(right.result.value, fp)), right.st)
  }

  /** The printing loop of visitEqualityExpression from child i on; the text is returned as a string value. */
  function EqualityText(t: Tree, i: nat, text: string, st: State, fp: FloatOps): (r: Run)
    ensures Follows(st, r)
    ensures r.result.Ok? ==> r.result.value.Str?
    decreases st.fuel, t, 0, |t.children| - i
  {
    if i + 1 >= |t.children| then Ret(Str(text), st)
    else
      var r := ExecChild(t.children[i + 1], st, fp);
      if r.result.Err? then r
      else
        var piece := TokenText(t.children[i]) + " " + ValueToString(r.result.value, fp) + " ";
        EqualityText(t, i + 2, text + piece, r.st, fp)
  }

  /** visitPrintStatement: the first child's text becomes one more line of output. */
  function ExecPrint(t: Tree, st: State, fp: FloatOps): (r: Run)
    ensures Follows(st, r)
    decreases st.fuel, t, 1, 0
  {
    if |t.children| == 0 then Ret(Unit, st)
    else
      var r := ExecChild(t.children[0], st, fp);
      if r.result.Err? then r
      else Ret(Unit, r.st.(output := r.st.output + [ValueToString(r.result.value, fp)]))
  }

  /**
   * visitAssignmentStatement: evaluate the right-hand side, then declare the
   * name (inside a declaration) or update it (otherwise).
   */
  function ExecAssignment(t: Tree, st: State, fp: FloatOps): (r: Run)
    ensures Follows(st, r)
    decreases st.fuel, t, 1, 0
  {
    if |t.children| < 2 then Ret(Unit, st)
    else
      var symbol := AssignedName(t);
      var r := ExecChild(t.children[1], st, fp);
      if r.result.Err? then r
      else
        var frames :=
          if r.st.declaring then AddBinding(r.st.frames, symbol, r.result.value)
          else UpdateBinding(r.st.frames, symbol, r.result.value);
        match frames
        case Err(e) => Run(Err(e), r.st)
        case Ok(f) => Ret(Unit, r.st.(frames := f))
  }

  /** visitDeclareStatement: the children are processed with the declaration flag set, which is then cleared. */
  function ExecDeclare(t: Tree, st: State, fp: FloatOps): (r: Run)
    ensures Follows(st, r)
    ensures r.result.Ok? ==> r.result.value == Unit && !r.st.declaring
    decreases st.fuel, t, 1, 0
  {
    var r := DeclareFrom(t, 0, st.(declaring := true), fp);
    if r.result.Err? then r else Ret(Unit, r.st.(declaring := false))
  }

  /**
   * The loop of visitDeclareStatement from child i on: a name subtree with a
   * token is declared with no value (so it holds int 0), an assignment
   * subtree is visited, and every other child is skipped.
   */
  function DeclareFrom(t: Tree, i: nat, st: State, fp: FloatOps): (r: Run)
    requires i <= |t.children|
    ensures Follows(st, r)
    decreases st.fuel, t, 0, |t.children| - i
  {
    if i == |t.children| then Ret(Unit, st)
    else
      var c := t.children[i];
      if c.Subtree? && c.tree.data == "name" then
        if FirstIsToken(c.tree) then
          match AddBinding(st.frames, c.tree.children[0].token.text, Unit)
          case Err(e) => Run(Err(e), st)
          case Ok(f) => DeclareFrom(t, i + 1, st.(frames := f), fp)
        else DeclareFrom(t, i + 1, st, fp)
      else if c.Subtree? && c.tree.data == "assignment_stmt" then
        var r := Exec(c.tree, st, fp);
        if r.result.Err? then r else DeclareFrom(t, i + 1, r.st, fp)
      else DeclareFrom(t, i + 1, st, fp)
  }

  /** visitSuite from child i on: the subtrees in turn, up to the first that yields break or continue. */
  function ExecSuite(t: Tree, i: nat, st: State, fp: FloatOps): (r: Run)
    requires i <= |t.children|
    ensures Follows(st, r)
    decreases st.fuel, t, 1, |t.children| - i
  {
    if i == |t.children| then Ret(Unit, st)
    else if t.children[i].Subtree? then
      var r := Exec(t.children[i].tree, st, fp);
      if r.result.Err? || IsFlowSignal(r.result.value) then r else ExecSuite(t, i + 1, r.st, fp)
    else ExecSuite(t, i + 1, st, fp)
  }

  /** addScope, visit, removeScope: a child evaluated in a new innermost scope. */
  function Scoped(c: Child, st: State, fp: FloatOps): (r: Run)
    ensures Follows(st, r)
    decreases st.fuel, c, 4, 0
  {
    var r := ExecChild(c, st.(frames := st.frames + [map[]]), fp);
    if r.result.Err? then r else Run(r.result, r.st.(frames := r.st.frames[..|r.st.frames| - 1]))
  }

  /**
   * visitIfStatement from child i on: the token children steer it. An
   * if/elif token followed by two children evaluates the first and, when it
   * is true, runs the second in a new scope; an else token followed by a
   * child runs it in a new scope; otherwise the scan goes on.
   */
  function ExecIf(t: Tree, i: nat, st: State, fp: FloatOps): (r: Run)
    requires i <= |t.children|
    ensures Follows(st, r)
    decreases st.fuel, t, 1, |t.children| - i
  {
    var cs := t.children;
    if i == |cs| then Ret(Unit, st)
    else if cs[i].Leaf? && cs[i].token.text in IfWords && i + 2 < |cs| then
      var cond := ExecChild(cs[i + 1], st, fp);
      if cond.result.Err? then cond
      else if ValueToBool(cond.result.value, fp) then Scoped(cs[i + 2], cond.st, fp)
      else ExecIf(t, i + 1, cond.st, fp)
    else if cs[i].Leaf? && cs[i].token.text in ElseWords && i + 1 < |cs| then
      Scoped(cs[i + 1], st, fp)
    else ExecIf(t, i + 1, st, fp)
  }

  /**
   * visitWhileStatement: evaluate the condition; while it is true, run the
   * body in a new scope, stopping early when the body yields break. Each
   * evaluation of the condition uses up one iteration of the bound.
   */
  function ExecWhile(t: Tree, st: State, fp: FloatOps): (r: Run)
    requires |t.children| >= 2
    ensures Follows(st, r)
    ensures r.result.Ok? ==> r.result.value == Unit
    decreases st.fuel, t, 1, 0
  {
    if st.fuel == 0 then Run(Err(OutOfFuel), st)
    else
      var cond := ExecChild(t.children[0], st.(fuel := st.fuel - 1), fp);
      if cond.result.Err? then cond
      else if !ValueToBool(cond.result.value, fp) then Ret(Unit, cond.st)
      else
        var body := Scoped(t.children[1], cond.st, fp);
        if body.result.Err? then body
        else if body.result.value == Str("break") then Ret(Unit, body.st)
        else ExecWhile(t, body.st, fp)
  }

  /**
   * visitForStatement: in a new outer scope, run the declaration part, then
   * loop: the test; the body in a new inner scope, stopping on break; the
   * updates. The outer scope is removed at the end.
   */
  function ExecFor(t: Tree, st: State, fp: FloatOps): (r: Run)
    ensures Follows(st, r)
    ensures r.result.Ok? ==> r.result.value == Unit
    decreases st.fuel, t, 1, 0
  {
    if |t.children| < 4 then Ret(Unit, st)
    else
      var decl := ExecChild(t.children[0], st.(frames := st.frames + [map[]]), fp);
      if decl.result.Err? then decl
      else
        var loop := ForFrom(t, decl.st, fp);
        if loop.result.Err? then loop
        else Ret(Unit, loop.st.(frames := loop.st.frames[..|loop.st.frames| - 1]))
  }

  /** The loop of visitForStatement; each evaluation of the test uses up one iteration of the bound. */
  function ForFrom(t: Tree, st: State, fp: FloatOps): (r: Run)
    requires |t.children| >= 4
    ensures Follows(st, r)
    ensures r.result.Ok? ==> r.result.value == Unit
    decreases st.fuel, t, 0, 0
  {
    if st.fuel == 0 then Run(Err(OutOfFuel), st)
    else
      var cond := ExecChild(t.children[1], st.(fuel := st.fuel - 1), fp);
      if cond.result.Err? then cond
      else if !ValueToBool(cond.result.value, fp) then Ret(Unit, cond.st)
      else
        var body := Scoped(t.children[3], cond.st, fp);
        if body.result.Err? then body
        else if body.result.value == Str("break") then Ret(Unit, body.st)
        else
          var upd := ExecChild(t.children[2], body.st, fp);
          if upd.result.Err? then upd else ForFrom(t, upd.st, fp)
  }

  /** EmojiInterpreter::start: one scope for the program, then the visit of the whole tree. */
  function Start(t: Tree, st: State, fp: FloatOps): Run {
    Exec(t, st.(frames := st.frames + [map[]]), fp)
  }
}
