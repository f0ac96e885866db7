/**
 * What the interpreter does with the trees the parser builds and the
 * transformer rewrites: properties of the evaluation functions of module
 * Semantics on the shapes of module Grammar, before and after
 * Transformer.Normalize.
 */
module Behaviour {
  import opened Errors
  import opened Values
  import opened Trees
  import opened Symbols
  import opened Operators
  import opened Semantics
  import Grammar
  import Transformer
  import Glyphs

  // ---------------------------------------------------------------------
  // Expressions have no effect on the state
  // ---------------------------------------------------------------------

  /** The tags of expression nodes whose visitors only evaluate their children. */
  const ExpressionTags: set<string> := {
    "castexpression", "additiveexpression", "multiplicativeexpression", "equalityexpression",
    "andexpression", "exclusiveorexpression", "inclusiveorexpression",
    "logicalandexpression", "logicalorexpression"
  }

  /** The tags of literal nodes, whose visitors read their token (and, for a name, the symbol table). */
  const LiteralTags: set<string> := {"string", "name", "number", "boolean"}

  /** A tree made of expression and literal nodes only. */
  predicate IsPureTree(t: Tree)
    decreases t, 1
  {
    || t.data in LiteralTags
    || (t.data in ExpressionTags && forall i :: 0 <= i < |t.children| ==> IsPureChild(t.children[i]))
  }

  predicate IsPureChild(c: Child)
    decreases c
  {
    c.Leaf? || IsPureTree(c.tree)
  }

  /** The exceptions an expression can end in: an unknown name, or behaviour C++ leaves undefined. */
  predicate IsExpressionError(e: Error) {
    e.Undeclared? || e.UndefinedBehaviour?
  }

  /** Evaluating an expression leaves the state as it was, and fails only on an unknown name or undefined behaviour. */
  lemma {:induction false} PureTreeKeepsState(t: Tree, st: State, fp: FloatOps)
    requires IsPureTree(t)
    ensures Exec(t, st, fp).st == st
    ensures Exec(t, st, fp).result.Err? ==> IsExpressionError(Exec(t, st, fp).result.error)
    decreases t, 2, 0
  {
    var cs := t.children;
    if t.data in LiteralTags {
    } else if t.data == "castexpression" {
      if |cs| == 1 {
        PureChildKeepsState(cs[0], st, fp);
      } else if |cs| == 2 {
        PureChildKeepsState(cs[1], st, fp);
      }
    } else if t.data == "equalityexpression" {
      if |cs| > 0 {
        PureChildKeepsState(cs[0], st, fp);
        var first := ExecChild(cs[0], st, fp);
        if first.result.Ok? {
          var text := ValueToString(first.result.value, fp) + " ";
          PureEqualityTextKeepsState(t, 1, text, st, fp);
          if |cs| >= 3 {
            PureChildKeepsState(cs[2], st, fp);
          }
        }
      }
    } else {
      var kind :=
        if t.data == "additiveexpression" then Additive
        else if t.data == "multiplicativeexpression" then Multiplicative
        else if t.data == "andexpression" then BitwiseAnd
        else if t.data == "exclusiveorexpression" then ExclusiveOr
        else if t.data == "inclusiveorexpression" then InclusiveOr
        else if t.data == "logicalandexpression" then LogicalAnd
        else LogicalOr;
      ExecOfFold(t, kind, st, fp);
      if |cs| > 0 {
        PureChildKeepsState(cs[0], st, fp);
        var first := ExecChild(cs[0], st, fp);
        if first.result.Ok? {
          PureFoldKeepsState(t, kind, 1, first.result.value, st, fp);
        }
      }
    }
  }

  lemma {:induction false} PureChildKeepsState(c: Child, st: State, fp: FloatOps)
    requires IsPureChild(c)
    ensures ExecChild(c, st, fp).st == st
    ensures ExecChild(c, st, fp).result.Err? ==> IsExpressionError(ExecChild(c, st, fp).result.error)
    decreases c, 3, 0
  {
    if c.Subtree? {
      PureTreeKeepsState(c.tree, st, fp);
    }
  }

  lemma {:induction false} PureFoldKeepsState(t: Tree, kind: FoldKind, i: nat, v: Value, st: State, fp: FloatOps)
    requires forall j :: 0 <= j < |t.children| ==> IsPureChild(t.children[j])
    ensures FoldFrom(t, kind, i, v, st, fp).st == st
    ensures FoldFrom(t, kind, i, v, st, fp).result.Err? ==> IsExpressionError(FoldFrom(t, kind, i, v, st, fp).result.error)
    decreases t, 1, |t.children| - i
  {
    if i + 1 < |t.children| {
      PureChildKeepsState(t.children[i + 1], st, fp);
      var r := ExecChild(t.children[i + 1], st, fp);
      if r.result.Ok? {
        var s := Step(kind, TokenText(t.children[i]), v, r.result.value, fp);
        if s.Ok? {
          PureFoldKeepsState(t, kind, i + 2, s.value, st, fp);
        }
      }
    }
  }

  lemma {:induction false} PureEqualityTextKeepsState(t: Tree, i: nat, text: string, st: State, fp: FloatOps)
    requires forall j :: 0 <= j < |t.children| ==> IsPureChild(t.children[j])
    ensures EqualityText(t, i, text, st, fp).st == st
    ensures EqualityText(t, i, text, st, fp).result.Err? ==> IsExpressionError(EqualityText(t, i, text, st, fp).result.error)
    decreases t, 1, |t.children| - i
  {
    if i + 1 < |t.children| {
      PureChildKeepsState(t.children[i + 1], st, fp);
      var r := ExecChild(t.children[i + 1], st, fp);
      if r.result.Ok? {
        var piece := TokenText(t.children[i]) + " " + ValueToString(r.result.value, fp) + " ";
        PureEqualityTextKeepsState(t, i + 2, text + piece, st, fp);
      }
    }
  }

  /** Every expression the parser builds is made of expression and literal nodes. */
  lemma {:induction false} LevelIsPure(t: Tree, k: nat)
    requires k <= Grammar.TopLevel && Grammar.IsLevel(t, k)
    ensures IsPureTree(t)
    decreases t, k
  {
    var cs := t.children;
    if k == 0 {
      ArgumentIsPure(cs[|cs| - 1].tree);
      forall i | 0 <= i < |cs|
        ensures IsPureChild(cs[i])
      {
      }
    } else if t.data == Grammar.LevelTag(k) && |cs| == 3 && cs[0].Subtree? && Grammar.IsLevel(cs[0].tree, k)
           && cs[1].Leaf? && cs[2].Subtree? && Grammar.IsLevel(cs[2].tree, k - 1) {
      LevelIsPure(cs[0].tree, k);
      LevelIsPure(cs[2].tree, k - 1);
      forall i | 0 <= i < |cs|
        ensures IsPureChild(cs[i])
      {
      }
    } else {
      LevelIsPure(t, k - 1);
    }
  }

  lemma {:induction false} ArgumentIsPure(t: Tree)
    requires Grammar.IsArgument(t)
    ensures IsPureTree(t)
    decreases t, Grammar.TopLevel + 1
  {
    if !Grammar.IsLiteral(t) {
      LevelIsPure(t, Grammar.TopLevel);
    }
  }

  /** The transformer rewrites token texts only, so an expression stays one. */
  lemma {:induction false} NormalizeKeepsPure(t: Tree)
    requires IsPureTree(t)
    ensures IsPureTree(Transformer.Normalize(t))
    decreases t, 1
  {
    var n := Transformer.Normalize(t);
    if t.data !in LiteralTags {
      forall i | 0 <= i < |n.children|
        ensures IsPureChild(n.children[i])
      {
        var c := t.children[i];
        assert n.children[i] == Transformer.NormalizeChild(t.data, |t.children|, i, c);
        if c.Subtree? {
          NormalizeKeepsPure(c.tree);
        }
      }
    }
  }

  /**
   * An expression the parser builds, before or after the transformer,
   * changes nothing (no scope, binding, output or loop bound) and can only
   * fail on an unknown name or on behaviour C++ leaves undefined.
   */
  lemma ExpressionHasNoEffect(t: Tree, st: State, fp: FloatOps)
    requires Grammar.IsExpression(t)
    ensures Exec(t, st, fp).st == st
    ensures Exec(t, st, fp).result.Err? ==> IsExpressionError(Exec(t, st, fp).result.error)
    ensures Exec(Transformer.Normalize(t), st, fp).st == st
    ensures Exec(Transformer.Normalize(t), st, fp).result.Err? ==>
              IsExpressionError(Exec(Transformer.Normalize(t), st, fp).result.error)
  {
    LevelIsPure(t, Grammar.TopLevel);
    PureTreeKeepsState(t, st, fp);
    NormalizeKeepsPure(t);
    PureTreeKeepsState(Transformer.Normalize(t), st, fp);
  }

  // ---------------------------------------------------------------------
  // Binary expressions
  // ---------------------------------------------------------------------

  /** A node with a folding tag is evaluated by the fold of its kind. */
  lemma ExecOfFold(t: Tree, kind: FoldKind, st: State, fp: FloatOps)
    requires t.data == FoldTag(kind)
    ensures Exec(t, st, fp) == ExecFold(t, kind, st, fp)
  {
    if kind == Additive {
      assert t.data == "additiveexpression";
    } else if kind == Multiplicative {
      assert t.data == "multiplicativeexpression";
    } else if kind == BitwiseAnd {
      assert t.data == "andexpression";
    } else if kind == ExclusiveOr {
      assert t.data == "exclusiveorexpression";
    } else if kind == InclusiveOr {
      assert t.data == "inclusiveorexpression";
    } else if kind == LogicalAnd {
      assert t.data == "logicalandexpression";
    } else {
      assert t.data == "logicalorexpression";
    }
  }

  /**
   * A binary node of the parser (left operand, operator, right operand):
   * the left operand, then the right operand whatever the operator and the
   * left value are, then one step of the operator.
   */
  lemma BinaryEvaluatesBothOperands(t: Tree, kind: FoldKind, st: State, fp: FloatOps)
    requires t.data == FoldTag(kind) && |t.children| == 3
    ensures var a := ExecChild(t.children[0], st, fp);
            var b := ExecChild(t.children[2], a.st, fp);
            Exec(t, st, fp) ==
              if a.result.Err? then a
              else if b.result.Err? then b
              else Run(Step(kind, TokenText(t.children[1]), a.result.value, b.result.value, fp), b.st)
  {
    ExecOfFold(t, kind, st, fp);
    var a := ExecChild(t.children[0], st, fp);
    if a.result.Ok? {
      assert ExecFold(t, kind, st, fp) == FoldFrom(t, kind, 1, a.result.value, a.st, fp);
      var b := ExecChild(t.children[2], a.st, fp);
      if b.result.Ok? {
        var s := Step(kind, TokenText(t.children[1]), a.result.value, b.result.value, fp);
        if s.Ok? {
          assert FoldFrom(t, kind, 1, a.result.value, a.st, fp) == FoldFrom(t, kind, 3, s.value, b.st, fp);
          assert FoldFrom(t, kind, 3, s.value, b.st, fp) == Ret(s.value, b.st);
        }
      }
    }
  }

  /**
   * The logical operators do not short-circuit: the node fails exactly when
   * one of its operands fails, even when the left operand already decides
   * the answer, and otherwise it is the truth values combined.
   */
  lemma LogicalOperatorsEvaluateBothSides(t: Tree, kind: FoldKind, st: State, fp: FloatOps)
    requires kind == LogicalAnd || kind == LogicalOr
    requires t.data == FoldTag(kind) && |t.children| == 3 && TokenText(t.children[1]) in KindOps(kind)
    ensures var a := ExecChild(t.children[0], st, fp);
            var b := ExecChild(t.children[2], a.st, fp);
            && (Exec(t, st, fp).result.Err? <==> a.result.Err? || b.result.Err?)
            && (a.result.Ok? && b.result.Ok? ==>
                  var x := ValueToBool(a.result.value, fp);
                  var y := ValueToBool(b.result.value, fp);
                  Exec(t, st, fp).result == Ok(Bool(if kind == LogicalAnd then x && y else x || y)))
  {
    BinaryEvaluatesBothOperands(t, kind, st, fp);
  }

  // ---------------------------------------------------------------------
  // Equality
  // ---------------------------------------------------------------------

  /** The printed text of a comparison contains "==" exactly when the operator or an operand's text does. */
  lemma ComparisonText(sa: string, op: string, sb: string)
    ensures HasDoubleEquals(sa + " " + (op + " " + sb + " ")) <==>
              HasDoubleEquals(op) || HasDoubleEquals(sa) || HasDoubleEquals(sb)
  {
    JoinedHasDoubleEquals(sb, "");
    assert sb + " " + "" == sb + " ";
    assert !HasDoubleEquals("");
    JoinedHasDoubleEquals(op, sb + " ");
    assert op + " " + sb + " " == op + " " + (sb + " ");
    JoinedHasDoubleEquals(sa, op + " " + sb + " ");
  }

  /**
   * A comparison node with operands that have no effect: its value is false
   * unless "==" occurs in the printed text (the operator, or either operand's
   * text); when it does, it is whether the two operands print the same. So
   * <, >, <=, >= and != are false unless the operands' texts contain "==".
   */
  lemma EqualityOfPureOperands(t: Tree, st: State, fp: FloatOps)
    requires t.data == "equalityexpression" && |t.children| == 3 && t.children[1].Leaf?
    requires IsPureChild(t.children[0]) && IsPureChild(t.children[2])
    ensures var a := ExecChild(t.children[0], st, fp);
            var b := ExecChild(t.children[2], st, fp);
            Exec(t, st, fp) ==
              if a.result.Err? then a
              else if b.result.Err? then b
              else
                var sa := ValueToString(a.result.value, fp);
                var sb := ValueToString(b.result.value, fp);
                var op := t.children[1].token.text;
                Ret(Bool((HasDoubleEquals(op) || HasDoubleEquals(sa) || HasDoubleEquals(sb)) && sa == sb), st)
  {
    assert Exec(t, st, fp) == ExecEquality(t, st, fp);
    PureEquality(t, st, fp);
  }

  lemma PureEquality(t: Tree, st: State, fp: FloatOps)
    requires |t.children| == 3 && t.children[1].Leaf?
    requires IsPureChild(t.children[0]) && IsPureChild(t.children[2])
    ensures var a := ExecChild(t.children[0], st, fp);
            var b := ExecChild(t.children[2], st, fp);
            ExecEquality(t, st, fp) ==
              if a.result.Err? then a
              else if b.result.Err? then b
              else
                var sa := ValueToString(a.result.value, fp);
                var sb := ValueToString(b.result.value, fp);
                var op := t.children[1].token.text;
                Ret(Bool((HasDoubleEquals(op) || HasDoubleEquals(sa) || HasDoubleEquals(sb)) && sa == sb), st)
  {
    var cs := t.children;
    PureChildKeepsState(cs[0], st, fp);
    PureChildKeepsState(cs[2], st, fp);
    var a := ExecChild(cs[0], st, fp);
    var b := ExecChild(cs[2], st, fp);
    if a.result.Ok? {
      var sa := ValueToString(a.result.value, fp);
      var e := EqualityText(t, 1, sa + " ", st, fp);
      if b.result.Ok? {
        var sb := ValueToString(b.result.value, fp);
        var op := cs[1].token.text;
        var piece := TokenText(cs[1]) + " " + sb + " ";
        assert e == EqualityText(t, 3, sa + " " + piece, st, fp);
        assert e == Ret(Str(sa + " " + (op + " " + sb + " ")), st);
        ComparisonText(sa, op, sb);
      }
    }
  }

  /**
   * A comparison the parser built, after the transformer: 😌😌 compares the
   * printed operands, and the other five comparison glyphs give false unless
   * an operand's text contains "==".
   */
  lemma NormalizedComparison(t: Tree, st: State, fp: FloatOps)
    requires t.data == "equalityexpression" && |t.children| == 3
    requires t.children[0].Subtree? && Grammar.IsLevel(t.children[0].tree, 3)
    requires t.children[1].Leaf? && t.children[1].token.text in Grammar.EqualityOps
    requires t.children[2].Subtree? && Grammar.IsLevel(t.children[2].tree, 2)
    ensures var n := Transformer.Normalize(t);
            var a := ExecChild(n.children[0], st, fp);
            var b := ExecChild(n.children[2], st, fp);
            a.result.Ok? && b.result.Ok? ==>
              var sa := ValueToString(a.result.value, fp);
              var sb := ValueToString(b.result.value, fp);
              Exec(n, st, fp) ==
                Ret(Bool((t.children[1].token.text == Glyphs.EqualEqual || HasDoubleEquals(sa) || HasDoubleEquals(sb)) && sa == sb), st)
  {
    var n := Transformer.Normalize(t);
    LevelIsPure(t.children[0].tree, 3);
    LevelIsPure(t.children[2].tree, 2);
    NormalizeKeepsPure(t.children[0].tree);
    NormalizeKeepsPure(t.children[2].tree);
    Transformer.NormalizedEqualityOperator(t);
    EqualityOfPureOperands(n, st, fp);
    var op := n.children[1].token.text;
    assert HasDoubleEquals(op) <==> op == "==" by {
      assert op in {"<", ">", ">=", "<=", "==", "!="};
      HasDoubleEqualsAt(op);
    }
  }

  // ---------------------------------------------------------------------
  // Literals before and after the transformer
  // ---------------------------------------------------------------------

  /** A number literal holding the decimal text of an int evaluates to that int. */
  lemma NumberLiteralValue(t: Tree, n: int32, st: State, fp: FloatOps)
    requires Grammar.IsTokenNode(t, "number") && t.children[0].token.text == IntToString(n as int)
    ensures Exec(t, st, fp) == Ret(Int(n), st)
    ensures Exec(Transformer.Normalize(t), st, fp) == Ret(Int(n), st)
  {
    NumberTextOfInt(n, fp);
    Transformer.OtherTagsKeepTokens(t);
  }

  /** A boolean literal is true exactly for ✔, whether or not the transformer has spelt it "true". */
  lemma BooleanLiteralValue(t: Tree, st: State, fp: FloatOps)
    requires Grammar.IsTokenNode(t, "boolean") && t.children[0].token.text in {Glyphs.True, Glyphs.False}
    ensures Exec(t, st, fp) == Ret(Bool(t.children[0].token.text == Glyphs.True), st)
    ensures Exec(Transformer.Normalize(t), st, fp) == Ret(Bool(t.children[0].token.text == Glyphs.True), st)
  {
    var n := Transformer.Normalize(t);
    assert n.children[0] == Transformer.NormalizeChild("boolean", 1, 0, t.children[0]);
    assert Glyphs.True != "true" && Glyphs.False != "true";
  }

  // ---------------------------------------------------------------------
  // Statements
  // ---------------------------------------------------------------------

  /** ⏸ evaluates to the string "break" and ⏩ to "continue"; nothing else changes. */
  lemma FlowStatementValue(t: Tree, st: State, fp: FloatOps)
    requires Grammar.IsFlow(t)
    ensures Exec(t, st, fp) ==
              Ret(Str(if t.children[0].tree.data == "break_stmt" then "break" else "continue"), st)
  {
  }

  /** A print statement the parser built appends the text of its expression as one line, or fails as the expression does. */
  lemma PrintAppendsOneLine(t: Tree, st: State, fp: FloatOps)
    requires Grammar.IsPrint(t)
    ensures var v := ExecChild(t.children[0], st, fp);
            Exec(t, st, fp) ==
              if v.result.Err? then v
              else Ret(Unit, st.(output := st.output + [ValueToString(v.result.value, fp)]))
  {
    ExpressionHasNoEffect(t.children[0].tree, st, fp);
  }

  /** An assignment node over a name node and an expression. */
  predicate IsAssignmentShape(t: Tree) {
    && t.data == "assignment_stmt" && |t.children| == 2
    && Grammar.IsNameNode(t.children[0]) && IsPureChild(t.children[1])
  }

  /** The transformer leaves a name node exactly as it is. */
  lemma NameNodeUnchanged(t: Tree)
    requires Grammar.IsTokenNode(t, "name")
    ensures Transformer.Normalize(t) == t
  {
    var n := Transformer.Normalize(t);
    assert n.children[0] == Transformer.NormalizeChild("name", 1, 0, t.children[0]);
    assert n.children == t.children;
  }

  /** Assignments keep their shape through the transformer, and assign the same name. */
  lemma NormalizedAssignment(t: Tree)
    requires Grammar.IsAssignment(t)
    ensures IsAssignmentShape(t) && IsAssignmentShape(Transformer.Normalize(t))
    ensures Transformer.Normalize(t).children[0] == t.children[0]
  {
    var n := Transformer.Normalize(t);
    LevelIsPure(t.children[1].tree, Grammar.TopLevel);
    NormalizeKeepsPure(t.children[1].tree);
    NameNodeUnchanged(t.children[0].tree);
    assert n.children[0] == Transformer.NormalizeChild(t.data, 2, 0, t.children[0]);
    assert n.children[1] == Transformer.NormalizeChild(t.data, 2, 1, t.children[1]);
  }

  /**
   * An assignment evaluates its expression and then, outside a declaration,
   * overwrites the innermost binding of the name (failing when there is
   * none), or, inside a declaration, declares the name in the innermost
   * scope (failing when it is already there). Afterwards the name reads
   * back as the value (an int 0 for a declared unit).
   */
  lemma AssignmentStores(t: Tree, st: State, fp: FloatOps)
    requires IsAssignmentShape(t)
    ensures var name := t.children[0].tree.children[0].token.text;
            var rhs := ExecChild(t.children[1], st, fp);
            var r := Exec(t, st, fp);
            && (rhs.result.Err? ==> r == rhs)
            && (rhs.result.Ok? && !st.declaring ==>
                  && (r.result.Ok? <==> Find(st.frames, name) >= 0)
                  && (r.result.Err? ==> r == Run(Err(AssignUndeclared(name)), st))
                  && (r.result.Ok? ==> r.st == st.(frames := Assigned(st.frames, name, rhs.result.value))
                                       && ValueOf(r.st.frames, name) == Ok(rhs.result.value)))
            && (rhs.result.Ok? && st.declaring ==>
                  && (r.result.Ok? <==> |st.frames| > 0 && name !in st.frames[|st.frames| - 1])
                  && (r.result.Ok? ==> r.st == st.(frames := Declared(st.frames, name, rhs.result.value))
                                       && ValueOf(r.st.frames, name) == Ok(Initial(rhs.result.value))))
  {
    var name := t.children[0].tree.children[0].token.text;
    PureChildKeepsState(t.children[1], st, fp);
    var rhs := ExecChild(t.children[1], st, fp);
    assert Exec(t, st, fp) == ExecAssignment(t, st, fp);
    if rhs.result.Ok? {
      var v := rhs.result.value;
      if st.declaring {
        if |st.frames| > 0 {
          LookupAfterDeclare(st.frames, name, v);
        }
      } else if Find(st.frames, name) >= 0 {
        LookupAfterAssign(st.frames, name, v);
      }
    }
  }

  /** The names of the name children of a declaration, in order. */
  function DeclaredNames(cs: seq<Child>): seq<string> {
    if cs == [] then []
    else (if Grammar.IsNameNode(cs[0]) then [cs[0].tree.children[0].token.text] else []) + DeclaredNames(cs[1..])
  }

  /** addSymbol with no value for each name in turn, stopping at the first failure. */
  function DeclareAll(frames: seq<Frame>, names: seq<string>): Result<seq<Frame>>
    decreases |names|
  {
    if names == [] then Ok(frames)
    else
      match AddBinding(frames, names[0], Unit)
      case Err(e) => Err(e)
      case Ok(f) => DeclareAll(f, names[1..])
  }

  /** A declaration node over name nodes and expressions. */
  predicate IsDeclareShape(t: Tree) {
    && t.data == "declare_stmt"
    && forall i :: 0 <= i < |t.children| ==>
         Grammar.IsNameNode(t.children[i]) || (t.children[i].Subtree? && t.children[i].tree.data in ExpressionTags)
  }

  lemma {:induction false} DeclareFromNames(t: Tree, i: nat, st: State, fp: FloatOps)
    requires IsDeclareShape(t) && i <= |t.children|
    ensures var r := DeclareFrom(t, i, st, fp);
            var d := DeclareAll(st.frames, DeclaredNames(t.children[i..]));
            && (d.Err? ==> r.result == Err(d.error))
            && (d.Ok? ==> r == Ret(Unit, st.(frames := d.value)))
    decreases |t.children| - i
  {
    var cs := t.children;
    if i < |cs| {
      assert cs[i..][1..] == cs[i + 1..];
      var rest := DeclaredNames(cs[i + 1..]);
      var c := cs[i];
      if Grammar.IsNameNode(c) {
        var name := c.tree.children[0].token.text;
        assert DeclaredNames(cs[i..]) == [name] + rest;
        assert ([name] + rest)[1..] == rest;
        match AddBinding(st.frames, name, Unit)
        case Err(e) =>
        case Ok(f) =>
          DeclareFromNames(t, i + 1, st.(frames := f), fp);
      } else {
        assert DeclaredNames(cs[i..]) == rest;
        DeclareFromNames(t, i + 1, st, fp);
      }
    } else {
      assert cs[i..] == [];
    }
  }

  /**
   * A declaration declares its names, in order, each holding int 0; the
   * expressions written after them are never evaluated. It fails at the
   * first name already in the innermost scope, and afterwards the
   * declaration flag is clear again.
   */
  lemma DeclarationIgnoresInitialisers(t: Tree, st: State, fp: FloatOps)
    requires IsDeclareShape(t)
    ensures var d := DeclareAll(st.frames, DeclaredNames(t.children));
            && (d.Err? ==> Exec(t, st, fp).result == Err(d.error))
            && (d.Ok? ==> Exec(t, st, fp) == Ret(Unit, st.(frames := d.value, declaring := false)))
  {
    assert t.children[0..] == t.children;
    DeclareFromNames(t, 0, st.(declaring := true), fp);
  }

  /**
   * After a successful declaration the stack has as many scopes as before,
   * the outer scopes are untouched and the innermost one gains every
   * declared name, bound to int 0.
   */
  lemma {:induction false} DeclareAllFrames(frames: seq<Frame>, names: seq<string>)
    requires DeclareAll(frames, names).Ok?
    ensures var f := DeclareAll(frames, names).value;
            && |f| == |frames|
            && (names != [] ==> |frames| > 0)
            && (|frames| > 0 ==>
                  && f[..|f| - 1] == frames[..|frames| - 1]
                  && f[|f| - 1] == frames[|frames| - 1] + map n | n in names :: Int(0))
    decreases |names|
  {
    if names != [] {
      var g := Declared(frames, names[0], Unit);
      assert AddBinding(frames, names[0], Unit) == Ok(g);
      DeclareAllFrames(g, names[1..]);
      assert DeclareAll(frames, names) == DeclareAll(g, names[1..]);
      var k := |frames| - 1;
      assert g[..k] == frames[..k];
      assert g[k] == frames[k][names[0] := Int(0)];
      ZerosCons(frames[k], names);
    }
  }

  /** Binding the first name to int 0, then the rest, binds them all. */
  lemma ZerosCons(m: Frame, names: seq<string>)
    requires names != []
    ensures m[names[0] := Int(0)] + (map n | n in names[1..] :: Int(0)) == m + (map n | n in names :: Int(0))
  {
    assert forall n :: n in names <==> n == names[0] || n in names[1..];
  }

  /** After a successful declaration every declared name reads int 0. */
  lemma DeclaredNamesHoldZero(frames: seq<Frame>, names: seq<string>)
    requires DeclareAll(frames, names).Ok?
    ensures forall n :: n in names ==> ValueOf(DeclareAll(frames, names).value, n) == Ok(Int(0))
  {
    DeclareAllFrames(frames, names);
    var f := DeclareAll(frames, names).value;
    forall n | n in names
      ensures ValueOf(f, n) == Ok(Int(0))
    {
      assert n in f[|f| - 1] && f[|f| - 1][n] == Int(0);
      FindIsInnermost(f, n, |f| - 1);
    }
  }

  /** Parsed declarations keep their shape through the transformer, and declare the same names. */
  lemma NormalizedDeclaration(t: Tree)
    requires Grammar.IsDeclare(t)
    ensures IsDeclareShape(t) && IsDeclareShape(Transformer.Normalize(t))
    ensures DeclaredNames(Transformer.Normalize(t).children) == DeclaredNames(t.children)
  {
    var n := Transformer.Normalize(t);
    forall i | 0 <= i < |t.children|
      ensures Grammar.IsNameNode(t.children[i]) ==> n.children[i] == t.children[i]
      ensures !Grammar.IsNameNode(t.children[i]) ==>
                && t.children[i].Subtree? && t.children[i].tree.data in ExpressionTags
                && n.children[i].Subtree? && n.children[i].tree.data == t.children[i].tree.data
    {
      var c := t.children[i];
      assert n.children[i] == Transformer.NormalizeChild(t.data, |t.children|, i, c);
      if Grammar.IsNameNode(c) {
        NameNodeUnchanged(c.tree);
      } else {
        assert i > 0;
        assert Grammar.DeclaredAt(t.children, i);
        ExpressionTag(c.tree);
      }
    }
    SameNames(t.children, n.children);
  }

  /** The root of a parsed expression is an expression node. */
  lemma ExpressionTag(t: Tree)
    requires Grammar.IsExpression(t)
    ensures t.data in ExpressionTags
  {
    Grammar.ExpressionRoot(t, Grammar.TopLevel);
    if t.data != "castexpression" {
      var j :| 1 <= j <= Grammar.TopLevel && t.data == Grammar.LevelTag(j);
    }
  }

  lemma {:induction false} SameNames(a: seq<Child>, b: seq<Child>)
    requires |a| == |b|
    requires forall i :: 0 <= i < |a| ==> (Grammar.IsNameNode(a[i]) ==> b[i] == a[i])
    requires forall i :: 0 <= i < |a| ==> (!Grammar.IsNameNode(a[i]) ==> !Grammar.IsNameNode(b[i]))
    ensures DeclaredNames(a) == DeclaredNames(b)
    decreases |a|
  {
    if a != [] {
      SameNames(a[1..], b[1..]);
    }
  }

  /** A suite that runs to the end has no value; one that stops early hands back break or continue. */
  lemma {:induction false} SuiteValue(t: Tree, i: nat, st: State, fp: FloatOps)
    requires i <= |t.children|
    ensures var r := ExecSuite(t, i, st, fp);
            r.result.Ok? ==> r.result.value == Unit || IsFlowSignal(r.result.value)
    decreases |t.children| - i
  {
    if i < |t.children| {
      if t.children[i].Subtree? {
        var r := Exec(t.children[i].tree, st, fp);
        if r.result.Ok? && !IsFlowSignal(r.result.value) {
          SuiteValue(t, i + 1, r.st, fp);
        }
      } else {
        SuiteValue(t, i + 1, st, fp);
      }
    }
  }

  /**
   * Children i up to (not including) k of a suite each run without an error
   * and without a flow signal; run one after the other from st, they leave s.
   * Token children are passed over.
   */
  ghost predicate QuietUpTo(t: Tree, i: nat, k: nat, st: State, fp: FloatOps, s: State)
    requires i <= k <= |t.children|
    decreases k - i
  {
    if i == k then s == st
    else if t.children[i].Subtree? then
      var r := Exec(t.children[i].tree, st, fp);
      r.result.Ok? && !IsFlowSignal(r.result.value) && QuietUpTo(t, i + 1, k, r.st, fp, s)
    else QuietUpTo(t, i + 1, k, st, fp, s)
  }

  /** Children that run quietly only carry the state forward: the suite goes on from child k in s. */
  lemma {:induction false} QuietPrefix(t: Tree, i: nat, k: nat, st: State, fp: FloatOps, s: State)
    requires i <= k <= |t.children| && QuietUpTo(t, i, k, st, fp, s)
    ensures ExecSuite(t, i, st, fp) == ExecSuite(t, k, s, fp)
    decreases k - i
  {
    if i < k {
      var next := QuietStep(t, i, k, st, fp, s);
      QuietPrefix(t, i + 1, k, next, fp, s);
    }
  }

  /**
   * A suite stops at its first flow signal: when the children before k run
   * quietly to s and child k yields break or continue from s, the suite's
   * run is child k's run, and no later child runs.
   */
  lemma SuiteStopsAtFirstSignal(t: Tree, k: nat, st: State, fp: FloatOps, s: State)
    requires k < |t.children| && t.children[k].Subtree?
    requires QuietUpTo(t, 0, k, st, fp, s)
    requires Exec(t.children[k].tree, s, fp).result.Ok? && IsFlowSignal(Exec(t.children[k].tree, s, fp).result.value)
    ensures ExecSuite(t, 0, st, fp) == Exec(t.children[k].tree, s, fp)
  {
    QuietPrefix(t, 0, k, st, fp, s);
    SuiteStopsHere(t, k, s, fp);
  }

  /** The state after a quiet child i, from which the suite carries on with child i + 1. */
  lemma QuietStep(t: Tree, i: nat, k: nat, st: State, fp: FloatOps, s: State) returns (next: State)
    requires i < k <= |t.children| && QuietUpTo(t, i, k, st, fp, s)
    ensures QuietUpTo(t, i + 1, k, next, fp, s)
    ensures ExecSuite(t, i, st, fp) == ExecSuite(t, i + 1, next, fp)
  {
    next := if t.children[i].Subtree? then Exec(t.children[i].tree, st, fp).st else st;
  }

  /** A child that yields a flow signal ends the suite with its own run. */
  lemma SuiteStopsHere(t: Tree, k: nat, s: State, fp: FloatOps)
    requires k < |t.children| && t.children[k].Subtree?
    requires Exec(t.children[k].tree, s, fp).result.Ok? && IsFlowSignal(Exec(t.children[k].tree, s, fp).result.value)
    ensures ExecSuite(t, k, s, fp) == Exec(t.children[k].tree, s, fp)
  { }

  /** A suite whose children all run quietly to s ends in s with no value. */
  lemma QuietSuiteRunsToEnd(t: Tree, st: State, fp: FloatOps, s: State)
    requires QuietUpTo(t, 0, |t.children|, st, fp, s)
    ensures ExecSuite(t, 0, st, fp) == Ret(Unit, s)
  {
    QuietPrefix(t, 0, |t.children|, st, fp, s);
  }

  /**
   * Flow signals are ordinary strings: a statement that is just the string
   * literal "break" stops a suite as ⏸ does.
   */
  lemma StringBreakStopsSuite(t: Tree, tok: Tokens.Token, st: State, fp: FloatOps)
    requires t.data == "suite" && |t.children| > 0 && tok.text == "break"
    requires t.children[0] == Subtree(Tree("castexpression", [Subtree(Tree("string", [Leaf(tok)]))]))
    ensures ExecSuite(t, 0, st, fp) == Ret(Str("break"), st)
  {
    var e := t.children[0].tree;
    assert Exec(e.children[0].tree, st, fp) == Ret(Str("break"), st);
    assert Exec(e, st, fp) == ExecCast(e, st, fp) == Ret(Str("break"), st);
  }

  /**
   * A block runs in a scope of its own: when it finishes normally there are
   * as many scopes as before and each binds the same names, so whatever it
   * declared is gone.
   */
  lemma ScopedDeclarationsVanish(c: Child, st: State, fp: FloatOps)
    ensures var r := Scoped(c, st, fp);
            r.result.Ok? ==>
              && |r.st.frames| == |st.frames|
              && forall j :: 0 <= j < |st.frames| ==> r.st.frames[j].Keys == st.frames[j].Keys
  {
    var inner := ExecChild(c, st.(frames := st.frames + [map[]]), fp);
    if inner.result.Ok? {
      assert ScopesKept(st.frames + [map[]], inner.st.frames);
      forall j | 0 <= j < |st.frames|
        ensures inner.st.frames[j].Keys == st.frames[j].Keys
      {
        assert (st.frames + [map[]])[j] == st.frames[j];
      }
    }
  }

  // ---------------------------------------------------------------------
  // if statements the parser builds
  // ---------------------------------------------------------------------

  lemma {:induction false} IfWithoutTokens(t: Tree, i: nat, st: State, fp: FloatOps)
    requires i <= |t.children|
    requires forall j :: 0 <= j < |t.children| ==> t.children[j].Subtree?
    ensures ExecIf(t, i, st, fp) == Ret(Unit, st)
    decreases |t.children| - i
  {
    if i < |t.children| {
      IfWithoutTokens(t, i + 1, st, fp);
    }
  }

  /**
   * An if statement as the parser builds it (condition and suite, with no
   * keyword token) does nothing at all, before and after the transformer:
   * the condition is not even evaluated.
   */
  lemma ParsedIfDoesNothing(t: Tree, st: State, fp: FloatOps)
    requires Grammar.IsConditional(t, "if_stmt")
    ensures Exec(t, st, fp) == Ret(Unit, st)
    ensures Exec(Transformer.Normalize(t), st, fp) == Ret(Unit, st)
  {
    IfWithoutTokens(t, 0, st, fp);
    var n := Transformer.Normalize(t);
    forall j | 0 <= j < |n.children|
      ensures n.children[j].Subtree?
    {
      assert n.children[j] == Transformer.NormalizeChild(t.data, |t.children|, j, t.children[j]);
    }
    IfWithoutTokens(n, 0, st, fp);
  }

  // ---------------------------------------------------------------------
  // Loops
  // ---------------------------------------------------------------------

  /** A for loop whose test holds and whose body yields "break" stops before its update, with no value. */
  lemma ForBreakSkipsUpdate(t: Tree, st: State, fp: FloatOps)
    requires |t.children| >= 4 && st.fuel > 0
    ensures var test := ExecChild(t.children[1], st.(fuel := st.fuel - 1), fp);
            var body := Scoped(t.children[3], test.st, fp);
            test.result.Ok? && ValueToBool(test.result.value, fp) && body.result == Ok(Str("break")) ==>
              ForFrom(t, st, fp) == Ret(Unit, body.st)
  {
    var test := ExecChild(t.children[1], st.(fuel := st.fuel - 1), fp);
    if test.result.Ok? && ValueToBool(test.result.value, fp) {
      var body := Scoped(t.children[3], test.st, fp);
      if body.result == Ok(Str("break")) {
        assert !test.result.Err? && !body.result.Err? && body.result.value == Str("break");
        assert ForFrom(t, st, fp) == Ret(Unit, body.st);
      }
    }
  }

  /** A for loop whose test holds and whose body yields "continue" still runs its update, then goes round again. */
  lemma ForContinueRunsUpdate(t: Tree, st: State, fp: FloatOps)
    requires |t.children| >= 4 && st.fuel > 0
    ensures var test := ExecChild(t.children[1], st.(fuel := st.fuel - 1), fp);
            var body := Scoped(t.children[3], test.st, fp);
            var update := ExecChild(t.children[2], body.st, fp);
            test.result.Ok? && ValueToBool(test.result.value, fp) && body.result == Ok(Str("continue")) ==>
              ForFrom(t, st, fp) == if update.result.Err? then update else ForFrom(t, update.st, fp)
  {
    var test := ExecChild(t.children[1], st.(fuel := st.fuel - 1), fp);
    if test.result.Ok? && ValueToBool(test.result.value, fp) {
      var body := Scoped(t.children[3], test.st, fp);
      if body.result == Ok(Str("continue")) {
        assert body.result.value != Str("break");
      }
    }
  }

  /**
   * One iteration of a while loop whose condition holds: "break" ends the
   * loop with no value, and "continue" goes round again exactly as a body
   * that ends normally does.
   */
  lemma WhileIteration(t: Tree, st: State, fp: FloatOps)
    requires |t.children| >= 2 && st.fuel > 0
    ensures var cond := ExecChild(t.children[0], st.(fuel := st.fuel - 1), fp);
            var body := Scoped(t.children[1], cond.st, fp);
            cond.result.Ok? && ValueToBool(cond.result.value, fp) && body.result.Ok? ==>
              ExecWhile(t, st, fp) == if body.result.value == Str("break") then Ret(Unit, body.st) else ExecWhile(t, body.st, fp)
  {
  }
}
