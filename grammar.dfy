/**
 * The shapes of the parse trees the recursive-descent parser builds
 * (src/Parser.cpp:185-505): one predicate per kind of node, written
 * independently of the parser so that each parse method can be specified by
 * the shape of the tree it returns.
 */
module Grammar {
  import opened Tokens
  import opened Trees
  import Glyphs

  // Operator spellings each level of the expression grammar accepts.
  const OrOps: set<string> := {Glyphs.Or, "||"}
  const AndOps: set<string> := {Glyphs.And, "&&"}
  const EqualityOps: set<string> :=
    {Glyphs.EqualEqual, Glyphs.NotEqual, Glyphs.Less, Glyphs.Greater, Glyphs.LessEqual, Glyphs.GreaterEqual}
  const AdditiveOps: set<string> := {Glyphs.Plus, Glyphs.Minus, "+", "-"}
  const MultiplicativeOps: set<string> := {Glyphs.Times, Glyphs.Divide, Glyphs.Modulo, "*", "/", "%"}
  const CastOps: set<string> := {Glyphs.Not, Glyphs.Tilde, "!", "~"}

  /**
   * Binary expression levels, from the tightest: 1 multiplicative,
   * 2 additive, 3 equality, 4 logical and, 5 logical or. Level 0 is the
   * cast expression. (The inclusive-or, exclusive-or and and levels of the
   * C++ parser pass their operand through unchanged.)
   */
  const TopLevel: nat := 5

  function LevelTag(k: nat): string
    requires 1 <= k <= TopLevel
  {
    match k
    case 1 => "multiplicativeexpression"
    case 2 => "additiveexpression"
    case 3 => "equalityexpression"
    case 4 => "logicalandexpression"
    case _ => "logicalorexpression"
  }

  function LevelOps(k: nat): set<string>
    requires 1 <= k <= TopLevel
  {
    match k
    case 1 => MultiplicativeOps
    case 2 => AdditiveOps
    case 3 => EqualityOps
    case 4 => AndOps
    case _ => OrOps
  }

  /** A node with one token child, as the parser builds for literals and names. */
  predicate IsTokenNode(t: Tree, tag: string) {
    t.data == tag && |t.children| == 1 && t.children[0].Leaf?
  }

  /** A literal argument: a boolean, number, name or string node holding a token of that kind. */
  predicate IsLiteral(t: Tree) {
    || (IsTokenNode(t, "boolean") && t.children[0].token.text in {Glyphs.True, Glyphs.False})
    || (IsTokenNode(t, "number") && t.children[0].token.kind == Number)
    || (IsTokenNode(t, "name") && t.children[0].token.kind == Name)
    || (IsTokenNode(t, "string") && t.children[0].token.kind == StringLit)
  }

  /** An argument: a literal, or a parenthesised expression (which is the expression itself). */
  predicate IsArgument(t: Tree)
    decreases t, TopLevel + 1
  {
    IsLiteral(t) || IsLevel(t, TopLevel)
  }

  /**
   * An expression of level k: either a level-k node whose left operand is of
   * level k, whose operator is one of the level's, and whose right operand
   * is of level k-1 (left associativity), or an expression of level k-1.
   */
  predicate IsLevel(t: Tree, k: nat)
    requires k <= TopLevel
    decreases t, k
  {
    if k == 0 then
      && t.data == "castexpression"
      && (|t.children| == 1 || |t.children| == 2)
      && (|t.children| == 2 ==> t.children[0].Leaf? && t.children[0].token.text in CastOps)
      && t.children[|t.children| - 1].Subtree?
      && IsArgument(t.children[|t.children| - 1].tree)
    else
      || (&& t.data == LevelTag(k)
          && |t.children| == 3
          && t.children[0].Subtree? && IsLevel(t.children[0].tree, k)
          && t.children[1].Leaf? && t.children[1].token.text in LevelOps(k)
          && t.children[2].Subtree? && IsLevel(t.children[2].tree, k - 1))
      || IsLevel(t, k - 1)
  }

  /** Joining two operands of a level with one of its operators gives a tree of that level. */
  lemma BinaryIsLevel(k: nat, l: Tree, op: Token, r: Tree)
    requires 1 <= k <= TopLevel
    requires IsLevel(l, k) && op.text in LevelOps(k) && IsLevel(r, k - 1)
    ensures IsLevel(Leafless(LevelTag(k)).AddTree(l).AddToken(op).AddTree(r), k)
  {
  }

  predicate IsExpression(t: Tree) {
    IsLevel(t, TopLevel)
  }

  /** The root of an expression is always a cast node or a binary node, never a literal. */
  lemma {:induction false} ExpressionRoot(t: Tree, k: nat)
    requires k <= TopLevel && IsLevel(t, k)
    ensures t.data == "castexpression" || (exists j :: 1 <= j <= k && t.data == LevelTag(j))
    decreases k
  {
    if k > 0 && !(t.data == LevelTag(k) && |t.children| == 3) {
      ExpressionRoot(t, k - 1);
    }
  }

  /** A "name" node holding one token (any token: see Parser::advance at the end of input). */
  predicate IsNameNode(c: Child) {
    c.Subtree? && IsTokenNode(c.tree, "name")
  }

  predicate IsExpressionChild(c: Child) {
    c.Subtree? && IsExpression(c.tree)
  }

  /** name 😌 expression */
  predicate IsAssignment(t: Tree) {
    && t.data == "assignment_stmt"
    && |t.children| == 2
    && IsNameNode(t.children[0]) && t.children[0].tree.children[0].token.kind == Name
    && IsExpressionChild(t.children[1])
  }

  /** 📢 name [😌 expression] {🗿 name [😌 expression]} */
  predicate IsDeclare(t: Tree) {
    && t.data == "declare_stmt"
    && |t.children| >= 1
    && IsNameNode(t.children[0])
    && forall i :: 0 < i < |t.children| ==> DeclaredAt(t.children, i)
  }

  /** A later child of a declaration is a name, or the initial value right after a name. */
  predicate DeclaredAt(cs: seq<Child>, i: nat)
    requires 0 < i < |cs|
  {
    IsNameNode(cs[i]) || (IsNameNode(cs[i - 1]) && IsExpressionChild(cs[i]))
  }

  /** 🖨 👉 expression 👈 */
  predicate IsPrint(t: Tree) {
    t.data == "print_stmt" && |t.children| == 1 && IsExpressionChild(t.children[0])
  }

  /** ⏸ or ⏩ */
  predicate IsFlow(t: Tree) {
    && t.data == "flow_stmt"
    && |t.children| == 1
    && (t.children[0] == Subtree(Leafless("break_stmt")) || t.children[0] == Subtree(Leafless("continue_stmt")))
  }

  /** 🚩 / 💿 👉 expression 👈 🍽 suite 🥂 */
  predicate IsConditional(t: Tree, tag: string)
    decreases t, 1
  {
    && t.data == tag
    && |t.children| == 2
    && IsExpressionChild(t.children[0])
    && t.children[1].Subtree? && IsSuite(t.children[1].tree)
  }

  predicate IsForDecl(t: Tree) {
    && t.data == "for_decl"
    && (|t.children| == 0 ||
        (|t.children| == 1 && t.children[0].Subtree? &&
         (IsDeclare(t.children[0].tree) || IsAssignment(t.children[0].tree))))
  }

  predicate IsForTest(t: Tree) {
    t.data == "for_test" && (|t.children| == 0 || (|t.children| == 1 && IsExpressionChild(t.children[0])))
  }

  predicate IsForUpdates(t: Tree) {
    && t.data == "for_updates"
    && (|t.children| == 0 || (|t.children| == 1 && t.children[0].Subtree? && IsAssignment(t.children[0].tree)))
  }

  /** 📀 👉 for_decl 👄 for_test 👄 for_updates 👈 🍽 suite 🥂 */
  predicate IsFor(t: Tree)
    decreases t, 1
  {
    && t.data == "for_stmt"
    && |t.children| == 4
    && t.children[0].Subtree? && IsForDecl(t.children[0].tree)
    && t.children[1].Subtree? && IsForTest(t.children[1].tree)
    && t.children[2].Subtree? && IsForUpdates(t.children[2].tree)
    && t.children[3].Subtree? && IsSuite(t.children[3].tree)
  }

  /** Any statement: the node parseStatement returns. */
  predicate IsStatement(t: Tree)
    decreases t, 2
  {
    || IsDeclare(t)
    || IsPrint(t)
    || IsConditional(t, "if_stmt")
    || IsConditional(t, "while_stmt")
    || IsFor(t)
    || IsFlow(t)
    || IsAssignment(t)
    || IsExpression(t)
  }

  /** A sequence of statements between 🍽 and 🥂. */
  predicate IsSuite(t: Tree)
    decreases t, 0
  {
    t.data == "suite" && forall i :: 0 <= i < |t.children| ==> t.children[i].Subtree? && IsStatement(t.children[i].tree)
  }

  /** A whole program: a "stmt" node over the statements. */
  predicate IsProgram(t: Tree) {
    t.data == "stmt" && forall i :: 0 <= i < |t.children| ==> t.children[i].Subtree? && IsStatement(t.children[i].tree)
  }

  // -----------------------------------------------------------------------
  // The tokens a tree is read from
  // -----------------------------------------------------------------------

  /**
   * One position of the token sequence a tree is read from: a token the
   * tree keeps as a leaf; a token advance() took as a declared name without
   * looking at it; a token whose spelling the parser checked and then
   * dropped (a keyword, 👉, 🗿 or 😌 of a declaration); or a token advance()
   * stepped over unseen (the closers 👈, 🥂, 👄, the 👉 after a keyword and
   * the 😌 of an assignment).
   */
  datatype Slot = Kept(token: Token) | Taken(token: Token) | Checked(text: string) | Skipped

  predicate SlotFits(s: Slot, tk: Token) {
    match s
    case Kept(t) => tk == t
    case Taken(t) => tk == t
    case Checked(g) => tk.text == g
    case Skipped => true
  }

  /** A slot advance() can fill at the end of input, where it does not move. */
  predicate Unmoved(s: Slot) {
    s.Skipped? || s.Taken?
  }

  /** One advance(): onto the next token, or, at END_OF_FILE, nowhere. */
  predicate Step(toks: seq<Token>, from: nat, to: nat) {
    to < |toks| && (to == from + 1 || (to == from && to == |toks| - 1))
  }

  /** Every slot is one advance() fills without moving. */
  predicate AllUnmoved(slots: seq<Slot>)
    decreases |slots|
  {
    slots == [] || (Unmoved(slots[0]) && AllUnmoved(slots[1..]))
  }

  lemma {:induction false} AllUnmovedAppend(a: seq<Slot>, b: seq<Slot>)
    requires AllUnmoved(a) && AllUnmoved(b)
    ensures AllUnmoved(a + b)
    decreases |a|
  {
    if a == [] {
      assert a + b == b;
    } else {
      AllUnmovedAppend(a[1..], b);
      assert (a + b)[1..] == a[1..] + b;
    }
  }

  /**
   * The tokens toks[from..to] spell the slots, position by position. At the
   * end of input advance() stays on END_OF_FILE, so the tokens may stop
   * short of the slots; then `to` is the last token and every slot left
   * over is one advance() fills without moving.
   */
  predicate SpelledBy(slots: seq<Slot>, toks: seq<Token>, from: nat, to: nat)
    decreases to - from
  {
    && from <= to < |toks|
    && if from == to then slots == [] || (to == |toks| - 1 && AllUnmoved(slots))
       else slots != [] && SlotFits(slots[0], toks[from]) && SpelledBy(slots[1..], toks, from + 1, to)
  }

  /** Reading nothing spells no slot. */
  lemma SpelledByNothing(toks: seq<Token>, at: nat)
    requires at < |toks|
    ensures SpelledBy([], toks, at, at)
  {
  }

  /** The token one advance() steps over fills a slot that fits it. */
  lemma SpelledByStep(s: Slot, toks: seq<Token>, from: nat, to: nat)
    requires Step(toks, from, to)
    requires to == from + 1 ==> SlotFits(s, toks[from])
    requires to == from ==> Unmoved(s)
    ensures SpelledBy([s], toks, from, to)
  {
    if to == from + 1 {
      assert [s][1..] == [];
    }
  }

  /** Two spellings read one after the other spell their concatenation. */
  lemma {:induction false} SpelledByJoin(a: seq<Slot>, b: seq<Slot>, toks: seq<Token>, from: nat, mid: nat, to: nat)
    requires SpelledBy(a, toks, from, mid) && SpelledBy(b, toks, mid, to)
    ensures SpelledBy(a + b, toks, from, to)
    decreases mid - from
  {
    if from == mid {
      if a == [] {
        assert a + b == b;
      } else if b == [] {
        assert a + b == a;
      } else {
        AllUnmovedAppend(a, b);
      }
    } else {
      SpelledByJoin(a[1..], b, toks, from + 1, mid, to);
      assert (a + b)[1..] == a[1..] + b;
    }
  }

  /** The tags of the argument nodes that hold one token. */
  predicate IsLiteralTag(tag: string) {
    tag == "boolean" || tag == "number" || tag == "name" || tag == "string"
  }

  /** What a statement's own keyword and opening delimiter spell before its children. */
  function Prefix(tag: string): seq<Slot> {
    if tag == "declare_stmt" then [Checked(Glyphs.Decl)]
    else if tag == "print_stmt" then [Checked(Glyphs.Print), Skipped]
    else if tag == "if_stmt" then [Checked(Glyphs.If), Skipped]
    else if tag == "while_stmt" then [Checked(Glyphs.While), Skipped]
    else if tag == "for_stmt" then [Checked(Glyphs.For), Skipped]
    else if tag == "break_stmt" then [Checked(Glyphs.Break)]
    else if tag == "continue_stmt" then [Checked(Glyphs.Continue)]
    else []
  }

  /** What a statement's closing delimiter spells after its children. */
  function Suffix(tag: string): seq<Slot> {
    if tag in {"print_stmt", "if_stmt", "while_stmt", "for_stmt"} then [Skipped] else []
  }

  /** The delimiters a node of this tag reads before its i-th child, a sub-tree. */
  function Between(tag: string, i: nat): seq<Slot> {
    if tag == "assignment_stmt" && i == 1 then [Skipped]
    else if tag == "declare_stmt" then [Checked(Glyphs.Assign)]
    else if (tag == "if_stmt" || tag == "while_stmt") && i == 1 then [Skipped, Skipped]
    else if tag == "for_stmt" && (i == 1 || i == 2) then [Skipped]
    else if tag == "for_stmt" && i == 3 then [Skipped, Skipped]
    else []
  }

  /**
   * The tokens a tree is read from, in order: its leaves, with the keywords
   * and delimiters the parser reads without keeping them. An argument that
   * is not a literal was written in 👉 … 👈.
   */
  function Unparse(t: Tree): seq<Slot>
    decreases t, 2
  {
    Opened(t) + Suffix(t.data)
  }

  /** The spelling of a node up to its closing delimiter. */
  function Opened(t: Tree): seq<Slot>
    decreases t, 1
  {
    Prefix(t.data) + ChildrenSlots(t.data, t.children)
  }

  function ChildrenSlots(tag: string, cs: seq<Child>): seq<Slot>
    decreases cs
  {
    if cs == [] then [] else ChildrenSlots(tag, cs[..|cs| - 1]) + ChildSlots(tag, |cs| - 1, cs[|cs| - 1])
  }

  /**
   * The spelling of the i-th child of a node with this tag. A declared name
   * after the first follows a 🗿; an argument of a cast node may be in
   * brackets.
   */
  function ChildSlots(tag: string, i: nat, c: Child): seq<Slot>
    decreases c
  {
    match c
    case Leaf(tk) => [Kept(tk)]
    case Subtree(s) =>
      if tag == "castexpression" then ArgumentSlots(s)
      else if tag == "declare_stmt" && s.data == "name" && |s.children| == 1 && s.children[0].Leaf? then
        (if i > 0 then [Checked(Glyphs.Comma)] else []) + [Taken(s.children[0].token)]
      else Between(tag, i) + Unparse(s)
  }

  /** The spelling of an argument: a literal as it is, anything else in 👉 … 👈. */
  function ArgumentSlots(t: Tree): seq<Slot>
    decreases t, 3
  {
    if IsLiteralTag(t.data) then Unparse(t) else [Checked(Glyphs.OpenParen)] + Unparse(t) + [Skipped]
  }

  /** Adding a child appends its spelling to the node's. */
  lemma OpenedAddChild(t: Tree, c: Child)
    ensures Opened(t.AddChild(c)) == Opened(t) + ChildSlots(t.data, |t.children|, c)
  {
    var cs := t.children + [c];
    assert t.AddChild(c).children == cs;
    assert cs[..|cs| - 1] == t.children && cs[|cs| - 1] == c;
    assert ChildrenSlots(t.data, cs) == ChildrenSlots(t.data, t.children) + ChildSlots(t.data, |t.children|, c);
  }

  /** A token node spells its one token. */
  lemma UnparseTokenNode(tag: string, tk: Token)
    requires IsLiteralTag(tag)
    ensures Unparse(Tree(tag, [Leaf(tk)])) == [Kept(tk)]
  {
    OpenedAddChild(Leafless(tag), Leaf(tk));
  }

  /** An expression root is no literal, so as an argument it is in brackets. */
  lemma ExpressionArgumentSlots(t: Tree)
    requires IsExpression(t)
    ensures !IsLiteralTag(t.data)
    ensures ArgumentSlots(t) == [Checked(Glyphs.OpenParen)] + Unparse(t) + [Skipped]
  {
    ExpressionRoot(t, TopLevel);
  }

  /** A tag whose node spells nothing but its children, one after the other. */
  ghost predicate PlainTag(tag: string) {
    && Prefix(tag) == [] && Suffix(tag) == []
    && tag != "castexpression" && tag != "declare_stmt"
    && forall i :: Between(tag, i) == []
  }

  lemma LevelTagIsPlain(k: nat)
    requires 1 <= k <= TopLevel
    ensures PlainTag(LevelTag(k))
  {
    match k
    case 1 =>
    case 2 =>
    case 3 =>
    case 4 =>
    case 5 =>
  }

  /** A binary node spells its left operand, its operator, then its right operand. */
  lemma UnparseBinary(k: nat, l: Tree, op: Token, r: Tree)
    requires 1 <= k <= TopLevel
    ensures Unparse(Leafless(LevelTag(k)).AddTree(l).AddToken(op).AddTree(r)) == Unparse(l) + [Kept(op)] + Unparse(r)
  {
    var tag := LevelTag(k);
    LevelTagIsPlain(k);
    var t0 := Leafless(tag);
    var t1 := t0.AddTree(l);
    var t2 := t1.AddToken(op);
    OpenedAddChild(t0, Subtree(l));
    OpenedAddChild(t1, Leaf(op));
    OpenedAddChild(t2, Subtree(r));
    assert ChildSlots(tag, 0, Subtree(l)) == Between(tag, 0) + Unparse(l);
    assert ChildSlots(tag, 2, Subtree(r)) == Between(tag, 2) + Unparse(r);
  }

  /** A binary node read as its left operand, its operator, then its right operand. */
  lemma SpelledBinary(k: nat, l: Tree, op: Token, r: Tree, toks: seq<Token>, from: nat, c1: nat, c2: nat, to: nat)
    requires 1 <= k <= TopLevel
    requires IsLevel(l, k) && op.text in LevelOps(k) && IsLevel(r, k - 1)
    requires SpelledBy(Unparse(l), toks, from, c1)
    requires SpelledBy([Kept(op)], toks, c1, c2)
    requires SpelledBy(Unparse(r), toks, c2, to)
    ensures IsLevel(Leafless(LevelTag(k)).AddTree(l).AddToken(op).AddTree(r), k)
    ensures SpelledBy(Unparse(Leafless(LevelTag(k)).AddTree(l).AddToken(op).AddTree(r)), toks, from, to)
  {
    BinaryIsLevel(k, l, op, r);
    SpelledByJoin(Unparse(l), [Kept(op)], toks, from, c1, c2);
    SpelledByJoin(Unparse(l) + [Kept(op)], Unparse(r), toks, from, c2, to);
    UnparseBinary(k, l, op, r);
  }

  /** name 😌 expression */
  lemma UnparseAssignment(name: Token, e: Tree)
    ensures Unparse(Leafless("assignment_stmt").AddTree(Leafless("name").AddToken(name)).AddTree(e))
         == [Kept(name)] + [Skipped] + Unparse(e)
  {
    var n := Leafless("name").AddToken(name);
    var t0 := Leafless("assignment_stmt");
    OpenedAddChild(t0, Subtree(n));
    OpenedAddChild(t0.AddTree(n), Subtree(e));
    UnparseTokenNode("name", name);
  }

  /** 🖨 👉 expression 👈 */
  lemma UnparsePrint(e: Tree)
    ensures Unparse(Leafless("print_stmt").AddTree(e)) == [Checked(Glyphs.Print)] + [Skipped] + Unparse(e) + [Skipped]
  {
    OpenedAddChild(Leafless("print_stmt"), Subtree(e));
  }

  /** keyword 👉 condition 👈 🍽 suite 🥂 */
  lemma UnparseConditional(keyword: string, tag: string, cond: Tree, body: Tree)
    requires (keyword == Glyphs.If && tag == "if_stmt") || (keyword == Glyphs.While && tag == "while_stmt")
    ensures Unparse(Leafless(tag).AddTree(cond).AddTree(body))
         == [Checked(keyword)] + [Skipped] + Unparse(cond) + [Skipped] + [Skipped] + Unparse(body) + [Skipped]
  {
    var t0 := Leafless(tag);
    var t1 := t0.AddTree(cond);
    var t2 := t1.AddTree(body);
    var p1 := [Checked(keyword)] + [Skipped] + Unparse(cond);
    var p2 := p1 + [Skipped] + [Skipped] + Unparse(body);
    assert Opened(t1) == p1 by {
      OpenedAddChild(t0, Subtree(cond));
      assert Opened(t0) == [Checked(keyword), Skipped] == [Checked(keyword)] + [Skipped];
      assert ChildSlots(tag, 0, Subtree(cond)) == Unparse(cond);
    }
    assert Opened(t2) == p2 by {
      OpenedAddChild(t1, Subtree(body));
      assert ChildSlots(tag, 1, Subtree(body)) == [Skipped, Skipped] + Unparse(body);
      assert [Skipped, Skipped] == [Skipped] + [Skipped];
      AppendGroup(p1, [Skipped] + [Skipped], Unparse(body));
      AppendGroup(p1, [Skipped], [Skipped]);
    }
    assert Suffix(t2.data) == [Skipped];
  }

  /** 📀 👉 for_decl 👄 for_test 👄 for_updates 👈 🍽 suite 🥂 */
  lemma UnparseFor(decl: Tree, test: Tree, updates: Tree, body: Tree)
    ensures Unparse(Leafless("for_stmt").AddTree(decl).AddTree(test).AddTree(updates).AddTree(body))
         == [Checked(Glyphs.For)] + [Skipped] + Unparse(decl) + [Skipped] + Unparse(test) + [Skipped]
            + Unparse(updates) + [Skipped] + [Skipped] + Unparse(body) + [Skipped]
  {
    var t0 := Leafless("for_stmt");
    var t1 := t0.AddTree(decl);
    var t2 := t1.AddTree(test);
    var t3 := t2.AddTree(updates);
    var t4 := t3.AddTree(body);
    var p1 := [Checked(Glyphs.For)] + [Skipped] + Unparse(decl);
    var p2 := p1 + [Skipped] + Unparse(test);
    var p3 := p2 + [Skipped] + Unparse(updates);
    var p4 := p3 + [Skipped] + [Skipped] + Unparse(body);
    assert Opened(t1) == p1 by {
      OpenedAddChild(t0, Subtree(decl));
      assert Opened(t0) == [Checked(Glyphs.For), Skipped] == [Checked(Glyphs.For)] + [Skipped];
      assert ChildSlots("for_stmt", 0, Subtree(decl)) == Unparse(decl);
    }
    assert Opened(t2) == p2 by {
      OpenedAddChild(t1, Subtree(test));
      assert ChildSlots("for_stmt", 1, Subtree(test)) == [Skipped] + Unparse(test);
      AppendGroup(p1, [Skipped], Unparse(test));
    }
    assert Opened(t3) == p3 by {
      OpenedAddChild(t2, Subtree(updates));
      assert ChildSlots("for_stmt", 2, Subtree(updates)) == [Skipped] + Unparse(updates);
      AppendGroup(p2, [Skipped], Unparse(updates));
    }
    assert Opened(t4) == p4 by {
      OpenedAddChild(t3, Subtree(body));
      assert ChildSlots("for_stmt", 3, Subtree(body)) == [Skipped, Skipped] + Unparse(body);
      assert [Skipped, Skipped] == [Skipped] + [Skipped];
      AppendGroup(p3, [Skipped] + [Skipped], Unparse(body));
      AppendGroup(p3, [Skipped], [Skipped]);
    }
    assert Suffix(t4.data) == [Skipped];
  }

  /** Concatenation regroups to the left. */
  lemma AppendGroup(p: seq<Slot>, q: seq<Slot>, u: seq<Slot>)
    ensures p + (q + u) == p + q + u
  {
  }


  /** A node of these tags spells its children one after the other. */
  lemma UnparseSequence(t: Tree, c: Tree)
    requires t.data in {"suite", "stmt", "for_decl", "for_test", "for_updates"}
    ensures Unparse(t.AddTree(c)) == Unparse(t) + Unparse(c)
  {
    OpenedAddChild(t, Subtree(c));
  }

  /** A statement list read so far, followed by one more statement, spells both in turn. */
  lemma SpelledSequence(t: Tree, c: Tree, toks: seq<Token>, from: nat, mid: nat, to: nat)
    requires t.data in {"suite", "stmt", "for_decl", "for_test", "for_updates"}
    requires SpelledBy(Unparse(t), toks, from, mid) && SpelledBy(Unparse(c), toks, mid, to)
    ensures SpelledBy(Unparse(t.AddTree(c)), toks, from, to)
  {
    SpelledByJoin(Unparse(t), Unparse(c), toks, from, mid, to);
    UnparseSequence(t, c);
  }

  /** Appending a statement keeps a program a program. */
  lemma ProgramAdd(t: Tree, c: Tree)
    requires IsProgram(t) && IsStatement(c)
    ensures IsProgram(t.AddTree(c))
  {
  }

  /** Appending a statement keeps a suite a suite. */
  lemma SuiteAdd(t: Tree, c: Tree)
    requires IsSuite(t) && IsStatement(c)
    ensures IsSuite(t.AddTree(c))
  {
  }

  /** A collecting node with one child spells what the child spells. */
  lemma UnparseSingle(tag: string, c: Tree)
    requires tag in {"suite", "stmt", "for_decl", "for_test", "for_updates"}
    ensures Unparse(Leafless(tag).AddTree(c)) == Unparse(c)
  {
    UnparseSequence(Leafless(tag), c);
    assert [] + Unparse(c) == Unparse(c);
  }

  /** A cast node spells its operator, if any, then its argument. */
  lemma UnparseCast(op: Token, arg: Tree)
    ensures Unparse(Leafless("castexpression").AddToken(op).AddTree(arg)) == [Kept(op)] + ArgumentSlots(arg)
    ensures Unparse(Leafless("castexpression").AddTree(arg)) == ArgumentSlots(arg)
  {
    var t0 := Leafless("castexpression");
    assert Prefix(t0.data) == [] && Suffix(t0.data) == [];
    assert Opened(t0) == [];
    var t1 := t0.AddToken(op);
    OpenedAddChild(t0, Leaf(op));
    assert Opened(t1) == [Kept(op)];
    OpenedAddChild(t1, Subtree(arg));
    assert ChildSlots(t1.data, 1, Subtree(arg)) == ArgumentSlots(arg);
    assert Unparse(t1.AddTree(arg)) == Opened(t1.AddTree(arg)) + [];
    OpenedAddChild(t0, Subtree(arg));
    assert ChildSlots(t0.data, 0, Subtree(arg)) == ArgumentSlots(arg);
    assert Unparse(t0.AddTree(arg)) == Opened(t0.AddTree(arg)) + [];
  }

  /** A cast operator followed by an argument spells the cast node with that operator. */
  lemma SpelledCast(op: Token, arg: Tree, toks: seq<Token>, from: nat, mid: nat, to: nat)
    requires SpelledBy([Kept(op)], toks, from, mid) && SpelledBy(ArgumentSlots(arg), toks, mid, to)
    ensures SpelledBy(Unparse(Leafless("castexpression").AddToken(op).AddTree(arg)), toks, from, to)
  {
    SpelledByJoin([Kept(op)], ArgumentSlots(arg), toks, from, mid, to);
    UnparseCast(op, arg);
  }

  /** An argument alone spells the cast node without an operator. */
  lemma SpelledBareCast(arg: Tree, toks: seq<Token>, from: nat, to: nat)
    requires SpelledBy(ArgumentSlots(arg), toks, from, to)
    ensures SpelledBy(Unparse(Leafless("castexpression").AddTree(arg)), toks, from, to)
  {
    UnparseCast(NewToken(EndOfFile, ""), arg);
  }

  /** A flow statement spells its keyword. */
  lemma UnparseFlow()
    ensures Unparse(Leafless("flow_stmt").AddTree(Leafless("break_stmt"))) == [Checked(Glyphs.Break)]
    ensures Unparse(Leafless("flow_stmt").AddTree(Leafless("continue_stmt"))) == [Checked(Glyphs.Continue)]
  {
    OpenedAddChild(Leafless("flow_stmt"), Subtree(Leafless("break_stmt")));
    OpenedAddChild(Leafless("flow_stmt"), Subtree(Leafless("continue_stmt")));
  }

  /** A declaration spells 📢, then each name, after a 🗿 but the first, and each 😌 and initial value. */
  lemma UnparseDeclare(t: Tree)
    requires t.data == "declare_stmt"
    ensures Unparse(t) == Opened(t)
    ensures Opened(Leafless("declare_stmt")) + Separator(Leafless("declare_stmt")) == [Checked(Glyphs.Decl)]
  {
    assert Opened(Leafless("declare_stmt")) == [Checked(Glyphs.Decl)];
  }

  /** What a declaration reads before its next name: a 🗿, except before the first. */
  function Separator(t: Tree): seq<Slot> {
    if |t.children| > 0 then [Checked(Glyphs.Comma)] else []
  }

  lemma DeclareNameSlots(t: Tree, name: Token)
    requires t.data == "declare_stmt"
    ensures Opened(t.AddTree(Tree("name", [Leaf(name)])))
         == Opened(t) + Separator(t) + [Taken(name)]
  {
    OpenedAddChild(t, Subtree(Tree("name", [Leaf(name)])));
  }

  lemma DeclareValueSlots(t: Tree, e: Tree)
    requires t.data == "declare_stmt" && IsExpression(e)
    ensures Opened(t.AddTree(e)) == Opened(t) + [Checked(Glyphs.Assign)] + Unparse(e)
  {
    OpenedAddChild(t, Subtree(e));
    ExpressionArgumentSlots(e);
  }

  /** A declaration read so far, the 🗿 due before a further name, then the name. */
  lemma SpelledDeclareName(t: Tree, name: Token, toks: seq<Token>, from: nat, mid: nat, to: nat)
    requires t.data == "declare_stmt"
    requires SpelledBy(Opened(t) + Separator(t), toks, from, mid) && SpelledBy([Taken(name)], toks, mid, to)
    ensures SpelledBy(Opened(t.AddTree(Tree("name", [Leaf(name)]))), toks, from, to)
  {
    SpelledByJoin(Opened(t) + Separator(t), [Taken(name)], toks, from, mid, to);
    DeclareNameSlots(t, name);
  }

  /** A declaration read so far, a 😌, then an initial value. */
  lemma SpelledDeclareValue(t: Tree, e: Tree, toks: seq<Token>, from: nat, c1: nat, c2: nat, to: nat)
    requires t.data == "declare_stmt" && IsExpression(e)
    requires SpelledBy(Opened(t), toks, from, c1) && SpelledBy([Checked(Glyphs.Assign)], toks, c1, c2)
    requires SpelledBy(Unparse(e), toks, c2, to)
    ensures SpelledBy(Opened(t.AddTree(e)), toks, from, to)
  {
    SpelledByJoin(Opened(t), [Checked(Glyphs.Assign)], toks, from, c1, c2);
    SpelledByJoin(Opened(t) + [Checked(Glyphs.Assign)], Unparse(e), toks, from, c2, to);
    DeclareValueSlots(t, e);
  }

  /** Nodes that only collect their children spell nothing of their own. */
  lemma UnparseCollection(tag: string)
    requires tag in {"suite", "stmt", "for_decl", "for_test", "for_updates"}
    ensures Unparse(Leafless(tag)) == []
  {
  }

  /** The first token that may begin an argument: a boolean, a number, a name, a string or 👉. */
  predicate StartsArgument(tk: Token) {
    || (tk.kind != EndOfFile && tk.text in {Glyphs.True, Glyphs.False, Glyphs.OpenParen})
    || tk.kind in {Number, Name, StringLit}
  }
}
