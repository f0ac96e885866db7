/**
 * Parse trees (include/Tree.hpp, src/Tree.cpp).
 *
 * A node has a string tag (`data`) and an ordered list of children, each of
 * which is a subtree or a token leaf. Nodes are values with single
 * ownership; `addChild`, which pushes onto the child vector of a node, is a
 * function that returns the extended node.
 */
module Trees {
  import opened Tokens

  datatype Child = Subtree(tree: Tree) | Leaf(token: Token)

  datatype Tree = Tree(data: string, children: seq<Child>) {

    /** Tree::addChild(TreeNode) */
    function AddChild(c: Child): (t: Tree)
      ensures t.data == data && t.Size() == Size() + 1
      ensures t.children[..Size()] == children && t.At(Size()) == c
    {
      Tree(data, children + [c])
    }

    /** Tree::addChild(const std::string&): a new STRING token holding the text. */
    function AddText(text: string): (t: Tree)
      ensures t.data == data && t.Size() == Size() + 1 && t.children[..Size()] == children
      ensures t.At(Size()).Leaf? && t.At(Size()).token.kind == StringLit
      ensures ToString(t.At(Size()).token) == text
    {
      AddChild(Leaf(NewToken(StringLit, text)))
    }

    /** Tree::addChild(TokenPtr) */
    function AddToken(token: Token): (t: Tree)
      ensures t.data == data && t.Size() == Size() + 1 && t.children[..Size()] == children
      ensures t.At(Size()) == Leaf(token)
    {
      AddChild(Leaf(token))
    }

    /** Tree::addChild(TreePtr) */
    function AddTree(tree: Tree): (t: Tree)
      ensures t.data == data && t.Size() == Size() + 1 && t.children[..Size()] == children
      ensures t.At(Size()) == Subtree(tree)
    {
      AddChild(Subtree(tree))
    }

    /** Tree::size */
    function Size(): nat {
      |children|
    }

    /** Tree::operator[] */
    function At(i: nat): Child
      requires i < Size()
    {
      children[i]
    }
  }

  /** Tree(data_name): a node without children. */
  function Leafless(data: string): (t: Tree)
    ensures t.data == data && t.Size() == 0
  {
    Tree(data, [])
  }

  // -----------------------------------------------------------------------
  // Tree::pretty and Tree::prettyNode
  // -----------------------------------------------------------------------

  function Spaces(n: nat): (s: string)
    ensures |s| == n && forall i :: 0 <= i < n ==> s[i] == ' '
  {
    if n == 0 then "" else Spaces(n - 1) + " "
  }

  /** Tree::pretty(indent): the tag on its own line, then every child one level deeper. */
  function Pretty(t: Tree, indent: nat): string
    decreases t, 1
  {
    Spaces(2 * indent) + t.data + "\n" + PrettyChildren(t.children, indent + 1)
  }

  /** The children rendered one after the other, in order. */
  function PrettyChildren(cs: seq<Child>, indent: nat): string
    decreases cs
  {
    if cs == [] then "" else PrettyChildren(cs[..|cs| - 1], indent) + PrettyNode(cs[|cs| - 1], indent)
  }

  /** Tree::prettyNode: a subtree renders itself, a token is its text on one line. */
  function PrettyNode(c: Child, indent: nat): string
    decreases c
  {
    match c
    case Subtree(s) => Pretty(s, indent)
    case Leaf(tok) => Spaces(2 * indent) + tok.text + "\n"
  }

  /** Adding a child appends that child's rendering to the tree's rendering. */
  lemma PrettyAddChild(t: Tree, c: Child, indent: nat)
    ensures Pretty(t.AddChild(c), indent) == Pretty(t, indent) + PrettyNode(c, indent + 1)
  {
    var cs := t.children + [c];
    assert cs[..|cs| - 1] == t.children;
  }

  // -----------------------------------------------------------------------
  // One line per node and per token
  // -----------------------------------------------------------------------

  /** Number of newline characters in s. */
  function Newlines(s: string): nat {
    if s == [] then 0 else Newlines(s[..|s| - 1]) + (if s[|s| - 1] == '\n' then 1 else 0)
  }

  lemma {:induction false} NewlinesAppend(a: string, b: string)
    ensures Newlines(a + b) == Newlines(a) + Newlines(b)
    decreases |b|
  {
    if b != [] {
      assert (a + b)[..|a + b| - 1] == a + b[..|b| - 1];
      NewlinesAppend(a, b[..|b| - 1]);
    } else {
      assert a + b == a;
    }
  }

  lemma {:induction false} NoNewlines(s: string)
    requires forall i :: 0 <= i < |s| ==> s[i] != '\n'
    ensures Newlines(s) == 0
  {
    if s != [] {
      NoNewlines(s[..|s| - 1]);
    }
  }

  predicate NoNewline(s: string) {
    forall i :: 0 <= i < |s| ==> s[i] != '\n'
  }

  /** No tag and no token text in the tree contains a newline. */
  predicate SingleLineTexts(t: Tree)
    decreases t, 1
  {
    NoNewline(t.data) && forall i :: 0 <= i < |t.children| ==> SingleLineChild(t.children[i])
  }

  predicate SingleLineChild(c: Child)
    decreases c
  {
    match c
    case Subtree(s) => SingleLineTexts(s)
    case Leaf(tok) => NoNewline(tok.text)
  }

  /** Number of nodes and tokens in a tree. */
  function NodeCount(t: Tree): nat
    decreases t, 1
  {
    1 + ChildrenCount(t.children)
  }

  function ChildrenCount(cs: seq<Child>): nat
    decreases cs
  {
    if cs == [] then 0 else ChildrenCount(cs[..|cs| - 1]) + ChildCount(cs[|cs| - 1])
  }

  function ChildCount(c: Child): nat
    decreases c
  {
    match c
    case Subtree(s) => NodeCount(s)
    case Leaf(_) => 1
  }

  /**
   * pretty() writes exactly one line per node and per token of the tree,
   * provided no tag or token text holds a newline of its own (a string
   * literal may).
   */
  lemma {:induction false} PrettyLineCount(t: Tree, indent: nat)
    requires SingleLineTexts(t)
    ensures Newlines(Pretty(t, indent)) == NodeCount(t)
    decreases t, 1
  {
    var head := Spaces(2 * indent) + t.data;
    NoNewlines(head);
    NewlinesAppend(head, "\n");
    NewlinesAppend(head + "\n", PrettyChildren(t.children, indent + 1));
    PrettyChildrenLineCount(t.children, indent + 1);
  }

  lemma {:induction false} PrettyChildrenLineCount(cs: seq<Child>, indent: nat)
    requires forall i :: 0 <= i < |cs| ==> SingleLineChild(cs[i])
    ensures Newlines(PrettyChildren(cs, indent)) == ChildrenCount(cs)
    decreases cs
  {
    if cs != [] {
      var init := cs[..|cs| - 1];
      PrettyChildrenLineCount(init, indent);
      NewlinesAppend(PrettyChildren(init, indent), PrettyNode(cs[|cs| - 1], indent));
      PrettyNodeLineCount(cs[|cs| - 1], indent);
    }
  }

  lemma {:induction false} PrettyNodeLineCount(c: Child, indent: nat)
    requires SingleLineChild(c)
    ensures Newlines(PrettyNode(c, indent)) == ChildCount(c)
    decreases c
  {
    match c
    case Subtree(s) =>
      PrettyLineCount(s, indent);
    case Leaf(tok) =>
      var head := Spaces(2 * indent) + tok.text;
      NoNewlines(head);
      NewlinesAppend(head, "\n");
  }
}
