/**
 * The glyph normaliser (include/EmojiTransformer.hpp,
 * src/EmojiTransformer.cpp): a pre-order walk of the parse tree that
 * rewrites the text of operator and keyword tokens to their plain
 * spelling, choosing the rewrite by the tag of the node the token hangs
 * under.
 *
 * `Normalize` is the tree the walk produces; the method `Visit`, which keeps
 * the walk and the child loops of the C++ code, is proved to produce it.
 * The C++ code assigns the text of shared tokens in place; here a tree is a
 * value and `Visit` returns the rewritten one.
 */
module Transformer {
  import opened Tokens
  import opened Trees
  import Grammar
  import Glyphs

  /** EmojiTransformer::initializeMappings: the comparison glyphs. */
  const EmojiMappings: map<string, string> := map[
    Glyphs.Less := "<",
    Glyphs.Greater := ">",
    Glyphs.GreaterEqual := ">=",
    Glyphs.LessEqual := "<=",
    Glyphs.EqualEqual := "==",
    Glyphs.NotEqual := "!="
  ]

  // The rewrites hard-coded in the other visit* handlers.
  const IfSpellings: map<string, string> := map[Glyphs.If := "if", Glyphs.Elif := "elif", Glyphs.Else := "else"]
  const BooleanSpellings: map<string, string> := map[Glyphs.True := "true", Glyphs.False := "false"]
  const CastSpellings: map<string, string> := map[Glyphs.Not := "!", Glyphs.Tilde := "~"]
  const MultiplicativeSpellings: map<string, string> := map[Glyphs.Times := "*", Glyphs.Divide := "/", Glyphs.Modulo := "%"]
  const AdditiveSpellings: map<string, string> := map[Glyphs.Plus := "+", Glyphs.Minus := "-"]

  /**
   * The tags whose handler rewrites every token child: the if statement and
   * the binary-expression tags (andexpression, exclusiveorexpression and
   * inclusiveorexpression are handled although the parser never builds them).
   */
  const EveryChildTags: set<string> := {
    "if_stmt", "multiplicativeexpression", "additiveexpression", "equalityexpression",
    "andexpression", "exclusiveorexpression", "inclusiveorexpression",
    "logicalandexpression", "logicalorexpression"
  }

  /** The spellings the handler of a tag applies (empty for tags without a handler). */
  function Spellings(tag: string): map<string, string> {
    if tag == "if_stmt" then IfSpellings
    else if tag == "boolean" then BooleanSpellings
    else if tag == "castexpression" then CastSpellings
    else if tag == "multiplicativeexpression" then MultiplicativeSpellings
    else if tag == "additiveexpression" then AdditiveSpellings
    else if tag == "equalityexpression" then EmojiMappings
    else if tag == "andexpression" then map[Glyphs.BitAnd := "&"]
    else if tag == "exclusiveorexpression" then map[Glyphs.Xor := "xor"]
    else if tag == "inclusiveorexpression" then map[Glyphs.BitOr := "|"]
    else if tag == "logicalandexpression" then map[Glyphs.And := "and"]
    else if tag == "logicalorexpression" then map[Glyphs.Or := "or"]
    else map[]
  }

  /**
   * Whether the handler of a tag looks at child i of a node with `size`
   * children: every child for EveryChildTags, the first child of a boolean,
   * and the first child of a castexpression with more than one child.
   */
  predicate Rewrites(tag: string, size: nat, i: nat) {
    || tag in EveryChildTags
    || (tag == "boolean" && i == 0)
    || (tag == "castexpression" && i == 0 && size > 1)
  }

  /** The text a token at child i has after the handler of the tag has run. */
  function RewriteText(tag: string, size: nat, i: nat, text: string): string {
    if Rewrites(tag, size, i) && text in Spellings(tag) then Spellings(tag)[text] else text
  }

  /** What the handler of a tag does to child i: a token gets its new text, a subtree is left alone. */
  function HandleChild(tag: string, size: nat, i: nat, c: Child): Child {
    match c
    case Leaf(tok) => Leaf(tok.(text := RewriteText(tag, size, i, tok.text)))
    case Subtree(_) => c
  }

  /** A node after its own handler has run (before its subtrees are visited). */
  function Handled(t: Tree): Tree {
    Tree(t.data, seq(|t.children|, i requires 0 <= i < |t.children| => HandleChild(t.data, |t.children|, i, t.children[i])))
  }

  /** EmojiTransformer::visit: the node's handler, then every subtree child in turn. */
  function Normalize(t: Tree): Tree
    decreases t, 1
  {
    Tree(t.data, seq(|t.children|, i requires 0 <= i < |t.children| => NormalizeChild(t.data, |t.children|, i, t.children[i])))
  }

  function NormalizeChild(tag: string, size: nat, i: nat, c: Child): Child
    decreases c
  {
    match c
    case Subtree(s) => Subtree(Normalize(s))
    case Leaf(_) => HandleChild(tag, size, i, c)
  }

  /** EmojiTransformer::getMatch: the mapped spelling of a comparison glyph, anything else unchanged. */
  function GetMatch(emoji: string): string {
    if emoji in EmojiMappings then EmojiMappings[emoji] else emoji
  }

  // -----------------------------------------------------------------------
  // The walk, with the loops of the C++ code
  // -----------------------------------------------------------------------

  /** EmojiTransformer::visit */
  method Visit(t: Tree) returns (r: Tree)
    ensures r == Normalize(t)
    decreases t, 1
  {
    var h: Tree;
    if t.data == "if_stmt" {
      h := RewriteEachToken(t);
    } else if t.data == "boolean" {
      h := VisitBoolean(t);
    } else if t.data == "castexpression" {
      h := VisitCast(t);
    } else if t.data in EveryChildTags {
      h := RewriteEachToken(t);
    } else {
      h := t;
      assert h == Handled(t);
    }
    r := VisitChildren(h, t);
  }

  /** EmojiTransformer::visitChildren: visit every subtree child, in order. */
  method VisitChildren(h: Tree, ghost t: Tree) returns (r: Tree)
    requires h == Handled(t)
    ensures r == Normalize(t)
    decreases t, 0
  {
    var cs := h.children;
    var i := 0;
    while i < |cs|
      invariant 0 <= i <= |cs| == |t.children|
      invariant forall k :: 0 <= k < i ==> cs[k] == NormalizeChild(t.data, |t.children|, k, t.children[k])
      invariant forall k :: i <= k < |cs| ==> cs[k] == h.children[k]
    {
      if cs[i].Subtree? {
        assert cs[i] == t.children[i];
        var s := Visit(cs[i].tree);
        cs := cs[i := Subtree(s)];
      }
      i := i + 1;
    }
    r := Tree(h.data, cs);
  }

  /**
   * The loop shared by visitIfStatement and the eight binary-expression
   * handlers: every token child whose text is one of the tag's glyphs gets
   * the plain spelling.
   */
  method RewriteEachToken(t: Tree) returns (h: Tree)
    requires t.data in EveryChildTags
    ensures h == Handled(t)
  {
    var spellings := Spellings(t.data);
    var cs := t.children;
    var i := 0;
    while i < |cs|
      invariant 0 <= i <= |cs| == |t.children|
      invariant forall k :: 0 <= k < i ==> cs[k] == HandleChild(t.data, |t.children|, k, t.children[k])
      invariant forall k :: i <= k < |cs| ==> cs[k] == t.children[k]
    {
      if cs[i].Leaf? {
        var token := cs[i].token;
        if token.text in spellings {
          cs := cs[i := Leaf(token.(text := spellings[token.text]))];
        }
      }
      i := i + 1;
    }
    h := Tree(t.data, cs);
  }

  /** EmojiTransformer::visitBoolean: only the first child, ✔ to true and ❌ to false. */
  method VisitBoolean(t: Tree) returns (h: Tree)
    requires t.data == "boolean"
    ensures h == Handled(t)
  {
    h := t;
    if |t.children| > 0 && t.children[0].Leaf? {
      var token := t.children[0].token;
      if token.text == Glyphs.True {
        h := Tree(t.data, t.children[0 := Leaf(token.(text := "true"))]);
      } else if token.text == Glyphs.False {
        h := Tree(t.data, t.children[0 := Leaf(token.(text := "false"))]);
      }
    }
  }

  /** EmojiTransformer::visitCastExpression: only a leading operator token of a two-child cast. */
  method VisitCast(t: Tree) returns (h: Tree)
    requires t.data == "castexpression"
    ensures h == Handled(t)
  {
    h := t;
    if |t.children| <= 1 {
      return;
    }
    if t.children[0].Leaf? {
      var token := t.children[0].token;
      if token.text == Glyphs.Not {
        h := Tree(t.data, t.children[0 := Leaf(token.(text := "!"))]);
      } else if token.text == Glyphs.Tilde {
        h := Tree(t.data, t.children[0 := Leaf(token.(text := "~"))]);
      }
    }
  }

  // -----------------------------------------------------------------------
  // Properties of the walk
  // -----------------------------------------------------------------------

  /** Two trees with the same tags, child counts, child kinds and token types and positions. */
  predicate SameShape(a: Tree, b: Tree)
    decreases a, 1
  {
    && a.data == b.data
    && |a.children| == |b.children|
    && forall i :: 0 <= i < |a.children| ==> SameChildShape(a.children[i], b.children[i])
  }

  predicate SameChildShape(a: Child, b: Child)
    decreases a
  {
    match a
    case Subtree(s) => b.Subtree? && SameShape(s, b.tree)
    case Leaf(x) => b.Leaf? && b.token.kind == x.kind && b.token.line == x.line && b.token.column == x.column
  }

  /** Only token text changes: tags, child counts, child kinds and token types stay. */
  lemma {:induction false} NormalizePreservesShape(t: Tree)
    ensures SameShape(t, Normalize(t))
    decreases t, 1
  {
    var n := Normalize(t);
    forall i | 0 <= i < |t.children|
      ensures SameChildShape(t.children[i], n.children[i])
    {
      NormalizeChildPreservesShape(t.data, |t.children|, i, t.children[i]);
    }
  }

  lemma {:induction false} NormalizeChildPreservesShape(tag: string, size: nat, i: nat, c: Child)
    ensures SameChildShape(c, NormalizeChild(tag, size, i, c))
    decreases c
  {
    if c.Subtree? {
      NormalizePreservesShape(c.tree);
    }
  }

  /** No plain spelling is itself a glyph of the same handler, so a second rewrite changes nothing. */
  lemma RewriteTextIdempotent(tag: string, size: nat, i: nat, text: string)
    ensures RewriteText(tag, size, i, RewriteText(tag, size, i, text)) == RewriteText(tag, size, i, text)
  {
    if Rewrites(tag, size, i) && text in Spellings(tag) {
      SpellingsArePlain(tag, text);
    }
  }

  /** No spelling in `m` is itself a key of `m`. */
  predicate Plain(m: map<string, string>) {
    forall k :: k in m ==> m[k] !in m
  }

  lemma IfSpellingsPlain() ensures Plain(IfSpellings) { }
  lemma BooleanSpellingsPlain() ensures Plain(BooleanSpellings) { }
  lemma CastSpellingsPlain() ensures Plain(CastSpellings) { }
  lemma MultiplicativeSpellingsPlain() ensures Plain(MultiplicativeSpellings) { }
  lemma AdditiveSpellingsPlain() ensures Plain(AdditiveSpellings) { }
  lemma EmojiMappingsPlain() ensures Plain(EmojiMappings) { }

  /** A handler never rewrites a spelling it produces. */
  lemma SpellingsArePlain(tag: string, text: string)
    requires text in Spellings(tag)
    ensures Spellings(tag)[text] !in Spellings(tag)
  {
    if tag == "if_stmt" {
      IfSpellingsPlain();
    } else if tag == "boolean" {
      BooleanSpellingsPlain();
    } else if tag == "castexpression" {
      CastSpellingsPlain();
    } else if tag == "multiplicativeexpression" {
      MultiplicativeSpellingsPlain();
    } else if tag == "additiveexpression" {
      AdditiveSpellingsPlain();
    } else if tag == "equalityexpression" {
      EmojiMappingsPlain();
    }
  }


  /** Running visit twice gives the same tree as running it once. */
  lemma {:induction false} NormalizeIdempotent(t: Tree)
    ensures Normalize(Normalize(t)) == Normalize(t)
    decreases t, 1
  {
    var n := Normalize(t);
    forall i | 0 <= i < |t.children|
      ensures NormalizeChild(t.data, |t.children|, i, n.children[i]) == n.children[i]
    {
      NormalizeChildIdempotent(t.data, |t.children|, i, t.children[i]);
    }
  }

  lemma {:induction false} NormalizeChildIdempotent(tag: string, size: nat, i: nat, c: Child)
    ensures NormalizeChild(tag, size, i, NormalizeChild(tag, size, i, c)) == NormalizeChild(tag, size, i, c)
    decreases c
  {
    match c
    case Subtree(s) =>
      NormalizeIdempotent(s);
    case Leaf(tok) =>
      RewriteTextIdempotent(tag, size, i, tok.text);
  }

  /**
   * Each handler maps only its own glyphs: a token's text changes only when
   * the node's tag has a handler that looks at that child, and the text is
   * one of that handler's glyphs.
   */
  lemma RewriteOnlyOwnGlyphs(tag: string, size: nat, i: nat, text: string)
    ensures RewriteText(tag, size, i, text) != text ==>
              Rewrites(tag, size, i) && text in Spellings(tag) && RewriteText(tag, size, i, text) == Spellings(tag)[text]
    ensures text !in Spellings(tag) ==> RewriteText(tag, size, i, text) == text
  {
  }

  /** Tokens under a node without a handler (name, number, string, statements, ...) keep their text. */
  lemma OtherTagsKeepTokens(t: Tree)
    requires t.data !in EveryChildTags && t.data != "boolean" && t.data != "castexpression"
    ensures forall i :: 0 <= i < |t.children| && t.children[i].Leaf? ==> Normalize(t).children[i] == t.children[i]
  {
  }

  /** The equality handler is getMatch on every token child. */
  lemma EqualityHandlerIsGetMatch(size: nat, i: nat, text: string)
    ensures RewriteText("equalityexpression", size, i, text) == GetMatch(text)
  {
  }

  /** getMatch gives the plain comparison for each glyph and is the identity on everything else. */
  lemma GetMatchSpellings(emoji: string)
    ensures emoji !in EmojiMappings ==> GetMatch(emoji) == emoji
    ensures emoji in EmojiMappings ==> GetMatch(emoji) in {"<", ">", ">=", "<=", "==", "!="} && GetMatch(emoji) != emoji
    ensures GetMatch(emoji) == "==" <==> emoji == Glyphs.EqualEqual || emoji == "=="
    ensures GetMatch(GetMatch(emoji)) == GetMatch(emoji)
  {
    RewriteTextIdempotent("equalityexpression", 0, 0, emoji);
  }

  /**
   * The operator of a parsed equality node is a plain comparison after the
   * walk, and it is "==" exactly when the glyph was 😌😌 (which is what the
   * evaluator's equality test looks for).
   */
  lemma NormalizedEqualityOperator(t: Tree)
    requires t.data == "equalityexpression" && |t.children| == 3
    requires t.children[1].Leaf? && t.children[1].token.text in Grammar.EqualityOps
    ensures Normalize(t).children[1].Leaf?
    ensures Normalize(t).children[1].token.text in {"<", ">", ">=", "<=", "==", "!="}
    ensures Normalize(t).children[1].token.text == "==" <==> t.children[1].token.text == Glyphs.EqualEqual
  {
    GetMatchSpellings(t.children[1].token.text);
  }

  /** The operators of parsed additive and multiplicative nodes are plain ASCII operators after the walk. */
  lemma NormalizedArithmeticOperator(t: Tree)
    requires |t.children| == 3 && t.children[1].Leaf?
    requires (t.data == "additiveexpression" && t.children[1].token.text in Grammar.AdditiveOps)
          || (t.data == "multiplicativeexpression" && t.children[1].token.text in Grammar.MultiplicativeOps)
    ensures Normalize(t).children[1].Leaf?
    ensures t.data == "additiveexpression" ==> Normalize(t).children[1].token.text in {"+", "-"}
    ensures t.data == "multiplicativeexpression" ==> Normalize(t).children[1].token.text in {"*", "/", "%"}
  {
  }
}
