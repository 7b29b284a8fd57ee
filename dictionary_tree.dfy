/** The word dictionary: a prefix tree of characters whose nodes are mutated in place.
    Matching is exact and case-sensitive; no character is normalised anywhere. */
module Trie {
  import opened Wrappers

  /** One node of the tree: the letter on the edge into it, a completeness flag and a
      child map that stays unallocated (`None`) until the first child is added. */
  class DictionaryTreeNode {
    const letter: char
    var isCompleteWord: bool
    var childNodes: Option<map<char, DictionaryTreeNode>>

    constructor (nodeLetter: char)
      ensures letter == nodeLetter && !isCompleteWord && childNodes == None
    {
      letter := nodeLetter;
      isCompleteWord := false;
      childNodes := None;
    }

    /** The child edges; an unallocated map has none. */
    function Children(): map<char, DictionaryTreeNode>
      reads this`childNodes
    {
      if childNodes.Some? then childNodes.value else map[]
    }

    /** Sets the flag; the flag is never cleared anywhere, so marking is idempotent. */
    method MarkAsCompleteWord()
      modifies this
      ensures isCompleteWord && childNodes == old(childNodes)
    {
      isCompleteWord := true;
    }

    function IsCompleteWord(): bool
      reads this
    {
      isCompleteWord
    }

    /** Follows the edge for `childLetter`, creating it (and the map) when it is missing.
        An existing child is returned as it is and is never replaced. */
    method AddChildLetter(childLetter: char) returns (child: DictionaryTreeNode)
      modifies this
      ensures isCompleteWord == old(isCompleteWord) && childNodes.Some?
      ensures childLetter in old(Children()) ==>
                child == old(Children())[childLetter] && Children() == old(Children())
      ensures childLetter !in old(Children()) ==>
                fresh(child) && Children() == old(Children())[childLetter := child]
      ensures childLetter !in old(Children()) ==>
                child.letter == childLetter && !child.isCompleteWord && child.childNodes == None
    {
      if childNodes.None? {
        childNodes := Some(map[]);
      }
      if childLetter !in childNodes.value {
        var node := new DictionaryTreeNode(childLetter);
        childNodes := Some(childNodes.value[childLetter := node]);
      }
      child := childNodes.value[childLetter];
    }

    /** The child on the edge for `childLetter`; `None` when there is no map or no such key. */
    function GetChildNode(childLetter: char): (r: Option<DictionaryTreeNode>)
      reads this
      ensures r.None? <==> (childNodes.None? || childLetter !in childNodes.value)
      ensures r.Some? ==> childLetter in Children() && r.value == Children()[childLetter]
    {
      if childNodes.Some? && childLetter in childNodes.value then Some(childNodes.value[childLetter]) else None
    }
  }

  /** The shape of a tree as plain values: `nodes` gives the node reached by each path,
      `pathOf` is its inverse, `kids` mirrors every node's child map and `parent` names the
      node whose map holds each node but the root. */
  datatype Layout = Layout(nodes: map<string, DictionaryTreeNode>,
                           pathOf: map<DictionaryTreeNode, string>,
                           parent: map<DictionaryTreeNode, DictionaryTreeNode>,
                           kids: map<DictionaryTreeNode, map<char, DictionaryTreeNode>>)

  /** `nodes` and `pathOf` are inverse maps: every node has exactly one path. */
  ghost predicate Inverse(t: Layout) {
    && (forall p {:trigger t.nodes[p]} | p in t.nodes :: t.nodes[p] in t.pathOf && t.pathOf[t.nodes[p]] == p)
    && (forall n {:trigger t.pathOf[n]} | n in t.pathOf :: t.pathOf[n] in t.nodes && t.nodes[t.pathOf[n]] == n)
  }

  /** Every edge leads to a node whose path extends by the edge's key, which is its letter. */
  ghost predicate Edges(t: Layout) {
    && t.kids.Keys == t.pathOf.Keys
    && (forall n, c {:trigger t.kids[n][c]} | n in t.kids && c in t.kids[n] ::
          t.kids[n][c] in t.pathOf && t.pathOf[t.kids[n][c]] == t.pathOf[n] + [c] && t.kids[n][c].letter == c)
  }

  /** Every node but the root hangs off its parent by the edge for its letter. */
  ghost predicate Parents(root: DictionaryTreeNode, t: Layout) {
    && t.parent.Keys == t.pathOf.Keys - {root}
    && (forall n {:trigger t.parent[n]} | n in t.parent ::
          t.parent[n] in t.kids && n.letter in t.kids[t.parent[n]] && t.kids[t.parent[n]][n.letter] == n)
  }

  ghost predicate WellShaped(root: DictionaryTreeNode, t: Layout) {
    "" in t.nodes && t.nodes[""] == root && Inverse(t) && Edges(t) && Parents(root, t)
  }

  /** Every prefix of a path is a path, and carries the edge for the next letter. */
  lemma {:induction false} PathEdges(root: DictionaryTreeNode, t: Layout, p: string, i: nat)
    requires WellShaped(root, t) && p in t.nodes && i < |p|
    ensures p[..i] in t.nodes && p[i] in t.kids[t.nodes[p[..i]]]
    decreases |p|
  {
    var n := t.nodes[p];
    assert n != root;
    var m := t.parent[n];
    assert p == t.pathOf[m] + [n.letter];
    var q := t.pathOf[m];
    if i < |q| {
      PathEdges(root, t, q, i);
      assert q[..i] == p[..i] && q[i] == p[i];
    } else {
      assert p[..i] == q;
    }
  }

  /** Following an edge from the node of `p` reaches the node of `p + [c]`. */
  lemma EdgeStep(root: DictionaryTreeNode, t: Layout, p: string, c: char)
    requires WellShaped(root, t) && p in t.nodes && c in t.kids[t.nodes[p]]
    ensures p + [c] in t.nodes && t.nodes[p + [c]] == t.kids[t.nodes[p]][c]
  {
    assert t.kids[t.nodes[p]][c] in t.pathOf;
  }

  /** The layout after hanging the leaf `child` off the node of `path` by the edge `letter`. */
  ghost function WithLeaf(t: Layout, path: string, letter: char, child: DictionaryTreeNode): Layout
    requires path in t.nodes && t.nodes[path] in t.kids
  {
    var node := t.nodes[path];
    Layout(t.nodes[path + [letter] := child], t.pathOf[child := path + [letter]], t.parent[child := node],
           t.kids[node := t.kids[node][letter := child]][child := map[]])
  }

  lemma LeafKeepsInverse(root: DictionaryTreeNode, t: Layout, path: string, letter: char, child: DictionaryTreeNode)
    requires Inverse(t) && Edges(t) && path in t.nodes && path + [letter] !in t.nodes && child !in t.pathOf
    ensures Inverse(WithLeaf(t, path, letter, child))
  {
    var t' := WithLeaf(t, path, letter, child);
    forall p | p in t'.nodes
      ensures t'.nodes[p] in t'.pathOf && t'.pathOf[t'.nodes[p]] == p
    {
      if p != path + [letter] {
        assert t'.nodes[p] == t.nodes[p] && t.nodes[p] in t.pathOf;
      }
    }
  }

  lemma LeafKeepsEdges(root: DictionaryTreeNode, t: Layout, path: string, letter: char, child: DictionaryTreeNode)
    requires Inverse(t) && Edges(t) && path in t.nodes && child !in t.pathOf && child.letter == letter
    ensures Edges(WithLeaf(t, path, letter, child))
  {
    var node := t.nodes[path];
    var t' := WithLeaf(t, path, letter, child);
    forall n, c | n in t'.kids && c in t'.kids[n]
      ensures t'.kids[n][c] in t'.pathOf && t'.pathOf[t'.kids[n][c]] == t'.pathOf[n] + [c] && t'.kids[n][c].letter == c
    {
      if n == node && c == letter {
      } else {
        assert n != child && t'.kids[n][c] == t.kids[n][c];
      }
    }
  }

  lemma LeafKeepsParents(root: DictionaryTreeNode, t: Layout, path: string, letter: char, child: DictionaryTreeNode)
    requires t.kids.Keys == t.pathOf.Keys && Parents(root, t) && child != root
    requires path in t.nodes && t.nodes[path] in t.kids && letter !in t.kids[t.nodes[path]]
    requires child !in t.pathOf && child.letter == letter
    ensures Parents(root, WithLeaf(t, path, letter, child))
  {
    var t' := WithLeaf(t, path, letter, child);
    forall n | n in t'.parent
      ensures t'.parent[n] in t'.kids && n.letter in t'.kids[t'.parent[n]] && t'.kids[t'.parent[n]][n.letter] == n
    {
      if n != child {
        assert t'.parent[n] == t.parent[n] && t'.kids[t.parent[n]][n.letter] == t.kids[t.parent[n]][n.letter];
      }
    }
  }

  /** Hanging a new leaf off the node of `path` by a missing edge keeps the shape, and the
      extended path was not a path before. */
  lemma AddLeaf(root: DictionaryTreeNode, t: Layout, path: string, letter: char, child: DictionaryTreeNode)
    requires WellShaped(root, t) && path in t.nodes
    requires letter !in t.kids[t.nodes[path]] && child !in t.pathOf && child.letter == letter
    ensures path + [letter] !in t.nodes
    ensures WellShaped(root, WithLeaf(t, path, letter, child))
  {
    var ext := path + [letter];
    assert ext[..|path|] == path && ext[|path|] == letter;
    if ext in t.nodes {
      PathEdges(root, t, ext, |path|);
    }
    LeafKeepsInverse(root, t, path, letter, child);
    LeafKeepsEdges(root, t, path, letter, child);
    LeafKeepsParents(root, t, path, letter, child);
  }

  /** A layout describes the live nodes: each node's child map is the one the layout records,
      and a node's flag is set exactly when its path is one of `words`. */
  ghost predicate Describes(root: DictionaryTreeNode, t: Layout, words: set<string>)
    reads t.pathOf.Keys`childNodes, t.pathOf.Keys`isCompleteWord
  {
    && WellShaped(root, t)
    && words <= t.nodes.Keys
    && (forall n {:trigger t.kids[n]} | n in t.pathOf :: n.Children() == t.kids[n])
    && (forall n {:trigger t.pathOf[n]} | n in t.pathOf :: n.isCompleteWord <==> t.pathOf[n] in words)
  }

  /** One step of the `AddWord` cursor: `AddChildLetter` on the node of `path`, with the
      layout extended by the node it created, if any. */
  method Descend(root: DictionaryTreeNode, ghost t: Layout, ghost words: set<string>, ghost path: string,
                 node: DictionaryTreeNode, letter: char)
    returns (child: DictionaryTreeNode, ghost t': Layout)
    requires Describes(root, t, words) && path in t.nodes && node == t.nodes[path]
    modifies node
    ensures Describes(root, t', words)
    ensures t.pathOf.Keys <= t'.pathOf.Keys && fresh(t'.pathOf.Keys - t.pathOf.Keys)
    ensures path + [letter] in t'.nodes && child == t'.nodes[path + [letter]]
  {
    ghost var existed := letter in t.kids[node];
    child := node.AddChildLetter(letter);
    if existed {
      EdgeStep(root, t, path, letter);
      t' := t;
    } else {
      AddLeaf(root, t, path, letter, child);
      t' := WithLeaf(t, path, letter, child);
      forall n | n in t'.pathOf
        ensures n.Children() == t'.kids[n]
        ensures n.isCompleteWord <==> t'.pathOf[n] in words
      {
        if n != node && n != child {
          assert n.Children() == old(n.Children()) && n.isCompleteWord == old(n.isCompleteWord);
        }
      }
    }
  }

  /** The loop of `AddWord`: walks a cursor from the root along `word`, creating the
      missing edges, and returns the node reached with the extended layout. */
  method Walk(root: DictionaryTreeNode, ghost t0: Layout, ghost words: set<string>, word: string)
    returns (node: DictionaryTreeNode, ghost t: Layout)
    requires Describes(root, t0, words)
    modifies t0.pathOf.Keys
    ensures Describes(root, t, words)
    ensures t0.pathOf.Keys <= t.pathOf.Keys && fresh(t.pathOf.Keys - t0.pathOf.Keys)
    ensures word in t.nodes && node == t.nodes[word]
  {
    node, t := root, t0;
    for i := 0 to |word|
      invariant Describes(root, t, words)
      invariant t0.pathOf.Keys <= t.pathOf.Keys && fresh(t.pathOf.Keys - t0.pathOf.Keys)
      invariant word[..i] in t.nodes && node == t.nodes[word[..i]]
    {
      assert word[..i] + [word[i]] == word[..i + 1];
      node, t := Descend(root, t, words, word[..i], node, word[i]);
    }
    assert word[..|word|] == word;
  }

  /** The tree. Its abstract value is `Words`, the set of strings inserted so far. */
  class DictionaryTree {
    const rootNode: DictionaryTreeNode
    /** The paths, nodes and edges of the tree, as values. */
    ghost var Shape: Layout
    ghost var Repr: set<DictionaryTreeNode>
    ghost var Words: set<string>

    ghost predicate Valid()
      reads this, Repr
    {
      Repr == Shape.pathOf.Keys && Describes(rootNode, Shape, Words)
    }

    constructor ()
      ensures Valid() && fresh(Repr)
      ensures Words == {} && rootNode.letter == '\0'
    {
      var root := new DictionaryTreeNode('\0');
      rootNode := root;
      Shape := Layout(map["" := root], map[root := ""], map[], map[root := map[]]);
      Repr := {root};
      Words := {};
    }

    /** Walks a cursor from the root, creating the missing edges, and marks the last node. */
    method AddWord(wordToAdd: string)
      requires Valid()
      modifies this, Repr
      ensures Valid() && fresh(Repr - old(Repr))
      ensures Words == old(Words) + {wordToAdd}
    {
      var currentNode;
      ghost var t;
      currentNode, t := Walk(rootNode, Shape, Words, wordToAdd);
      MarkWord(t, wordToAdd, currentNode);
    }

    /** The last step of `AddWord`: marks the node reached and records the walked layout and the new word. */
    method MarkWord(ghost t: Layout, ghost word: string, node: DictionaryTreeNode)
      requires Describes(rootNode, t, Words) && word in t.nodes && node == t.nodes[word]
      modifies this, node
      ensures Valid() && Repr == t.pathOf.Keys && Words == old(Words) + {word}
    {
      node.MarkAsCompleteWord();
      Shape, Repr, Words := t, t.pathOf.Keys, Words + {word};
      forall n | n in t.pathOf
        ensures n.Children() == t.kids[n]
        ensures n.isCompleteWord <==> t.pathOf[n] in Words
      {
        if n != node {
          assert n.isCompleteWord == old(n.isCompleteWord) && t.nodes[t.pathOf[n]] == n;
        }
      }
    }

    /** The `char[]` overload converts to a string and adds that; a null array converts to "". */
    method AddWordChars(wordToAdd: array?<char>)
      requires Valid()
      modifies this, Repr
      ensures Valid() && fresh(Repr - old(Repr))
      ensures wordToAdd == null ==> Words == old(Words) + {""}
      ensures wordToAdd != null ==> Words == old(Words) + {wordToAdd[..]}
    {
      AddWord(CharsString(wordToAdd));
    }

    /** Walks a cursor from the root; a missing edge answers false at once, and at the end
        only the completeness flag of the node reached decides. */
    method DoesWordExist(wordToCheck: string) returns (found: bool)
      requires Valid()
      ensures found <==> wordToCheck in Words
    {
      var currentNode := rootNode;
      for i := 0 to |wordToCheck|
        invariant wordToCheck[..i] in Shape.nodes && currentNode == Shape.nodes[wordToCheck[..i]]
      {
        var next := currentNode.GetChildNode(wordToCheck[i]);
        if next.None? {
          if wordToCheck in Shape.nodes {
            PathEdges(rootNode, Shape, wordToCheck, i);
          }
          return false;
        }
        EdgeStep(rootNode, Shape, wordToCheck[..i], wordToCheck[i]);
        assert wordToCheck[..i] + [wordToCheck[i]] == wordToCheck[..i + 1];
        currentNode := next.value;
      }
      assert wordToCheck[..|wordToCheck|] == wordToCheck;
      return currentNode.IsCompleteWord();
    }

    /** The `char[]` overload converts to a string and checks that; a null array converts to "". */
    method DoesWordExistChars(wordToCheck: array?<char>) returns (found: bool)
      requires Valid()
      ensures wordToCheck == null ==> (found <==> "" in Words)
      ensures wordToCheck != null ==> (found <==> wordToCheck[..] in Words)
    {
      found := DoesWordExist(CharsString(wordToCheck));
    }
  }

  /** The string `new string(chars)` builds: the characters of the array, or "" for null. */
  function CharsString(chars: array?<char>): (r: string)
    reads chars
    ensures chars == null ==> r == ""
    ensures chars != null ==> |r| == chars.Length && forall i :: 0 <= i < chars.Length ==> r[i] == chars[i]
  {
    if chars == null then "" else chars[..]
  }
}
