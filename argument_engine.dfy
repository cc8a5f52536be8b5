/** The phrase extraction of the feature extractor's `ArgumentEngine`: a walk
    over a constituency tree that returns each subtree's text (its leaves,
    each followed by a space) and records, in post-order, a phrase for every
    inner node whose text holds more than one word. Building the CoreNLP
    pipeline and parsing are not part of this model; the tree is an input. */
module ArgumentEngine {
  import opened Wrappers
  import opened Text

  const LangEn: string := "en"
  const LangEs: string := "es"

  /** A constituency tree node: its label (a word at a leaf) and children. */
  datatype Tree = Node(value: string, children: seq<Tree>)

  /** `Phrase(text, function, depth)`; `tag` is the `function` field, the node's label. */
  datatype Phrase = Phrase(text: string, tag: string, depth: int)

  /** The engine keeps the language it was built for. */
  class Engine {
    const language: string

    constructor(lang: string)
      ensures language == lang
    {
      language := lang;
    }

    /** `getCurrentLanguage()`. */
    function CurrentLanguage(): (lang: string)
      ensures lang == language
    {
      language
    }
  }

  // ---------------------------------------------------------------------------
  // Specification of the walk

  /** The text the walk returns for `t`. */
  function TreeText(t: Tree): string
    decreases t, 1
  {
    if |t.children| == 0 then t.value + " " else ChildrenText(t, |t.children|)
  }

  /** The texts of the first `k` children of `t`, concatenated. */
  function ChildrenText(t: Tree, k: nat): string
    requires k <= |t.children|
    decreases t, 0, k
  {
    if k == 0 then "" else ChildrenText(t, k - 1) + TreeText(t.children[k - 1])
  }

  /** Whether an inner node's text makes a phrase: Java `text.split(" ")`
      yields more than one field. */
  predicate IsPhraseText(text: string) {
    |JavaSplit(text, ' ')| > 1
  }

  /** The phrases the walk records for `t` at `depth`, in order. */
  function Phrases(t: Tree, depth: int): seq<Phrase>
    decreases t, 1
  {
    if |t.children| == 0 then []
    else
      var text := TreeText(t);
      ChildrenPhrases(t, |t.children|, depth + 1)
        + (if IsPhraseText(text) then [Phrase(JavaTrim(text), t.value, depth)] else [])
  }

  /** The phrases of the first `k` children of `t`, each walked at `depth`. */
  function ChildrenPhrases(t: Tree, k: nat, depth: int): seq<Phrase>
    requires k <= |t.children|
    decreases t, 0, k
  {
    if k == 0 then [] else ChildrenPhrases(t, k - 1, depth) + Phrases(t.children[k - 1], depth)
  }

  // ---------------------------------------------------------------------------
  // The walk

  /** The private `getPhraseList(tree, depth, syntagmaList)`: appends the
      phrases of `tree` to the shared list and returns the tree's text. */
  method Walk(tree: Tree, depth: int, syntagmaList: seq<Phrase>) returns (text: string, list: seq<Phrase>)
    ensures text == TreeText(tree)
    ensures list == syntagmaList + Phrases(tree, depth)
    decreases tree
  {
    text := "";
    list := syntagmaList;
    if |tree.children| == 0 {
      text := tree.value + " ";
    } else {
      var i := 0;
      while i < |tree.children|
        invariant 0 <= i <= |tree.children|
        invariant text == ChildrenText(tree, i)
        invariant list == syntagmaList + ChildrenPhrases(tree, i, depth + 1)
      {
        var childText, childList := Walk(tree.children[i], depth + 1, list);
        text := text + childText;
        list := childList;
        i := i + 1;
      }
      if IsPhraseText(text) {
        list := list + [Phrase(JavaTrim(text), tree.value, depth)];
      }
    }
  }

  /** The public `getPhraseList(tree)`: no phrases for a null tree, otherwise
      the walk from depth 0. */
  method GetPhraseList(tree: Option<Tree>) returns (syntagmaList: seq<Phrase>)
    ensures tree.None? ==> syntagmaList == []
    ensures tree.Some? ==> syntagmaList == Phrases(tree.value, 0)
  {
    syntagmaList := [];
    if tree.Some? {
      var _, list := Walk(tree.value, 0, syntagmaList);
      syntagmaList := list;
    }
  }

  // ---------------------------------------------------------------------------
  // Properties

  /** The leaves of a tree, left to right. */
  function Leaves(t: Tree): seq<string>
    decreases t, 1
  {
    if |t.children| == 0 then [t.value] else ChildrenLeaves(t, |t.children|)
  }

  function ChildrenLeaves(t: Tree, k: nat): seq<string>
    requires k <= |t.children|
    decreases t, 0, k
  {
    if k == 0 then [] else ChildrenLeaves(t, k - 1) + Leaves(t.children[k - 1])
  }

  /** Each word followed by one space, concatenated. */
  function Spaced(words: seq<string>): string {
    if words == [] then "" else Spaced(words[..|words| - 1]) + (words[|words| - 1] + " ")
  }

  lemma {:induction false} SpacedConcat(a: seq<string>, b: seq<string>)
    ensures Spaced(a + b) == Spaced(a) + Spaced(b)
    decreases |b|
  {
    if b == [] {
      assert a + b == a;
    } else {
      var b0 := b[..|b| - 1];
      assert (a + b)[..|a + b| - 1] == a + b0;
      SpacedConcat(a, b0);
    }
  }

  /** A tree's text is its leaves, each followed by one space, in order:
      every node's text is the in-order concatenation of its children's. */
  lemma {:induction false} TextIsSpacedLeaves(t: Tree)
    ensures TreeText(t) == Spaced(Leaves(t))
    decreases t, 1
  {
    if |t.children| == 0 {
      assert Spaced([t.value]) == Spaced([]) + (t.value + " ");
    } else {
      ChildrenTextIsSpacedLeaves(t, |t.children|);
    }
  }

  lemma {:induction false} ChildrenTextIsSpacedLeaves(t: Tree, k: nat)
    requires k <= |t.children|
    ensures ChildrenText(t, k) == Spaced(ChildrenLeaves(t, k))
    decreases t, 0, k
  {
    if k > 0 {
      ChildrenTextIsSpacedLeaves(t, k - 1);
      TextIsSpacedLeaves(t.children[k - 1]);
      SpacedConcat(ChildrenLeaves(t, k - 1), Leaves(t.children[k - 1]));
    }
  }

  /** A leaf has the text "value " and never records a phrase. */
  lemma LeafNoPhrase(value: string, depth: int)
    ensures TreeText(Node(value, [])) == value + " "
    ensures Phrases(Node(value, []), depth) == []
  {
  }

  /** The height of a tree: 0 for a leaf. */
  function Height(t: Tree): (h: nat)
    decreases t, 1
  {
    if |t.children| == 0 then 0 else 1 + ChildrenHeight(t, |t.children|)
  }

  /** The largest height among the first `k` children. */
  function ChildrenHeight(t: Tree, k: nat): (h: nat)
    requires k <= |t.children|
    decreases t, 0, k
  {
    if k == 0 then 0
    else
      var a := ChildrenHeight(t, k - 1);
      var b := Height(t.children[k - 1]);
      if a >= b then a else b
  }

  /** Every phrase of a tree walked at depth d lies at a depth from d to
      d + height - 1: the root is at d and each level adds one. */
  lemma {:induction false} PhraseDepths(t: Tree, d: int)
    ensures forall i :: 0 <= i < |Phrases(t, d)| ==> d <= Phrases(t, d)[i].depth < d + Height(t)
    decreases t, 1
  {
    if |t.children| > 0 {
      ChildrenPhraseDepths(t, |t.children|, d + 1);
    }
  }

  lemma {:induction false} ChildrenPhraseDepths(t: Tree, k: nat, d: int)
    requires k <= |t.children|
    ensures forall i :: 0 <= i < |ChildrenPhrases(t, k, d)| ==>
      d <= ChildrenPhrases(t, k, d)[i].depth < d + ChildrenHeight(t, k)
    decreases t, 0, k
  {
    if k > 0 {
      ChildrenPhraseDepths(t, k - 1, d);
      PhraseDepths(t.children[k - 1], d);
      var front: seq<Phrase> := ChildrenPhrases(t, k - 1, d);
      var back: seq<Phrase> := Phrases(t.children[k - 1], d);
      var all: seq<Phrase> := front + back;
      assert ChildrenPhrases(t, k, d) == all;
      forall i | 0 <= i < |all|
        ensures d <= all[i].depth < d + ChildrenHeight(t, k)
      {
        if i < |front| {
          assert all[i] == front[i];
        } else {
          assert all[i] == back[i - |front|];
        }
      }
    }
  }

  /** Post-order: the only phrase at the walk's own depth is the root's,
      recorded after every phrase of its subtrees. */
  lemma PostOrder(t: Tree, d: int)
    ensures forall i :: 0 <= i < |Phrases(t, d)| && Phrases(t, d)[i].depth == d ==>
      i == |Phrases(t, d)| - 1 && Phrases(t, d)[i] == Phrase(JavaTrim(TreeText(t)), t.value, d)
  {
    if |t.children| > 0 {
      var below := ChildrenPhrases(t, |t.children|, d + 1);
      ChildrenPhraseDepths(t, |t.children|, d + 1);
      var ps := Phrases(t, d);
      forall i | 0 <= i < |below|
        ensures ps[i].depth > d
      {
        assert ps[i] == below[i];
      }
    }
  }

  // ---------------------------------------------------------------------------
  // Phrase statistics of the feature extractors

  /** The deepest phrase depth, starting from `init`. */
  function MaxDepth(init: int, ps: seq<Phrase>): (m: int)
    ensures m >= init
    ensures forall i :: 0 <= i < |ps| ==> ps[i].depth <= m
    ensures m == init || exists i :: 0 <= i < |ps| && ps[i].depth == m
  {
    if ps == [] then init
    else
      var m := MaxDepth(init, ps[..|ps| - 1]);
      if ps[|ps| - 1].depth > m then ps[|ps| - 1].depth else m
  }

  /** The `forEach` over the phrase list that raises `parseTreeDepth` to the
      deepest phrase depth. */
  method DeepestPhrase(parseTreeDepth: int, phraseList: seq<Phrase>) returns (depth: int)
    ensures depth == MaxDepth(parseTreeDepth, phraseList)
  {
    depth := parseTreeDepth;
    var i := 0;
    while i < |phraseList|
      invariant 0 <= i <= |phraseList|
      invariant depth == MaxDepth(parseTreeDepth, phraseList[..i])
    {
      assert phraseList[..i + 1][..i] == phraseList[..i];
      if phraseList[i].depth > depth {
        depth := phraseList[i].depth;
      }
      i := i + 1;
    }
    assert phraseList[..i] == phraseList;
  }

  /** Starting from 0, the deepest phrase of a tree is below its height. */
  lemma TreeDepthBound(t: Tree)
    ensures 0 <= MaxDepth(0, Phrases(t, 0)) <= Height(t)
    ensures MaxDepth(0, Phrases(t, 0)) == 0 || MaxDepth(0, Phrases(t, 0)) < Height(t)
  {
    PhraseDepths(t, 0);
  }
}
