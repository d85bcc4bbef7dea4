/** The indented text listing of a node tree: one `name (TYPE)` line per node,
    drawn with box-drawing connectors. Children are listed from the last in
    source order to the first, and the first source child is the one drawn
    with the terminal connector. */
module TreeText {
  import opened Nodes

  const Tee: string := "├── "
  const Elbow: string := "└── "
  const Pipe: string := "│   "
  const Blank: string := "    "

  /** The connector in front of a node's name: terminal for the last drawn child. */
  function Connector(isLast: bool): string {
    if isLast then Elbow else Tee
  }

  /** What a node adds to the prefix of its descendants' lines. */
  function Indent(isLast: bool): string {
    if isLast then Blank else Pipe
  }

  function Label(n: Node): string {
    n.name + " (" + n.kind + ")"
  }

  /** `getNodeInfo`: the node's own line, then its children's listings. */
  function NodeInfo(n: Node, prefix: string, isLast: bool): string
    decreases n, 1
  {
    prefix + Connector(isLast) + Label(n) + "\n" + ChildrenInfo(n.children, prefix + Indent(isLast), 0)
  }

  /** The listings of cs[|cs| - 1], cs[|cs| - 2], ..., cs[from], in that order;
      only cs[0] is drawn as the last child. */
  function ChildrenInfo(cs: seq<Node>, prefix: string, from: nat): string
    requires from <= |cs|
    decreases cs, |cs| - from
  {
    if from == |cs| then "" else ChildrenInfo(cs, prefix, from + 1) + NodeInfo(cs[from], prefix, from == 0)
  }

  /** `getRootNodeInfo`: the root's line carries no prefix and no connector. */
  function RootNodeInfo(n: Node): string {
    Label(n) + "\n" + ChildrenInfo(n.children, "", 0)
  }

  // ----- the accumulator loops of the source -----

  method GetNodeInfo(n: Node, prefix: string, isLast: bool) returns (result: string)
    ensures result == NodeInfo(n, prefix, isLast)
    decreases n
  {
    var connector := if isLast then Elbow else Tee;
    result := prefix + connector + n.name + " (" + n.kind + ")\n";
    assert result == prefix + Connector(isLast) + Label(n) + "\n";
    var childPrefix := prefix + (if isLast then Blank else Pipe);
    if |n.children| > 0 {
      var j := |n.children| - 1;
      while j >= 0
        invariant -1 <= j < |n.children|
        invariant result == prefix + Connector(isLast) + Label(n) + "\n" + ChildrenInfo(n.children, childPrefix, j + 1)
        decreases j + 1
      {
        var isChildLast := j == 0;
        var child := GetNodeInfo(n.children[j], childPrefix, isChildLast);
        ChildrenInfoStep(n.children, childPrefix, j, result, prefix + Connector(isLast) + Label(n) + "\n");
        result := result + child;
        j := j - 1;
      }
    }
  }

  /** One iteration of the downward loop over the children. */
  lemma ChildrenInfoStep(cs: seq<Node>, prefix: string, j: nat, acc: string, head: string)
    requires j < |cs|
    requires acc == head + ChildrenInfo(cs, prefix, j + 1)
    ensures acc + NodeInfo(cs[j], prefix, j == 0) == head + ChildrenInfo(cs, prefix, j)
  {
  }

  method GetRootNodeInfo(n: Node) returns (result: string)
    ensures result == RootNodeInfo(n)
  {
    result := n.name + " (" + n.kind + ")\n";
    assert result == Label(n) + "\n";
    if |n.children| > 0 {
      var j := |n.children| - 1;
      while j >= 0
        invariant -1 <= j < |n.children|
        invariant result == Label(n) + "\n" + ChildrenInfo(n.children, "", j + 1)
        decreases j + 1
      {
        var isChildLast := j == 0;
        var child := GetNodeInfo(n.children[j], "", isChildLast);
        ChildrenInfoStep(n.children, "", j, result, Label(n) + "\n");
        result := result + child;
        j := j - 1;
      }
    }
  }

  // ----- the listing as a sequence of lines -----

  /** The number of nodes in a tree. */
  function Size(n: Node): nat
    decreases n, 1
  {
    1 + SizeFrom(n.children, 0)
  }

  /** The number of nodes in the subtrees cs[from..]. */
  function SizeFrom(cs: seq<Node>, from: nat): nat
    requires from <= |cs|
    decreases cs, |cs| - from
  {
    if from == |cs| then 0 else Size(cs[from]) + SizeFrom(cs, from + 1)
  }

  /** The lines of NodeInfo, without their line breaks. */
  function NodeLines(n: Node, prefix: string, isLast: bool): seq<string>
    decreases n, 1
  {
    [prefix + Connector(isLast) + Label(n)] + ChildrenLines(n.children, prefix + Indent(isLast), 0)
  }

  function ChildrenLines(cs: seq<Node>, prefix: string, from: nat): seq<string>
    requires from <= |cs|
    decreases cs, |cs| - from
  {
    if from == |cs| then [] else ChildrenLines(cs, prefix, from + 1) + NodeLines(cs[from], prefix, from == 0)
  }

  function RootLines(n: Node): seq<string> {
    [Label(n)] + ChildrenLines(n.children, "", 0)
  }

  /** Lines joined, each closed by a line break. */
  function Unlines(ls: seq<string>): string {
    if |ls| == 0 then "" else ls[0] + "\n" + Unlines(ls[1..])
  }

  lemma {:induction false} UnlinesAppend(a: seq<string>, b: seq<string>)
    ensures Unlines(a + b) == Unlines(a) + Unlines(b)
  {
    if |a| > 0 {
      assert (a + b)[1..] == a[1..] + b;
      UnlinesAppend(a[1..], b);
    } else {
      assert a + b == b;
    }
  }

  /** The text listing is exactly its lines, each closed by a line break. */
  lemma {:induction false} InfoIsLines(n: Node, prefix: string, isLast: bool)
    ensures NodeInfo(n, prefix, isLast) == Unlines(NodeLines(n, prefix, isLast))
    decreases n, 1
  {
    var head := prefix + Connector(isLast) + Label(n);
    var rest := ChildrenLines(n.children, prefix + Indent(isLast), 0);
    ChildrenInfoIsLines(n.children, prefix + Indent(isLast), 0);
    UnlinesAppend([head], rest);
    assert Unlines([head]) == head + "\n";
  }

  lemma {:induction false} ChildrenInfoIsLines(cs: seq<Node>, prefix: string, from: nat)
    requires from <= |cs|
    ensures ChildrenInfo(cs, prefix, from) == Unlines(ChildrenLines(cs, prefix, from))
    decreases cs, |cs| - from
  {
    if from < |cs| {
      ChildrenInfoIsLines(cs, prefix, from + 1);
      InfoIsLines(cs[from], prefix, from == 0);
      UnlinesAppend(ChildrenLines(cs, prefix, from + 1), NodeLines(cs[from], prefix, from == 0));
    }
  }

  lemma RootInfoIsLines(n: Node)
    ensures RootNodeInfo(n) == Unlines(RootLines(n))
  {
    ChildrenInfoIsLines(n.children, "", 0);
    UnlinesAppend([Label(n)], ChildrenLines(n.children, "", 0));
    assert Unlines([Label(n)]) == Label(n) + "\n";
  }

  /** One line per node of the subtree. */
  lemma {:induction false} LineCount(n: Node, prefix: string, isLast: bool)
    ensures |NodeLines(n, prefix, isLast)| == Size(n)
    decreases n, 1
  {
    ChildrenLineCount(n.children, prefix + Indent(isLast), 0);
  }

  lemma {:induction false} ChildrenLineCount(cs: seq<Node>, prefix: string, from: nat)
    requires from <= |cs|
    ensures |ChildrenLines(cs, prefix, from)| == SizeFrom(cs, from)
    decreases cs, |cs| - from
  {
    if from < |cs| {
      ChildrenLineCount(cs, prefix, from + 1);
      LineCount(cs[from], prefix, from == 0);
    }
  }

  predicate StartsWith(s: string, p: string) {
    |p| <= |s| && s[..|p|] == p
  }

  lemma StartsWithLonger(s: string, p: string, q: string)
    requires StartsWith(s, p + q)
    ensures StartsWith(s, p)
  {
    assert s[..|p|] == (p + q)[..|p|];
  }

  lemma StartsWithAppend(p: string, q: string)
    ensures StartsWith(p + q, p)
  {
    assert (p + q)[..|p|] == p;
  }

  /** Every line of a node's listing starts with the prefix it was given; every
      line below its own starts with that prefix extended by its indent. */
  lemma {:induction false} LinesPrefixed(n: Node, prefix: string, isLast: bool)
    ensures var ls := NodeLines(n, prefix, isLast);
      && ls[0] == prefix + Connector(isLast) + Label(n)
      && (forall i :: 0 <= i < |ls| ==> StartsWith(ls[i], prefix))
      && (forall i :: 1 <= i < |ls| ==> StartsWith(ls[i], prefix + Indent(isLast)))
    decreases n, 1
  {
    var ls := NodeLines(n, prefix, isLast);
    var q := prefix + Indent(isLast);
    var rest := ChildrenLines(n.children, q, 0);
    ChildrenLinesPrefixed(n.children, q, 0);
    assert (prefix + Connector(isLast) + Label(n)) == prefix + (Connector(isLast) + Label(n));
    StartsWithAppend(prefix, Connector(isLast) + Label(n));
    forall i | 1 <= i < |ls|
      ensures StartsWith(ls[i], q) && StartsWith(ls[i], prefix)
    {
      assert ls[i] == rest[i - 1];
      assert StartsWith(rest[i - 1], q);
      StartsWithLonger(ls[i], prefix, Indent(isLast));
    }
  }

  lemma {:induction false} ChildrenLinesPrefixed(cs: seq<Node>, prefix: string, from: nat)
    requires from <= |cs|
    ensures forall i :: 0 <= i < |ChildrenLines(cs, prefix, from)| ==> StartsWith(ChildrenLines(cs, prefix, from)[i], prefix)
    decreases cs, |cs| - from
  {
    if from < |cs| {
      var a := ChildrenLines(cs, prefix, from + 1);
      var b := NodeLines(cs[from], prefix, from == 0);
      ChildrenLinesPrefixed(cs, prefix, from + 1);
      LinesPrefixed(cs[from], prefix, from == 0);
      forall i | 0 <= i < |a + b| ensures StartsWith((a + b)[i], prefix) {
        if i < |a| {
          assert (a + b)[i] == a[i];
        } else {
          assert (a + b)[i] == b[i - |a|];
        }
      }
    }
  }

  /** The children's listings split around the block of child k: first the
      blocks of the children after k in source order, then k's own. */
  lemma {:induction false} ChildrenLinesSplit(cs: seq<Node>, prefix: string, from: nat, k: nat)
      returns (rest: seq<string>)
    requires from <= k < |cs|
    ensures ChildrenLines(cs, prefix, from)
         == ChildrenLines(cs, prefix, k + 1) + NodeLines(cs[k], prefix, k == 0) + rest
    decreases k - from
  {
    if from == k {
      rest := [];
    } else {
      var rest' := ChildrenLinesSplit(cs, prefix, from + 1, k);
      var here := NodeLines(cs[from], prefix, from == 0);
      rest := rest' + here;
      var before, block := ChildrenLines(cs, prefix, k + 1), NodeLines(cs[k], prefix, k == 0);
      assert ChildrenLines(cs, prefix, from) == ChildrenLines(cs, prefix, from + 1) + here;
      assert (before + block + rest') + here == before + block + rest;
    }
  }

  /** Where child k of a listing sits: its block starts after the blocks of all
      children that follow it in source order, its line carries the terminal
      connector exactly when k is 0, and the lines of its descendants extend the
      prefix by four spaces under child 0 and by a bar under any other child.
      The next block, that of child k - 1, starts right after it. */
  lemma ChildBlock(cs: seq<Node>, prefix: string, k: nat)
    requires k < |cs|
    ensures var ls := ChildrenLines(cs, prefix, 0);
      var at := SizeFrom(cs, k + 1);
      && at + Size(cs[k]) <= |ls|
      && (k > 0 ==> at + Size(cs[k]) == SizeFrom(cs, k) < |ls|)
      && ls[at] == prefix + Connector(k == 0) + Label(cs[k])
      && (k == 0 ==> ls[at] == prefix + "└── " + Label(cs[k]))
      && (k > 0 ==> ls[at] == prefix + "├── " + Label(cs[k]))
      && forall i :: at < i < at + Size(cs[k]) ==> StartsWith(ls[i], prefix + Indent(k == 0))
  {
    var ls := ChildrenLines(cs, prefix, 0);
    var rest := ChildrenLinesSplit(cs, prefix, 0, k);
    var before := ChildrenLines(cs, prefix, k + 1);
    var block := NodeLines(cs[k], prefix, k == 0);
    ChildrenLineCount(cs, prefix, k + 1);
    LineCount(cs[k], prefix, k == 0);
    LinesPrefixed(cs[k], prefix, k == 0);
    var at := |before|;
    forall i | at <= i < at + |block|
      ensures ls[i] == block[i - at]
    {
      assert ls == before + block + rest;
    }
    if k > 0 {
      ChildrenLineCount(cs, prefix, 0);
      ChildrenLineCount(cs, prefix, k);
      SizeFromGrows(cs, 0, k);
    }
  }

  /** The line of the root's child k in the whole listing: it comes after the
      root's line and the blocks of the children after k in source order. */
  lemma RootChildLine(n: Node, k: nat)
    requires k < |n.children|
    ensures 1 + SizeFrom(n.children, k + 1) < |RootLines(n)|
    ensures RootLines(n)[1 + SizeFrom(n.children, k + 1)] == Connector(k == 0) + Label(n.children[k])
  {
    var cs := n.children;
    ChildBlock(cs, "", k);
    ChildrenLineCount(cs, "", 0);
    var ls := ChildrenLines(cs, "", 0);
    assert RootLines(n)[1 + SizeFrom(cs, k + 1)] == ls[SizeFrom(cs, k + 1)];
  }

  lemma {:induction false} SizeFromGrows(cs: seq<Node>, from: nat, k: nat)
    requires from <= k <= |cs|
    ensures SizeFrom(cs, k) <= SizeFrom(cs, from)
    ensures from < k ==> SizeFrom(cs, k) < SizeFrom(cs, from)
    decreases k - from
  {
    if from < k {
      SizeFromGrows(cs, from + 1, k);
    }
  }

  // ----- one line break per node -----

  function Newlines(s: string): nat {
    if |s| == 0 then 0 else (if s[0] == '\n' then 1 else 0) + Newlines(s[1..])
  }

  lemma {:induction false} NewlinesAppend(a: string, b: string)
    ensures Newlines(a + b) == Newlines(a) + Newlines(b)
  {
    if |a| > 0 {
      assert (a + b)[1..] == a[1..] + b;
      NewlinesAppend(a[1..], b);
    } else {
      assert a + b == b;
    }
  }

  lemma {:induction false} NoNewlines(s: string)
    requires '\n' !in s
    ensures Newlines(s) == 0
  {
    if |s| > 0 {
      assert s == [s[0]] + s[1..];
      NoNewlines(s[1..]);
    }
  }

  /** Names and types without line breaks throughout the tree. */
  predicate SingleLineLabels(n: Node) {
    && '\n' !in n.name
    && '\n' !in n.kind
    && forall i :: 0 <= i < |n.children| ==> SingleLineLabels(n.children[i])
  }

  lemma {:induction false} UnlinesBreaks(ls: seq<string>)
    requires forall i :: 0 <= i < |ls| ==> '\n' !in ls[i]
    ensures Newlines(Unlines(ls)) == |ls|
  {
    if |ls| > 0 {
      UnlinesBreaks(ls[1..]);
      NoNewlines(ls[0]);
      NewlinesAppend(ls[0], "\n");
      NewlinesAppend(ls[0] + "\n", Unlines(ls[1..]));
    }
  }

  lemma {:induction false} LinesUnbroken(n: Node, prefix: string, isLast: bool)
    requires SingleLineLabels(n) && '\n' !in prefix
    ensures forall i :: 0 <= i < |NodeLines(n, prefix, isLast)| ==> '\n' !in NodeLines(n, prefix, isLast)[i]
    decreases n, 1
  {
    var head := prefix + Connector(isLast) + Label(n);
    var rest := ChildrenLines(n.children, prefix + Indent(isLast), 0);
    assert '\n' !in Connector(isLast) && '\n' !in Indent(isLast);
    ChildrenLinesUnbroken(n.children, prefix + Indent(isLast), 0);
    forall i | 0 <= i < |[head] + rest| ensures '\n' !in ([head] + rest)[i] {
      if i > 0 {
        assert ([head] + rest)[i] == rest[i - 1];
      }
    }
  }

  lemma {:induction false} ChildrenLinesUnbroken(cs: seq<Node>, prefix: string, from: nat)
    requires from <= |cs|
    requires forall i :: 0 <= i < |cs| ==> SingleLineLabels(cs[i])
    requires '\n' !in prefix
    ensures forall i :: 0 <= i < |ChildrenLines(cs, prefix, from)| ==> '\n' !in ChildrenLines(cs, prefix, from)[i]
    decreases cs, |cs| - from
  {
    if from < |cs| {
      var a := ChildrenLines(cs, prefix, from + 1);
      var b := NodeLines(cs[from], prefix, from == 0);
      ChildrenLinesUnbroken(cs, prefix, from + 1);
      LinesUnbroken(cs[from], prefix, from == 0);
      forall i | 0 <= i < |a + b| ensures '\n' !in (a + b)[i] {
        if i < |a| {
          assert (a + b)[i] == a[i];
        } else {
          assert (a + b)[i] == b[i - |a|];
        }
      }
    }
  }

  /** The listing of a subtree has exactly one line break per node, when no
      name, type or prefix holds a line break. */
  lemma OneLinePerNode(n: Node, prefix: string, isLast: bool)
    requires SingleLineLabels(n) && '\n' !in prefix
    ensures Newlines(NodeInfo(n, prefix, isLast)) == Size(n)
  {
    InfoIsLines(n, prefix, isLast);
    LineCount(n, prefix, isLast);
    LinesUnbroken(n, prefix, isLast);
    UnlinesBreaks(NodeLines(n, prefix, isLast));
  }

  /** The root listing: one line per node, the first of which is the root's
      bare label, followed by its children's blocks with an empty prefix. */
  lemma RootListing(n: Node)
    requires SingleLineLabels(n)
    ensures Newlines(RootNodeInfo(n)) == Size(n)
    ensures RootLines(n)[0] == n.name + " (" + n.kind + ")"
    ensures RootNodeInfo(n) == Unlines(RootLines(n))
  {
    RootInfoIsLines(n);
    ChildrenLineCount(n.children, "", 0);
    ChildrenLinesUnbroken(n.children, "", 0);
    var ls := RootLines(n);
    forall i | 0 <= i < |ls| ensures '\n' !in ls[i] {
      if i > 0 {
        assert ls[i] == ChildrenLines(n.children, "", 0)[i - 1];
      }
    }
    UnlinesBreaks(ls);
  }

  /** A FRAME "Card" with the leaf children [Title (TEXT), Icon (FRAME)] in
      source order lists Icon first with a tee and Title last with the elbow. */
  lemma CardListing(card: Node)
    requires card.name == "Card" && card.kind == "FRAME" && |card.children| == 2
    requires var title := card.children[0];
      title.name == "Title" && title.kind == "TEXT" && title.children == []
    requires var icon := card.children[1];
      icon.name == "Icon" && icon.kind == "FRAME" && icon.children == []
    ensures RootNodeInfo(card) == "Card (FRAME)\n" + "├── Icon (FRAME)\n" + "└── Title (TEXT)\n"
  {
    CardChildren(card.children[0], card.children[1]);
    assert card.children == [card.children[0], card.children[1]];
    var head := Label(card) + "\n";
    assert head == "Card (FRAME)\n";
  }

  lemma CardChildren(title: Node, icon: Node)
    requires title.name == "Title" && title.kind == "TEXT" && title.children == []
    requires icon.name == "Icon" && icon.kind == "FRAME" && icon.children == []
    ensures ChildrenInfo([title, icon], "", 0) == "├── Icon (FRAME)\n" + "└── Title (TEXT)\n"
  {
    var cs := [title, icon];
    LeafInfo(title, "", true);
    LeafInfo(icon, "", false);
    assert ChildrenInfo(cs, "", 2) == "";
    assert ChildrenInfo(cs, "", 1) == "" + NodeInfo(icon, "", false) == "├── Icon (FRAME)\n";
    assert NodeInfo(title, "", true) == "└── Title (TEXT)\n";
    assert ChildrenInfo(cs, "", 0) == ChildrenInfo(cs, "", 1) + NodeInfo(title, "", true);
  }

  lemma LeafInfo(n: Node, prefix: string, isLast: bool)
    requires n.children == []
    ensures NodeInfo(n, prefix, isLast) == prefix + Connector(isLast) + n.name + " (" + n.kind + ")\n"
  {
    assert ChildrenInfo([], prefix + Indent(isLast), 0) == "";
  }
}
