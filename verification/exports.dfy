/** How the two exports of one selection relate: the text listing and the
    detail records describe the same nodes, and list every node's children in
    the same order. */
module Exports {
  import opened Nodes
  import opened TreeText
  import opened DetailBuilder

  /** The number of records in a record tree. */
  function Count(d: Details): nat
    decreases d, 1
  {
    1 + CountFrom(d.children, 0)
  }

  /** The number of records in the record trees ds[from..]. */
  function CountFrom(ds: seq<Details>, from: nat): nat
    requires from <= |ds|
    decreases ds, |ds| - from
  {
    if from == |ds| then 0 else Count(ds[from]) + CountFrom(ds, from + 1)
  }

  lemma {:induction false} CountFromSnoc(ds: seq<Details>, d: Details, from: nat)
    requires from <= |ds|
    ensures CountFrom(ds + [d], from) == CountFrom(ds, from) + Count(d)
    decreases |ds| - from
  {
    if from < |ds| {
      CountFromSnoc(ds, d, from + 1);
      assert (ds + [d])[from] == ds[from];
    } else {
      assert (ds + [d])[from] == d;
    }
  }

  /** A node's record tree holds one record per node of its subtree. */
  lemma {:induction false} RecordsCount(n: Node)
    ensures Count(NodeDetails(n)) == Size(n)
    decreases n, 1
  {
    ChildrenRecordsCount(n.children, 0);
  }

  lemma {:induction false} ChildrenRecordsCount(cs: seq<Node>, from: nat)
    requires from <= |cs|
    ensures CountFrom(ReversedDetails(cs, from), 0) == SizeFrom(cs, from)
    decreases cs, |cs| - from
  {
    if from < |cs| {
      ChildrenRecordsCount(cs, from + 1);
      RecordsCount(cs[from]);
      CountFromSnoc(ReversedDetails(cs, from + 1), NodeDetails(cs[from]), 0);
    }
  }

  /** The detail export has exactly one record per line of the text export. */
  lemma SameNodes(n: Node)
    ensures Count(NodeDetails(n)) == |RootLines(n)|
  {
    RecordsCount(n);
    ChildrenLineCount(n.children, "", 0);
  }

  /** The record of the root's child k sits at position |cs| - 1 - k of the
      record list and describes the node whose line sits at position
      1 + SizeFrom(cs, k + 1) of the listing: both exports put the last child in
      source order first, and the first child (drawn with the terminal
      connector) last. */
  lemma ExportsAgree(n: Node, k: nat)
    requires k < |n.children|
    ensures |NodeDetails(n).children| == |n.children|
    ensures NodeDetails(n).children[|n.children| - 1 - k] == NodeDetails(n.children[k])
    ensures NodeDetails(n.children[k]).name == n.children[k].name
    ensures NodeDetails(n.children[k]).kind == n.children[k].kind
    ensures 1 + SizeFrom(n.children, k + 1) < |RootLines(n)|
    ensures RootLines(n)[1 + SizeFrom(n.children, k + 1)] == Connector(k == 0) + Label(n.children[k])
  {
    DetailsChildren(n);
    RootChildLine(n, k);
  }
}
