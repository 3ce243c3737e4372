/**
 * The authored dialogue graph (`flowV1.json`, whose contents are not part of
 * this model) and the pure memos the page derives from it: the node index,
 * the start node and the evidence shown for a node.
 */
module Flow {
  import opened Wrappers
  import opened Text
  import opened Sequences

  datatype EvidenceKind = Image | Video | Link

  /** A supplementary artifact shown in the evidence panel. */
  datatype Evidence = Evidence(kind: EvidenceKind, caption: string, src: string)

  /** A labelled transition to node `goto`; `caption` is its button text (`label` in the data); `utterance`, when present, is what the visitor "says" instead. */
  datatype Option = Option(id: string, caption: string, goto: string, utterance: Maybe<string>)

  datatype NodeType = Question | Answer

  /** An authored unit of dialogue (a missing `evidence` list in the data reads as empty). */
  datatype Node = Node(
    id: string,
    nodeType: NodeType,
    section: string,
    bot: string,
    options: seq<Option>,
    evidence: seq<Evidence>)

  /** The node the page prefers to start from, and the target of the typed-input fallback. */
  const SUMMARY_NODE := "n_summary_01"

  /** The hard cap on evidence cards. */
  const MAX_EVIDENCE := 6

  /** Words whose presence (in any letter case) in a node's id or section allows videos. */
  const VIDEO_WORDS := ["deep", "demo", "pipeline", "stage", "breakdown"]

  // ---------------------------------------------------------------------------
  // nodesById: a map filled by one `set` per node, so a later node with the
  // same id replaces an earlier one.

  /** No node after position `k` (and before `n`) has the id of node `k`. */
  ghost predicate LastWithItsId(nodes: seq<Node>, n: nat, k: nat)
    requires k < n <= |nodes|
  {
    forall j :: k < j < n ==> nodes[j].id != nodes[k].id
  }

  /** `m` indexes the first `n` nodes: it holds exactly their ids, each bound to the last node carrying it. */
  ghost predicate IsIndexOf(nodes: seq<Node>, n: nat, m: map<string, Node>)
    requires n <= |nodes|
  {
    && (forall id :: id in m <==> exists k :: 0 <= k < n && nodes[k].id == id)
    && (forall id :: id in m ==>
          exists k :: 0 <= k < n && nodes[k] == m[id] && nodes[k].id == id && LastWithItsId(nodes, n, k))
  }

  /** `nodesById`: one pass over the nodes, each written into the map under its id. */
  method IndexNodes(nodes: seq<Node>) returns (m: map<string, Node>)
    ensures IsIndexOf(nodes, |nodes|, m)
  {
    m := map[];
    for i := 0 to |nodes|
      invariant IsIndexOf(nodes, i, m)
    {
      var n := nodes[i];
      var next := m[n.id := n];
      forall id | id in next
        ensures exists k :: 0 <= k < i + 1 && nodes[k] == next[id] && nodes[k].id == id
                              && LastWithItsId(nodes, i + 1, k)
      {
        if id == n.id {
          assert LastWithItsId(nodes, i + 1, i);
        } else {
          var k :| 0 <= k < i && nodes[k] == m[id] && nodes[k].id == id && LastWithItsId(nodes, i, k);
          assert LastWithItsId(nodes, i + 1, k);
        }
      }
      m := next;
    }
  }

  /** An index maps every id to a node that carries that id and occurs in the flow. */
  lemma {:induction false} IndexedNodeIsInFlow(nodes: seq<Node>, m: map<string, Node>, id: string)
    requires IsIndexOf(nodes, |nodes|, m)
    requires id in m
    ensures m[id] in nodes && m[id].id == id
    ensures exists k :: 0 <= k < |nodes| && nodes[k] == m[id] && LastWithItsId(nodes, |nodes|, k)
  {
    var k :| 0 <= k < |nodes| && nodes[k] == m[id] && nodes[k].id == id && LastWithItsId(nodes, |nodes|, k);
  }

  // ---------------------------------------------------------------------------
  // startNodeId

  /** `nodes.find(n => n.id === id) !== undefined`. */
  function HasNode(nodes: seq<Node>, id: string): (r: bool)
    ensures r <==> exists k :: 0 <= k < |nodes| && nodes[k].id == id
  {
    if nodes == [] then false
    else if nodes[0].id == id then true
    else
      assert forall k :: 1 <= k < |nodes| ==> nodes[k] == nodes[1..][k - 1];
      HasNode(nodes[1..], id)
  }

  /** The summary node when the flow has one, else the first node's id, else the empty id. */
  function StartNodeId(nodes: seq<Node>): (r: string)
    ensures (exists k :: 0 <= k < |nodes| && nodes[k].id == SUMMARY_NODE) ==> r == SUMMARY_NODE
    ensures (forall k :: 0 <= k < |nodes| ==> nodes[k].id != SUMMARY_NODE) && nodes != [] ==> r == nodes[0].id
    ensures nodes == [] ==> r == ""
    ensures nodes != [] ==> exists k :: 0 <= k < |nodes| && nodes[k].id == r
  {
    if HasNode(nodes, SUMMARY_NODE) then SUMMARY_NODE
    else if nodes != [] then nodes[0].id
    else ""
  }

  /**
   * The start node resolves in the index exactly when the flow has a node, and
   * it is the summary node whenever that node exists: so the page opens on its
   * "Flow error" screen only for an empty flow.
   */
  lemma {:induction false} StartNodeResolves(nodes: seq<Node>, m: map<string, Node>)
    requires IsIndexOf(nodes, |nodes|, m)
    ensures StartNodeId(nodes) in m <==> nodes != []
    ensures SUMMARY_NODE in m ==> StartNodeId(nodes) == SUMMARY_NODE
    ensures SUMMARY_NODE !in m && nodes != [] ==> StartNodeId(nodes) == nodes[0].id
  {
    if nodes != [] {
      if HasNode(nodes, SUMMARY_NODE) {
        var k :| 0 <= k < |nodes| && nodes[k].id == SUMMARY_NODE;
      } else {
        assert nodes[0].id == StartNodeId(nodes);
      }
    } else {
      assert StartNodeId(nodes) !in m;
    }
  }

  // ---------------------------------------------------------------------------
  // evidence

  /** `ev.filter(e => e.type !== "video")`: every non-video item, in order, and nothing else. */
  function WithoutVideos(ev: seq<Evidence>): (r: seq<Evidence>)
    ensures IsSubsequence(r, ev)
    ensures forall e :: multiset(r)[e] == if e.kind == Video then 0 else multiset(ev)[e]
  {
    if ev == [] then []
    else
      var rest := WithoutVideos(ev[1..]);
      assert ev == [ev[0]] + ev[1..];
      if ev[0].kind == Video then rest else [ev[0]] + rest
  }

  /** Videos are allowed only on deep-dive nodes: a video word, in any letter case, in the node's id or section. */
  predicate AllowsVideo(n: Node): (r: bool)
    ensures r <==> exists w :: w in VIDEO_WORDS && (Includes(Lower(n.id), w) || Includes(Lower(n.section), w))
  {
    MatchesAnyIgnoringCase(n.id, VIDEO_WORDS) || MatchesAnyIgnoringCase(n.section, VIDEO_WORDS)
  }

  function Min(a: int, b: int): int { if a <= b then a else b }

  /**
   * The `evidence` memo for the current node: nothing without a node; otherwise
   * its evidence, videos dropped unless allowed, cut to the first six.
   */
  function SelectEvidence(node: Maybe<Node>): (r: seq<Evidence>)
    ensures |r| <= MAX_EVIDENCE
    ensures node.Nothing? ==> r == []
    ensures node.Just? ==> IsSubsequence(r, node.value.evidence)
    ensures node.Just? && !AllowsVideo(node.value) ==> forall e :: e in r ==> e.kind != Video
    ensures node.Just? && !AllowsVideo(node.value) ==>
              r == WithoutVideos(node.value.evidence)[..Min(MAX_EVIDENCE, |WithoutVideos(node.value.evidence)|)]
    ensures node.Just? && AllowsVideo(node.value) ==>
              r == node.value.evidence[..Min(MAX_EVIDENCE, |node.value.evidence|)]
  {
    match node
    case Nothing => []
    case Just(n) =>
      var filtered := if AllowsVideo(n) then n.evidence else WithoutVideos(n.evidence);
      var r := filtered[..Min(MAX_EVIDENCE, |filtered|)];
      SubsequenceOfItself(n.evidence);
      PrefixOfSubsequence(filtered, n.evidence, |r|);
      assert forall e :: e in r ==> e in filtered;
      r
  }
}
