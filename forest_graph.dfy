/** The forest `processChatData` returns, described as a whole: its layout
    (central node, message nodes, conversation roots), one outgoing link for
    every node but the central one, links that land on nodes, titles taken
    from first messages, and dangling parents treated like missing ones. */
module ForestGraph {
  import opened ChatTypes
  import opened Forest
  import opened ForestProperties

  /** The central node comes first, then one message node per row with an id
      in input order, then one root per conversation that needs one; there
      is one link per message node and per root. */
  lemma GraphShape(data: seq<ChatRow>)
    ensures var g := Build(data);
      var m, r := |WithId(data)|, |FallbackConvs(data, Index(data))|;
      && |g.nodes| == 1 + m + r
      && |g.links| == m + r
      && g.nodes[0] == CentralNode
      && forall i :: 0 <= i < m ==> g.nodes[1 + i] == MessageNode(WithId(data)[i])
  {
    var index := Index(data);
    var firsts := FirstMessages(data, index);
    var st := LinkPass(data, index, firsts);
    MessageNodesSpec(data);
    LinkPassCount(data, index, firsts);
    LinkPassRootNodes(data, index, firsts);
    LinkPassRoots(data, index, firsts);
    assert |st.roots| == |st.roots.Keys|;
  }

  /** The ids of the graph's nodes: the central node's, the message nodes', the roots'. */
  lemma NodeIds(data: seq<ChatRow>)
    ensures var index := Index(data);
      var st := LinkPass(data, index, FirstMessages(data, index));
      && Build(data).nodes[1..] == MessageNodes(data) + st.rootNodes
      && Ids(Build(data).nodes) == [RootId] + Ids(MessageNodes(data)) + Ids(st.rootNodes)
  {
    var index := Index(data);
    var st := LinkPass(data, index, FirstMessages(data, index));
    var nodes := Build(data).nodes;
    assert nodes == [CentralNode] + MessageNodes(data) + st.rootNodes;
    assert nodes[1..] == MessageNodes(data) + st.rootNodes;
    IdsAppend([CentralNode] + MessageNodes(data), st.rootNodes);
    IdsAppend([CentralNode], MessageNodes(data));
    assert Ids([CentralNode]) == [RootId];
  }

  /** The message nodes carry exactly the non-empty ids of the rows. */
  lemma MessageNodeIds(data: seq<ChatRow>)
    ensures forall x :: x in Ids(MessageNodes(data)) <==> x != "" && exists k :: 0 <= k < |data| && data[k].id == x
  {
    MessageNodesSpec(data);
    forall x | x in Ids(MessageNodes(data)) ensures x != "" && exists k :: 0 <= k < |data| && data[k].id == x {
      var i :| 0 <= i < |MessageNodes(data)| && Ids(MessageNodes(data))[i] == x;
      MessageNodeIdAt(data, i);
    }
    forall x | x != "" && exists k :: 0 <= k < |data| && data[k].id == x ensures x in Ids(MessageNodes(data)) {
      var k :| 0 <= k < |data| && data[k].id == x;
      MessageNodeIdOf(data, k);
    }
  }

  lemma MessageNodeIdAt(data: seq<ChatRow>, i: int)
    requires 0 <= i < |MessageNodes(data)|
    ensures var x := MessageNodes(data)[i].id;
      x != "" && exists k :: 0 <= k < |data| && data[k].id == x
  {
    MessageNodesSpec(data);
    var w := WithId(data);
    assert w[i] in w;
  }

  lemma MessageNodeIdOf(data: seq<ChatRow>, k: int)
    requires 0 <= k < |data| && data[k].id != ""
    ensures data[k].id in Ids(MessageNodes(data))
  {
    MessageNodesSpec(data);
    var w := WithId(data);
    assert data[k] in w;
    var i :| 0 <= i < |w| && w[i] == data[k];
    assert Ids(MessageNodes(data))[i] == data[k].id;
  }

  /** The nodes after the message nodes are the conversation roots: one per
      conversation that needs one, none twice, in the order in which the
      conversations first start a thread, each titled from the conversation's
      first message when one was recorded. */
  lemma ConversationRootsOnce(data: seq<ChatRow>)
    ensures var g := Build(data);
      var index := Index(data);
      var base := 1 + |WithId(data)|;
      base <= |g.nodes| &&
      var roots := g.nodes[base..];
      && (forall j :: 0 <= j < |roots| ==>
            && ConvOf(roots[j]) in FallbackConvs(data, index)
            && roots[j] == ConvRootNode(ConvOf(roots[j]), Title(FirstMessages(data, index), ConvOf(roots[j]))))
      && (forall c :: c in FallbackConvs(data, index) ==> exists j :: 0 <= j < |roots| && ConvOf(roots[j]) == c)
      && (forall i, j :: 0 <= i < j < |roots| ==> ConvOf(roots[i]) != ConvOf(roots[j]))
      && CreatedInOrder(data, index, roots)
  {
    var index := Index(data);
    var firsts := FirstMessages(data, index);
    var st := LinkPass(data, index, firsts);
    MessageNodesSpec(data);
    assert Build(data).nodes[1 + |WithId(data)|..] == st.rootNodes;
    LinkPassRootNodes(data, index, firsts);
    LinkPassRoots(data, index, firsts);
    LinkPassRootOrder(data, index, firsts);
  }

  /** Every node but the central one has exactly as many outgoing links as
      it occurs among the nodes (once, for distinct ids), and no other
      source occurs. */
  lemma OutDegree(data: seq<ChatRow>)
    ensures var g := Build(data);
      |g.nodes| >= 1 && multiset(Sources(g.links)) == multiset(Ids(g.nodes[1..]))
  {
    var index := Index(data);
    var firsts := FirstMessages(data, index);
    var st := LinkPass(data, index, firsts);
    LinkPassSources(data, index, firsts);
    NodeIds(data);
    IdsAppend(MessageNodes(data), st.rootNodes);
  }

  /** A conversation root's id is never the central node's. */
  lemma ConvRootIdNotRoot(c: string)
    ensures ConvRootId(c) != RootId
  {
    assert |ConvRootId(c)| >= 10;
  }

  /** When no row claims the central node's id, no node but the central one has it. */
  lemma CentralIdOnce(data: seq<ChatRow>)
    requires forall k :: 0 <= k < |data| ==> data[k].id != RootId
    ensures |Build(data).nodes| >= 1 && RootId !in Ids(Build(data).nodes[1..])
  {
    var index := Index(data);
    var firsts := FirstMessages(data, index);
    var st := LinkPass(data, index, firsts);
    NodeIds(data);
    IdsAppend(MessageNodes(data), st.rootNodes);
    MessageNodeIds(data);
    LinkPassRootNodes(data, index, firsts);
    forall j | 0 <= j < |st.rootNodes| ensures Ids(st.rootNodes)[j] != RootId {
      ConvRootIdNotRoot(ConvOf(st.rootNodes[j]));
    }
  }

  /** When no row claims the central node's id, no link leaves the central node. */
  lemma NoLinkFromCentral(data: seq<ChatRow>)
    requires forall k :: 0 <= k < |data| ==> data[k].id != RootId
    ensures forall l :: l in Build(data).links ==> l.source != RootId
  {
    var g := Build(data);
    OutDegree(data);
    CentralIdOnce(data);
    forall l | l in g.links ensures l.source != RootId {
      var t :| 0 <= t < |g.links| && g.links[t] == l;
      assert Sources(g.links)[t] == l.source;
      assert l.source in multiset(Ids(g.nodes[1..]));
    }
  }

  /** Every link lands on a node of the graph: the central node, a message
      node, or a conversation root. */
  lemma LinksLand(data: seq<ChatRow>)
    ensures var g := Build(data);
      forall l :: l in g.links ==> l.target in Ids(g.nodes)
  {
    var index := Index(data);
    var firsts := FirstMessages(data, index);
    LinkPassTargets(data, index, firsts);
    IndexSpec(data);
    MessageNodeIds(data);
    NodeIds(data);
  }

  /** Every row with an id is linked to its parent when the parent is in
      the data, and to its conversation's root otherwise; every conversation
      root is linked to the central node. */
  lemma EveryRowLinked(data: seq<ChatRow>)
    ensures var g := Build(data);
      && (forall k :: 0 <= k < |data| && data[k].id != "" ==>
            GraphLink(data[k].id, ExpectedTarget(data[k], Index(data))) in g.links)
      && (forall j :: 1 + |WithId(data)| <= j < |g.nodes| ==> GraphLink(g.nodes[j].id, RootId) in g.links)
  {
    var g := Build(data);
    var index := Index(data);
    var firsts := FirstMessages(data, index);
    var st := LinkPass(data, index, firsts);
    LinkPassRowLinks(data, index, firsts);
    MessageNodesSpec(data);
    var base := 1 + |WithId(data)|;
    forall j | base <= j < |g.nodes| ensures GraphLink(g.nodes[j].id, RootId) in g.links {
      assert g.nodes[j] == st.rootNodes[j - base];
    }
  }

  /** When every row has a conversation id (as the row filter guarantees),
      every conversation root is titled from the first message that starts a
      thread in its conversation, and the generic title never appears. */
  lemma TitleFromFirstMessage(data: seq<ChatRow>)
    requires forall k :: 0 <= k < |data| ==> data[k].conversation_id != ""
    ensures var g := Build(data);
      var base := 1 + |WithId(data)|;
      base <= |g.nodes| &&
      var roots := g.nodes[base..];
      forall j :: 0 <= j < |roots| ==>
        && roots[j].caption != "Conversation"
        && exists k ::
             FirstStarter(data, Index(data), ConvOf(roots[j]), k) && roots[j].caption == Preview(data[k].content, TitlePreview) + "..."
  {
    var g := Build(data);
    var index := Index(data);
    var firsts := FirstMessages(data, index);
    ConversationRootsOnce(data);
    var roots := g.nodes[1 + |WithId(data)|..];
    FirstMessagesSpec(data, index);
    forall j | 0 <= j < |roots|
      ensures roots[j].caption != "Conversation"
      ensures exists k ::
        FirstStarter(data, index, ConvOf(roots[j]), k) && roots[j].caption == Preview(data[k].content, TitlePreview) + "..."
    {
      var c := ConvOf(roots[j]);
      var s :| 0 <= s < |data| && Starter(data, index, s) && data[s].conversation_id == c;
      TitleOfStarted(data, index, c);
    }
  }

  /** A conversation that needs a root and has a non-empty id is titled
      after its first thread-starting row. */
  lemma TitleOfStarted(data: seq<ChatRow>, index: map<string, ChatRow>, c: string)
    requires c != "" && c in FallbackConvs(data, index)
    ensures var t := Title(FirstMessages(data, index), c);
      && t != "Conversation"
      && exists k :: FirstStarter(data, index, c, k) && t == Preview(data[k].content, TitlePreview) + "..."
  {
    var firsts := FirstMessages(data, index);
    FirstMessagesSpec(data, index);
    var k :| FirstStarter(data, index, c, k) && firsts[c] == data[k];
    var t := Title(firsts, c);
    assert t == Preview(data[k].content, TitlePreview) + "...";
    assert t[|t| - 1] == '.';
  }

  /** A row whose parent id names no indexed row, given an empty parent id instead. */
  function Normalize(row: ChatRow, index: map<string, ChatRow>): ChatRow
  {
    if row.parent_id in index then row else row.(parent_id := "")
  }

  function NormalizeAll(data: seq<ChatRow>, index: map<string, ChatRow>): (r: seq<ChatRow>)
    ensures |r| == |data|
    ensures forall i :: 0 <= i < |data| ==> r[i] == Normalize(data[i], index)
  {
    seq(|data|, i requires 0 <= i < |data| => Normalize(data[i], index))
  }

  lemma NormalizeAllInit(data: seq<ChatRow>, index: map<string, ChatRow>)
    requires data != []
    ensures NormalizeAll(data, index) != []
    ensures Init(NormalizeAll(data, index)) == NormalizeAll(Init(data), index)
    ensures Last(NormalizeAll(data, index)) == Normalize(Last(data), index)
  {
  }

  /** Normalising parents leaves the indexed ids as they are. */
  lemma {:induction false} NormalizeIndexKeys(data: seq<ChatRow>, index: map<string, ChatRow>)
    ensures Index(NormalizeAll(data, index)).Keys == Index(data).Keys
    decreases |data|
  {
    if data != [] {
      NormalizeAllInit(data, index);
      NormalizeIndexKeys(Init(data), index);
    }
  }

  /** A normalised row starts a thread exactly when the original row does,
      and keeps its parent when it does not. */
  lemma NormalizeTopLevel(row: ChatRow, index: map<string, ChatRow>, index': map<string, ChatRow>)
    requires index'.Keys == index.Keys
    ensures IsTopLevel(Normalize(row, index), index') == IsTopLevel(row, index)
    ensures !IsTopLevel(row, index) ==> Normalize(row, index) == row
  {
  }

  /** Normalising parents records the same first messages, normalised. */
  lemma {:induction false} NormalizeFirstMessages(
    data: seq<ChatRow>, index: map<string, ChatRow>, index': map<string, ChatRow>)
    requires index'.Keys == index.Keys
    ensures var f, f' := FirstMessages(data, index), FirstMessages(NormalizeAll(data, index), index');
      && f'.Keys == f.Keys
      && forall c :: c in f ==> f'[c] == Normalize(f[c], index)
    decreases |data|
  {
    if data != [] {
      NormalizeAllInit(data, index);
      NormalizeFirstMessages(Init(data), index, index');
      NormalizeTopLevel(Last(data), index, index');
    }
  }

  lemma {:induction false} NormalizeMessageNodes(data: seq<ChatRow>, index: map<string, ChatRow>)
    ensures MessageNodes(NormalizeAll(data, index)) == MessageNodes(data)
    decreases |data|
  {
    if data != [] {
      NormalizeAllInit(data, index);
      NormalizeMessageNodes(Init(data), index);
    }
  }

  lemma {:induction false} NormalizeLinkPass(
    data: seq<ChatRow>, index: map<string, ChatRow>, index': map<string, ChatRow>,
    firsts: map<string, ChatRow>, firsts': map<string, ChatRow>)
    requires index'.Keys == index.Keys
    requires forall c :: Title(firsts', c) == Title(firsts, c)
    ensures LinkPass(NormalizeAll(data, index), index', firsts') == LinkPass(data, index, firsts)
    decreases |data|
  {
    if data != [] {
      NormalizeAllInit(data, index);
      NormalizeLinkPass(Init(data), index, index', firsts, firsts');
      NormalizeTopLevel(Last(data), index, index');
    }
  }

  /** A parent id that names no row in the data is treated exactly like an
      empty parent id: clearing every such parent id builds the same graph. */
  lemma DanglingParentLikeEmpty(data: seq<ChatRow>)
    ensures Build(NormalizeAll(data, Index(data))) == Build(data)
  {
    var index := Index(data);
    var data' := NormalizeAll(data, index);
    var index' := Index(data');
    NormalizeIndexKeys(data, index);
    NormalizeFirstMessages(data, index, index');
    NormalizeMessageNodes(data, index);
    var f, f' := FirstMessages(data, index), FirstMessages(data', index');
    assert forall c :: Title(f', c) == Title(f, c);
    NormalizeLinkPass(data, index, index', f, f');
  }
}
