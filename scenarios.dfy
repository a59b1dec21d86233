/** Worked cases: a two-message conversation from upload to thread text,
    the empty upload, a conversation root without a first message, and a
    row that names itself as its parent. */
module Scenarios {
  import opened ChatTypes
  import opened Forest
  import opened Thread
  import opened Render

  const RowA: ChatRow := ChatRow("a", "c1", "", User, "Hi")
  const RowB: ChatRow := ChatRow("b", "c1", "a", Assistant, "Hello!")

  /** Two rows of one conversation: the greeting and the reply to it. */
  lemma TwoMessageForest()
    ensures Build([RowA, RowB]) == TwoMessageGraph
  {
    var data := [RowA, RowB];
    assert Init(data) == [RowA] && Last(data) == RowB;
    assert Init([RowA]) == [] && Last([RowA]) == RowA;
    assert Index([RowA]) == map["a" := RowA];
    var index := Index(data);
    assert index == map["a" := RowA, "b" := RowB];
    assert IsTopLevel(RowA, index) && !IsTopLevel(RowB, index);
    assert FirstMessages([RowA], index) == map["c1" := RowA];
    var firsts := FirstMessages(data, index);
    assert firsts == map["c1" := RowA];
    assert Title(firsts, "c1") == "Hi...";
    var st0 := LinkPass([], index, firsts);
    var st1 := LinkPass([RowA], index, firsts);
    assert st1 == LinkStep(st0, RowA, index, firsts);
    assert ConvRootId("c1") == "conv_root_c1";
    assert st1.rootNodes == [ConvRootNode("c1", "Hi...")];
    assert st1.links == [GraphLink("conv_root_c1", "ROOT"), GraphLink("a", "conv_root_c1")];
    assert LinkPass(data, index, firsts) == LinkStep(st1, RowB, index, firsts);
    assert MessageNodes([RowA]) == [MessageNode(RowA)];
    assert MessageNodes(data) == [MessageNode(RowA), MessageNode(RowB)];
  }

  const TwoMessageGraph: Graph := Graph(
    [CentralNode, MessageNode(RowA), MessageNode(RowB), ConvRootNode("c1", "Hi...")],
    [GraphLink("conv_root_c1", "ROOT"), GraphLink("a", "conv_root_c1"), GraphLink("b", "a")])

  const TwoMessageRank: map<string, nat> := map["ROOT" := 0, "conv_root_c1" := 1, "a" := 2, "b" := 3]

  lemma TwoMessageMaps()
    ensures NodesById(TwoMessageGraph.nodes)
      == map["ROOT" := CentralNode, "a" := MessageNode(RowA), "b" := MessageNode(RowB),
             "conv_root_c1" := ConvRootNode("c1", "Hi...")]
    ensures LinksBySource(TwoMessageGraph.links) == map["conv_root_c1" := "ROOT", "a" := "conv_root_c1", "b" := "a"]
  {
    var na, nb, nr := MessageNode(RowA), MessageNode(RowB), ConvRootNode("c1", "Hi...");
    assert CentralNode.id == "ROOT" && na.id == "a" && nb.id == "b";
    assert nr.id == "conv_root_c1";
    assert [CentralNode] == [] + [CentralNode];
    NodesByIdSnoc([], CentralNode);
    NodesByIdSnoc([CentralNode], na);
    NodesByIdSnoc([CentralNode, na], nb);
    NodesByIdSnoc([CentralNode, na, nb], nr);
    assert TwoMessageGraph.nodes == [CentralNode, na, nb] + [nr];
    assert [CentralNode, na, nb] == [CentralNode, na] + [nb];
    assert [CentralNode, na] == [CentralNode] + [na];
    var l1, l2, l3 := GraphLink("conv_root_c1", "ROOT"), GraphLink("a", "conv_root_c1"), GraphLink("b", "a");
    assert [l1] == [] + [l1];
    LinksBySourceSnoc([], l1);
    LinksBySourceSnoc([l1], l2);
    LinksBySourceSnoc([l1, l2], l3);
    assert TwoMessageGraph.links == [l1, l2] + [l3];
    assert [l1, l2] == [l1] + [l2];
  }

  lemma TwoMessageRanked()
    ensures Ranked(NodesById(TwoMessageGraph.nodes), LinksBySource(TwoMessageGraph.links), TwoMessageRank)
  {
    TwoMessageMaps();
    var lm := LinksBySource(TwoMessageGraph.links);
    var rank := TwoMessageRank;
    assert rank["ROOT"] < rank["conv_root_c1"] < rank["a"] < rank["b"];
    forall id | id in lm
      ensures id in rank && lm[id] in rank && rank[lm[id]] < rank[id]
    {
      if id == "b" {
      } else if id == "a" {
      } else {
        assert id == "conv_root_c1";
      }
    }
  }

  /** Walking up from the reply collects the greeting, then the reply. */
  lemma TwoMessageThread()
    ensures var nm, lm := NodesById(TwoMessageGraph.nodes), LinksBySource(TwoMessageGraph.links);
      && Ranked(nm, lm, TwoMessageRank)
      && Chain(nm, lm, TwoMessageRank, MessageNode(RowB)) == [MessageNode(RowA), MessageNode(RowB)]
  {
    TwoMessageRanked();
    TwoMessageSteps();
    TwoNodeChain(NodesById(TwoMessageGraph.nodes), LinksBySource(TwoMessageGraph.links), TwoMessageRank,
      MessageNode(RowA), MessageNode(RowB));
  }

  /** A walk that takes one step and then stops. */
  lemma TwoNodeChain(nm: map<string, GraphNode>, lm: map<string, string>, rank: map<string, nat>, a: GraphNode, b: GraphNode)
    requires KeyedById(nm) && Ranked(nm, lm, rank) && b.id in rank
    requires Step(nm, lm, b) == Some(a) && Step(nm, lm, a) == None
    ensures Chain(nm, lm, rank, b) == [a, b]
  {
    assert Chain(nm, lm, rank, a) == [a];
  }

  /** The reply's parent is the greeting; the greeting's parent is a conversation root. */
  lemma TwoMessageSteps()
    ensures var nm, lm := NodesById(TwoMessageGraph.nodes), LinksBySource(TwoMessageGraph.links);
      && Step(nm, lm, MessageNode(RowB)) == Some(MessageNode(RowA))
      && Step(nm, lm, MessageNode(RowA)) == None
  {
    TwoMessageLookups();
    StepsFromLookups(NodesById(TwoMessageGraph.nodes), LinksBySource(TwoMessageGraph.links));
  }

  lemma StepsFromLookups(nm: map<string, GraphNode>, lm: map<string, string>)
    requires "a" in nm && nm["a"] == MessageNode(RowA) && "conv_root_c1" in nm && nm["conv_root_c1"].role == ConversationRoot
    requires "b" in lm && lm["b"] == "a" && "a" in lm && lm["a"] == "conv_root_c1"
    ensures Step(nm, lm, MessageNode(RowB)) == Some(MessageNode(RowA))
    ensures Step(nm, lm, MessageNode(RowA)) == None
  {
    assert MessageNode(RowA).id == "a" && MessageNode(RowB).id == "b";
  }

  lemma TwoMessageLookups()
    ensures var nm, lm := NodesById(TwoMessageGraph.nodes), LinksBySource(TwoMessageGraph.links);
      && "a" in nm && nm["a"] == MessageNode(RowA) && "conv_root_c1" in nm && nm["conv_root_c1"].role == ConversationRoot
      && "b" in lm && lm["b"] == "a" && "a" in lm && lm["a"] == "conv_root_c1"
  {
    TwoMessageMaps();
  }

  /** A self-linked row of another conversation. */
  const LoopRow: ChatRow := ChatRow("s", "c2", "s", User, "x")

  /** A cycle elsewhere does not stop the walk from the reply: the same
      ranking covers its thread, and the walk returns the same two nodes. */
  lemma CycleElsewhere()
    ensures var nm := NodesById(TwoMessageGraph.nodes + [MessageNode(LoopRow)]);
      var lm := LinksBySource(TwoMessageGraph.links + [GraphLink("s", "s")]);
      && Ranked(nm, lm, TwoMessageRank)
      && Chain(nm, lm, TwoMessageRank, MessageNode(RowB)) == [MessageNode(RowA), MessageNode(RowB)]
  {
    var ns := MessageNode(LoopRow);
    NodesByIdSnoc(TwoMessageGraph.nodes, ns);
    LinksBySourceSnoc(TwoMessageGraph.links, GraphLink("s", "s"));
    LoopAdded();
  }

  /** The two-message maps with the self-linked row added. */
  lemma LoopAdded()
    ensures var nm, lm := NodesById(TwoMessageGraph.nodes)["s" := MessageNode(LoopRow)],
                          LinksBySource(TwoMessageGraph.links)["s" := "s"];
      && Ranked(nm, lm, TwoMessageRank)
      && Chain(nm, lm, TwoMessageRank, MessageNode(RowB)) == [MessageNode(RowA), MessageNode(RowB)]
  {
    TwoMessageRanked();
    TwoMessageSteps();
    NothingLinksToLoop();
    var ns := MessageNode(LoopRow);
    var nm0, lm0 := NodesById(TwoMessageGraph.nodes), LinksBySource(TwoMessageGraph.links);
    assert ns.id == "s" && MessageNode(RowA).id == "a" && MessageNode(RowB).id == "b";
    LoopUnranked();
    LoopKeepsChain(NodesById(TwoMessageGraph.nodes), LinksBySource(TwoMessageGraph.links), TwoMessageRank,
      MessageNode(RowA), MessageNode(RowB), ns);
  }

  /** Adding a node linked to itself, which no ranked thread reaches, keeps
      the ranking and the thread of a two-node walk. */
  lemma LoopKeepsChain(
    nm: map<string, GraphNode>, lm: map<string, string>, rank: map<string, nat>, a: GraphNode, b: GraphNode, n: GraphNode)
    requires KeyedById(nm) && Ranked(nm, lm, rank) && b.id in rank
    requires Step(nm, lm, b) == Some(a) && Step(nm, lm, a) == None
    requires n.id !in rank && n.id != a.id && n.id != b.id
    requires forall k :: k in lm ==> lm[k] != n.id
    ensures Ranked(nm[n.id := n], lm[n.id := n.id], rank)
    ensures Chain(nm[n.id := n], lm[n.id := n.id], rank, b) == [a, b]
  {
    AddLoop(nm, lm, rank, n);
    AddLoopStep(nm, lm, n, a);
    AddLoopStep(nm, lm, n, b);
    TwoNodeChain(nm[n.id := n], lm[n.id := n.id], rank, a, b);
  }

  lemma LoopUnranked()
    ensures "s" !in TwoMessageRank
  {
  }

  /** No link of the two-message graph goes to the self-linked row. */
  lemma NothingLinksToLoop()
    ensures var lm := LinksBySource(TwoMessageGraph.links);
      forall k :: k in lm ==> lm[k] != "s"
  {
    TwoMessageMaps();
    var lm := LinksBySource(TwoMessageGraph.links);
    forall k | k in lm ensures lm[k] != "s" {
      if k == "b" {
      } else if k == "a" {
      } else {
        assert k == "conv_root_c1";
      }
    }
  }

  /** Adding an unranked node linked to itself keeps a ranking. */
  lemma AddLoop(nm: map<string, GraphNode>, lm: map<string, string>, rank: map<string, nat>, n: GraphNode)
    requires Ranked(nm, lm, rank) && n.id !in rank
    requires forall k :: k in rank && k in lm ==> lm[k] != n.id
    ensures Ranked(nm[n.id := n], lm[n.id := n.id], rank)
  {
  }

  /** Adding a node linked to itself changes no step of a node that neither
      is it nor links to it. */
  lemma AddLoopStep(nm: map<string, GraphNode>, lm: map<string, string>, n: GraphNode, x: GraphNode)
    requires x.id != n.id && (x.id in lm ==> lm[x.id] != n.id)
    ensures Step(nm[n.id := n], lm[n.id := n.id], x) == Step(nm, lm, x)
  {
  }

  /** The thread renders as two lines separated by a blank line. */
  lemma TwoMessageText()
    ensures ThreadText([MessageNode(RowA), MessageNode(RowB)]) == ("User: " + "Hi") + Separator + ("Assistant: " + "Hello!")
  {
    var na, nb := MessageNode(RowA), MessageNode(RowB);
    assert [na, nb] == [na] + [nb];
    ThreadTextSingle(na);
    ThreadTextSingle(nb);
    ThreadTextAppend([na], [nb]);
  }

  /** An empty upload yields the central node alone. */
  lemma EmptyForest()
    ensures Build([]) == Graph([CentralNode], [])
  {
  }

  /** A row without a conversation id gets a root with the generic title:
      no first message is recorded for the empty conversation id. */
  lemma GenericTitle()
    ensures var row := ChatRow("x", "", "", User, "text");
      Build([row]).nodes == [CentralNode, MessageNode(row), ConvRootNode("", "Conversation")]
  {
    var row := ChatRow("x", "", "", User, "text");
    assert Init([row]) == [];
    assert FirstMessages([row], Index([row])) == map[];
  }

  /** A row that names itself as its parent. */
  const SelfRow: ChatRow := ChatRow("a", "c", "a", User, "x")

  /** The row is its own parent in the index, so it is linked to itself and
      no conversation root is made. */
  lemma SelfParentGraph()
    ensures Build([SelfRow]) == Graph([CentralNode, MessageNode(SelfRow)], [GraphLink("a", "a")])
  {
    var row := SelfRow;
    assert Init([row]) == [] && Last([row]) == row;
    var index := Index([row]);
    assert Index([]) == map[];
    assert index == map["a" := row];
    assert !IsTopLevel(row, index);
    var firsts := FirstMessages([row], index);
    var st := LinkPass([row], index, firsts);
    assert st == LinkStep(LinkPass([], index, firsts), row, index, firsts);
    assert st.links == [GraphLink("a", "a")] && st.rootNodes == [];
    assert MessageNodes([row]) == [MessageNode(row)];
  }

  /** The walk from the self-linked row comes back to it at every step, so it
      would never stop: no ranking of its links exists. */
  lemma SelfParentCycle()
    ensures var g := Build([SelfRow]);
      var nm, lm := NodesById(g.nodes), LinksBySource(g.links);
      && g.links == [GraphLink("a", "a")]
      && Step(nm, lm, MessageNode(SelfRow)) == Some(MessageNode(SelfRow))
      && forall rank :: "a" in rank ==> !Ranked(nm, lm, rank)
  {
    SelfParentGraph();
    var g := Build([SelfRow]);
    var nm, lm := NodesById(g.nodes), LinksBySource(g.links);
    assert [CentralNode] == [] + [CentralNode];
    assert g.nodes == [CentralNode] + [MessageNode(SelfRow)];
    NodesByIdSnoc([], CentralNode);
    NodesByIdSnoc([CentralNode], MessageNode(SelfRow));
    assert nm["a"] == MessageNode(SelfRow);
    assert g.links == [] + [GraphLink("a", "a")];
    LinksBySourceSnoc([], GraphLink("a", "a"));
    assert lm["a"] == "a";
    var n := MessageNode(SelfRow);
    assert n.id == "a" && !IsRootRole(n.role);
  }

  /** A link cycle through a node whose role is a synthetic root does not trap
      the walk: the walk stops before the root, and ranking the start alone
      suffices. Rows `a` (parent `b`) and `b` (parent `a`, role cell
      `conversation_root`) give such a cycle. */
  lemma RootRoleCycle(nm: map<string, GraphNode>, lm: map<string, string>, a: GraphNode, b: GraphNode)
    requires KeyedById(nm) && a.id in lm && lm[a.id] == b.id && b.id in nm && nm[b.id] == b
    requires b.id in lm && lm[b.id] == a.id && IsRootRole(b.role)
    ensures Step(nm, lm, a).None?
    ensures Ranked(nm, lm, map[a.id := 0]) && Chain(nm, lm, map[a.id := 0], a) == [a]
  {
  }

  /** With the cycle guard, the walk from the self-linked row stops at once. */
  lemma SelfParentGuarded()
    ensures var g := Build([SelfRow]);
      GuardedChain(NodesById(g.nodes), LinksBySource(g.links), MessageNode(SelfRow), {"a"}) == [MessageNode(SelfRow)]
  {
    SelfParentCycle();
  }
}
