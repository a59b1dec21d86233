/** The ancestor walk behind the thread summary: from a chosen node, follow
    parent links upward through message nodes, collecting the nodes met, and
    stop at a missing link, a missing node, or a synthetic root. */
module Thread {
  import opened ChatTypes

  /** `new Map(nodes.map(n => [n.id, n]))`: nodes by id, later nodes overwriting earlier ones. */
  function NodesById(nodes: seq<GraphNode>): (nm: map<string, GraphNode>)
    ensures forall id :: id in nm <==> exists i :: 0 <= i < |nodes| && nodes[i].id == id
    ensures forall id :: id in nm ==> nm[id].id == id && nm[id] in nodes
    decreases |nodes|
  {
    if nodes == [] then map[]
    else
      var last := nodes[|nodes| - 1];
      var nm := NodesById(nodes[..|nodes| - 1]);
      assert forall i :: 0 <= i < |nodes| - 1 ==> nodes[..|nodes| - 1][i] == nodes[i];
      nm[last.id := last]
  }

  /** Later nodes win: each id maps to the last node carrying it. */
  lemma {:induction false} NodesByIdLast(nodes: seq<GraphNode>)
    ensures forall id :: id in NodesById(nodes) ==> LastNodeWith(nodes, id, NodesById(nodes)[id])
    decreases |nodes|
  {
    if nodes != [] {
      var init, last := nodes[..|nodes| - 1], nodes[|nodes| - 1];
      NodesByIdLast(init);
      var nm := NodesById(init);
      assert NodesById(nodes) == nm[last.id := last];
      assert LastNodeWith(nodes, last.id, last);
      forall id | id in nm && id != last.id ensures LastNodeWith(nodes, id, nm[id]) {
        LastNodeKept(nodes, id, nm[id]);
      }
    }
  }

  /** `n` is the last of `nodes` whose id is `id`. */
  ghost predicate LastNodeWith(nodes: seq<GraphNode>, id: string, n: GraphNode)
  {
    exists i :: 0 <= i < |nodes| && nodes[i] == n && forall j :: i < j < |nodes| ==> nodes[j].id != id
  }

  /** `new Map(links.map(l => [l.source, l.target]))`: each source's target,
      later links overwriting earlier ones. */
  function LinksBySource(links: seq<GraphLink>): (lm: map<string, string>)
    ensures forall id :: id in lm <==> exists i :: 0 <= i < |links| && links[i].source == id
    ensures forall id :: id in lm ==> GraphLink(id, lm[id]) in links
    decreases |links|
  {
    if links == [] then map[]
    else
      var last := links[|links| - 1];
      var lm := LinksBySource(links[..|links| - 1]);
      assert forall i :: 0 <= i < |links| - 1 ==> links[..|links| - 1][i] == links[i];
      lm[last.source := last.target]
  }

  /** Later links win: each source maps to the target of the last link from it. */
  lemma {:induction false} LinksBySourceLast(links: seq<GraphLink>)
    ensures forall id :: id in LinksBySource(links) ==> LastLinkFrom(links, id, LinksBySource(links)[id])
    decreases |links|
  {
    if links != [] {
      var init, last := links[..|links| - 1], links[|links| - 1];
      LinksBySourceLast(init);
      var lm := LinksBySource(init);
      assert LinksBySource(links) == lm[last.source := last.target];
      assert LastLinkFrom(links, last.source, last.target);
      forall id | id in lm && id != last.source ensures LastLinkFrom(links, id, lm[id]) {
        LastLinkKept(links, id, lm[id]);
      }
    }
  }

  lemma LastNodeKept(nodes: seq<GraphNode>, id: string, n: GraphNode)
    requires nodes != [] && nodes[|nodes| - 1].id != id
    requires LastNodeWith(nodes[..|nodes| - 1], id, n)
    ensures LastNodeWith(nodes, id, n)
  {
    var init := nodes[..|nodes| - 1];
    var i :| 0 <= i < |init| && init[i] == n && forall j :: i < j < |init| ==> init[j].id != id;
    assert nodes[i] == n;
    forall j | i < j < |nodes| ensures nodes[j].id != id {
      if j < |init| {
        assert nodes[j] == init[j];
      }
    }
  }

  /** The last of `links` whose source is `id` goes to `target`. */
  ghost predicate LastLinkFrom(links: seq<GraphLink>, id: string, target: string)
  {
    exists i :: 0 <= i < |links| && links[i] == GraphLink(id, target) && forall j :: i < j < |links| ==> links[j].source != id
  }

  lemma LastLinkKept(links: seq<GraphLink>, id: string, target: string)
    requires links != [] && links[|links| - 1].source != id
    requires LastLinkFrom(links[..|links| - 1], id, target)
    ensures LastLinkFrom(links, id, target)
  {
    var init := links[..|links| - 1];
    var i :| 0 <= i < |init| && init[i] == GraphLink(id, target) && forall j :: i < j < |init| ==> init[j].source != id;
    assert links[i] == GraphLink(id, target);
    forall j | i < j < |links| ensures links[j].source != id {
      if j < |init| {
        assert links[j] == init[j];
      }
    }
  }

  lemma NodesByIdSnoc(nodes: seq<GraphNode>, n: GraphNode)
    ensures NodesById(nodes + [n]) == NodesById(nodes)[n.id := n]
  {
    assert (nodes + [n])[..|nodes|] == nodes;
  }

  lemma LinksBySourceSnoc(links: seq<GraphLink>, l: GraphLink)
    ensures LinksBySource(links + [l]) == LinksBySource(links)[l.source := l.target]
  {
    assert (links + [l])[..|links|] == links;
  }

  /** The synthetic roles at which the walk stops. */
  predicate IsRootRole(role: Role)
  {
    role == ConversationRoot || role == CentralRoot
  }

  /** Where the walk goes from `n`: to the node its link names, unless
      there is no link, the link is empty, the node is unknown, or the node
      is a synthetic root. */
  function Step(nm: map<string, GraphNode>, lm: map<string, string>, n: GraphNode): (r: Option<GraphNode>)
    ensures r.Some? ==> n.id in lm && lm[n.id] != "" && lm[n.id] in nm && r.value == nm[lm[n.id]]
    ensures r.Some? ==> !IsRootRole(r.value.role)
    ensures n.id in lm && lm[n.id] in nm && r.None? ==> lm[n.id] == "" || IsRootRole(nm[lm[n.id]].role)
  {
    if n.id !in lm || lm[n.id] == "" then None
    else if lm[n.id] !in nm then None
    else if IsRootRole(nm[lm[n.id]].role) then None
    else Some(nm[lm[n.id]])
  }

  /** A node map keyed by its nodes' ids, as `NodesById` builds it. */
  predicate KeyedById(nm: map<string, GraphNode>)
  {
    forall id :: id in nm ==> nm[id].id == id
  }

  /** `rank` is closed under the links the walk follows (non-empty, landing
      on a known node that is not a synthetic root) and strictly decreases
      along them, so no walk through the ranked ids comes back to an id. Ids
      off those walks, such as a cycle elsewhere, need no rank, and a link
      into a synthetic root needs none either. */
  predicate Ranked(nm: map<string, GraphNode>, lm: map<string, string>, rank: map<string, nat>)
  {
    forall id :: id in rank && id in lm && lm[id] != "" && lm[id] in nm && !IsRootRole(nm[lm[id]].role) ==>
      lm[id] in rank && rank[lm[id]] < rank[id]
  }

  lemma StepDecreases(nm: map<string, GraphNode>, lm: map<string, string>, rank: map<string, nat>, n: GraphNode)
    requires KeyedById(nm) && Ranked(nm, lm, rank) && n.id in rank
    requires Step(nm, lm, n).Some?
    ensures Step(nm, lm, n).value.id in rank && rank[Step(nm, lm, n).value.id] < rank[n.id]
  {
  }

  /** The thread the walk from `n` collects: the farthest ancestor first, `n` last. */
  function Chain(nm: map<string, GraphNode>, lm: map<string, string>, rank: map<string, nat>, n: GraphNode): seq<GraphNode>
    requires KeyedById(nm) && Ranked(nm, lm, rank) && n.id in rank
    decreases rank[n.id]
  {
    match Step(nm, lm, n)
    case None => [n]
    case Some(p) =>
      StepDecreases(nm, lm, rank, n);
      Chain(nm, lm, rank, p) + [n]
  }

  /** A thread from `n`: it ends with `n`, each node is where the walk goes
      from the next one, and the walk stops at the first node. */
  predicate IsThread(nm: map<string, GraphNode>, lm: map<string, string>, n: GraphNode, t: seq<GraphNode>)
  {
    && t != [] && t[|t| - 1] == n
    && Step(nm, lm, t[0]).None?
    && forall i :: 0 <= i < |t| - 1 ==> Step(nm, lm, t[i + 1]) == Some(t[i])
  }

  /** The chain is a thread. */
  lemma {:induction false} ChainIsThread(nm: map<string, GraphNode>, lm: map<string, string>, rank: map<string, nat>, n: GraphNode)
    requires KeyedById(nm) && Ranked(nm, lm, rank) && n.id in rank
    ensures IsThread(nm, lm, n, Chain(nm, lm, rank, n))
    decreases rank[n.id]
  {
    match Step(nm, lm, n)
    case None =>
    case Some(p) =>
      StepDecreases(nm, lm, rank, n);
      ChainIsThread(nm, lm, rank, p);
      var t := Chain(nm, lm, rank, n);
      var tp := Chain(nm, lm, rank, p);
      assert t == tp + [n];
      forall i | 0 <= i < |t| - 1 ensures Step(nm, lm, t[i + 1]) == Some(t[i]) {
        if i < |tp| - 1 {
          assert t[i] == tp[i] && t[i + 1] == tp[i + 1];
        }
      }
  }

  /** The chain is the only thread from `n`. */
  lemma {:induction false} ThreadUnique(
    nm: map<string, GraphNode>, lm: map<string, string>, rank: map<string, nat>, n: GraphNode, t: seq<GraphNode>)
    requires KeyedById(nm) && Ranked(nm, lm, rank) && n.id in rank
    requires IsThread(nm, lm, n, t)
    ensures t == Chain(nm, lm, rank, n)
    decreases |t|
  {
    if |t| == 1 {
    } else {
      var p := t[|t| - 2];
      assert Step(nm, lm, n) == Some(p);
      var t' := t[..|t| - 1];
      assert IsThread(nm, lm, p, t') by {
        forall i | 0 <= i < |t'| - 1 ensures Step(nm, lm, t'[i + 1]) == Some(t'[i]) {
          assert t'[i + 1] == t[i + 1];
        }
      }
      ThreadUnique(nm, lm, rank, p, t');
      assert t == t' + [n];
    }
  }

  /** What a thread looks like: adjacent nodes are joined by a link from the
      later to the earlier, and no node before the start is a synthetic root. */
  lemma ThreadShape(nm: map<string, GraphNode>, lm: map<string, string>, n: GraphNode, t: seq<GraphNode>)
    requires KeyedById(nm)
    requires IsThread(nm, lm, n, t)
    ensures forall i :: 0 < i < |t| ==> t[i].id in lm && lm[t[i].id] == t[i - 1].id
    ensures forall i :: 0 <= i < |t| - 1 ==> !IsRootRole(t[i].role)
  {
    forall i | 0 < i < |t| ensures t[i].id in lm && lm[t[i].id] == t[i - 1].id {
      ThreadLink(nm, lm, n, t, i);
    }
    forall i | 0 <= i < |t| - 1 ensures !IsRootRole(t[i].role) {
      assert Step(nm, lm, t[i + 1]) == Some(t[i]);
    }
  }

  lemma ThreadLink(nm: map<string, GraphNode>, lm: map<string, string>, n: GraphNode, t: seq<GraphNode>, i: int)
    requires KeyedById(nm)
    requires IsThread(nm, lm, n, t) && 0 < i < |t|
    ensures t[i].id in lm && lm[t[i].id] == t[i - 1].id
  {
    assert Step(nm, lm, t[i - 1 + 1]) == Some(t[i - 1]);
  }

  /** The walk does not depend on which ranking shows the links acyclic:
      walking twice gives the same thread. */
  lemma ChainRankIndependent(
    nm: map<string, GraphNode>, lm: map<string, string>, rank1: map<string, nat>, rank2: map<string, nat>, n: GraphNode)
    requires KeyedById(nm) && Ranked(nm, lm, rank1) && Ranked(nm, lm, rank2) && n.id in rank1 && n.id in rank2
    ensures Chain(nm, lm, rank1, n) == Chain(nm, lm, rank2, n)
  {
    ChainIsThread(nm, lm, rank1, n);
    ThreadUnique(nm, lm, rank2, n, Chain(nm, lm, rank1, n));
  }

  /** `handleRequestThreadSummary`'s walk: prepend the current node, then
      move to its parent unless the walk must stop. */
  method AncestorThread(g: Graph, startNode: GraphNode, ghost rank: map<string, nat>) returns (thread: seq<GraphNode>)
    requires Ranked(NodesById(g.nodes), LinksBySource(g.links), rank) && startNode.id in rank
    ensures thread == Chain(NodesById(g.nodes), LinksBySource(g.links), rank, startNode)
  {
    thread := Walk(NodesById(g.nodes), LinksBySource(g.links), startNode, rank);
  }

  /** The loop of the walk, over the node and link maps. */
  method Walk(nodesMap: map<string, GraphNode>, linksMap: map<string, string>, startNode: GraphNode, ghost rank: map<string, nat>)
    returns (thread: seq<GraphNode>)
    requires KeyedById(nodesMap) && Ranked(nodesMap, linksMap, rank) && startNode.id in rank
    ensures thread == Chain(nodesMap, linksMap, rank, startNode)
  {
    thread := [];
    var currentNode := startNode;
    while true
      invariant currentNode.id in rank
      invariant Chain(nodesMap, linksMap, rank, startNode) == Chain(nodesMap, linksMap, rank, currentNode) + thread
      decreases rank[currentNode.id]
    {
      thread := [currentNode] + thread;
      var parentId := if currentNode.id in linksMap then linksMap[currentNode.id] else "";
      if parentId == "" {
        break;
      }
      if parentId !in nodesMap {
        break;
      }
      var parentNode := nodesMap[parentId];
      if parentNode.role == ConversationRoot || parentNode.role == CentralRoot {
        break;
      }
      StepDecreases(nodesMap, linksMap, rank, currentNode);
      currentNode := parentNode;
    }
  }

  /** Marking one more known id as seen leaves one fewer unseen. */
  lemma FewerUnseen(keys: set<string>, seen: set<string>, x: string)
    requires x in keys && x !in seen
    ensures |keys - (seen + {x})| == |keys - seen| - 1
  {
    var rest := keys - (seen + {x});
    assert keys - seen == rest + {x};
  }

  /** The walk with a guard against cycles: it also stops when the next node
      is one it has already collected (`seen` holds the ids collected so far). */
  function GuardedChain(nm: map<string, GraphNode>, lm: map<string, string>, n: GraphNode, seen: set<string>): seq<GraphNode>
    requires KeyedById(nm)
    decreases |nm.Keys - seen|
  {
    match Step(nm, lm, n)
    case None => [n]
    case Some(p) =>
      if p.id in seen then [n]
      else
        FewerUnseen(nm.Keys, seen, p.id);
        GuardedChain(nm, lm, p, seen + {p.id}) + [n]
  }

  /** The guarded walk collects at most one node per known id, plus the start,
      ends with the start, follows the links, and never collects an id twice. */
  lemma {:induction false} GuardedChainShape(nm: map<string, GraphNode>, lm: map<string, string>, n: GraphNode, seen: set<string>)
    requires KeyedById(nm) && n.id in seen
    ensures var t := GuardedChain(nm, lm, n, seen);
      && t != [] && t[|t| - 1] == n
      && |t| <= |nm.Keys - seen| + 1
      && (forall i :: 0 <= i < |t| - 1 ==> Step(nm, lm, t[i + 1]) == Some(t[i]) && t[i].id !in seen)
      && (forall i, j :: 0 <= i < j < |t| ==> t[i].id != t[j].id)
    decreases |nm.Keys - seen|
  {
    match Step(nm, lm, n)
    case None =>
    case Some(p) =>
      if p.id !in seen {
        var seen' := seen + {p.id};
        FewerUnseen(nm.Keys, seen, p.id);
        GuardedChainShape(nm, lm, p, seen');
        var tp := GuardedChain(nm, lm, p, seen');
        var t := GuardedChain(nm, lm, n, seen);
        assert t == tp + [n];
        forall i | 0 <= i < |t| - 1 ensures Step(nm, lm, t[i + 1]) == Some(t[i]) && t[i].id !in seen {
          if i < |tp| - 1 {
            assert t[i] == tp[i] && t[i + 1] == tp[i + 1];
          }
        }
        forall i, j | 0 <= i < j < |t| ensures t[i].id != t[j].id {
          if j < |tp| {
            assert t[i] == tp[i] && t[j] == tp[j];
          }
        }
      }
  }

  /** On acyclic links the guard never fires: the guarded walk is the walk. */
  lemma {:induction false} GuardedChainAgrees(
    nm: map<string, GraphNode>, lm: map<string, string>, rank: map<string, nat>, n: GraphNode, seen: set<string>)
    requires KeyedById(nm) && Ranked(nm, lm, rank) && n.id in rank
    requires n.id in seen
    requires forall s :: s in seen && s != n.id ==> s in rank && rank[s] > rank[n.id]
    ensures GuardedChain(nm, lm, n, seen) == Chain(nm, lm, rank, n)
    decreases rank[n.id]
  {
    match Step(nm, lm, n)
    case None =>
    case Some(p) =>
      StepDecreases(nm, lm, rank, n);
      assert p.id !in seen;
      GuardedChainAgrees(nm, lm, rank, p, seen + {p.id});
  }

  lemma GuardedChainUnfold(nm: map<string, GraphNode>, lm: map<string, string>, n: GraphNode, seen: set<string>)
    requires KeyedById(nm) && Step(nm, lm, n).Some? && Step(nm, lm, n).value.id !in seen
    ensures var p := Step(nm, lm, n).value;
      GuardedChain(nm, lm, n, seen) == GuardedChain(nm, lm, p, seen + {p.id}) + [n]
  {
  }

  lemma GuardedChainStop(nm: map<string, GraphNode>, lm: map<string, string>, n: GraphNode, seen: set<string>)
    requires KeyedById(nm) && (Step(nm, lm, n).None? || Step(nm, lm, n).value.id in seen)
    ensures GuardedChain(nm, lm, n, seen) == [n]
  {
  }

  /** The walk with the cycle guard, as the loop it would be. */
  method GuardedAncestorThread(g: Graph, startNode: GraphNode) returns (thread: seq<GraphNode>)
    ensures thread == GuardedChain(NodesById(g.nodes), LinksBySource(g.links), startNode, {startNode.id})
  {
    thread := GuardedWalk(NodesById(g.nodes), LinksBySource(g.links), startNode);
  }

  method GuardedWalk(nodesMap: map<string, GraphNode>, linksMap: map<string, string>, startNode: GraphNode)
    returns (thread: seq<GraphNode>)
    requires KeyedById(nodesMap)
    ensures thread == GuardedChain(nodesMap, linksMap, startNode, {startNode.id})
  {
    thread := [];
    var currentNode := startNode;
    var seen := {startNode.id};
    while true
      invariant currentNode.id in seen
      invariant GuardedChain(nodesMap, linksMap, startNode, {startNode.id})
        == GuardedChain(nodesMap, linksMap, currentNode, seen) + thread
      decreases |nodesMap.Keys - seen|
    {
      thread := [currentNode] + thread;
      var parentId := if currentNode.id in linksMap then linksMap[currentNode.id] else "";
      if parentId == "" || parentId !in nodesMap {
        GuardedChainStop(nodesMap, linksMap, currentNode, seen);
        break;
      }
      var parentNode := nodesMap[parentId];
      if parentNode.role == ConversationRoot || parentNode.role == CentralRoot || parentNode.id in seen {
        GuardedChainStop(nodesMap, linksMap, currentNode, seen);
        break;
      }
      GuardedChainUnfold(nodesMap, linksMap, currentNode, seen);
      FewerUnseen(nodesMap.Keys, seen, parentNode.id);
      seen := seen + {parentNode.id};
      currentNode := parentNode;
    }
  }
}
