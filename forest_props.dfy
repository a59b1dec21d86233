/** What the built forest looks like: node and link counts, one outgoing
    link per node other than the central one, every link landing on a node,
    one conversation root per conversation that needs one, and titles taken
    from each conversation's first message. */
module ForestProperties {
  import opened ChatTypes
  import opened Forest

  /** The rows that become message nodes: those with an id, in input order. */
  function WithId(data: seq<ChatRow>): (r: seq<ChatRow>)
    ensures forall row :: row in r <==> row in data && row.id != ""
    ensures |r| <= |data|
    decreases |data|
  {
    if data == [] then []
    else
      assert forall row :: row in data <==> row in Init(data) || row == Last(data);
      WithId(Init(data)) + if Last(data).id != "" then [Last(data)] else []
  }

  /** The kept rows stay in input order: keeping the rows with an id from a
      concatenation concatenates the rows kept from each part. */
  lemma {:induction false} WithIdAppend(xs: seq<ChatRow>, ys: seq<ChatRow>)
    ensures WithId(xs + ys) == WithId(xs) + WithId(ys)
    decreases |ys|
  {
    if ys == [] {
      assert xs + ys == xs;
    } else {
      var ys' := Init(ys);
      var last := Last(ys);
      var tail := if last.id != "" then [last] else [];
      assert Init(xs + ys) == xs + ys' && Last(xs + ys) == last;
      assert WithId(xs + ys) == WithId(xs + ys') + tail;
      assert WithId(ys) == WithId(ys') + tail;
      WithIdAppend(xs, ys');
    }
  }

  /** Row `k` has an id and starts a thread, so its link goes to a conversation root. */
  ghost predicate Starter(data: seq<ChatRow>, index: map<string, ChatRow>, k: int)
  {
    0 <= k < |data| && data[k].id != "" && IsTopLevel(data[k], index)
  }

  /** The conversations that need a root: those of the rows with an id that start a thread. */
  ghost function FallbackConvs(data: seq<ChatRow>, index: map<string, ChatRow>): set<string>
  {
    set k | 0 <= k < |data| && Starter(data, index, k) :: data[k].conversation_id
  }

  lemma FallbackConvsStep(data: seq<ChatRow>, index: map<string, ChatRow>)
    requires data != []
    ensures FallbackConvs(data, index) ==
      FallbackConvs(Init(data), index)
        + if Last(data).id != "" && IsTopLevel(Last(data), index) then {Last(data).conversation_id} else {}
  {
    var init := Init(data);
    forall k | 0 <= k < |init| ensures Starter(data, index, k) == Starter(init, index, k) && data[k] == init[k] {
    }
    var a := FallbackConvs(data, index);
    var b := FallbackConvs(init, index)
      + if Last(data).id != "" && IsTopLevel(Last(data), index) then {Last(data).conversation_id} else {};
    forall c | c in a ensures c in b {
      var k :| 0 <= k < |data| && Starter(data, index, k) && data[k].conversation_id == c;
      if k < |init| {
        assert Starter(init, index, k);
      }
    }
    forall c | c in b ensures c in a {
      if c in FallbackConvs(init, index) {
        var k :| 0 <= k < |init| && Starter(init, index, k) && init[k].conversation_id == c;
        assert Starter(data, index, k);
      } else {
        assert Starter(data, index, |data| - 1);
      }
    }
  }

  /** The conversation of a conversation root node. */
  function ConvOf(n: GraphNode): string
  {
    if n.conversation_id.Some? then n.conversation_id.value else ""
  }

  /** The memo of the link pass holds exactly the conversations that need a
      root, each mapped to `conv_root_<c>`. */
  lemma {:induction false} LinkPassRoots(data: seq<ChatRow>, index: map<string, ChatRow>, firsts: map<string, ChatRow>)
    ensures var st := LinkPass(data, index, firsts);
      && st.roots.Keys == FallbackConvs(data, index)
      && (forall c :: c in st.roots ==> st.roots[c] == ConvRootId(c))
    decreases |data|
  {
    if data != [] {
      LinkPassRoots(Init(data), index, firsts);
      FallbackConvsStep(data, index);
    }
  }

  /** The root nodes of a link state correspond one to one to the entries of its memo. */
  ghost predicate RootNodesFor(st: LinkState, firsts: map<string, ChatRow>)
  {
    && |st.rootNodes| == |st.roots|
    && (forall j :: 0 <= j < |st.rootNodes| ==>
          && ConvOf(st.rootNodes[j]) in st.roots
          && st.rootNodes[j] == ConvRootNode(ConvOf(st.rootNodes[j]), Title(firsts, ConvOf(st.rootNodes[j]))))
    && (forall c :: c in st.roots ==> exists j :: 0 <= j < |st.rootNodes| && ConvOf(st.rootNodes[j]) == c)
    && (forall i, j :: 0 <= i < j < |st.rootNodes| ==> ConvOf(st.rootNodes[i]) != ConvOf(st.rootNodes[j]))
  }

  lemma RootNodesForStep(st: LinkState, row: ChatRow, index: map<string, ChatRow>, firsts: map<string, ChatRow>)
    requires RootNodesFor(st, firsts)
    ensures RootNodesFor(LinkStep(st, row, index, firsts), firsts)
  {
    if row.id != "" && IsTopLevel(row, index) && row.conversation_id !in st.roots {
      var c := row.conversation_id;
      var node := ConvRootNode(c, Title(firsts, c));
      RootNodesForAdd(st, c, node, firsts);
    }
  }

  lemma RootNodesForAdd(st: LinkState, c: string, node: GraphNode, firsts: map<string, ChatRow>)
    requires RootNodesFor(st, firsts)
    requires c !in st.roots && node == ConvRootNode(c, Title(firsts, c))
    ensures RootNodesFor(LinkState(st.roots[c := ConvRootId(c)], st.rootNodes + [node], []), firsts)
  {
    assert |st.roots[c := ConvRootId(c)]| == |st.roots| + 1;
    RootNodesAddShape(st, c, node, firsts);
    RootNodesAddCover(st, c, node, firsts);
    RootNodesAddDistinct(st, c, node, firsts);
  }

  lemma RootNodesAddShape(st: LinkState, c: string, node: GraphNode, firsts: map<string, ChatRow>)
    requires RootNodesFor(st, firsts)
    requires node == ConvRootNode(c, Title(firsts, c))
    ensures var roots', nodes' := st.roots[c := ConvRootId(c)], st.rootNodes + [node];
      forall j :: 0 <= j < |nodes'| ==>
        && ConvOf(nodes'[j]) in roots'
        && nodes'[j] == ConvRootNode(ConvOf(nodes'[j]), Title(firsts, ConvOf(nodes'[j])))
  {
    var roots', nodes' := st.roots[c := ConvRootId(c)], st.rootNodes + [node];
    assert ConvOf(node) == c;
    forall j | 0 <= j < |nodes'|
      ensures ConvOf(nodes'[j]) in roots'
      ensures nodes'[j] == ConvRootNode(ConvOf(nodes'[j]), Title(firsts, ConvOf(nodes'[j])))
    {
      if j < |st.rootNodes| { assert nodes'[j] == st.rootNodes[j]; }
    }
  }

  lemma RootNodesAddCover(st: LinkState, c: string, node: GraphNode, firsts: map<string, ChatRow>)
    requires RootNodesFor(st, firsts)
    requires node == ConvRootNode(c, Title(firsts, c))
    ensures var roots', nodes' := st.roots[c := ConvRootId(c)], st.rootNodes + [node];
      forall c' :: c' in roots' ==> exists j :: 0 <= j < |nodes'| && ConvOf(nodes'[j]) == c'
  {
    var roots', nodes' := st.roots[c := ConvRootId(c)], st.rootNodes + [node];
    var n := |st.rootNodes|;
    forall c' | c' in roots' ensures exists j :: 0 <= j < |nodes'| && ConvOf(nodes'[j]) == c' {
      if c' != c {
        var j :| 0 <= j < n && ConvOf(st.rootNodes[j]) == c';
        assert nodes'[j] == st.rootNodes[j];
      } else {
        assert ConvOf(nodes'[n]) == c';
      }
    }
  }

  lemma RootNodesAddDistinct(st: LinkState, c: string, node: GraphNode, firsts: map<string, ChatRow>)
    requires RootNodesFor(st, firsts)
    requires c !in st.roots && ConvOf(node) == c
    ensures var nodes' := st.rootNodes + [node];
      forall i, j :: 0 <= i < j < |nodes'| ==> ConvOf(nodes'[i]) != ConvOf(nodes'[j])
  {
    var nodes' := st.rootNodes + [node];
    var n := |st.rootNodes|;
    forall i, j | 0 <= i < j < |nodes'| ensures ConvOf(nodes'[i]) != ConvOf(nodes'[j]) {
      assert nodes'[i] == st.rootNodes[i];
      if j < n { assert nodes'[j] == st.rootNodes[j]; }
    }
  }

  /** One root node per memo entry, each for a different conversation. */
  lemma {:induction false} LinkPassRootNodes(data: seq<ChatRow>, index: map<string, ChatRow>, firsts: map<string, ChatRow>)
    ensures RootNodesFor(LinkPass(data, index, firsts), firsts)
    decreases |data|
  {
    if data != [] {
      LinkPassRootNodes(Init(data), index, firsts);
      RootNodesForStep(LinkPass(Init(data), index, firsts), Last(data), index, firsts);
    }
  }

  /** One link per row with an id, plus one per root node. */
  lemma {:induction false} LinkPassCount(data: seq<ChatRow>, index: map<string, ChatRow>, firsts: map<string, ChatRow>)
    ensures var st := LinkPass(data, index, firsts);
      |st.links| == |WithId(data)| + |st.rootNodes|
    decreases |data|
  {
    if data != [] {
      LinkPassCount(Init(data), index, firsts);
    }
  }

  lemma SourcesAppend(a: seq<GraphLink>, b: seq<GraphLink>)
    ensures Sources(a + b) == Sources(a) + Sources(b)
  {
  }

  lemma IdsAppend(a: seq<GraphNode>, b: seq<GraphNode>)
    ensures Ids(a + b) == Ids(a) + Ids(b)
  {
  }

  lemma MultisetCancel<T>(x: multiset<T>, y: multiset<T>, r: multiset<T>)
    requires x + r == y + r
    ensures x == y
  {
    forall e ensures x[e] == y[e] {
      assert (x + r)[e] == (y + r)[e];
    }
  }

  lemma SourcesStep(st: LinkState, row: ChatRow, index: map<string, ChatRow>, firsts: map<string, ChatRow>)
    ensures var st' := LinkStep(st, row, index, firsts);
      multiset(Sources(st'.links)) + multiset(Ids(st.rootNodes))
        == multiset(Sources(st.links)) + multiset(Ids(st'.rootNodes))
           + if row.id != "" then multiset{row.id} else multiset{}
  {
    if row.id != "" && IsTopLevel(row, index) && row.conversation_id !in st.roots {
      SourcesStepNewRoot(st, row, index, firsts);
    } else if row.id != "" {
      SourcesStepOneLink(st, row, index, firsts);
    }
  }

  lemma SourcesStepNewRoot(st: LinkState, row: ChatRow, index: map<string, ChatRow>, firsts: map<string, ChatRow>)
    requires row.id != "" && IsTopLevel(row, index) && row.conversation_id !in st.roots
    ensures var st' := LinkStep(st, row, index, firsts);
      multiset(Sources(st'.links)) + multiset(Ids(st.rootNodes))
        == multiset(Sources(st.links)) + multiset(Ids(st'.rootNodes)) + multiset{row.id}
  {
    var st' := LinkStep(st, row, index, firsts);
    var rid := ConvRootId(row.conversation_id);
    var node := ConvRootNode(row.conversation_id, Title(firsts, row.conversation_id));
    assert st'.links == st.links + [GraphLink(rid, RootId), GraphLink(row.id, rid)];
    assert st'.rootNodes == st.rootNodes + [node];
    SourcesAppend(st.links, [GraphLink(rid, RootId), GraphLink(row.id, rid)]);
    IdsAppend(st.rootNodes, [node]);
    assert Sources([GraphLink(rid, RootId), GraphLink(row.id, rid)]) == [rid, row.id];
    assert Ids([node]) == [rid];
  }

  lemma SourcesStepOneLink(st: LinkState, row: ChatRow, index: map<string, ChatRow>, firsts: map<string, ChatRow>)
    requires row.id != "" && !(IsTopLevel(row, index) && row.conversation_id !in st.roots)
    ensures var st' := LinkStep(st, row, index, firsts);
      && st'.rootNodes == st.rootNodes
      && multiset(Sources(st'.links)) == multiset(Sources(st.links)) + multiset{row.id}
  {
    var st' := LinkStep(st, row, index, firsts);
    var l := st'.links[|st.links|];
    assert st'.links == st.links + [l] && l.source == row.id;
    SourcesAppend(st.links, [l]);
  }

  /** Every link of the link pass leaves a message node or a root node: the
      sources are the ids of the message nodes and of the root nodes, each
      exactly once. */
  lemma {:induction false} LinkPassSources(data: seq<ChatRow>, index: map<string, ChatRow>, firsts: map<string, ChatRow>)
    ensures var st := LinkPass(data, index, firsts);
      multiset(Sources(st.links)) == multiset(Ids(MessageNodes(data))) + multiset(Ids(st.rootNodes))
    decreases |data|
  {
    if data != [] {
      LinkPassSources(Init(data), index, firsts);
      var prev := LinkPass(Init(data), index, firsts);
      var st := LinkPass(data, index, firsts);
      SourcesStep(prev, Last(data), index, firsts);
      var mine := if Last(data).id != "" then [MessageNode(Last(data))] else [];
      assert MessageNodes(data) == MessageNodes(Init(data)) + mine;
      IdsAppend(MessageNodes(Init(data)), mine);
      var m := if Last(data).id != "" then multiset{Last(data).id} else multiset{};
      assert multiset(Ids(mine)) == m;
      var a, a' := multiset(Sources(prev.links)), multiset(Sources(st.links));
      var r, r' := multiset(Ids(prev.rootNodes)), multiset(Ids(st.rootNodes));
      var msgs := multiset(Ids(MessageNodes(Init(data))));
      assert a' + r == a + r' + m;
      assert a == msgs + r;
      assert a' + r == (msgs + m + r') + r;
      MultisetCancel(a', msgs + m + r', r);
      assert multiset(Ids(MessageNodes(data))) == msgs + m;
    }
  }

  /** Where a row's link goes: to its parent when the parent is in the index,
      otherwise to its conversation's root. */
  function ExpectedTarget(row: ChatRow, index: map<string, ChatRow>): string
  {
    if IsTopLevel(row, index) then ConvRootId(row.conversation_id) else row.parent_id
  }

  /** A link state whose links land on the central node, an indexed row or one of its root nodes. */
  ghost predicate TargetsKnown(st: LinkState, index: map<string, ChatRow>)
  {
    forall l :: l in st.links ==> l.target == RootId || l.target in index || l.target in Ids(st.rootNodes)
  }

  lemma TargetsStep(st: LinkState, row: ChatRow, index: map<string, ChatRow>, firsts: map<string, ChatRow>)
    requires TargetsKnown(st, index)
    requires forall c :: c in st.roots ==> st.roots[c] == ConvRootId(c)
    requires RootNodesFor(st, firsts)
    ensures TargetsKnown(LinkStep(st, row, index, firsts), index)
  {
    if row.id != "" && IsTopLevel(row, index) {
      if row.conversation_id in st.roots {
        TargetsStepKnownRoot(st, row, index, firsts);
      } else {
        TargetsStepNewRoot(st, row, index, firsts);
      }
    }
  }

  lemma TargetsStepKnownRoot(st: LinkState, row: ChatRow, index: map<string, ChatRow>, firsts: map<string, ChatRow>)
    requires TargetsKnown(st, index)
    requires forall c :: c in st.roots ==> st.roots[c] == ConvRootId(c)
    requires RootNodesFor(st, firsts)
    requires row.id != "" && IsTopLevel(row, index) && row.conversation_id in st.roots
    ensures TargetsKnown(LinkStep(st, row, index, firsts), index)
  {
    var c := row.conversation_id;
    var j :| 0 <= j < |st.rootNodes| && ConvOf(st.rootNodes[j]) == c;
    assert Ids(st.rootNodes)[j] == ConvRootId(c);
  }

  lemma TargetsStepNewRoot(st: LinkState, row: ChatRow, index: map<string, ChatRow>, firsts: map<string, ChatRow>)
    requires TargetsKnown(st, index)
    requires row.id != "" && IsTopLevel(row, index) && row.conversation_id !in st.roots
    ensures TargetsKnown(LinkStep(st, row, index, firsts), index)
  {
    var st' := LinkStep(st, row, index, firsts);
    var c := row.conversation_id;
    var node := ConvRootNode(c, Title(firsts, c));
    assert st'.rootNodes == st.rootNodes + [node];
    assert Ids(st'.rootNodes)[|st.rootNodes|] == ConvRootId(c);
    assert forall x :: x in Ids(st.rootNodes) ==> x in Ids(st'.rootNodes) by {
      IdsAppend(st.rootNodes, [node]);
    }
  }

  /** Every link of the link pass lands on the central node, on an indexed
      row, or on a root node created by the pass. */
  lemma {:induction false} LinkPassTargets(data: seq<ChatRow>, index: map<string, ChatRow>, firsts: map<string, ChatRow>)
    ensures TargetsKnown(LinkPass(data, index, firsts), index)
    decreases |data|
  {
    if data != [] {
      LinkPassTargets(Init(data), index, firsts);
      LinkPassRoots(Init(data), index, firsts);
      LinkPassRootNodes(Init(data), index, firsts);
      TargetsStep(LinkPass(Init(data), index, firsts), Last(data), index, firsts);
    }
  }

  /** The link pass gives every row with an id its expected link, and every
      root node a link to the central node. */
  lemma {:induction false} LinkPassRowLinks(data: seq<ChatRow>, index: map<string, ChatRow>, firsts: map<string, ChatRow>)
    ensures var st := LinkPass(data, index, firsts);
      && (forall k :: 0 <= k < |data| && data[k].id != "" ==>
            GraphLink(data[k].id, ExpectedTarget(data[k], index)) in st.links)
      && (forall j :: 0 <= j < |st.rootNodes| ==> GraphLink(st.rootNodes[j].id, RootId) in st.links)
    decreases |data|
  {
    if data != [] {
      LinkPassRowLinks(Init(data), index, firsts);
      LinkPassRoots(Init(data), index, firsts);
      var prev := LinkPass(Init(data), index, firsts);
      var st := LinkPass(data, index, firsts);
      assert st.links[..|prev.links|] == prev.links;
      assert forall l :: l in prev.links ==> l in st.links;
      assert forall j :: 0 <= j < |prev.rootNodes| ==> st.rootNodes[j] == prev.rootNodes[j];
      forall k | 0 <= k < |data| && data[k].id != ""
        ensures GraphLink(data[k].id, ExpectedTarget(data[k], index)) in st.links
      {
        if k < |data| - 1 {
          assert data[k] == Init(data)[k];
        }
      }
    }
  }

  /** Row `row` is the last row of `data` with id `id`. */
  ghost predicate LastRowWith(data: seq<ChatRow>, id: string, row: ChatRow)
  {
    exists k :: 0 <= k < |data| && data[k] == row && row.id == id && forall j :: k < j < |data| ==> data[j].id != id
  }

  /** The index holds every non-empty id of the data, mapped to the last row
      carrying it (a later duplicate overwrites an earlier one). */
  lemma IndexSpec(data: seq<ChatRow>)
    ensures forall id :: id in Index(data) <==> id != "" && exists k :: 0 <= k < |data| && data[k].id == id
    ensures forall id :: id in Index(data) ==> LastRowWith(data, id, Index(data)[id])
  {
    IndexKeys(data);
    IndexLast(data);
  }

  lemma {:induction false} IndexKeys(data: seq<ChatRow>)
    ensures forall id :: id in Index(data) <==> id != "" && exists k :: 0 <= k < |data| && data[k].id == id
    decreases |data|
  {
    if data != [] {
      var init := Init(data);
      IndexKeys(init);
      var n := |data| - 1;
      forall id | id != "" && id != data[n].id && (exists k :: 0 <= k < |data| && data[k].id == id)
        ensures id in Index(init)
      {
        var k :| 0 <= k < |data| && data[k].id == id;
        assert k < n && init[k].id == id;
      }
      forall id | id in Index(init) ensures exists k :: 0 <= k < |data| && data[k].id == id {
        var k :| 0 <= k < |init| && init[k].id == id;
        assert data[k].id == id;
      }
    }
  }

  lemma {:induction false} IndexLast(data: seq<ChatRow>)
    ensures forall id :: id in Index(data) ==> LastRowWith(data, id, Index(data)[id])
    decreases |data|
  {
    if data != [] {
      IndexLast(Init(data));
      IndexKeys(Init(data));
      forall id | id in Index(data) ensures LastRowWith(data, id, Index(data)[id]) {
        IndexLastAt(data, id);
      }
    }
  }

  lemma IndexLastAt(data: seq<ChatRow>, id: string)
    requires data != [] && "" !in Index(Init(data)) && id in Index(data)
    requires id in Index(Init(data)) ==> LastRowWith(Init(data), id, Index(Init(data))[id])
    ensures LastRowWith(data, id, Index(data)[id])
  {
    var n := |data| - 1;
    if data[n].id != "" && id == data[n].id {
      assert Index(data) == Index(Init(data))[id := data[n]];
      assert data[n] == Index(data)[id];
    } else {
      IndexLastKept(data, id);
    }
  }

  /** An id other than the last row's keeps the entry it had before the last row. */
  lemma IndexLastKept(data: seq<ChatRow>, id: string)
    requires data != [] && "" !in Index(Init(data)) && id in Index(data)
    requires id in Index(Init(data)) ==> LastRowWith(Init(data), id, Index(Init(data))[id])
    requires data[|data| - 1].id == "" || id != data[|data| - 1].id
    ensures LastRowWith(data, id, Index(data)[id])
  {
    var init, n := Init(data), |data| - 1;
    var m := Index(init);
    assert Index(data) == if data[n].id != "" then m[data[n].id := data[n]] else m;
    assert id in m && Index(data)[id] == m[id];
    assert data[n].id != id;
    var k :| 0 <= k < |init| && init[k] == m[id] && m[id].id == id
      && forall j :: k < j < |init| ==> init[j].id != id;
    forall j | k < j < |data| ensures data[j].id != id {
      if j < n {
        assert init[j].id != id;
        assert data[j] == init[j];
      } else {
        assert j == n;
      }
    }
    assert data[k] == Index(data)[id];
  }

  /** The message nodes are the rows with an id, each made into a node, in input order. */
  lemma {:induction false} MessageNodesSpec(data: seq<ChatRow>)
    ensures |MessageNodes(data)| == |WithId(data)|
    ensures forall i :: 0 <= i < |WithId(data)| ==> MessageNodes(data)[i] == MessageNode(WithId(data)[i])
    decreases |data|
  {
    if data != [] {
      MessageNodesSpec(Init(data));
    }
  }

  /** Row `k` is the first row that starts a thread of conversation `c`. */
  ghost predicate FirstStarter(data: seq<ChatRow>, index: map<string, ChatRow>, c: string, k: int)
  {
    && Starter(data, index, k) && data[k].conversation_id == c
    && forall j :: 0 <= j < k && Starter(data, index, j) ==> data[j].conversation_id != c
  }

  /** The first-message pass records, for every non-empty conversation id
      that has a row starting a thread, the first such row; and nothing else. */
  lemma {:induction false} FirstMessagesSpec(data: seq<ChatRow>, index: map<string, ChatRow>)
    ensures forall c :: c in FirstMessages(data, index) ==>
      c != "" && exists k :: FirstStarter(data, index, c, k) && FirstMessages(data, index)[c] == data[k]
    ensures forall c :: c != "" && c in FallbackConvs(data, index) ==> c in FirstMessages(data, index)
    decreases |data|
  {
    if data != [] {
      var init := Init(data);
      var n := |data| - 1;
      FirstMessagesSpec(init, index);
      FallbackConvsStep(data, index);
      var f, f' := FirstMessages(init, index), FirstMessages(data, index);
      assert forall j :: 0 <= j < n ==> Starter(data, index, j) == Starter(init, index, j) && data[j] == init[j];
      forall c | c in f'
        ensures c != "" && exists k :: FirstStarter(data, index, c, k) && f'[c] == data[k]
      {
        if c in f {
          var k :| FirstStarter(init, index, c, k) && f[c] == init[k];
          assert FirstStarter(data, index, c, k);
        } else {
          assert f'[c] == data[n] && Starter(data, index, n);
          assert c != "" && c !in FallbackConvs(init, index);
          forall j | 0 <= j < n && Starter(data, index, j) ensures data[j].conversation_id != c {
            assert Starter(init, index, j) && init[j].conversation_id in FallbackConvs(init, index);
          }
          assert FirstStarter(data, index, c, n);
        }
      }
    }
  }

  /** The first thread-starting row of a conversation that already had one
      before the last row lies before the last row. */
  lemma FirstStarterInit(data: seq<ChatRow>, index: map<string, ChatRow>, c: string, k: int)
    requires data != [] && c in FallbackConvs(Init(data), index) && FirstStarter(data, index, c, k)
    ensures k < |data| - 1 && FirstStarter(Init(data), index, c, k)
  {
    var init := Init(data);
    var s :| 0 <= s < |init| && Starter(init, index, s) && init[s].conversation_id == c;
    assert Starter(data, index, s) && data[s].conversation_id == c;
    assert k <= s;
    assert forall j :: 0 <= j < k ==> Starter(data, index, j) == Starter(init, index, j) && data[j] == init[j];
  }

  /** The root nodes follow the order in which their conversations first
      start a thread in the data. */
  ghost predicate CreatedInOrder(data: seq<ChatRow>, index: map<string, ChatRow>, nodes: seq<GraphNode>)
  {
    forall i, j, ki, kj ::
      0 <= i < j < |nodes| && FirstStarter(data, index, ConvOf(nodes[i]), ki) && FirstStarter(data, index, ConvOf(nodes[j]), kj)
      ==> ki < kj
  }

  lemma {:induction false} LinkPassRootOrder(data: seq<ChatRow>, index: map<string, ChatRow>, firsts: map<string, ChatRow>)
    ensures CreatedInOrder(data, index, LinkPass(data, index, firsts).rootNodes)
    decreases |data|
  {
    if data != [] {
      var nodes := LinkPass(data, index, firsts).rootNodes;
      LinkPassRootOrder(Init(data), index, firsts);
      forall i, j, ki, kj |
        0 <= i < j < |nodes| && FirstStarter(data, index, ConvOf(nodes[i]), ki) && FirstStarter(data, index, ConvOf(nodes[j]), kj)
        ensures ki < kj
      {
        RootOrderPair(data, index, firsts, i, j, ki, kj);
      }
    }
  }

  /** One pair of root nodes, given that the roots made before the last row are in order. */
  lemma RootOrderPair(data: seq<ChatRow>, index: map<string, ChatRow>, firsts: map<string, ChatRow>, i: int, j: int, ki: int, kj: int)
    requires data != []
    requires CreatedInOrder(Init(data), index, LinkPass(Init(data), index, firsts).rootNodes)
    requires var nodes := LinkPass(data, index, firsts).rootNodes;
      && 0 <= i < j < |nodes|
      && FirstStarter(data, index, ConvOf(nodes[i]), ki) && FirstStarter(data, index, ConvOf(nodes[j]), kj)
    ensures ki < kj
  {
    var prev := LinkPass(Init(data), index, firsts).rootNodes;
    var nodes := LinkPass(data, index, firsts).rootNodes;
    RootsGrowByOne(data, index, firsts);
    assert nodes[i] == prev[i];
    RootConvKnown(Init(data), index, firsts, i);
    FirstStarterInit(data, index, ConvOf(prev[i]), ki);
    if j < |prev| {
      assert nodes[j] == prev[j];
      RootConvKnown(Init(data), index, firsts, j);
      FirstStarterInit(data, index, ConvOf(prev[j]), kj);
    } else {
      NewRootStarter(data, index, firsts, kj);
    }
  }

  /** The last row adds at most one root node, after the earlier ones. */
  lemma RootsGrowByOne(data: seq<ChatRow>, index: map<string, ChatRow>, firsts: map<string, ChatRow>)
    requires data != []
    ensures var prev := LinkPass(Init(data), index, firsts).rootNodes;
      var nodes := LinkPass(data, index, firsts).rootNodes;
      |prev| <= |nodes| <= |prev| + 1 && nodes[..|prev|] == prev
  {
    var prev := LinkPass(Init(data), index, firsts);
    assert LinkPass(data, index, firsts) == LinkStep(prev, Last(data), index, firsts);
  }

  /** Every root node of the link pass is for a conversation that needs one. */
  lemma RootConvKnown(data: seq<ChatRow>, index: map<string, ChatRow>, firsts: map<string, ChatRow>, i: int)
    requires 0 <= i < |LinkPass(data, index, firsts).rootNodes|
    ensures ConvOf(LinkPass(data, index, firsts).rootNodes[i]) in FallbackConvs(data, index)
  {
    LinkPassRootNodes(data, index, firsts);
    LinkPassRoots(data, index, firsts);
  }

  /** A root created by the last row belongs to a conversation whose first
      thread-starting row is the last row. */
  lemma NewRootStarter(data: seq<ChatRow>, index: map<string, ChatRow>, firsts: map<string, ChatRow>, k: int)
    requires data != []
    requires var prev := LinkPass(Init(data), index, firsts);
      && |LinkPass(data, index, firsts).rootNodes| > |prev.rootNodes|
      && FirstStarter(data, index, ConvOf(LinkPass(data, index, firsts).rootNodes[|prev.rootNodes|]), k)
    ensures k == |data| - 1
  {
    var init := Init(data);
    var prev := LinkPass(init, index, firsts);
    LinkPassRoots(init, index, firsts);
    var c := Last(data).conversation_id;
    assert Starter(data, index, |data| - 1) && c !in FallbackConvs(init, index);
    forall j | 0 <= j < |data| - 1 && Starter(data, index, j) ensures data[j].conversation_id != c {
      assert Starter(init, index, j) && init[j].conversation_id in FallbackConvs(init, index);
    }
  }
}
