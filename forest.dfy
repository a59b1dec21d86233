/** Building the conversation forest from the chat rows: an index of rows
    by id, the first message of every conversation, one message node per
    row, and one parent link per row, with a conversation root created on
    demand for every row whose parent is not in the data. */
module Forest {
  import opened ChatTypes

  const MessagePreview: nat := 30
  const TitlePreview: nat := 50

  /** The central node, emitted first. */
  const CentralNode: GraphNode := GraphNode(
    RootId, "You", "Central node representing all conversations.", CentralRoot, None, ColorOf(CentralRoot), 30)

  /** A row's node: its id, content, role and conversation, a label starting
      with the role name, the role's colour and value 3. */
  function MessageNode(row: ChatRow): (n: GraphNode)
    ensures n.id == row.id && n.content == row.content && n.role == row.role
    ensures n.conversation_id == Some(row.conversation_id)
    ensures n.color == ColorOf(row.role) && n.val == 3
    ensures RoleName(row.role) + ": " <= n.caption
    ensures |n.caption| <= |RoleName(row.role)| + 2 + MessagePreview + 3
  {
    GraphNode(
      row.id,
      RoleName(row.role) + ": " + Preview(row.content, MessagePreview) + "...",
      row.content,
      row.role,
      Some(row.conversation_id),
      ColorOf(row.role),
      3)
  }

  function ConvRootId(conversationId: string): string
  {
    "conv_root_" + conversationId
  }

  /** A conversation's synthetic root: labelled with the title, value 8. */
  function ConvRootNode(conversationId: string, title: string): (n: GraphNode)
    ensures n.id == ConvRootId(conversationId) && n.caption == title
    ensures n.role == ConversationRoot && n.conversation_id == Some(conversationId)
    ensures n.val == 8
  {
    GraphNode(
      ConvRootId(conversationId),
      title,
      "Root of conversation: \"" + title + "\"",
      ConversationRoot,
      Some(conversationId),
      ColorOf(ConversationRoot),
      8)
  }

  /** A conversation root's label: the start of the conversation's recorded
      first message, or a generic word when none was recorded. */
  function Title(firsts: map<string, ChatRow>, conversationId: string): (t: string)
    ensures conversationId !in firsts ==> t == "Conversation"
    ensures conversationId in firsts ==>
      && 3 <= |t| <= TitlePreview + 3
      && t[..|t| - 3] <= firsts[conversationId].content
      && t[|t| - 3..] == "..."
  {
    if conversationId in firsts then Preview(firsts[conversationId].content, TitlePreview) + "..."
    else "Conversation"
  }

  /** The label of a row's node is the role name, ": ", the first 30
      characters of the content (all of it when shorter) and "...". */
  lemma MessageNodeLabel(row: ChatRow)
    ensures var c, k := MessageNode(row).caption, |RoleName(row.role)| + 2;
      && |c| == k + (if |row.content| <= MessagePreview then |row.content| else MessagePreview) + 3
      && c[..k] == RoleName(row.role) + ": "
      && c[k..|c| - 3] <= row.content
      && c[|c| - 3..] == "..."
  {
  }

  /** A recorded first message titles its conversation with its first 50
      characters (all of it when shorter), followed by "...". */
  lemma TitleOfFirst(firsts: map<string, ChatRow>, conversationId: string)
    requires conversationId in firsts
    ensures var t, content := Title(firsts, conversationId), firsts[conversationId].content;
      && |t| == (if |content| <= TitlePreview then |content| else TitlePreview) + 3
      && t[..|t| - 3] <= content
      && t[|t| - 3..] == "..."
  {
  }

  function Init<T>(s: seq<T>): seq<T>
    requires s != []
  {
    s[..|s| - 1]
  }

  function Last<T>(s: seq<T>): T
    requires s != []
  {
    s[|s| - 1]
  }

  /** The row index: every row with an id, later rows overwriting earlier ones. */
  function Index(data: seq<ChatRow>): map<string, ChatRow>
    decreases |data|
  {
    if data == [] then map[]
    else
      var m := Index(Init(data));
      if Last(data).id != "" then m[Last(data).id := Last(data)] else m
  }

  /** The row starts a thread: it names no parent, or a parent that is not in the index. */
  predicate IsTopLevel(row: ChatRow, index: map<string, ChatRow>)
  {
    row.parent_id == "" || row.parent_id !in index
  }

  /** For every conversation, the first row (in input order) with an id and a
      conversation id that starts a thread. */
  function FirstMessages(data: seq<ChatRow>, index: map<string, ChatRow>): map<string, ChatRow>
    decreases |data|
  {
    if data == [] then map[]
    else
      var m := FirstMessages(Init(data), index);
      var row := Last(data);
      if row.id == "" || row.conversation_id == "" then m
      else if IsTopLevel(row, index) && row.conversation_id !in m then m[row.conversation_id := row]
      else m
  }

  /** One message node per row with an id, in input order. */
  function MessageNodes(data: seq<ChatRow>): seq<GraphNode>
    decreases |data|
  {
    if data == [] then []
    else MessageNodes(Init(data)) + if Last(data).id != "" then [MessageNode(Last(data))] else []
  }

  /** What the link pass has produced so far: the memo of conversation root
      ids, the root nodes created, and the links. */
  datatype LinkState = LinkState(roots: map<string, string>, rootNodes: seq<GraphNode>, links: seq<GraphLink>)

  /** The link pass on one row. */
  function LinkStep(st: LinkState, row: ChatRow, index: map<string, ChatRow>, firsts: map<string, ChatRow>): LinkState
  {
    if row.id == "" then st
    else if !IsTopLevel(row, index) then st.(links := st.links + [GraphLink(row.id, row.parent_id)])
    else if row.conversation_id in st.roots then
      st.(links := st.links + [GraphLink(row.id, st.roots[row.conversation_id])])
    else
      var rootId := ConvRootId(row.conversation_id);
      LinkState(
        st.roots[row.conversation_id := rootId],
        st.rootNodes + [ConvRootNode(row.conversation_id, Title(firsts, row.conversation_id))],
        st.links + [GraphLink(rootId, RootId), GraphLink(row.id, rootId)])
  }

  function LinkPass(data: seq<ChatRow>, index: map<string, ChatRow>, firsts: map<string, ChatRow>): LinkState
    decreases |data|
  {
    if data == [] then LinkState(map[], [], [])
    else LinkStep(LinkPass(Init(data), index, firsts), Last(data), index, firsts)
  }

  /** The graph `processChatData` builds. */
  function Build(data: seq<ChatRow>): Graph
  {
    var index := Index(data);
    var st := LinkPass(data, index, FirstMessages(data, index));
    Graph([CentralNode] + MessageNodes(data) + st.rootNodes, st.links)
  }

  /** The index pass: `messagesMap.set(row.id, row)` for every row with an id. */
  method IndexRows(data: seq<ChatRow>) returns (messagesMap: map<string, ChatRow>)
    ensures messagesMap == Index(data)
  {
    messagesMap := map[];
    for i := 0 to |data|
      invariant messagesMap == Index(data[..i])
    {
      assert data[..i + 1][..i] == data[..i];
      if data[i].id != "" {
        messagesMap := messagesMap[data[i].id := data[i]];
      }
    }
    assert data[..|data|] == data;
  }

  /** The first-message pass. */
  method FindFirstMessages(data: seq<ChatRow>, messagesMap: map<string, ChatRow>)
    returns (conversationFirstMessages: map<string, ChatRow>)
    ensures conversationFirstMessages == FirstMessages(data, messagesMap)
  {
    conversationFirstMessages := map[];
    for i := 0 to |data|
      invariant conversationFirstMessages == FirstMessages(data[..i], messagesMap)
    {
      assert data[..i + 1][..i] == data[..i];
      var row := data[i];
      if row.id == "" || row.conversation_id == "" {
        continue;
      }
      var isFirstInThread := row.parent_id == "" || row.parent_id !in messagesMap;
      if isFirstInThread && row.conversation_id !in conversationFirstMessages {
        conversationFirstMessages := conversationFirstMessages[row.conversation_id := row];
      }
    }
    assert data[..|data|] == data;
  }

  /** The node pass: the central node, then one message node per row with an id. */
  method CreateNodes(data: seq<ChatRow>) returns (nodes: seq<GraphNode>)
    ensures nodes == [CentralNode] + MessageNodes(data)
  {
    nodes := [CentralNode];
    for i := 0 to |data|
      invariant nodes == [CentralNode] + MessageNodes(data[..i])
    {
      assert data[..i + 1][..i] == data[..i];
      var row := data[i];
      if row.id == "" {
        continue;
      }
      nodes := nodes + [MessageNode(row)];
    }
    assert data[..|data|] == data;
  }

  /** The link pass: a link per row with an id, creating each conversation
      root (and its link to the central node) the first time it is needed. */
  method CreateLinks(
    data: seq<ChatRow>,
    messagesMap: map<string, ChatRow>,
    conversationFirstMessages: map<string, ChatRow>,
    nodes0: seq<GraphNode>)
    returns (nodes: seq<GraphNode>, links: seq<GraphLink>)
    ensures var st := LinkPass(data, messagesMap, conversationFirstMessages);
      nodes == nodes0 + st.rootNodes && links == st.links
  {
    nodes, links := nodes0, [];
    var conversationRoots: map<string, string> := map[];
    for i := 0 to |data|
      invariant var st := LinkPass(data[..i], messagesMap, conversationFirstMessages);
        && nodes == nodes0 + st.rootNodes
        && links == st.links
        && conversationRoots == st.roots
        && forall c :: c in conversationRoots ==> conversationRoots[c] == ConvRootId(c)
    {
      assert data[..i + 1][..i] == data[..i];
      var row := data[i];
      assert LinkPass(data[..i + 1], messagesMap, conversationFirstMessages)
        == LinkStep(LinkPass(data[..i], messagesMap, conversationFirstMessages), row, messagesMap, conversationFirstMessages);
      if row.id == "" {
        continue;
      }
      if row.parent_id != "" && row.parent_id in messagesMap {
        links := links + [GraphLink(row.id, row.parent_id)];
      } else {
        // a memoised id is never empty, so this tests whether the conversation has a root yet
        var convRootId := if row.conversation_id in conversationRoots then conversationRoots[row.conversation_id] else "";
        assert row.conversation_id in conversationRoots ==> |convRootId| >= |"conv_root_"|;
        if convRootId == "" {
          convRootId := ConvRootId(row.conversation_id);
          conversationRoots := conversationRoots[row.conversation_id := convRootId];
          var title :=
            if row.conversation_id in conversationFirstMessages
            then Preview(conversationFirstMessages[row.conversation_id].content, TitlePreview) + "..."
            else "Conversation";
          nodes := nodes + [ConvRootNode(row.conversation_id, title)];
          links := links + [GraphLink(convRootId, RootId)];
        }
        links := links + [GraphLink(row.id, convRootId)];
      }
    }
    assert data[..|data|] == data;
  }

  /** `processChatData`: the four passes in order. */
  method ProcessChatData(data: seq<ChatRow>) returns (g: Graph)
    ensures g == Build(data)
  {
    var messagesMap := IndexRows(data);
    var conversationFirstMessages := FindFirstMessages(data, messagesMap);
    var nodes := CreateNodes(data);
    var links;
    nodes, links := CreateLinks(data, messagesMap, conversationFirstMessages, nodes);
    g := Graph(nodes, links);
  }
}
