# Chat forest visualiser: a verified model of its core

The visualiser reads a CSV export of chat messages. Each row has an id, a
conversation id, a parent id, a role and the content. From the rows it builds
a forest:

- a central `ROOT` node;
- one node per message;
- one synthetic root per conversation that has a row whose parent is not in the data;
- a parent link from every node to the node above it.

Two summaries are offered for a clicked node:

- **thread summary**: walk from the node up to the top of its thread and render
  the user and assistant messages as `Role: content` lines;
- **conversation summary**: collect every user and assistant row of the
  node's conversation, sort them by id and render them the same way.

This project models that core in Dafny and proves what it does.

- `types.dfy` (`ChatTypes`): rows, nodes, links, roles, the colour table and
  the `substring` preview.
- `headers.dfy` (`Headers`): `findHeader`, with JavaScript `trim` on its white
  space set and ASCII `toLowerCase`.
- `rows.dfy` (`RowFilter`): the CSV completion handler. It maps headers to
  columns, reports missing columns, reads the records and drops invalid rows.
- `forest.dfy` (`Forest`): `processChatData`. Each pass is a loop (`IndexRows`,
  `FindFirstMessages`, `CreateNodes`, `CreateLinks`) proved equal to a
  row-by-row specification function. `Build` is the whole forest.
- `forest_props.dfy` (`ForestProperties`) and `forest_graph.dfy`
  (`ForestGraph`): what the built forest looks like.
- `thread.dfy` (`Thread`): the ancestor walk as the loop of the source, proved
  equal to the specification function `Chain`.
- `render.dfy` (`Render`): the thread text.
- `summaries.dfy` (`Replay`): the conversation replay.
- `scenarios.dfy` (`Scenarios`): worked cases, including the self-parent row
  listed under Findings.

Nothing in the code rules out a parent cycle, and the walk does not always
stop. The model follows the code: the walk `Thread.AncestorThread` is proved
to terminate, and to return the thread, from every node whose ancestors form
no cycle. A cycle-guarded walk is given beside it (see Findings).

## Model

| member | source | states |
|---|---|---|
| ChatTypes.ParseRole | types.ts:7 | The role read from a cell prints back as the same string. It is one of the listed roles exactly when the string is one of their names. |
| ChatTypes.ParseRoleName | types.ts:7 | Reading back a role's name gives the same role. |
| ChatTypes.ColorOf | App.tsx:12-19 | Every listed role gets a colour other than the grey default. Any other role gets the grey default, as `NODE_COLORS[row.role] \|\| '#6b7280'` at App.tsx:91 does. |
| ChatTypes.ColorsDistinct | App.tsx:12-19 | No two listed roles share a colour. |
| ChatTypes.Preview | App.tsx:108 | `substring(0, n)` gives a prefix of at most n characters: the whole string when it is short enough, exactly n characters otherwise. |
| Text.JoinAppend | App.tsx:239 | Joining two non-empty lists puts exactly one separator between their joins. |
| Text.Capitalize | App.tsx:238 | `charAt(0).toUpperCase() + slice(1)` changes only the first character, and only an ASCII lower-case letter. |
| Headers.TrimSpec | App.tsx:23 | `trim` removes a run of white space from each end, and the result neither starts nor ends with white space. |
| Headers.IndexOf | App.tsx:26 | `indexOf` is -1 exactly when the value is absent. Otherwise it is the position of the first occurrence. |
| Headers.FirstHitSpec | App.tsx:24-31 | Trying candidates in order finds nothing exactly when no candidate occurs. Otherwise it finds the first occurrence of the first candidate that occurs. |
| Headers.HeaderForFirstMatch | App.tsx:22-32 | `findHeader` fails exactly when no candidate matches any field, after lower-casing and trimming the fields and lower-casing the candidates. Otherwise it returns the first matching field for the first candidate that matches, in the field's original spelling. |
| Headers.FindHeader | App.tsx:22-32 | The loop over candidates, with its early return, computes `HeaderFor`. |
| RowFilter.MappingFor | App.tsx:147-153 | The header mapping tries the candidates of each of the five columns. Every header it finds is one of the CSV's header fields. |
| RowFilter.MissingColumns | App.tsx:155-157 | Each of the five columns is listed exactly when its header is undefined or empty. The list is empty exactly when all five are present. |
| RowFilter.ToChatRows | App.tsx:165-170 | One row per record, in order, each read through the header mapping. |
| RowFilter.IsValid | App.tsx:171 | The definition of the row filter's test (id, conversation id, role and content all non-empty), which the `ValidRows` and `LoadRows` rows describe. |
| RowFilter.ValidRows | App.tsx:171 | The rows kept are exactly those with a non-empty id, conversation id, role and content. |
| RowFilter.ValidRowsAppend | App.tsx:171 | The filter keeps the input order: filtering a concatenation concatenates the filtered parts. |
| RowFilter.ValidRowsIdempotent | App.tsx:171 | Filtering twice gives the same result as filtering once. |
| RowFilter.ErrorMessage | App.tsx:159-175 | The definition of the two error texts, the missing columns joined by ", " in the first; `LoadRows` states when each error arises. |
| RowFilter.LoadRows | App.tsx:145-177 | Missing headers are reported, naming those columns, exactly when a column has no header. Otherwise an empty filtered result is reported as no valid data. Success returns the filtered rows: non-empty, and every row valid. |
| Forest.MessageNode | App.tsx:85-93 | A row's node carries the row's id, content, role and conversation id, the role's colour and the value 3, and its label starts with the role name and ": ". |
| Forest.MessageNodeLabel | App.tsx:87 | The label is exactly the role name, ": ", the first 30 characters of the content (all of it when shorter) and "...". |
| Forest.ConvRootNode | App.tsx:102-118 | A conversation's root carries the id `conv_root_<conversation id>`, the title as its label, the conversation root role, the conversation id and the value 8. |
| Forest.Title | App.tsx:107-108 | A conversation without a recorded first message is titled "Conversation". Otherwise the title is a prefix of the first message's content, at most 50 characters, followed by "...". |
| Forest.TitleOfFirst | App.tsx:108 | A recorded first message gives the title of exactly its first 50 characters (all of it when shorter), followed by "...". |
| Forest.IsTopLevel | App.tsx:99 | The definition of a row that starts a thread (no parent id, or one not in the index; the same test appears at App.tsx:73), which the `FirstMessagesSpec` and `LinkPassRowLinks` rows describe. |
| Forest.IndexRows | App.tsx:53-54 | The index loop computes `Index`: each row with an id, a later row overwriting an earlier one. |
| Forest.FindFirstMessages | App.tsx:62-79 | The first-message loop computes `FirstMessages`. |
| Forest.CreateNodes | App.tsx:59-94 | The node loop yields the central node, then `MessageNodes`. |
| Forest.CreateLinks | App.tsx:96-123 | The link loop yields exactly the root nodes and links of `LinkPass`. Its memo equals the pass's memo of conversation root ids. |
| Forest.ProcessChatData | App.tsx:47-131 | The four passes in order build `Build(data)`. |
| ForestProperties.WithId | App.tsx:84 | The rows that become nodes are exactly the rows with an id. |
| ForestProperties.WithIdAppend | App.tsx:84 | The rows with an id keep their input order: taking them from a concatenation concatenates those taken from each part. |
| ForestProperties.LinkPassRoots | App.tsx:102-105 | The memo holds exactly the conversations of the id-carrying rows that start a thread. Each is mapped to `conv_root_<conversation id>`. |
| ForestProperties.LinkPassRootNodes | App.tsx:103-118 | There is one root node per memo entry, each for a different conversation and titled from the first-message map. |
| ForestProperties.LinkPassCount | App.tsx:97-123 | The number of links is the number of rows with an id plus the number of roots created. |
| ForestProperties.LinkPassSources | App.tsx:97-123 | The links' sources are, as a multiset, the ids of the rows with an id plus the ids of the roots. |
| ForestProperties.LinkPassTargets | App.tsx:99-121 | Every link target is an indexed row's id, a created root's id, or `ROOT`. |
| ForestProperties.LinkPassRowLinks | App.tsx:97-123 | Every row with an id is linked to its parent when the parent is indexed. Otherwise it is linked to its conversation's root. |
| ForestProperties.IndexSpec | App.tsx:54 | The index holds exactly the non-empty ids of the data. Each maps to the last row carrying that id. |
| ForestProperties.MessageNodesSpec | App.tsx:83-94 | Message node i is the node made from the i-th row with an id. |
| ForestProperties.FirstMessagesSpec | App.tsx:66-79 | Each recorded first message is the earliest thread-starting row of its conversation. Every conversation with a non-empty id that has such a row is recorded. |
| ForestProperties.LinkPassRootOrder | App.tsx:103-110 | Roots are created in the order in which their conversations first start a thread. |
| ForestGraph.GraphShape | App.tsx:56-123 | `ROOT` (value 30) comes first, then one node per row with an id in input order, then the roots. There are 1+m+r nodes and m+r links. |
| ForestGraph.ConversationRootsOnce | App.tsx:102-118 | The nodes after the message nodes are the roots: one per conversation that needs one, none twice, in creation order, each titled from the conversation's first message. |
| ForestGraph.OutDegree | App.tsx:97-123 | Every node but `ROOT` is a link source as often as it is a node, and nothing else is a source. |
| ForestGraph.CentralIdOnce | App.tsx:60 | When no row has id `ROOT`, only the central node has that id. |
| ForestGraph.NoLinkFromCentral | App.tsx:97-123 | When no row has id `ROOT`, no link leaves the central node. |
| ForestGraph.LinksLand | App.tsx:99-121 | Every link lands on a node of the graph. |
| ForestGraph.EveryRowLinked | App.tsx:97-123 | Each row with an id has its link to its parent or its root. Each root has its link to `ROOT`. |
| ForestGraph.TitleFromFirstMessage | App.tsx:107-108 | When every row has a conversation id, as the row filter ensures, no root is titled "Conversation". Each root's title is the first 50 characters of its conversation's first thread-starting row, followed by "...". |
| ForestGraph.TitleOfStarted | App.tsx:107-108 | A conversation that needs a root and has a non-empty id is titled from its first thread-starting row. |
| ForestGraph.DanglingParentLikeEmpty | App.tsx:73-101 | A parent id that names no row behaves exactly like an empty one: clearing all such parent ids builds the same forest. |
| Thread.NodesById | App.tsx:222 | The node map has exactly the nodes' ids as keys. Each maps to a node with that id. |
| Thread.NodesByIdLast | App.tsx:222 | As `new Map` does, a later node overwrites an earlier one: each id maps to the last node carrying it. |
| Thread.LinksBySource | App.tsx:223 | The link map has exactly the links' sources as keys. Each maps to the target of a link from that source. |
| Thread.LinksBySourceLast | App.tsx:223 | A later link overwrites an earlier one: each source maps to the target of the last link from it. |
| Thread.Step | App.tsx:227-231 | One step of the walk goes to the node named by the current node's link, only when the link is non-empty, names a known node, and that node is neither a conversation root nor the central node. |
| Thread.ChainIsThread | App.tsx:225-234 | The walk's result ends with the start node. Each node follows the link of the next one, and the walk stops at the first node. |
| Thread.ThreadUnique | App.tsx:225-234 | There is only one such thread from a node, so the walk's result is determined. |
| Thread.ThreadShape | App.tsx:225-234 | Adjacent thread nodes are joined by a link from the later to the earlier. No node before the start is a conversation root or the central node. |
| Thread.ChainRankIndependent | App.tsx:225-234 | The thread does not depend on which ranking shows the start node's ancestors acyclic. |
| Thread.AncestorThread | App.tsx:220-234 | The handler builds the two maps and walks them; the result is `Chain` whenever a ranking covers the start node and decreases along the links from every node it covers. |
| Thread.Walk | App.tsx:225-234 | The loop, with its three break conditions, computes `Chain` from any ranked start node. Only the links the walk follows need a rank, so a cycle elsewhere, or one through a synthetic root, does not matter. |
| Thread.GuardedChainShape | App.tsx:225-234 | The cycle-guarded walk always stops. It collects at most one node per known id plus the start, ends with the start, follows the links and never repeats an id. |
| Thread.GuardedChainAgrees | App.tsx:225-234 | From a ranked start node the guarded walk returns the same thread as the unguarded one. |
| Thread.GuardedAncestorThread | App.tsx:220-234 | The handler with a seen set computes `GuardedChain`. |
| Thread.GuardedWalk | App.tsx:225-234 | The loop with a seen set, over the two maps, computes `GuardedChain`. |
| Render.Line | App.tsx:238 | A user message renders as `User: content`, an assistant message as `Assistant: content`. |
| Render.Dialogue | App.tsx:237 | Exactly the user and assistant nodes are kept, in order. |
| Render.ThreadText | App.tsx:236-239 | The thread text is empty exactly when the thread has no user or assistant node. |
| Render.ThreadTextAppend | App.tsx:236-239 | The text of a split thread is the two texts joined by a blank line, or just one of them when the other is empty. |
| Render.ThreadTextSkips | App.tsx:237 | A system, tool or root node leaves no trace in the text. |
| Render.ThreadTextSingle | App.tsx:236-239 | A single dialogue node renders as its one line. |
| Replay.IdLeqTotal | App.tsx:253 | The id order is total. |
| Replay.IdLeqTrans | App.tsx:253 | The id order is transitive. |
| Replay.IdLeqAntisymmetric | App.tsx:253 | The id order is antisymmetric. |
| Replay.InsertSorted | App.tsx:253 | Insertion keeps a sequence sorted by id. |
| Replay.SortById | App.tsx:253 | The sort returns a permutation of its input, sorted by id. |
| Replay.Select | App.tsx:252 | The filter keeps each user or assistant row of the conversation exactly as often as it occurs, and nothing else. |
| Replay.Replayed | App.tsx:251-253 | The replayed rows are sorted by id and, as a multiset, are the selected rows. |
| Replay.ConversationText | App.tsx:246-257 | There is no text exactly when the node has no conversation id (absent or empty). The text is empty exactly when the conversation has no user or assistant row. |
| Replay.ReplaySelection | App.tsx:251-253 | The replay is a sorted permutation of the conversation's user and assistant rows. |
| Replay.ReplayOrderFree | App.tsx:251-253 | When ids identify rows, the replay does not depend on the order of the rows in the data. |
| Replay.SortedUnique | App.tsx:253 | Two sorted permutations of rows whose ids identify them are equal. |
| Replay.ReplayRendersLikeThread | App.tsx:255-257 | The replay renders user and assistant rows exactly as the thread text renders their nodes. |
| Scenarios.TwoMessageForest | App.tsx:53-123 | A greeting and its reply build `ROOT`, two message nodes and one root titled "Hi...", with the three expected links. |
| Scenarios.TwoMessageThread | App.tsx:225-234 | The walk from the reply returns the greeting, then the reply. |
| Scenarios.CycleElsewhere | App.tsx:222-234 | Adding a self-linked row of another conversation to the two-message graph leaves the walk from the reply ranked and returning the same two nodes. |
| Scenarios.TwoMessageText | App.tsx:236-239 | That thread renders as `User: Hi`, a blank line, `Assistant: Hello!`. |
| Scenarios.EmptyForest | App.tsx:60 | An empty input builds the central node alone. |
| Scenarios.GenericTitle | App.tsx:108 | A row without a conversation id gets a root titled "Conversation". |
| Scenarios.SelfParentGraph | App.tsx:97-100 | A row whose parent id is its own id is linked to itself. |
| Scenarios.SelfParentCycle | App.tsx:225-234 | The walk from that row steps back to the row itself, and no ranking covers it. |
| Scenarios.RootRoleCycle | App.tsx:228-231 | A link cycle through a node whose role is a synthetic root does not trap the walk: it stops before that node, and ranking the start alone suffices. |
| Scenarios.SelfParentGuarded | App.tsx:225-234 | The guarded walk from that row stops at once. |

## Left out

- React state, loading messages, `try`/`catch` and `finally` (App.tsx:48-50, 125-130): the model returns values instead. `setError` becomes a `LoadError` result, and `RowFilter.ErrorMessage` gives its text.
- `Papa.parse` and its error callback (App.tsx:140-143, 181-184): the parsed header fields and records are parameters. An undefined cell is read as the empty string, since both are falsy in every use.
- The summariser call `getConversationSummary` (services/geminiService.ts): it is network I/O. The model ends at the text handed to it.
- The `graphData` null guard (App.tsx:216): the graph is a parameter of the walk.
- The React components and the other UI handlers (App.tsx:133-139, 188-213, 264 onwards), and `convert_json_to_csv.py`: these are presentation code or an offline tool.
- Headers.Lower: `toLowerCase` is modelled on ASCII letters only. Unicode case mapping is not modelled.
- Text.Capitalize: `toUpperCase` is modelled on ASCII letters only. Unicode case mapping is not modelled. The roles rendered, `user` and `assistant`, are ASCII, so the rendered text is exact.
- ChatTypes.Preview: `substring` counts UTF-16 code units; the model counts characters.
- Replay.SortById: `localeCompare` is modelled as character-by-character lexicographic order. Locale collation is not modelled.
- Replay.SortById: the sort is stable by construction, but no lemma states stability. `Replay.ReplayOrderFree` covers the case where ids identify rows.
- ChatTypes.ColorOf: `NODE_COLORS[row.role]` also finds inherited object properties. For example, a role named `constructor` gets a function rather than the grey default. The model gives every unlisted role the grey default.
- Thread.AncestorThread: termination and the result are proved only for a start node whose ancestors a ranking covers (the `Ranked` precondition). A walk that enters a cycle never stops; see Findings.
- The central node is the constant `Forest.CentralNode`, not a function, so it has no row of its own. `ForestGraph.GraphShape`, `ForestGraph.CentralIdOnce` and `Scenarios.EmptyForest` state its place and fields.
- ForestGraph.NoLinkFromCentral: requires that no row has the id `ROOT`. The code does not prevent such a row, and its link would leave the central node's id.
- The graph library replaces link endpoints with node objects once the graph is on screen: components/GraphVisualizer.tsx:44 reads `link.source.id`. After that, App.tsx:223 keys the link map by node objects. `linksMap.get(currentNode.id)` at App.tsx:227 then finds nothing, and the walk returns the start node alone. The model treats links as pairs of ids throughout, that is, the graph as `processChatData` returns it, before the library has touched it. The result after the replacement is not modelled.

## Findings

| source | as written | input that shows it | evidently intended | confidence | as-written member | corrected member |
|---|---|---|---|---|---|---|
| App.tsx:97-100, App.tsx:225-234 | A row whose parent id is its own id passes the `messagesMap.has` test and is linked to itself. While the links still hold ids, the walk then steps from that node to itself forever, because no break condition fires. The same holds for any longer parent cycle whose nodes all have message roles; a cycle through a row whose role cell is `conversation_root` or `central_root` stops there (`Scenarios.RootRoleCycle`). Once the graph library has replaced link endpoints with node objects, the walk stops at the start node instead (see Left out). | the single row `id=a, conversation_id=c, parent_id=a, role=user, content=x`; then request the thread summary of its node | the walk stops, returning each node of the thread once | not executed | Scenarios.SelfParentCycle | Thread.GuardedAncestorThread |

The corrected walk also stops when the next node was already collected.
`Thread.GuardedChainShape` proves that it always terminates, never repeats a
node and returns at most one node per id. `Thread.GuardedChainAgrees` proves
that it returns the same thread as the original walk whenever the links are
acyclic. `Scenarios.SelfParentGuarded` shows it on the row above.
