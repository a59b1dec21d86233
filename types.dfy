/** The data of the visualiser: chat rows as they come out of the CSV
    export, and the graph (nodes and parent links) built from them. */
module ChatTypes {

  datatype Option<+T> = None | Some(value: T)

  datatype Result<+T, +E> = Success(value: T) | Failure(error: E)

  /** A message role. The CSV column is never checked against the
      enumeration, so any other string is kept as `Other`. */
  datatype Role =
    | User
    | Assistant
    | System
    | Tool
    | ConversationRoot
    | CentralRoot
    | Other(name: string)

  /** The role as the string the program compares and prints. */
  function RoleName(role: Role): string
  {
    match role
    case User => "user"
    case Assistant => "assistant"
    case System => "system"
    case Tool => "tool"
    case ConversationRoot => "conversation_root"
    case CentralRoot => "central_root"
    case Other(name) => name
  }

  /** Reads a role cell: the six known names become their tags, anything else stays a string. */
  function ParseRole(s: string): (r: Role)
    ensures RoleName(r) == s
    ensures r.Other? <==> s !in {"user", "assistant", "system", "tool", "conversation_root", "central_root"}
  {
    if s == "user" then User
    else if s == "assistant" then Assistant
    else if s == "system" then System
    else if s == "tool" then Tool
    else if s == "conversation_root" then ConversationRoot
    else if s == "central_root" then CentralRoot
    else Other(s)
  }

  /** A role is canonical when it is a tag, or an `Other` whose name is not one of the tags' names. */
  predicate Canonical(role: Role)
  {
    role.Other? ==> role.name !in {"user", "assistant", "system", "tool", "conversation_root", "central_root"}
  }

  lemma ParseRoleName(role: Role)
    requires Canonical(role)
    ensures ParseRole(RoleName(role)) == role
  {
    match role
    case Other(name) =>
    case _ =>
  }

  /** One exported message. A missing cell is the empty string. */
  datatype ChatRow = ChatRow(
    id: string,
    conversation_id: string,
    parent_id: string,
    role: Role,
    content: string)

  /** A graph vertex. `conversation_id` is absent on the central node. */
  datatype GraphNode = GraphNode(
    id: string,
    caption: string,  // the display label
    content: string,
    role: Role,
    conversation_id: Option<string>,
    color: string,
    val: int)

  /** A parent link from `source` (the child) to `target` (its parent). */
  datatype GraphLink = GraphLink(source: string, target: string)

  datatype Graph = Graph(nodes: seq<GraphNode>, links: seq<GraphLink>)

  const RootId: string := "ROOT"
  const DefaultColor: string := "#6b7280"

  /** The colour table, keyed by role name, with the grey default. */
  function ColorOf(role: Role): (c: string)
    ensures role.Other? ==> c == DefaultColor
    ensures !role.Other? ==> c != DefaultColor
  {
    match role
    case User => "#3b82f6"
    case Assistant => "#10b981"
    case System => "#64748b"
    case Tool => "#a855f7"
    case ConversationRoot => "#f97316"
    case CentralRoot => "#d946ef"
    case Other(_) => DefaultColor
  }

  /** No two listed roles share a colour. */
  lemma ColorsDistinct(r1: Role, r2: Role)
    requires !r1.Other? && !r2.Other? && r1 != r2
    ensures ColorOf(r1) != ColorOf(r2)
  {
  }

  /** The first `n` characters of `s` (all of it when shorter), as `substring(0, n)` gives. */
  function Preview(s: string, n: nat): (r: string)
    ensures |r| <= n && |r| <= |s|
    ensures |s| <= n ==> r == s
    ensures |s| > n ==> |r| == n
    ensures r <= s
  {
    if |s| <= n then s else s[..n]
  }

  function Ids(nodes: seq<GraphNode>): (ids: seq<string>)
    ensures |ids| == |nodes|
    ensures forall i :: 0 <= i < |nodes| ==> ids[i] == nodes[i].id
  {
    seq(|nodes|, i requires 0 <= i < |nodes| => nodes[i].id)
  }

  function Sources(links: seq<GraphLink>): (srcs: seq<string>)
    ensures |srcs| == |links|
    ensures forall i :: 0 <= i < |links| ==> srcs[i] == links[i].source
  {
    seq(|links|, i requires 0 <= i < |links| => links[i].source)
  }
}
