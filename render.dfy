/** The text handed to the summariser: the user and assistant messages of a
    thread, one `Role: content` line each, separated by blank lines. */
module Render {
  import opened ChatTypes
  import opened Text

  const Separator: string := "\n\n"

  /** Only user and assistant messages are rendered. */
  predicate IsDialogue(role: Role)
  {
    role == User || role == Assistant
  }

  /** `${role.charAt(0).toUpperCase() + role.slice(1)}: ${content}` */
  function Line(role: Role, content: string): (r: string)
    ensures role == User ==> r == "User: " + content
    ensures role == Assistant ==> r == "Assistant: " + content
    ensures |r| == |RoleName(role)| + 2 + |content|
  {
    Capitalize(RoleName(role)) + ": " + content
  }

  /** The dialogue nodes, in thread order. */
  function Dialogue(nodes: seq<GraphNode>): (r: seq<GraphNode>)
    ensures forall n :: n in r <==> n in nodes && IsDialogue(n.role)
    ensures |r| <= |nodes|
    decreases |nodes|
  {
    if nodes == [] then []
    else
      var init, last := nodes[..|nodes| - 1], nodes[|nodes| - 1];
      assert forall n :: n in nodes <==> n in init || n == last;
      Dialogue(init) + if IsDialogue(last.role) then [last] else []
  }

  /** One line per node. */
  function Lines(nodes: seq<GraphNode>): (r: seq<string>)
    ensures |r| == |nodes|
    ensures forall i :: 0 <= i < |nodes| ==> r[i] == Line(nodes[i].role, nodes[i].content)
  {
    seq(|nodes|, i requires 0 <= i < |nodes| => Line(nodes[i].role, nodes[i].content))
  }

  /** The thread text of a walk's result. */
  function ThreadText(thread: seq<GraphNode>): (r: string)
    ensures r == "" <==> Dialogue(thread) == []
  {
    LinesNonEmpty(Dialogue(thread));
    JoinEmpty(Lines(Dialogue(thread)), Separator);
    Join(Lines(Dialogue(thread)), Separator)
  }

  /** Filtering a concatenation concatenates the filtered parts. */
  lemma {:induction false} DialogueAppend(a: seq<GraphNode>, b: seq<GraphNode>)
    ensures Dialogue(a + b) == Dialogue(a) + Dialogue(b)
    decreases |b|
  {
    if b == [] {
      assert a + b == a;
    } else {
      var b', last := b[..|b| - 1], b[|b| - 1];
      assert (a + b)[..|a + b| - 1] == a + b' && (a + b)[|a + b| - 1] == last;
      DialogueAppend(a, b');
      assert Dialogue(b) == Dialogue(b') + if IsDialogue(last.role) then [last] else [];
    }
  }

  /** Joining lines none of which is empty gives the empty text exactly when there are no lines. */
  lemma {:induction false} JoinEmpty(parts: seq<string>, sep: string)
    requires forall i :: 0 <= i < |parts| ==> parts[i] != ""
    ensures Join(parts, sep) == "" <==> parts == []
    decreases |parts|
  {
    if |parts| > 1 {
      JoinEmpty(parts[..|parts| - 1], sep);
    }
  }

  lemma LinesAppend(a: seq<GraphNode>, b: seq<GraphNode>)
    ensures Lines(a + b) == Lines(a) + Lines(b)
  {
  }

  /** No line is empty. */
  lemma LinesNonEmpty(nodes: seq<GraphNode>)
    ensures forall i :: 0 <= i < |Lines(nodes)| ==> Lines(nodes)[i] != ""
  {
  }

  /** Joining with the separator: the join of two lists of non-empty lines
      is the two joins with one separator between them (or just one of them
      when the other list is empty). */
  lemma JoinLinesAppend(la: seq<string>, lb: seq<string>)
    requires forall i :: 0 <= i < |la| ==> la[i] != ""
    requires forall i :: 0 <= i < |lb| ==> lb[i] != ""
    ensures var x, y := Join(la, Separator), Join(lb, Separator);
      Join(la + lb, Separator) == if x == "" then y else if y == "" then x else x + Separator + y
  {
    JoinEmpty(la, Separator);
    JoinEmpty(lb, Separator);
    if la == [] {
      assert la + lb == lb;
    } else if lb == [] {
      assert la + lb == la;
    } else {
      JoinAppend(la, lb, Separator);
    }
  }

  /** The text of a thread split in two is the texts of the two parts with
      one blank line between them (or just one of them when the other is empty). */
  lemma ThreadTextAppend(a: seq<GraphNode>, b: seq<GraphNode>)
    ensures var x, y := ThreadText(a), ThreadText(b);
      ThreadText(a + b) == if x == "" then y else if y == "" then x else x + Separator + y
  {
    DialogueAppend(a, b);
    LinesAppend(Dialogue(a), Dialogue(b));
    LinesNonEmpty(Dialogue(a));
    LinesNonEmpty(Dialogue(b));
    JoinLinesAppend(Lines(Dialogue(a)), Lines(Dialogue(b)));
  }

  /** Messages that are neither user nor assistant leave no trace in the text. */
  lemma ThreadTextSkips(a: seq<GraphNode>, n: GraphNode, b: seq<GraphNode>)
    requires !IsDialogue(n.role)
    ensures ThreadText(a + [n] + b) == ThreadText(a + b)
  {
    DialogueSkips(a, n, b);
  }

  lemma DialogueSkips(a: seq<GraphNode>, n: GraphNode, b: seq<GraphNode>)
    requires !IsDialogue(n.role)
    ensures Dialogue(a + [n] + b) == Dialogue(a + b)
  {
    DialogueOne(n);
    DialogueAppend(a + [n], b);
    DialogueAppend(a, [n]);
    DialogueAppend(a, b);
  }

  lemma DialogueOne(n: GraphNode)
    ensures Dialogue([n]) == if IsDialogue(n.role) then [n] else []
  {
    assert [n][..0] == [];
  }

  /** A single dialogue message renders as its one line. */
  lemma ThreadTextSingle(n: GraphNode)
    requires IsDialogue(n.role)
    ensures ThreadText([n]) == Line(n.role, n.content)
  {
    DialogueOne(n);
  }
}
