/** The conversation replay behind the conversation summary: the user and
    assistant rows of one conversation, ordered by id, rendered as text. */
module Replay {
  import opened ChatTypes
  import opened Text
  import opened Forest
  import opened Render

  /** The order the rows are sorted in: lexicographic order of the ids,
      character by character, a prefix before its extensions. */
  predicate IdLeq(a: string, b: string)
    decreases |a|
  {
    a == [] || (b != [] && (a[0] < b[0] || (a[0] == b[0] && IdLeq(a[1..], b[1..]))))
  }

  lemma {:induction false} IdLeqTotal(a: string, b: string)
    ensures IdLeq(a, b) || IdLeq(b, a)
    decreases |a|
  {
    if a != [] && b != [] && a[0] == b[0] {
      IdLeqTotal(a[1..], b[1..]);
    }
  }

  lemma {:induction false} IdLeqTrans(a: string, b: string, c: string)
    requires IdLeq(a, b) && IdLeq(b, c)
    ensures IdLeq(a, c)
    decreases |a|
  {
    if a != [] && a[0] == b[0] && b[0] == c[0] {
      IdLeqTrans(a[1..], b[1..], c[1..]);
    }
  }

  lemma {:induction false} IdLeqAntisymmetric(a: string, b: string)
    requires IdLeq(a, b) && IdLeq(b, a)
    ensures a == b
    decreases |a|
  {
    if a != [] {
      IdLeqAntisymmetric(a[1..], b[1..]);
      assert a == [a[0]] + a[1..] && b == [b[0]] + b[1..];
    }
  }

  /** The rows are in non-decreasing order of id. */
  predicate SortedById(rows: seq<ChatRow>)
  {
    forall i, j :: 0 <= i < j < |rows| ==> IdLeq(rows[i].id, rows[j].id)
  }

  /** Inserts `row` after every row whose id is not greater than its own. */
  function Insert(row: ChatRow, sorted: seq<ChatRow>): (r: seq<ChatRow>)
    ensures multiset(r) == multiset(sorted) + multiset{row}
    decreases |sorted|
  {
    if sorted == [] then [row]
    else if IdLeq(row.id, sorted[0].id) && row.id != sorted[0].id then [row] + sorted
    else
      assert sorted == [sorted[0]] + sorted[1..];
      [sorted[0]] + Insert(row, sorted[1..])
  }

  lemma {:induction false} InsertSorted(row: ChatRow, sorted: seq<ChatRow>)
    requires SortedById(sorted)
    ensures SortedById(Insert(row, sorted))
    decreases |sorted|
  {
    if sorted == [] {
    } else if IdLeq(row.id, sorted[0].id) && row.id != sorted[0].id {
      forall j | 0 < j < |sorted| ensures IdLeq(row.id, sorted[j].id) {
        IdLeqTrans(row.id, sorted[0].id, sorted[j].id);
      }
    } else {
      InsertSorted(row, sorted[1..]);
      IdLeqTotal(row.id, sorted[0].id);
      HeadBelowInsert(row, sorted);
      ConsSorted(sorted[0], Insert(row, sorted[1..]));
    }
  }

  /** When the row goes after the head, the head stays below everything inserted after it. */
  lemma HeadBelowInsert(row: ChatRow, sorted: seq<ChatRow>)
    requires sorted != [] && SortedById(sorted) && IdLeq(sorted[0].id, row.id)
    ensures forall k :: 0 <= k < |Insert(row, sorted[1..])| ==> IdLeq(sorted[0].id, Insert(row, sorted[1..])[k].id)
  {
    var rest := Insert(row, sorted[1..]);
    forall k | 0 <= k < |rest| ensures IdLeq(sorted[0].id, rest[k].id) {
      assert rest[k] in multiset(sorted[1..]) + multiset{row};
      if rest[k] != row {
        assert rest[k] in sorted[1..];
      }
    }
  }

  lemma ConsSorted(head: ChatRow, rest: seq<ChatRow>)
    requires SortedById(rest)
    requires forall k :: 0 <= k < |rest| ==> IdLeq(head.id, rest[k].id)
    ensures SortedById([head] + rest)
  {
    var r := [head] + rest;
    forall i, j | 0 <= i < j < |r| ensures IdLeq(r[i].id, r[j].id) {
      if i > 0 {
        assert r[i] == rest[i - 1] && r[j] == rest[j - 1];
      }
    }
  }

  /** `sort((a, b) => a.id.localeCompare(b.id))`, as a stable insertion sort. */
  function SortById(rows: seq<ChatRow>): (r: seq<ChatRow>)
    ensures multiset(r) == multiset(rows)
    ensures SortedById(r)
    decreases |rows|
  {
    if rows == [] then []
    else
      var init := rows[..|rows| - 1];
      assert rows == init + [rows[|rows| - 1]];
      InsertSorted(rows[|rows| - 1], SortById(init));
      Insert(rows[|rows| - 1], SortById(init))
  }

  /** A row of the conversation that the replay renders. */
  predicate Selected(row: ChatRow, conversationId: string)
  {
    row.conversation_id == conversationId && IsDialogue(row.role)
  }

  /** `filter(row => row.conversation_id === id && (role is user or assistant))`. */
  function Select(rows: seq<ChatRow>, conversationId: string): (r: seq<ChatRow>)
    ensures forall row :: multiset(r)[row] == if Selected(row, conversationId) then multiset(rows)[row] else 0
    decreases |rows|
  {
    if rows == [] then []
    else
      var init, last := rows[..|rows| - 1], rows[|rows| - 1];
      assert rows == init + [last];
      Select(init, conversationId) + if Selected(last, conversationId) then [last] else []
  }

  function RowLines(rows: seq<ChatRow>): (r: seq<string>)
    ensures |r| == |rows|
    ensures forall i :: 0 <= i < |rows| ==> r[i] == Line(rows[i].role, rows[i].content)
  {
    seq(|rows|, i requires 0 <= i < |rows| => Line(rows[i].role, rows[i].content))
  }

  /** The conversation's rows as replayed: selected, then sorted. */
  function Replayed(allRows: seq<ChatRow>, conversationId: string): (r: seq<ChatRow>)
    ensures SortedById(r)
    ensures multiset(r) == multiset(Select(allRows, conversationId))
  {
    SortById(Select(allRows, conversationId))
  }

  /** `handleRequestConversationSummary`'s text: nothing when the node has no
      conversation id (an absent or empty one), otherwise the replayed rows
      of its conversation, one line each, separated by blank lines. */
  function ConversationText(allRows: seq<ChatRow>, conversationNode: GraphNode): (r: Option<string>)
    ensures r.None? <==> conversationNode.conversation_id.None? || conversationNode.conversation_id.value == ""
    ensures r.Some? ==> (r.value == "" <==> Replayed(allRows, conversationNode.conversation_id.value) == [])
  {
    var conversationId := conversationNode.conversation_id;
    if conversationId.None? || conversationId.value == "" then None
    else
      var lines := RowLines(Replayed(allRows, conversationId.value));
      JoinEmpty(lines, Separator);
      Some(Join(lines, Separator))
  }

  /** The replay is exactly the selected rows, each as often as in the
      data, in non-decreasing order of id. */
  lemma ReplaySelection(allRows: seq<ChatRow>, conversationId: string)
    ensures var s := Replayed(allRows, conversationId);
      && SortedById(s)
      && (forall row :: row in s <==> row in allRows && Selected(row, conversationId))
      && (forall row :: multiset(s)[row] == if Selected(row, conversationId) then multiset(allRows)[row] else 0)
  {
    var s := Replayed(allRows, conversationId);
    forall row ensures row in s <==> row in allRows && Selected(row, conversationId) {
      assert row in s <==> multiset(s)[row] > 0;
      assert row in allRows <==> multiset(allRows)[row] > 0;
    }
  }

  /** Ids identify rows: two rows with the same id are the same row. */
  predicate IdsIdentify(rows: seq<ChatRow>)
  {
    forall i, j :: 0 <= i < |rows| && 0 <= j < |rows| && rows[i].id == rows[j].id ==> rows[i] == rows[j]
  }

  /** When ids identify rows, the replay does not depend on the order of the
      rows in the data. */
  lemma ReplayOrderFree(xs: seq<ChatRow>, ys: seq<ChatRow>, conversationId: string)
    requires multiset(xs) == multiset(ys)
    requires IdsIdentify(xs)
    ensures Replayed(xs, conversationId) == Replayed(ys, conversationId)
  {
    var s, t := Replayed(xs, conversationId), Replayed(ys, conversationId);
    SelectSameRows(xs, ys, conversationId);
    ReplayIdsIdentify(xs, conversationId);
    SortedUnique(s, t);
  }

  lemma SelectSameRows(xs: seq<ChatRow>, ys: seq<ChatRow>, conversationId: string)
    requires multiset(xs) == multiset(ys)
    ensures multiset(Select(xs, conversationId)) == multiset(Select(ys, conversationId))
  {
    var a, b := multiset(Select(xs, conversationId)), multiset(Select(ys, conversationId));
    forall row ensures a[row] == b[row] {
    }
  }

  lemma ReplayIdsIdentify(xs: seq<ChatRow>, conversationId: string)
    requires IdsIdentify(xs)
    ensures IdsIdentify(Replayed(xs, conversationId))
  {
    var s := Replayed(xs, conversationId);
    forall i, j | 0 <= i < |s| && 0 <= j < |s| && s[i].id == s[j].id ensures s[i] == s[j] {
      assert s[i] in multiset(s) && s[j] in multiset(s);
      assert multiset(s)[s[i]] <= multiset(xs)[s[i]] && multiset(s)[s[j]] <= multiset(xs)[s[j]];
      assert s[i] in xs && s[j] in xs;
    }
  }

  /** Two sorted sequences with the same elements, whose ids identify them, are equal. */
  lemma {:induction false} SortedUnique(s: seq<ChatRow>, t: seq<ChatRow>)
    requires SortedById(s) && SortedById(t) && multiset(s) == multiset(t)
    requires IdsIdentify(s)
    ensures s == t
    decreases |s|
  {
    assert |s| == |multiset(s)| == |multiset(t)| == |t|;
    if s != [] {
      SortedHeadsEqual(s, t);
      TailsAgree(s, t);
      SortedUnique(s[1..], t[1..]);
      assert s == [s[0]] + s[1..] && t == [t[0]] + t[1..];
    }
  }

  lemma SortedHeadsEqual(s: seq<ChatRow>, t: seq<ChatRow>)
    requires SortedById(s) && SortedById(t) && multiset(s) == multiset(t)
    requires IdsIdentify(s)
    requires s != [] && t != []
    ensures s[0] == t[0]
  {
    assert s[0] in multiset(t) && t[0] in multiset(s);
    var i :| 0 <= i < |t| && t[i] == s[0];
    var j :| 0 <= j < |s| && s[j] == t[0];
    IdLeqRefl(s[0].id);
    IdLeqRefl(t[0].id);
    assert IdLeq(s[0].id, s[j].id);
    assert IdLeq(t[0].id, t[i].id);
    IdLeqAntisymmetric(s[0].id, t[0].id);
  }

  /** What holds of two sequences with equal heads holds of their tails. */
  lemma TailsAgree(s: seq<ChatRow>, t: seq<ChatRow>)
    requires SortedById(s) && SortedById(t) && multiset(s) == multiset(t)
    requires IdsIdentify(s)
    requires s != [] && t != [] && s[0] == t[0]
    ensures SortedById(s[1..]) && SortedById(t[1..]) && multiset(s[1..]) == multiset(t[1..])
    ensures IdsIdentify(s[1..])
  {
    TailFacts(s);
    TailFacts(t);
  }

  lemma TailFacts(s: seq<ChatRow>)
    requires s != []
    ensures SortedById(s) ==> SortedById(s[1..])
    ensures IdsIdentify(s) ==> IdsIdentify(s[1..])
    ensures multiset(s[1..]) == multiset(s) - multiset{s[0]}
  {
    assert s == [s[0]] + s[1..];
  }

  lemma {:induction false} IdLeqRefl(a: string)
    ensures IdLeq(a, a)
    decreases |a|
  {
    if a != [] {
      IdLeqRefl(a[1..]);
    }
  }

  /** Rendering the replayed rows gives the same text as rendering their
      message nodes: the two summary modes format messages alike. */
  lemma ReplayRendersLikeThread(rows: seq<ChatRow>)
    requires forall i :: 0 <= i < |rows| ==> IsDialogue(rows[i].role)
    ensures Join(RowLines(rows), Separator) == ThreadText(seq(|rows|, i requires 0 <= i < |rows| => MessageNode(rows[i])))
  {
    var nodes := seq(|rows|, i requires 0 <= i < |rows| => MessageNode(rows[i]));
    DialogueAll(nodes);
    assert Lines(nodes) == RowLines(rows);
  }

  /** Filtering dialogue out of dialogue keeps everything. */
  lemma {:induction false} DialogueAll(nodes: seq<GraphNode>)
    requires forall i :: 0 <= i < |nodes| ==> IsDialogue(nodes[i].role)
    ensures Dialogue(nodes) == nodes
    decreases |nodes|
  {
    if nodes != [] {
      var init, last := nodes[..|nodes| - 1], nodes[|nodes| - 1];
      assert IsDialogue(last.role);
      DialogueAll(init);
      assert nodes == init + [last];
    }
  }
}
