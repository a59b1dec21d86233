/** From the parsed CSV records to the rows the graph builder accepts:
    locate the five columns, read every record through them, and drop the
    rows that lack a required value. */
module RowFilter {
  import opened ChatTypes
  import opened Text
  import opened Headers

  /** One parsed CSV record: header field to cell. An absent key is an undefined cell. */
  type Record = map<string, string>

  /** The header field found for each of the five columns. */
  datatype HeaderMapping = HeaderMapping(
    id: Option<string>,
    conversation_id: Option<string>,
    parent_id: Option<string>,
    role: Option<string>,
    content: Option<string>)

  /** The candidates tried for each column. */
  function MappingFor(fields: seq<string>): (m: HeaderMapping)
    ensures m.id.Some? ==> m.id.value in fields
    ensures m.conversation_id.Some? ==> m.conversation_id.value in fields
    ensures m.parent_id.Some? ==> m.parent_id.value in fields
    ensures m.role.Some? ==> m.role.value in fields
    ensures m.content.Some? ==> m.content.value in fields
  {
    HeaderMapping(
      HeaderFor(fields, ["id"]),
      HeaderFor(fields, ["conversation_id", "conversation id"]),
      HeaderFor(fields, ["parent_id", "parent id"]),
      HeaderFor(fields, ["role"]),
      HeaderFor(fields, ["content"]))
  }

  /** A header counts as missing when it is undefined or empty (falsy). */
  predicate Absent(h: Option<string>)
  {
    h.None? || h.value == ""
  }

  function Column(name: string, h: Option<string>): seq<string>
  {
    if Absent(h) then [name] else []
  }

  /** The names of the missing columns, in the order the mapping lists them. */
  function MissingColumns(m: HeaderMapping): (r: seq<string>)
    ensures r == [] <==>
      !Absent(m.id) && !Absent(m.conversation_id) && !Absent(m.parent_id) && !Absent(m.role) && !Absent(m.content)
    ensures ("id" in r <==> Absent(m.id)) && ("conversation_id" in r <==> Absent(m.conversation_id))
    ensures ("parent_id" in r <==> Absent(m.parent_id)) && ("role" in r <==> Absent(m.role))
    ensures "content" in r <==> Absent(m.content)
    ensures |r| <= 5
  {
    Column("id", m.id) + Column("conversation_id", m.conversation_id) + Column("parent_id", m.parent_id)
      + Column("role", m.role) + Column("content", m.content)
  }

  /** A cell read through a header; an undefined cell reads as the empty string. */
  function Cell(rec: Record, header: string): string
  {
    if header in rec then rec[header] else ""
  }

  function ToChatRow(rec: Record, m: HeaderMapping): ChatRow
    requires MissingColumns(m) == []
  {
    ChatRow(
      Cell(rec, m.id.value),
      Cell(rec, m.conversation_id.value),
      Cell(rec, m.parent_id.value),
      ParseRole(Cell(rec, m.role.value)),
      Cell(rec, m.content.value))
  }

  function ToChatRows(data: seq<Record>, m: HeaderMapping): (rows: seq<ChatRow>)
    requires MissingColumns(m) == []
    ensures |rows| == |data|
    ensures forall i :: 0 <= i < |data| ==> rows[i] == ToChatRow(data[i], m)
  {
    seq(|data|, i requires 0 <= i < |data| => ToChatRow(data[i], m))
  }

  /** The row filter: id, conversation id, role and content must all be non-empty. */
  predicate IsValid(row: ChatRow)
  {
    row.id != "" && row.conversation_id != "" && RoleName(row.role) != "" && row.content != ""
  }

  /** `filter(IsValid)`. */
  function ValidRows(rows: seq<ChatRow>): (r: seq<ChatRow>)
    ensures forall row :: row in r <==> row in rows && IsValid(row)
    ensures |r| <= |rows|
  {
    if rows == [] then []
    else
      var rest := ValidRows(rows[..|rows| - 1]);
      var last := rows[|rows| - 1];
      assert forall row :: row in rows <==> row in rows[..|rows| - 1] || row == last;
      if IsValid(last) then rest + [last] else rest
  }

  /** The filter keeps the relative order of the rows it keeps: filtering a
      concatenation is concatenating the filtered parts. */
  lemma {:induction false} ValidRowsAppend(xs: seq<ChatRow>, ys: seq<ChatRow>)
    ensures ValidRows(xs + ys) == ValidRows(xs) + ValidRows(ys)
    decreases |ys|
  {
    if ys != [] {
      var ys' := ys[..|ys| - 1];
      assert (xs + ys)[..|xs + ys| - 1] == xs + ys';
      ValidRowsAppend(xs, ys');
    } else {
      assert xs + ys == xs;
    }
  }

  /** Filtering twice keeps what filtering once kept. */
  lemma {:induction false} ValidRowsIdempotent(rows: seq<ChatRow>)
    ensures ValidRows(ValidRows(rows)) == ValidRows(rows)
    decreases |rows|
  {
    if rows != [] {
      var init := rows[..|rows| - 1];
      ValidRowsIdempotent(init);
      if IsValid(rows[|rows| - 1]) {
        ValidRowsAppend(ValidRows(init), [rows[|rows| - 1]]);
        assert ValidRows([rows[|rows| - 1]]) == [rows[|rows| - 1]] by {
          assert [rows[|rows| - 1]][..0] == [];
        }
      }
    }
  }

  datatype LoadError =
    | MissingColumnsError(columns: seq<string>)
    | NoValidData

  /** The text shown for each load error. */
  function ErrorMessage(e: LoadError): string
  {
    match e
    case MissingColumnsError(columns) =>
      "CSV file is missing required columns: " + Join(columns, ", ") + ". Please check your file's headers."
    case NoValidData => "No valid chat data found in the CSV file."
  }

  /** The CSV completion handler: map the headers, report missing columns,
      read and filter the rows, and report an empty result. */
  method LoadRows(fields: seq<string>, data: seq<Record>) returns (r: Result<seq<ChatRow>, LoadError>)
    ensures var m := MappingFor(fields);
      && (r.Failure? && r.error.MissingColumnsError? <==> MissingColumns(m) != [])
      && (MissingColumns(m) != [] ==> r == Failure(MissingColumnsError(MissingColumns(m))))
      && (MissingColumns(m) == [] ==>
            var rows := ValidRows(ToChatRows(data, m));
            r == if rows == [] then Failure(NoValidData) else Success(rows))
    ensures r.Success? ==> r.value != [] && forall row :: row in r.value ==> IsValid(row)
  {
    var id := FindHeader(fields, ["id"]);
    var conversationId := FindHeader(fields, ["conversation_id", "conversation id"]);
    var parentId := FindHeader(fields, ["parent_id", "parent id"]);
    var role := FindHeader(fields, ["role"]);
    var content := FindHeader(fields, ["content"]);
    var headerMapping := HeaderMapping(id, conversationId, parentId, role, content);
    var missingHeaders := MissingColumns(headerMapping);
    if missingHeaders != [] {
      return Failure(MissingColumnsError(missingHeaders));
    }
    var chatData := ValidRows(ToChatRows(data, headerMapping));
    if chatData == [] {
      return Failure(NoValidData);
    }
    return Success(chatData);
  }
}
