/** The `Formatter` of `src/formatter.py`: fixed-layout text blocks for each
    kind of row, and the delimited report that joins them under a header. */
module Formatter {
  import opened Wrappers
  import Text
  import opened Tools

  /** The delimiter line of `join_entries`. */
  const Delimiter := "====="

  /** The separator `join_entries` puts between entries, and after the header. */
  const Separator := "\n" + Delimiter + "\n"

  /** The delimiter line that closes a report. */
  const Closing := "\n" + Delimiter

  const Placeholder := "NO INFORMATION"

  /** Each entry preceded by a delimiter line: the reference shape of the
      report body. */
  function Framed(entries: seq<string>): string
  {
    if entries == [] then "" else Separator + entries[0] + Framed(entries[1..])
  }

  /** `join_entries(column, header=header)`. The placeholder stands in when
      the joined body is the empty string: for no entries and for a single
      empty entry alike. Otherwise every entry follows a delimiter line. */
  function JoinEntries(column: seq<string>, header: string): (r: string)
    ensures column == [] || column == [""] ==>
      r == header + "\n=====\n" + "NO INFORMATION" + "\n====="
    ensures column != [] && column != [""] ==>
      r == header + Framed(column) + "\n====="
    ensures header + "\n=====\n" <= r
    ensures |r| >= 6 && r[|r| - 6..] == "\n====="
  {
    var info := Text.Join(Separator, column);
    var body := if info != "" then info else Placeholder;
    Text.JoinEmptyIff(Separator, column);
    FramedIsJoin(column);
    assert header + Separator + body == header + (Separator + body);
    header + Separator + body + Closing
  }

  /** A delimiter line followed by the join is the framed entries. */
  lemma {:induction false} FramedIsJoin(entries: seq<string>)
    ensures entries != [] ==> Separator + Text.Join(Separator, entries) == Framed(entries)
  {
    if |entries| > 1 {
      FramedIsJoin(entries[1..]);
    }
  }

  lemma {:induction false} FramedAppend(a: seq<string>, b: seq<string>)
    ensures Framed(a + b) == Framed(a) + Framed(b)
  {
    if a == [] {
      assert a + b == b;
    } else {
      assert (a + b)[0] == a[0] && (a + b)[1..] == a[1..] + b;
      FramedAppend(a[1..], b);
    }
  }

  /** The framed entries around entry `i`. */
  lemma FramedAt(column: seq<string>, i: nat)
    requires i < |column|
    ensures Framed(column) == Framed(column[..i]) + (Separator + column[i] + Framed(column[i + 1..]))
  {
    var front, rest := column[..i], column[i..];
    assert Framed(column) == Framed(front) + Framed(rest) by {
      assert column == front + rest;
      FramedAppend(front, rest);
    }
    assert Framed(rest) == Separator + column[i] + Framed(column[i + 1..]) by {
      assert rest[0] == column[i] && rest[1..] == column[i + 1..];
    }
  }

  /** Entry `i` sits in the framed entries right after the framed entries
      before it and one delimiter line. */
  lemma FramedEmbeds(column: seq<string>, i: nat)
    requires i < |column|
    ensures var offset := |Framed(column[..i])| + |Separator|;
      offset + |column[i]| <= |Framed(column)| &&
      Framed(column)[offset..offset + |column[i]|] == column[i]
  {
    FramedAt(column, i);
    var c := column[i];
    var offset := |Framed(column[..i])| + |Separator|;
    assert forall k :: 0 <= k < |c| ==> Framed(column)[offset + k] == c[k];
  }

  /** Entries are embedded verbatim: entry `i` stands in the report right
      after the header, the framed entries before it and one delimiter line,
      whatever newlines or delimiters it contains. */
  lemma EntryEmbedded(column: seq<string>, header: string, i: nat)
    requires i < |column|
    ensures var r := JoinEntries(column, header);
      var start := |header| + |Framed(column[..i])| + |Separator|;
      start + |column[i]| <= |r| && r[start..start + |column[i]|] == column[i]
  {
    var r := JoinEntries(column, header);
    if column == [""] {
      assert column[i] == "";
    } else {
      FramedEmbeds(column, i);
      var c := column[i];
      var start := |header| + |Framed(column[..i])| + |Separator|;
      assert r == header + Framed(column) + "\n=====";
    }
  }

  /** Python's f-string rendering of an optional value: `None` shows as "None". */
  function Show(v: Option<string>): (r: string)
    ensures v.None? ==> r == "None"
    ensures v.Some? ==> r == v.value
  {
    match v
    case None => "None"
    case Some(s) => s
  }

  /** A row of the catalog's dataset listing. */
  datatype DatasetRow = DatasetRow(dataset: string, description: string)

  /** The fields of a `Dataset` that `format_dataset_object` reads; the
      timestamps as their text. */
  datatype DatasetObject = DatasetObject(datasetId: string, created: string, modified: string, description: Option<string>)

  /** A query-history row. */
  datatype JobRow = JobRow(jobId: string, creationTime: string, query: string)

  /** `format_dataset`. */
  function FormatDataset(row: DatasetRow): (r: string)
    ensures r == ("Name: " + row.dataset) + "\n" + "-----" + "\n" + ("Description: " + row.description)
  {
    Text.Join3("\n", "Name: " + row.dataset, "-----", "Description: " + row.description);
    Text.Join("\n", ["Name: " + row.dataset, "-----", "Description: " + row.description])
  }

  /** `format_dataset_object`. */
  function FormatDatasetObject(ds: DatasetObject): (r: string)
    ensures r == ("Name: " + ds.datasetId) + "\n" + ("Created: " + ds.created) + "\n" +
      ("Last modified: " + ds.modified) + "\n" + "-----" + "\n" + ("Description: " + Show(ds.description))
  {
    Text.Join5("\n", "Name: " + ds.datasetId, "Created: " + ds.created,
      "Last modified: " + ds.modified, "-----", "Description: " + Show(ds.description));
    Text.Join("\n", [
      "Name: " + ds.datasetId,
      "Created: " + ds.created,
      "Last modified: " + ds.modified,
      "-----",
      "Description: " + Show(ds.description)])
  }

  /** `format_relation`. */
  function FormatRelation(row: RelationRow): (r: string)
    ensures r == ("Name: " + row.relation) + "\n" + ("Type: " + row.relationType) + "\n" +
      ("Created: " + row.createdAt) + "\n" + ("Last modified: " + row.lastModified) + "\n" +
      "-----" + "\n" + ("Description: " + row.description)
  {
    Text.Join6("\n", "Name: " + row.relation, "Type: " + row.relationType,
      "Created: " + row.createdAt, "Last modified: " + row.lastModified, "-----",
      "Description: " + row.description);
    Text.Join("\n", [
      "Name: " + row.relation,
      "Type: " + row.relationType,
      "Created: " + row.createdAt,
      "Last modified: " + row.lastModified,
      "-----",
      "Description: " + row.description])
  }

  /** `format_column`. */
  function FormatColumn(row: ColumnRow): (r: string)
    ensures r == ("Name: " + row.column) + "\n" + ("Field path: " + row.fieldPath) + "\n" +
      ("Data type: " + row.dataType) + "\n" + "-----" + "\n" + ("Description: " + row.description)
  {
    Text.Join5("\n", "Name: " + row.column, "Field path: " + row.fieldPath,
      "Data type: " + row.dataType, "-----", "Description: " + row.description);
    Text.Join("\n", [
      "Name: " + row.column,
      "Field path: " + row.fieldPath,
      "Data type: " + row.dataType,
      "-----",
      "Description: " + row.description])
  }

  /** `format_query_history`. */
  function FormatQueryHistory(row: JobRow): (r: string)
    ensures r == ("Job ID: " + row.jobId) + "\n" + ("Created at: " + row.creationTime) + "\n" +
      "-----" + "\n" + ("Query: " + row.query)
  {
    Text.Join4("\n", "Job ID: " + row.jobId, "Created at: " + row.creationTime,
      "-----", "Query: " + row.query);
    Text.Join("\n", [
      "Job ID: " + row.jobId,
      "Created at: " + row.creationTime,
      "-----",
      "Query: " + row.query])
  }

  // ---------------------------------------------------------------------
  // The layout, line by line

  /** The lines of a block, when no field but the last holds a newline: the
      fixed lines in their fixed order, then the lines of the last one. */
  lemma DatasetLines(row: DatasetRow)
    requires '\n' !in row.dataset
    ensures Text.Split(FormatDataset(row), '\n') ==
      ["Name: " + row.dataset, "-----"] + Text.Split("Description: " + row.description, '\n')
  {
    Text.SplitJoin(["Name: " + row.dataset, "-----", "Description: " + row.description], '\n');
  }

  lemma DatasetObjectLines(ds: DatasetObject)
    requires '\n' !in ds.datasetId && '\n' !in ds.created && '\n' !in ds.modified
    ensures Text.Split(FormatDatasetObject(ds), '\n') ==
      ["Name: " + ds.datasetId, "Created: " + ds.created, "Last modified: " + ds.modified, "-----"] +
      Text.Split("Description: " + Show(ds.description), '\n')
  {
    Text.SplitJoin([
      "Name: " + ds.datasetId,
      "Created: " + ds.created,
      "Last modified: " + ds.modified,
      "-----",
      "Description: " + Show(ds.description)], '\n');
  }

  lemma RelationLines(row: RelationRow)
    requires '\n' !in row.relation && '\n' !in row.relationType
    requires '\n' !in row.createdAt && '\n' !in row.lastModified
    ensures Text.Split(FormatRelation(row), '\n') ==
      ["Name: " + row.relation, "Type: " + row.relationType, "Created: " + row.createdAt,
       "Last modified: " + row.lastModified, "-----"] +
      Text.Split("Description: " + row.description, '\n')
  {
    Text.SplitJoin([
      "Name: " + row.relation,
      "Type: " + row.relationType,
      "Created: " + row.createdAt,
      "Last modified: " + row.lastModified,
      "-----",
      "Description: " + row.description], '\n');
  }

  lemma ColumnLines(row: ColumnRow)
    requires '\n' !in row.column && '\n' !in row.fieldPath && '\n' !in row.dataType
    ensures Text.Split(FormatColumn(row), '\n') ==
      ["Name: " + row.column, "Field path: " + row.fieldPath, "Data type: " + row.dataType, "-----"] +
      Text.Split("Description: " + row.description, '\n')
  {
    Text.SplitJoin([
      "Name: " + row.column,
      "Field path: " + row.fieldPath,
      "Data type: " + row.dataType,
      "-----",
      "Description: " + row.description], '\n');
  }

  /** The query text is the last thing in the block and is kept verbatim,
      newlines included. */
  lemma QueryHistoryLines(row: JobRow)
    requires '\n' !in row.jobId && '\n' !in row.creationTime
    ensures Text.Split(FormatQueryHistory(row), '\n') ==
      ["Job ID: " + row.jobId, "Created at: " + row.creationTime, "-----"] +
      Text.Split("Query: " + row.query, '\n')
  {
    Text.SplitJoin([
      "Job ID: " + row.jobId,
      "Created at: " + row.creationTime,
      "-----",
      "Query: " + row.query], '\n');
  }
}
