/** The metadata toolbox of `src/toolbox.py`: construction with region
    validation, the templated dataset query, the relation listing filter and
    the column listing built from the flattened schema. Results the client
    library would fetch are taken as input sequences of records. */
module Tools {
  import opened Wrappers
  import opened Regions
  import opened BigQuery
  import opened Schema
  import Text

  class Toolbox {
    /** `_region`: always a member of the enumeration. */
    var region: Region
    var client: Client

    constructor (region: Region, client: Client)
      ensures this.region == region && this.client == client
    {
      this.region := region;
      this.client := client;
    }

    /** `Toolbox(region)`: validates the raw string before anything else and
        raises `InvalidRegionError` (here: `Failure` with its message) without
        constructing a client; on success the client is constructed with the
        region as its location. */
    static method Create(raw: string, sdk: Sdk) returns (res: Result<Toolbox, string>)
      modifies sdk
      ensures res.Success? <==> IsRegionName(raw)
      ensures res.Success? ==>
        fresh(res.value) && res.value.RegionName() == raw &&
        res.value.client == Client(Some(raw)) &&
        sdk.clients == old(sdk.clients) + [Client(Some(raw))]
      ensures res.Failure? ==>
        res.error == InvalidRegionMessage(raw) && sdk.clients == old(sdk.clients)
    {
      match ParseRegion(raw)
      case Failure(message) =>
        res := Failure(message);
      case Success(r) =>
        var c := sdk.NewClient(Some(Value(r)));
        var t := new Toolbox(r, c);
        res := Success(t);
    }

    /** The `region` property: one of the two allow-listed strings, namely
        the one that validates to the stored region. */
    function RegionName(): (s: string)
      reads this
      ensures IsRegionName(s)
      ensures ParseRegion(s) == Success(region)
    {
      ParseValue(region);
      Value(region)
    }

    /** `get_all_dataset_descriptions`: the "datasets" template formatted
        with the single argument `region`, whose value is allow-listed and is
        the region validated at construction; sent with the fixed labels. */
    function AllDatasetDescriptionsJob(): (job: QueryJob)
      reads this
      ensures job.template == "datasets" && job.labels == JobLabels
      ensures job.args.Keys == {"region"}
      ensures forall k :: k in job.args ==> IsRegionName(job.args[k])
      ensures ParseRegion(job.args["region"]) == Success(region)
    {
      QueryJob("datasets", map["region" := RegionName()], JobLabels)
    }
  }

  // ---------------------------------------------------------------------
  // get_relation_descriptions

  /** A relation (table, view, ...) as `get_table` returns it; timestamps are
      kept as the text `isoformat` gives. */
  datatype Relation = Relation(
    tableId: string,
    description: Option<string>,
    tableType: string,
    created: string,
    modified: string)

  /** One row of the relation listing. */
  datatype RelationRow = RelationRow(
    relation: string,
    description: string,
    relationType: string,
    createdAt: string,
    lastModified: string)

  function RowOf(r: Relation): RelationRow
    requires r.description.Some?
  {
    RelationRow(r.tableId, r.description.value, r.tableType, r.created, r.modified)
  }

  /** The rows of `get_relation_descriptions`, for the relations in listing
      order: those whose description is not `None`. */
  function RelationDescriptions(relations: seq<Relation>): (rows: seq<RelationRow>)
    ensures |rows| <= |relations|
  {
    if relations == [] then []
    else
      var r := relations[0];
      (if r.description.Some? then [RowOf(r)] else []) + RelationDescriptions(relations[1..])
  }

  /** The listing of two runs of relations is the two listings in order. */
  lemma {:induction false} RelationDescriptionsAppend(a: seq<Relation>, b: seq<Relation>)
    ensures RelationDescriptions(a + b) == RelationDescriptions(a) + RelationDescriptions(b)
  {
    if a == [] {
      assert a + b == b;
    } else {
      assert (a + b)[0] == a[0] && (a + b)[1..] == a[1..] + b;
      RelationDescriptionsAppend(a[1..], b);
      var x := if a[0].description.Some? then [RowOf(a[0])] else [];
      assert x + (RelationDescriptions(a[1..]) + RelationDescriptions(b))
          == (x + RelationDescriptions(a[1..])) + RelationDescriptions(b);
    }
  }

  /** A relation is listed exactly when its description is not `None` (an
      empty description is kept), and every row comes from such a relation. */
  lemma {:induction false} RelationDescriptionsExact(relations: seq<Relation>)
    ensures forall i :: 0 <= i < |relations| && relations[i].description.Some? ==>
      RowOf(relations[i]) in RelationDescriptions(relations)
    ensures forall row :: row in RelationDescriptions(relations) ==>
      exists i :: 0 <= i < |relations| && relations[i].description.Some? && RowOf(relations[i]) == row
  {
    if relations != [] {
      var rest := relations[1..];
      RelationDescriptionsExact(rest);
      assert forall i :: 1 <= i < |relations| ==> relations[i] == rest[i - 1];
      forall row | row in RelationDescriptions(relations)
        ensures exists i :: 0 <= i < |relations| && relations[i].description.Some? && RowOf(relations[i]) == row
      {
        if row !in RelationDescriptions(rest) {
          assert RowOf(relations[0]) == row;
        } else {
          var j :| 0 <= j < |rest| && rest[j].description.Some? && RowOf(rest[j]) == row;
          assert relations[j + 1] == rest[j];
        }
      }
    }
  }

  // ---------------------------------------------------------------------
  // get_column_descriptions

  /** One row of the column listing: `column`, `field_path`, `description`,
      `data_type`. */
  datatype ColumnRow = ColumnRow(column: string, fieldPath: string, description: string, dataType: string)

  /** The `column` value derived from an entry: its path before the first dot. */
  function WithColumn(e: FieldEntry): (row: ColumnRow)
    ensures row.fieldPath == e.fieldPath && row.description == e.description && row.dataType == e.dataType
    ensures row.column <= e.fieldPath && '.' !in row.column
    ensures |row.column| < |e.fieldPath| ==> e.fieldPath[|row.column|] == '.'
  {
    ColumnRow(Text.FirstSegment(e.fieldPath), e.fieldPath, e.description, e.dataType)
  }

  /** The column listing: one row per entry, in entry order. */
  function ColumnRows(entries: seq<FieldEntry>): (rows: seq<ColumnRow>)
    ensures |rows| == |entries|
    ensures forall i :: 0 <= i < |entries| ==>
      rows[i].fieldPath == entries[i].fieldPath && rows[i].description == entries[i].description &&
      rows[i].dataType == entries[i].dataType && rows[i].column <= entries[i].fieldPath &&
      '.' !in rows[i].column &&
      (|rows[i].column| < |entries[i].fieldPath| ==> entries[i].fieldPath[|rows[i].column|] == '.')
  {
    seq(|entries|, i requires 0 <= i < |entries| => WithColumn(entries[i]))
  }

  /** What pandas raises when no field is described: the empty frame has no
      `field_path` column to split. */
  const NoFieldPathError := "'DataFrame' object has no attribute 'field_path'"

  /** `get_column_descriptions` for a relation whose schema is given: the
      walks of the top-level fields accumulated in schema order, then the
      `column` derived for every entry. Fails when nothing was described. */
  method GetColumnDescriptions(schema: seq<SchemaField>) returns (res: Result<seq<ColumnRow>, string>)
    ensures res.Failure? <==> FlattenAll(schema, "") == []
    ensures res.Failure? ==> res.error == NoFieldPathError
    ensures res.Success? ==> res.value == ColumnRows(FlattenAll(schema, ""))
  {
    var allColumns: seq<FieldEntry> := [];
    for i := 0 to |schema|
      invariant allColumns == FlattenAll(schema[..i], "")
    {
      var entries := ProcessSchemaField(schema[i], "");
      FlattenAllStep(schema, i, "");
      allColumns := allColumns + entries;
    }
    assert schema[..|schema|] == schema;
    if allColumns == [] {
      res := Failure(NoFieldPathError);
    } else {
      res := Success(ColumnRows(allColumns));
    }
  }

  /** For a top-level field with a non-empty, dot-free name, every entry of
      its walk has that name as its `column`. */
  lemma ColumnOfTopLevelField(f: SchemaField)
    requires f.name != "" && '.' !in f.name
    ensures forall e :: e in Flatten(f, "") ==> WithColumn(e).column == f.name
  {
    FlattenPathsExtend(f, "");
    forall e | e in Flatten(f, "")
      ensures Text.FirstSegment(e.fieldPath) == f.name
    {
      Text.FirstSegmentUnique(e.fieldPath, f.name);
    }
  }

  /** With non-empty, dot-free top-level names, every row's `column` is the
      name of one of the relation's top-level fields, and its other columns
      are those of the flattened entry at the same position. */
  lemma {:induction false} ColumnsAreTopLevelNames(schema: seq<SchemaField>)
    requires forall i :: 0 <= i < |schema| ==> schema[i].name != "" && '.' !in schema[i].name
    ensures var entries := FlattenAll(schema, ""); var rows := ColumnRows(entries);
      |rows| == |entries| &&
      forall k :: 0 <= k < |rows| ==>
        rows[k].fieldPath == entries[k].fieldPath &&
        rows[k].description == entries[k].description &&
        rows[k].dataType == entries[k].dataType &&
        exists i :: 0 <= i < |schema| && rows[k].column == schema[i].name
  {
    var entries := FlattenAll(schema, "");
    forall e | e in entries
      ensures exists i :: 0 <= i < |schema| && WithColumn(e).column == schema[i].name
    {
      ColumnFromSomeField(schema, e);
    }
    forall k | 0 <= k < |entries|
      ensures exists i :: 0 <= i < |schema| && WithColumn(entries[k]).column == schema[i].name
    {
      assert entries[k] in entries;
    }
  }

  lemma {:induction false} ColumnFromSomeField(schema: seq<SchemaField>, e: FieldEntry)
    requires forall i :: 0 <= i < |schema| ==> schema[i].name != "" && '.' !in schema[i].name
    requires e in FlattenAll(schema, "")
    ensures exists i :: 0 <= i < |schema| && WithColumn(e).column == schema[i].name
  {
    if e in Flatten(schema[0], "") {
      ColumnOfTopLevelField(schema[0]);
    } else {
      ColumnFromSomeField(schema[1..], e);
      var i :| 0 <= i < |schema[1..]| && WithColumn(e).column == schema[1..][i].name;
      assert schema[1..][i] == schema[i + 1];
    }
  }
}
