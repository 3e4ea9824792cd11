/** Concrete scenarios stated against the model: the cases of the
    repository's tests (`tests/test_toolbox.py`), and two small trees that
    show how undescribed and empty-described fields are treated. */
module Scenarios {
  import opened Wrappers
  import opened Regions
  import opened Schema
  import opened Tools
  import Text

  /** The injection attempts of `test_sql_injection_prevention` are all
      rejected. */
  lemma InjectionAttemptsRejected()
    ensures ParseRegion("europe-west2; DROP TABLE users;--").Failure?
    ensures ParseRegion("europe-west2' UNION SELECT * FROM secrets;--").Failure?
    ensures ParseRegion("europe-west2`) AS t WHERE 1=1;--").Failure?
    ensures ParseRegion("`europe-west2").Failure?
    ensures ParseRegion("europe-west2`").Failure?
  {
  }

  /** `test_process_schema_field_nested`: grandparent > parent > child, all
      described, give three entries at the three dotted paths. */
  lemma NestedFieldsFlatten()
    ensures
      var child := SchemaField("child", "STRING", Some("A child field"), []);
      var parent := SchemaField("parent", "RECORD", Some("A parent field"), [child]);
      var grandparent := SchemaField("grandparent", "RECORD", Some("A grandparent field"), [parent]);
      Flatten(grandparent, "") == [
        FieldEntry("grandparent", "A grandparent field", "RECORD"),
        FieldEntry("grandparent.parent", "A parent field", "RECORD"),
        FieldEntry("grandparent.parent.child", "A child field", "STRING")]
  {
    var child := SchemaField("child", "STRING", Some("A child field"), []);
    var parent := SchemaField("parent", "RECORD", Some("A parent field"), [child]);
    var grandparent := SchemaField("grandparent", "RECORD", Some("A grandparent field"), [parent]);
    assert JoinPath("grandparent.parent", "child") == "grandparent.parent.child";
    assert Flatten(child, "grandparent.parent") == [FieldEntry("grandparent.parent.child", "A child field", "STRING")];
    assert FlattenAll([child], "grandparent.parent") == Flatten(child, "grandparent.parent");
    assert JoinPath("grandparent", "parent") == "grandparent.parent";
    assert Flatten(parent, "grandparent") == [
        FieldEntry("grandparent.parent", "A parent field", "RECORD"),
        FieldEntry("grandparent.parent.child", "A child field", "STRING")];
    assert FlattenAll([parent], "grandparent") == Flatten(parent, "grandparent");
  }

  /** A described field, an undescribed child and a described grandchild:
      the grandchild is still reached, at its full path. */
  lemma UndescribedMiddleStillVisited()
    ensures
      var c := SchemaField("C", "STRING", Some("c"), []);
      var b := SchemaField("B", "RECORD", None, [c]);
      var a := SchemaField("A", "RECORD", Some("a"), [b]);
      Flatten(a, "") == [FieldEntry("A", "a", "RECORD"), FieldEntry("A.B.C", "c", "STRING")]
  {
    var c := SchemaField("C", "STRING", Some("c"), []);
    var b := SchemaField("B", "RECORD", None, [c]);
    assert JoinPath("A.B", "C") == "A.B.C";
    assert Flatten(c, "A.B") == [FieldEntry("A.B.C", "c", "STRING")];
    assert FlattenAll([c], "A.B") == Flatten(c, "A.B");
    assert JoinPath("A", "B") == "A.B";
    assert Flatten(b, "A") == [FieldEntry("A.B.C", "c", "STRING")];
    assert FlattenAll([b], "A") == Flatten(b, "A");
  }

  /** The schema of `test_get_column_descriptions_with_nesting`. */
  function NestingSchema(): seq<SchemaField>
  {
    var child := SchemaField("child", "STRING", Some("Child description"), []);
    var parent := SchemaField("parent", "RECORD", Some("Parent description"), [child]);
    var top := SchemaField("top", "STRING", Some("Top description"), []);
    [top, parent]
  }

  /** Its walk: top, parent, parent.child, in schema order. */
  lemma NestingSchemaEntries()
    ensures FlattenAll(NestingSchema(), "") == [
      FieldEntry("top", "Top description", "STRING"),
      FieldEntry("parent", "Parent description", "RECORD"),
      FieldEntry("parent.child", "Child description", "STRING")]
  {
    var schema := NestingSchema();
    var parent := schema[1];
    var child := parent.fields[0];
    assert JoinPath("parent", "child") == "parent.child";
    assert FlattenAll([child], "parent") == Flatten(child, "parent");
    assert schema[1..] == [parent];
    assert FlattenAll([parent], "") == Flatten(parent, "");
  }

  /** The nested field's row takes its column from the top-level record. */
  lemma NestingSchemaColumns()
    ensures ColumnRows(FlattenAll(NestingSchema(), ""))[2].column == "parent"
  {
    NestingSchemaEntries();
    Text.FirstSegmentUnique("parent.child", "parent");
  }

  /** The column rows of a top-level field followed by a record with one
      nested field, for dot-free names. */
  lemma TwoLevelRows(top: string, parent: string, child: string, td: string, pd: string, cd: string)
    requires '.' !in top && '.' !in parent
    ensures ColumnRows([
      FieldEntry(top, td, "STRING"),
      FieldEntry(parent, pd, "RECORD"),
      FieldEntry(parent + "." + child, cd, "STRING")]) == [
      ColumnRow(top, top, td, "STRING"),
      ColumnRow(parent, parent, pd, "RECORD"),
      ColumnRow(parent, parent + "." + child, cd, "STRING")]
  {
    var path := parent + "." + child;
    var entries := [FieldEntry(top, td, "STRING"), FieldEntry(parent, pd, "RECORD"), FieldEntry(path, cd, "STRING")];
    RowWithColumn(entries[0], top);
    RowWithColumn(entries[1], parent);
    assert path[..|parent|] == parent && path[|parent|] == '.';
    RowWithColumn(entries[2], parent);
    var rows := ColumnRows(entries);
    assert rows[0] == WithColumn(entries[0]);
    assert rows[1] == WithColumn(entries[1]);
    assert rows[2] == WithColumn(entries[2]);
  }

  /** The rows of the nesting schema: each entry with its column derived. */
  lemma NestingSchemaRows()
    ensures ColumnRows(FlattenAll(NestingSchema(), "")) == [
      ColumnRow("top", "top", "Top description", "STRING"),
      ColumnRow("parent", "parent", "Parent description", "RECORD"),
      ColumnRow("parent", "parent.child", "Child description", "STRING")]
  {
    NestingSchemaEntries();
    assert "parent.child" == "parent" + "." + "child";
    TwoLevelRows("top", "parent", "child", "Top description", "Parent description", "Child description");
  }

  /** An entry whose path is a dot-free name, alone or followed by a dot,
      gets that name as its column. */
  lemma RowWithColumn(e: FieldEntry, column: string)
    requires '.' !in column && column <= e.fieldPath
    requires |column| < |e.fieldPath| ==> e.fieldPath[|column|] == '.'
    ensures WithColumn(e) == ColumnRow(column, e.fieldPath, e.description, e.dataType)
  {
    Text.FirstSegmentUnique(e.fieldPath, column);
  }

  /** `test_get_column_descriptions_with_nesting`: three rows, in schema
      order, the last for the nested field. */
  method ColumnDescriptionsWithNesting() returns (res: Result<seq<ColumnRow>, string>)
    ensures res == Success([
      ColumnRow("top", "top", "Top description", "STRING"),
      ColumnRow("parent", "parent", "Parent description", "RECORD"),
      ColumnRow("parent", "parent.child", "Child description", "STRING")])
  {
    NestingSchemaEntries();
    NestingSchemaRows();
    res := GetColumnDescriptions(NestingSchema());
  }

  /** An empty description keeps a relation in the listing but drops a
      schema field from the flattening. */
  lemma EmptyDescriptionContrast()
    ensures |RelationDescriptions([Relation("t", Some(""), "TABLE", "c", "m")])| == 1
    ensures Flatten(SchemaField("f", "STRING", Some(""), []), "") == []
  {
  }
}
