/** Flattening of a table's nested schema (`Toolbox._process_schema_field`):
    a pre-order walk of the `SchemaField` tree that emits one entry, with its
    dot-joined path, for every field whose description is truthy. */
module Schema {
  import opened Wrappers
  import Text

  /** A `SchemaField`: name, declared type, optional description and the
      ordered child fields (non-empty only for RECORD/STRUCT fields). */
  datatype SchemaField = SchemaField(
    name: string,
    fieldType: string,
    description: Option<string>,
    fields: seq<SchemaField>)

  /** One emitted row: `field_path`, `description`, `data_type`. */
  datatype FieldEntry = FieldEntry(fieldPath: string, description: string, dataType: string)

  /** Python truthiness of `field.description`: neither `None` nor "". */
  predicate Described(f: SchemaField)
  {
    f.description.Some? && f.description.value != ""
  }

  /** The path of a field: the parent path, a dot and the name; just the
      name when the parent path is empty. */
  function JoinPath(parentName: string, name: string): string
  {
    if parentName != "" then parentName + "." + name else name
  }

  /** The entry a described field contributes at the given path. */
  function EntryAt(f: SchemaField, path: string): FieldEntry
    requires Described(f)
  {
    FieldEntry(path, f.description.value, f.fieldType)
  }

  /** The entries `_process_schema_field(f, parentName)` returns. */
  function Flatten(f: SchemaField, parentName: string): (r: seq<FieldEntry>)
    ensures Described(f) ==> |r| >= 1 && r[0] == EntryAt(f, JoinPath(parentName, f.name))
    decreases f, 1
  {
    var fullName := JoinPath(parentName, f.name);
    (if Described(f) then [EntryAt(f, fullName)] else []) + FlattenAll(f.fields, fullName)
  }

  /** The walks of a sequence of sibling fields, concatenated in order. */
  function FlattenAll(fs: seq<SchemaField>, parentName: string): (r: seq<FieldEntry>)
    ensures fs == [] ==> r == []
    ensures fs != [] && Described(fs[0]) ==> |r| >= 1 && r[0] == EntryAt(fs[0], JoinPath(parentName, fs[0].name))
    decreases fs, 0
  {
    if fs == [] then [] else Flatten(fs[0], parentName) + FlattenAll(fs[1..], parentName)
  }

  /** Walking the concatenation of two runs of siblings concatenates their walks. */
  lemma {:induction false} FlattenAllAppend(a: seq<SchemaField>, b: seq<SchemaField>, parentName: string)
    ensures FlattenAll(a + b, parentName) == FlattenAll(a, parentName) + FlattenAll(b, parentName)
  {
    if a != [] {
      assert (a + b)[0] == a[0] && (a + b)[1..] == a[1..] + b;
      FlattenAllAppend(a[1..], b, parentName);
      var x := Flatten(a[0], parentName);
      assert x + (FlattenAll(a[1..], parentName) + FlattenAll(b, parentName))
          == (x + FlattenAll(a[1..], parentName)) + FlattenAll(b, parentName);
    } else {
      assert a + b == b;
    }
  }

  /** `_process_schema_field` as the source writes it: a list that receives
      the field's own entry and is then extended, in a loop over the
      subfields, with the result of processing each one. */
  method ProcessSchemaField(field: SchemaField, parentName: string) returns (results: seq<FieldEntry>)
    ensures results == Flatten(field, parentName)
    decreases field
  {
    var fullName := JoinPath(parentName, field.name);
    results := [];
    if Described(field) {
      results := results + [EntryAt(field, fullName)];
    }
    ghost var own := results;
    assert own == (if Described(field) then [EntryAt(field, fullName)] else []);
    var subfields := field.fields;
    if subfields != [] {
      for i := 0 to |subfields|
        invariant results == own + FlattenAll(subfields[..i], fullName)
      {
        var sub := ProcessSchemaField(subfields[i], fullName);
        FlattenAllStep(subfields, i, fullName);
        AppendAssoc(own, FlattenAll(subfields[..i], fullName), sub);
        results := results + sub;
      }
      assert subfields[..|subfields|] == subfields;
    }
    assert results == own + FlattenAll(subfields, fullName);
  }

  /** Concatenation regroups: the loop extends the list built so far. */
  lemma AppendAssoc(a: seq<FieldEntry>, b: seq<FieldEntry>, c: seq<FieldEntry>)
    ensures a + (b + c) == (a + b) + c
  {
  }

  /** One more sibling walked: the walk of the first `i + 1` siblings is
      that of the first `i` followed by the next one's. */
  lemma FlattenAllStep(fs: seq<SchemaField>, i: nat, parentName: string)
    requires i < |fs|
    ensures FlattenAll(fs[..i + 1], parentName) == FlattenAll(fs[..i], parentName) + Flatten(fs[i], parentName)
  {
    assert fs[..i + 1] == fs[..i] + [fs[i]];
    FlattenAllAppend(fs[..i], [fs[i]], parentName);
    assert FlattenAll([fs[i]], parentName) == Flatten(fs[i], parentName) + [] by {
      assert [fs[i]][1..] == [];
    }
  }

  // ---------------------------------------------------------------------
  // An independent reference: the tree's nodes in pre-order, each with the
  // chain of names from the root down to it.

  /** A node of the tree together with the names on its root-to-node chain. */
  datatype Located = Located(chain: seq<string>, node: SchemaField)

  /** Every node of `f`'s tree in pre-order (a node before its subfields,
      subfields in declared order), below the given ancestor names. */
  function Nodes(f: SchemaField, ancestors: seq<string>): seq<Located>
    decreases f, 1
  {
    [Located(ancestors + [f.name], f)] + NodesAll(f.fields, ancestors + [f.name])
  }

  function NodesAll(fs: seq<SchemaField>, ancestors: seq<string>): seq<Located>
    decreases fs, 0
  {
    if fs == [] then [] else Nodes(fs[0], ancestors) + NodesAll(fs[1..], ancestors)
  }

  /** The entries a list of located nodes should give: the described ones,
      in order, at their dot-joined chains, with description and type copied. */
  function EntriesOf(ls: seq<Located>): seq<FieldEntry>
  {
    if ls == [] then []
    else
      var l := ls[0];
      (if Described(l.node) then [EntryAt(l.node, Text.Join(".", l.chain))] else []) + EntriesOf(ls[1..])
  }

  /** How many of the located nodes are described. */
  function CountDescribed(ls: seq<Located>): nat
  {
    if ls == [] then 0 else (if Described(ls[0].node) then 1 else 0) + CountDescribed(ls[1..])
  }

  lemma {:induction false} EntriesOfAppend(a: seq<Located>, b: seq<Located>)
    ensures EntriesOf(a + b) == EntriesOf(a) + EntriesOf(b)
  {
    if a != [] {
      assert (a + b)[0] == a[0] && (a + b)[1..] == a[1..] + b;
      EntriesOfAppend(a[1..], b);
    } else {
      assert a + b == b;
    }
  }

  lemma {:induction false} CountDescribedAppend(a: seq<Located>, b: seq<Located>)
    ensures CountDescribed(a + b) == CountDescribed(a) + CountDescribed(b)
  {
    if a != [] {
      assert (a + b)[0] == a[0] && (a + b)[1..] == a[1..] + b;
      CountDescribedAppend(a[1..], b);
    } else {
      assert a + b == b;
    }
  }

  /** Every field of the tree has a non-empty name, as BigQuery requires. */
  predicate Named(f: SchemaField)
    decreases f
  {
    f.name != "" && forall i :: 0 <= i < |f.fields| ==> Named(f.fields[i])
  }

  /** With non-empty names, the path handed down the recursion is the dot-join
      of the chain of names so far (no leading dot at the top level). */
  lemma {:induction false} JoinPathChain(ancestors: seq<string>, name: string)
    requires forall i :: 0 <= i < |ancestors| ==> ancestors[i] != ""
    ensures JoinPath(Text.Join(".", ancestors), name) == Text.Join(".", ancestors + [name])
  {
    if ancestors == [] {
      assert [] + [name] == [name];
    } else {
      assert Text.Join(".", ancestors) != "" by {
        if |ancestors| == 1 { } else { assert |Text.Join(".", ancestors)| >= 1; }
      }
      Text.JoinSnoc(".", ancestors, name);
    }
  }

  /** The walk is the pre-order listing of the described nodes: each entry
      sits at the dot-joined chain of names from the root to its node and
      carries that node's own description and type, and nothing else is
      emitted. Needs the names to be non-empty: `JoinPath` drops the dot when
      the parent path is "". */
  lemma {:induction false} FlattenIsPreOrder(f: SchemaField, ancestors: seq<string>)
    requires Named(f)
    requires forall i :: 0 <= i < |ancestors| ==> ancestors[i] != ""
    ensures Flatten(f, Text.Join(".", ancestors)) == EntriesOf(Nodes(f, ancestors))
    decreases f, 1
  {
    var chain := ancestors + [f.name];
    JoinPathChain(ancestors, f.name);
    assert forall i :: 0 <= i < |chain| ==> chain[i] != "";
    FlattenAllIsPreOrder(f.fields, chain);
    EntriesOfAppend([Located(chain, f)], NodesAll(f.fields, chain));
  }

  lemma {:induction false} FlattenAllIsPreOrder(fs: seq<SchemaField>, ancestors: seq<string>)
    requires forall i :: 0 <= i < |fs| ==> Named(fs[i])
    requires forall i :: 0 <= i < |ancestors| ==> ancestors[i] != ""
    ensures FlattenAll(fs, Text.Join(".", ancestors)) == EntriesOf(NodesAll(fs, ancestors))
    decreases fs, 0
  {
    if fs != [] {
      FlattenIsPreOrder(fs[0], ancestors);
      FlattenAllIsPreOrder(fs[1..], ancestors);
      EntriesOfAppend(Nodes(fs[0], ancestors), NodesAll(fs[1..], ancestors));
    }
  }

  /** The walk emits exactly one entry per described node of the tree,
      whatever the names and the parent path. */
  lemma {:induction false} FlattenCount(f: SchemaField, parentName: string, ancestors: seq<string>)
    ensures |Flatten(f, parentName)| == CountDescribed(Nodes(f, ancestors))
    decreases f, 1
  {
    var fullName := JoinPath(parentName, f.name);
    var chain := ancestors + [f.name];
    FlattenAllCount(f.fields, fullName, chain);
    CountDescribedAppend([Located(chain, f)], NodesAll(f.fields, chain));
  }

  lemma {:induction false} FlattenAllCount(fs: seq<SchemaField>, parentName: string, ancestors: seq<string>)
    ensures |FlattenAll(fs, parentName)| == CountDescribed(NodesAll(fs, ancestors))
    decreases fs, 0
  {
    if fs != [] {
      FlattenCount(fs[0], parentName, ancestors);
      FlattenAllCount(fs[1..], parentName, ancestors);
      CountDescribedAppend(Nodes(fs[0], ancestors), NodesAll(fs[1..], ancestors));
    }
  }

  /** Nothing is counted exactly when no located node is described. */
  lemma {:induction false} CountDescribedZero(ls: seq<Located>)
    ensures CountDescribed(ls) == 0 <==> forall k :: 0 <= k < |ls| ==> !Described(ls[k].node)
  {
    if ls != [] {
      CountDescribedZero(ls[1..]);
      assert forall k :: 1 <= k < |ls| ==> ls[k] == ls[1..][k - 1];
    }
  }

  /** The walk is empty exactly when no node of the tree, at any depth, has a
      truthy description. */
  lemma FlattenEmptyIff(f: SchemaField, parentName: string)
    ensures var nodes := Nodes(f, []);
      Flatten(f, parentName) == [] <==> forall k :: 0 <= k < |nodes| ==> !Described(nodes[k].node)
  {
    FlattenCount(f, parentName, []);
    CountDescribedZero(Nodes(f, []));
  }

  /** Every emitted entry has a non-empty description: fields whose
      description is `None` or "" contribute nothing of their own. */
  lemma {:induction false} FlattenEntriesDescribed(f: SchemaField, parentName: string)
    ensures forall e :: e in Flatten(f, parentName) ==> e.description != ""
    decreases f, 1
  {
    FlattenAllEntriesDescribed(f.fields, JoinPath(parentName, f.name));
  }

  lemma {:induction false} FlattenAllEntriesDescribed(fs: seq<SchemaField>, parentName: string)
    ensures forall e :: e in FlattenAll(fs, parentName) ==> e.description != ""
    decreases fs, 0
  {
    if fs != [] {
      FlattenEntriesDescribed(fs[0], parentName);
      FlattenAllEntriesDescribed(fs[1..], parentName);
    }
  }

  /** Every path the walk of `f` emits is `f`'s own path, possibly followed by
      a dot and more: all entries of a subtree share its path as a prefix. */
  lemma {:induction false} FlattenPathsExtend(f: SchemaField, parentName: string)
    requires JoinPath(parentName, f.name) != ""
    ensures var full := JoinPath(parentName, f.name);
      forall e :: e in Flatten(f, parentName) ==>
        full <= e.fieldPath && (|e.fieldPath| == |full| || e.fieldPath[|full|] == '.')
    decreases f, 1
  {
    FlattenAllPathsExtend(f.fields, JoinPath(parentName, f.name));
  }

  lemma {:induction false} FlattenAllPathsExtend(fs: seq<SchemaField>, parentName: string)
    requires parentName != ""
    ensures forall e :: e in FlattenAll(fs, parentName) ==>
      parentName + "." <= e.fieldPath
    decreases fs, 0
  {
    if fs != [] {
      var full := JoinPath(parentName, fs[0].name);
      FlattenPathsExtend(fs[0], parentName);
      forall e | e in Flatten(fs[0], parentName)
        ensures parentName + "." <= e.fieldPath
      {
        assert full <= e.fieldPath;
        assert (parentName + ".") <= full;
      }
      FlattenAllPathsExtend(fs[1..], parentName);
    }
  }
}
