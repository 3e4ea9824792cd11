# BigQuery MCP adapter: a Dafny model of its core

The adapter exposes read-only BigQuery metadata (datasets, relations, columns,
query history) to an AI assistant as text reports. This project models the
three self-contained pieces of logic in it and proves what they promise:

- **Region allow-listing** (`RegionEnum`, `InvalidRegionError`, `Toolbox.__init__`,
  the `region` property), in both copies: `src/toolbox.py` and the older
  `src/utils.py`. A raw region string is accepted only if it is `"europe-west2"`
  or `"us-east1"`. Any other string is rejected with a fixed message, and no
  client is built. Only a validated value ever reaches the "datasets" query
  template.
- **Schema flattening** (`_process_schema_field`, `get_column_descriptions`)
  and the **relation filter** (`get_relation_descriptions`). A pre-order walk
  of the nested `SchemaField` tree emits dot-joined paths for described
  fields. Each row's `column` is derived from its path. Relations are kept when
  their description is not `None`.
- **Report formatting** (`Formatter` in `src/formatter.py`). Each row kind
  becomes a fixed-layout block. `join_entries` frames the blocks with `=====`
  delimiter lines under a header, or shows `NO INFORMATION`.

Files and modules:

| file | module | models |
|---|---|---|
| `wrappers.dfy` | `Wrappers` | `Option` (Python `None`) and `Result` (a raised exception) |
| `text.dfy` | `Text` | `str.join`, `str.split` on one character, text before the first `.` |
| `regions.dfy` | `Regions` | `RegionEnum`, `InvalidRegionError` and region validation; the two source copies are word for word the same |
| `bigquery.dfy` | `BigQuery` | the client library boundary: clients it was asked to build, query jobs, job labels |
| `tools.dfy` | `Tools` | `src/toolbox.py`: the `Toolbox` class, relation listing, column listing |
| `schema.dfy` | `Schema` | `src/toolbox.py`: `SchemaField` trees and `_process_schema_field` |
| `legacy_utils.dfy` | `LegacyUtils` | `src/utils.py`: the older `Toolbox` |
| `formatter.dfy` | `Formatter` | `src/formatter.py` |
| `examples_scenarios.dfy` | `Scenarios` | concrete cases: those of `tests/test_toolbox.py`, plus two small trees showing how fields with a missing or empty description are treated |

How the source's forms were mapped:

- `_process_schema_field` builds a list and extends it in a loop over the
  subfields. It is modelled as the recursive method `Schema.ProcessSchemaField`
  with that loop, proved equal to the function `Schema.Flatten`.
  `get_column_descriptions` is likewise the method `Tools.GetColumnDescriptions`,
  with its loop over the top-level fields.
- `Flatten` is checked against an independent reference, `Schema.Nodes`. That
  function lists every node of the tree in pre-order together with its chain
  of names from the root.
- A Python constructor that raises cannot be a Dafny constructor. So
  `Toolbox(region)` is the static method `Toolbox.Create`, which returns a
  `Result`. Its `Sdk` argument stands for the client library and records every
  client built, so the contract can state that a rejected region builds none.
- The `Formatter` static methods are pure functions. Each contract gives the
  exact output string. The `...Lines` lemmas split that output on newlines and
  show the fixed lines in their fixed order.

Behaviour worth knowing, as the code has it:

- `join_entries` uses `NO INFORMATION` whenever the joined body is the empty
  string. That covers no entries and also a single empty entry (`[""]`).
- Schema flattening tests the description for truthiness, so `None` and `""`
  both emit nothing. The relation filter tests `is not None`, so a relation
  with an empty description is kept.
- The path join is `f"{parent}.{name}" if parent else name`. A path is the
  dot-join of the root-to-node names only when those names are non-empty.
  BigQuery requires non-empty names, so `FlattenIsPreOrder` requires them.
- When no field of a relation is described, `get_column_descriptions` raises:
  the empty `DataFrame` has no `field_path` column. The model returns
  `Failure` in that case.
- `src/toolbox.py` passes the region to the template under the key `region`.
  `src/utils.py` uses `region_name` and builds its client without a location.

## Model

| member | source | states |
|---|---|---|
| `Regions.Lookup` | src/toolbox.py:10-14 | `RegionEnum(value)`: the member found has exactly that value; none is found only when no member has it |
| `Regions.InvalidRegionMessage` | src/toolbox.py:17-30 | the message is exactly `Region '<input>' is not valid. Must be one of: europe-west2, us-east1`, the values joined by ", " in declaration order |
| `Regions.ParseRegion` | src/toolbox.py:86-89 | accepts if and only if the input is "europe-west2" or "us-east1"; the accepted region's value is the input; every rejection carries `InvalidRegionError`'s message |
| `Regions.ParseValue` | src/toolbox.py:95-98 | the canonical value of every region validates back to that region |
| `Regions.RejectsExtension` | src/toolbox.py:86-89 | a valid region with anything added before or after it (the injection shapes) is rejected, and the message quotes the whole input |
| `Regions.UsEast1NotInside` | src/toolbox.py:13-14 | "us-east1" cannot be part of a string equal to "europe-west2", so one value never hides inside the other |
| `BigQuery.Sdk.NewClient` | src/toolbox.py:93 | constructing a client with a location records exactly one more client with that location |
| `Tools.Toolbox.Create` | src/toolbox.py:75-93 | succeeds exactly for the two region names; on success `region` returns the input and one client is built with it as location; on failure the error is the `InvalidRegionError` message and no client is built |
| `Tools.Toolbox.RegionName` | src/toolbox.py:95-98 | the `region` property is always one of the two allow-listed names, the one that validates to the stored region |
| `Tools.Toolbox.AllDatasetDescriptionsJob` | src/toolbox.py:117-126 | the "datasets" template receives the single argument `region`, whose value is allow-listed and is the region validated at construction; the job carries the fixed labels |
| `Tools.RelationDescriptions` | src/toolbox.py:169-185 | the listing has no more rows than there are relations (which rows, and in what order, is stated by the two lemmas below) |
| `Tools.RelationDescriptionsExact` | src/toolbox.py:172-184 | every relation whose description is not `None` is listed, even with an empty description; every row comes from such a relation with its fields copied |
| `Tools.RelationDescriptionsAppend` | src/toolbox.py:172-184 | the listing keeps listing order: listing two runs of relations gives the two listings one after the other |
| `Tools.WithColumn` | src/toolbox.py:247-252 | a row copies the entry's path, description and type; its `column` is the dot-free prefix of the path, followed in the path by a dot or by nothing |
| `Tools.ColumnRows` | src/toolbox.py:247-255 | one row per flattened entry, in entry order, with path, description and type copied; the `column` is the dot-free prefix of the path, followed in the path by a dot or by nothing (the text before the first dot) |
| `Tools.GetColumnDescriptions` | src/toolbox.py:225-255 | the rows are the walks of the top-level fields concatenated in schema order, each with its `column` derived; it fails with pandas' error exactly when no field is described |
| `Tools.ColumnOfTopLevelField` | src/toolbox.py:248-252 | every entry from the walk of a top-level field with a non-empty, dot-free name has that name as its `column` |
| `Tools.ColumnsAreTopLevelNames` | src/toolbox.py:243-255 | when every top-level name is non-empty and dot-free: one row per flattened entry with path, description and type copied, and every row's `column` is the name of a top-level field |
| `Tools.ColumnFromSomeField` | src/toolbox.py:243-252 | when every top-level name is non-empty and dot-free, an entry from the walk of a schema takes its `column` from one of the schema's top-level field names |
| `Text.FirstSegment` | src/toolbox.py:250-252 | the derived column is a dot-free prefix of the path, followed by a dot or by nothing |
| `Text.FirstSegmentIsSplitHead` | src/toolbox.py:250-252 | the derived column is the first piece of splitting the path on '.', as `str.split(".")[0]` takes it |
| `Text.FirstSegmentUnique` | src/toolbox.py:250-252 | that prefix is unique: any dot-free prefix followed by a dot or by nothing is the derived column |
| `Schema.Flatten` | src/toolbox.py:204-223 | a described field's own entry, at its full path, comes first in its walk, before any entry of its subfields |
| `Schema.FlattenAll` | src/toolbox.py:219-221 | no subfields give no entries; when the first subfield is described, its own entry at its full path opens the run's walk |
| `Schema.ProcessSchemaField` | src/toolbox.py:187-223 | the list built by the loop over subfields equals the walk `Flatten` |
| `Schema.FlattenAllStep` | src/toolbox.py:219-221 | one step of the loops over fields (here over subfields, and at src/toolbox.py:244-245 over top-level fields): the walk of the first `i + 1` fields is the walk of the first `i` extended by the next field's walk |
| `Schema.FlattenAllAppend` | src/toolbox.py:219-221 | walking two runs of sibling fields gives their walks one after the other, in declared order |
| `Schema.JoinPathChain` | src/toolbox.py:205 | with non-empty names, the path passed down is the dot-join of the names so far, with no leading dot at the top level |
| `Schema.FlattenIsPreOrder` | src/toolbox.py:204-223 | for a tree whose names are all non-empty: the walk is the pre-order list of the described nodes: each entry's path is the dot-joined root-to-node names, its description and type are the node's own, and nothing else is emitted |
| `Schema.FlattenAllIsPreOrder` | src/toolbox.py:219-221 | for a run of sibling fields whose names (at every depth) are non-empty, below ancestor names that are each non-empty (none at the top level): the walk is the pre-order list of their described nodes, in declared order |
| `Schema.FlattenCount` | src/toolbox.py:208-221 | the walk has exactly one entry per node with a truthy description, at any depth, whatever the names |
| `Schema.FlattenAllCount` | src/toolbox.py:219-221 | the same count for a run of sibling fields |
| `Schema.FlattenEmptyIff` | src/toolbox.py:209-221 | the walk is empty if and only if no node of the tree has a truthy description |
| `Schema.FlattenEntriesDescribed` | src/toolbox.py:209-216 | every emitted entry has a non-empty description |
| `Schema.FlattenAllEntriesDescribed` | src/toolbox.py:219-221 | the same for a run of sibling fields |
| `Schema.FlattenPathsExtend` | src/toolbox.py:204-221 | every path in a field's walk is the field's own path, alone or followed by a dot and more |
| `Schema.FlattenAllPathsExtend` | src/toolbox.py:219-221 | every path in the subfields' walks starts with the parent path and a dot |
| `LegacyUtils.Toolbox.Create` | src/utils.py:76-92 | succeeds exactly for the two region names, with `region` returning the input and one client built without a location; otherwise the `InvalidRegionError` message, and no client is built |
| `LegacyUtils.Toolbox.RegionName` | src/utils.py:94-97 | `region` is always one of the two allow-listed names, the one that validates to the stored region |
| `LegacyUtils.Toolbox.DatasetDescriptionsJob` | src/utils.py:116-126 | the "datasets" template receives the single argument `region_name`, an allow-listed value equal to the validated region, never the raw input |
| `Formatter.JoinEntries` | src/formatter.py:19-37 | for `[]` or `[""]`: `header + "\n=====\nNO INFORMATION\n====="`; otherwise the header then each entry after a `\n=====\n` line, then `\n=====`; always starts with `header + "\n=====\n"` and ends with `"\n====="` |
| `Text.JoinEmptyIff` | src/formatter.py:35 | the joined body is empty, so the placeholder is used, if and only if there are no entries or a single empty one |
| `Formatter.FramedIsJoin` | src/formatter.py:35-36 | a delimiter line followed by the `"\n=====\n"`-join equals each entry preceded by a delimiter line |
| `Formatter.FramedEmbeds` | src/formatter.py:35 | entry `i` sits in the framed body right after the entries before it and one delimiter line |
| `Formatter.EntryEmbedded` | src/formatter.py:35-36 | every entry appears verbatim in the report, newlines and `=====` included, at the offset fixed by the header and the entries before it |
| `Formatter.Show` | src/formatter.py:79 | an f-string renders a missing value as `None` and a present value as itself |
| `Formatter.FormatDataset` | src/formatter.py:39-59 | the block is exactly `Name: <dataset>`, `-----`, `Description: <description>` joined by newlines |
| `Formatter.FormatDatasetObject` | src/formatter.py:61-82 | the block is exactly the five lines Name, Created, Last modified, `-----`, Description; a `None` description renders as `None` |
| `Formatter.FormatRelation` | src/formatter.py:84-106 | the block is exactly the six lines Name, Type, Created, Last modified, `-----`, Description |
| `Formatter.FormatColumn` | src/formatter.py:108-129 | the block is exactly the five lines Name, Field path, Data type, `-----`, Description |
| `Formatter.FormatQueryHistory` | src/formatter.py:131-152 | the block is exactly the four lines Job ID, Created at, `-----`, Query |
| `Formatter.DatasetLines` | src/formatter.py:52-58 | split on newlines, a dataset block gives its fixed lines in order, then the description's own lines |
| `Formatter.DatasetObjectLines` | src/formatter.py:73-81 | split on newlines, the block gives Name, Created, Last modified, `-----`, then the description's lines |
| `Formatter.RelationLines` | src/formatter.py:96-105 | split on newlines, the block gives Name, Type, Created, Last modified, `-----`, then the description's lines |
| `Formatter.ColumnLines` | src/formatter.py:120-128 | split on newlines, the block gives Name, Field path, Data type, `-----`, then the description's lines |
| `Formatter.QueryHistoryLines` | src/formatter.py:144-151 | split on newlines, the block gives Job ID, Created at, `-----`, then the query's own lines: the query text is kept verbatim |
| `Scenarios.InjectionAttemptsRejected` | tests/test_toolbox.py:50-62 | each injection-shaped region string of the test is rejected |
| `Scenarios.NestedFieldsFlatten` | tests/test_toolbox.py:232-273 | grandparent > parent > child give the entries `grandparent`, `grandparent.parent`, `grandparent.parent.child` with their descriptions and types |
| `Scenarios.UndescribedMiddleStillVisited` | src/toolbox.py:209-221 | A (described) > B (not described) > C (described) give exactly `A` and `A.B.C` |
| `Scenarios.NestingSchemaEntries` | tests/test_toolbox.py:275-316 | the schema `[top, parent[child]]` flattens to `top`, `parent`, `parent.child`, in that order |
| `Scenarios.NestingSchemaColumns` | src/toolbox.py:248-252 | the row for `parent.child` has column `parent` |
| `Scenarios.TwoLevelRows` | src/toolbox.py:247-255 | a top-level field, a record and its nested field, with dot-free names, give the rows with columns top, record, record |
| `Scenarios.NestingSchemaRows` | tests/test_toolbox.py:304-316 | the nesting schema's rows are `top`, `parent`, `parent.child` with columns `top`, `parent`, `parent` and the test's descriptions and types |
| `Scenarios.RowWithColumn` | src/toolbox.py:250-252 | an entry whose path is a dot-free name, alone or followed by a dot, gets that name as its `column` |
| `Scenarios.ColumnDescriptionsWithNesting` | tests/test_toolbox.py:275-316 | `get_column_descriptions` on the test's schema succeeds with exactly the three rows `top`, `parent`, `parent.child`, in that order, with their columns |
| `Scenarios.EmptyDescriptionContrast` | src/toolbox.py:182 | an empty description keeps a relation but drops a schema field |

## Left out

- Every call into the BigQuery client library is outside the model: `list_datasets`, `get_dataset`, `list_tables`, `get_table`, `query` and `list_jobs`. They are network I/O. Their results are inputs here: a `seq<Relation>` for the relation listing and a `seq<SchemaField>` for the column listing.
- `get_dataset_ids` and `get_dataset_details` are single pass-through calls to the client library, with no logic of their own.
- `execute_query` runs a query through the client library. Only its fixed label map (`BigQuery.JobLabels`) is modelled. It is attached to the job that the dataset-description functions return.
- `get_jobs` takes the first job from a client iterator. It is pure I/O.
- The `Query` class loads a `.sql` template from disk and applies Python's `str.format` to it. The templates are not part of this model. A job records the template name and the arguments it would receive.
- pandas mechanics are not modelled: `DataFrame` and `Series` construction, column reordering, `isoformat`. Rows are Dafny records, and timestamps are their text.
- `src/server.py` (MCP server registration, stdio transport, a `chdir` context manager) is not part of this model.
- `Formatter.FormatDataset`: its row fields are text. A null description coming from the catalog query would render as `None`, as `FormatDatasetObject` shows for `Option` values.
- `Tools.Toolbox.Create`: building the client is assumed to succeed. The model does not cover the client library raising for a valid region, for example when no default credentials or project are found. Success is therefore exactly "the region is allow-listed".
- `LegacyUtils.Toolbox.Create`: the same; the location-less `Client()` is assumed to succeed, and credential and project errors are not modelled.
- `Tools.ColumnOfTopLevelField`: stated for a top-level name that is non-empty and dot-free, as BigQuery requires. An empty top-level name makes its subfields' paths start at their own names, so their `column` is the subfield's name, not a top-level name. A dotted name is split at its own dot.
- `Tools.ColumnsAreTopLevelNames`: stated for schemas whose top-level names are all non-empty and dot-free, for the same reason.
- `Tools.ColumnFromSomeField`: stated for schemas whose top-level names are all non-empty and dot-free, for the same reason.
- `Schema.FlattenIsPreOrder`: stated for trees whose field names are all non-empty, as BigQuery requires. With an empty name at the top, the code's path join drops the dot for that field's children.
- `Schema.FlattenAllIsPreOrder`: stated for runs of sibling fields whose names at every depth are non-empty, below ancestor names that are each non-empty, for the same reason.
- The `mode` of a `SchemaField` is never read by the code, so it is not modelled.
