/** Records, row parsing, the selection predicate and projection: the
    per-record logic of the pipeline, as pure functions. */
module Records {
  import opened Wrappers
  import opened Text

  /** A record maps column names to string values. */
  type Record = map<string, string>

  /** The property name JavaScript gives an object key that is `undefined`. */
  const UndefinedKey: string := "undefined"

  /** The column the `i`-th value of a row is stored under: the schema's
      `i`-th name, or `undefined` past the end of the schema. */
  function Key(schema: seq<string>, i: nat): string
  {
    if i < |schema| then schema[i] else UndefinedKey
  }

  /** The record a row's values build when folded, left to right, into an
      empty object, each stored under its column's key. */
  function Zip(schema: seq<string>, values: seq<string>): (record: Record)
    ensures |record| <= |values|
    decreases |values|
  {
    if values == [] then map[]
    else
      var n := |values| - 1;
      Zip(schema, values[..n])[Key(schema, n) := values[n]]
  }

  /** The record has one key per value: the value's column. */
  lemma {:induction false} ZipKeys(schema: seq<string>, values: seq<string>)
    ensures Zip(schema, values).Keys == set i | 0 <= i < |values| :: Key(schema, i)
    decreases |values|
  {
    if values != [] {
      var n := |values| - 1;
      ZipKeys(schema, values[..n]);
      assert forall i :: 0 <= i < n ==> values[..n][i] == values[i];
    }
  }

  /** A value is what the row holds under its key unless a later value of the
      row lands on the same key. */
  lemma {:induction false} ZipAt(schema: seq<string>, values: seq<string>, i: nat)
    requires i < |values|
    requires forall j :: i < j < |values| ==> Key(schema, j) != Key(schema, i)
    ensures Key(schema, i) in Zip(schema, values) && Zip(schema, values)[Key(schema, i)] == values[i]
    decreases |values|
  {
    var n := |values| - 1;
    if i < n {
      ZipAt(schema, values[..n], i);
    }
  }

  /** No two columns share a name. */
  predicate DistinctColumns(schema: seq<string>)
  {
    forall i, j :: 0 <= i < j < |schema| ==> schema[i] != schema[j]
  }

  /** A well-formed row (as many values as columns, distinct column names)
      maps exactly the schema's columns, each to its own value. */
  lemma RowOfSchema(schema: seq<string>, values: seq<string>)
    requires |values| == |schema|
    requires DistinctColumns(schema)
    ensures Zip(schema, values).Keys == set c | c in schema
    ensures forall i :: 0 <= i < |schema| ==> Zip(schema, values)[schema[i]] == values[i]
  {
    var row := Zip(schema, values);
    ZipKeys(schema, values);
    forall c | c in schema ensures c in row {
      var i :| 0 <= i < |schema| && schema[i] == c;
      assert Key(schema, i) == c;
    }
    forall i | 0 <= i < |schema| ensures row[schema[i]] == values[i] {
      ZipAt(schema, values, i);
    }
  }

  /** A row with fewer values than columns leaves the missing columns out
      of the record rather than mapping them to anything. */
  lemma ShortRowOmitsColumns(schema: seq<string>, values: seq<string>, j: nat)
    requires |values| <= j < |schema|
    requires DistinctColumns(schema)
    ensures schema[j] !in Zip(schema, values)
  {
    ZipKeys(schema, values);
  }

  /** A line of comma-separated values, zipped with the schema. Even an
      empty line has one (empty) value, so every line yields a record with
      at least one column. */
  function ParseRow(schema: seq<string>, line: string): (row: Record)
    ensures row != map[]
  {
    Zip(schema, Split(line, ','))
  }

  /** The lines of the tabular source. */
  function Lines(source: string): (lines: seq<string>)
    ensures |lines| >= 1
  {
    Split(source, '\n')
  }

  /** The schema: the comma-separated names on the first line. */
  function Header(source: string): (schema: seq<string>)
    ensures |schema| >= 1
  {
    Split(Lines(source)[0], ',')
  }

  /** Each line zipped with the schema, in order. */
  function Rows(schema: seq<string>, lines: seq<string>): (rows: seq<Record>)
    ensures |rows| == |lines|
    decreases |lines|
  {
    if lines == [] then []
    else [ParseRow(schema, lines[0])] + Rows(schema, lines[1..])
  }

  /** The `i`-th row is the `i`-th line zipped with the schema. */
  lemma {:induction false} RowsAt(schema: seq<string>, lines: seq<string>, i: nat)
    requires i < |lines|
    ensures Rows(schema, lines)[i] == ParseRow(schema, lines[i])
    decreases i
  {
    if i > 0 {
      RowsAt(schema, lines[1..], i - 1);
    }
  }

  /** The records of the data lines, every line after the first, in order. */
  function Table(source: string): (rows: seq<Record>)
    ensures |rows| == |Lines(source)| - 1
  {
    Rows(Header(source), Lines(source)[1..])
  }

  /** Record `i` of the table is line `i + 1` zipped with the header. */
  lemma TableAt(source: string, i: nat)
    requires i < |Table(source)|
    ensures Table(source)[i] == ParseRow(Header(source), Lines(source)[i + 1])
  {
    RowsAt(Header(source), Lines(source)[1..], i);
  }

  /** Comparators a selection may name; only equality exists. */
  datatype Comparator = Equals

  /** The comparator a comparison symbol names, or None for any other symbol. */
  function GetPredicate(comparison: string): (comparator: Option<Comparator>)
    ensures comparator.Some? <==> comparison == "EQUALS"
  {
    if comparison == "EQUALS" then Some(Equals) else None
  }

  /** The value a record holds in a column, or None (`undefined`) if absent. */
  function Lookup(record: Record, column: string): (v: Option<string>)
    ensures v.Some? <==> column in record
    ensures v.Some? ==> v.value == record[column]
  {
    if column in record then Some(record[column]) else None
  }

  /** Applies a comparator to the value checked and the value compared with;
      equality is JavaScript's strict equality, under which two `undefined`s
      are equal. */
  function Holds(comparator: Comparator, valueToCheck: Option<string>, valueToCompare: Option<string>): (holds: bool)
    ensures holds <==> valueToCheck == valueToCompare
  {
    match comparator
    case Equals => valueToCheck == valueToCompare
  }

  /** The EQUALS predicate on one record: a present column matches its own
      value, an absent one matches only `undefined`. */
  predicate Matches(record: Record, column: string, value: Option<string>)
    ensures Matches(record, column, value) <==>
      if column in record then value == Some(record[column]) else value == None
  {
    Holds(Equals, Lookup(record, column), value)
  }

  /** The records that satisfy the EQUALS predicate, in their original order. */
  function Matching(records: seq<Record>, column: string, value: Option<string>): (kept: seq<Record>)
    ensures |kept| <= |records|
    decreases |records|
  {
    if records == [] then []
    else
      var n := |records| - 1;
      Matching(records[..n], column, value) + if Matches(records[n], column, value) then [records[n]] else []
  }

  /** The filter is sound and complete: a record is kept exactly when it is
      one of the input records and satisfies the predicate. */
  lemma {:induction false} MatchingMembers(records: seq<Record>, column: string, value: Option<string>)
    ensures forall r :: r in Matching(records, column, value) <==> r in records && Matches(r, column, value)
    decreases |records|
  {
    if records != [] {
      var n := |records| - 1;
      MatchingMembers(records[..n], column, value);
      assert records == records[..n] + [records[n]];
    }
  }

  /** Filtering one more record appends it exactly when it matches. */
  lemma MatchingStep(records: seq<Record>, k: nat, column: string, value: Option<string>)
    requires k < |records|
    ensures Matching(records[..k + 1], column, value)
         == Matching(records[..k], column, value) + if Matches(records[k], column, value) then [records[k]] else []
  {
    assert records[..k + 1][..k] == records[..k];
  }

  /** Filtering distributes over concatenation. */
  lemma {:induction false} MatchingAppend(a: seq<Record>, b: seq<Record>, column: string, value: Option<string>)
    ensures Matching(a + b, column, value) == Matching(a, column, value) + Matching(b, column, value)
    decreases |b|
  {
    if b == [] {
      assert a + b == a;
    } else {
      var n := |b| - 1;
      var last := if Matches(b[n], column, value) then [b[n]] else [];
      MatchingAppend(a, b[..n], column, value);
      assert (a + b)[..|a + b| - 1] == a + b[..n];
      assert Matching(a, column, value) + Matching(b[..n], column, value) + last
          == Matching(a, column, value) + (Matching(b[..n], column, value) + last);
    }
  }

  /** Filtering a non-empty sequence filters its head, then its tail. */
  lemma MatchingCons(record: Record, rest: seq<Record>, column: string, value: Option<string>)
    ensures Matching([record] + rest, column, value)
         == (if Matches(record, column, value) then [record] else []) + Matching(rest, column, value)
  {
    MatchingAppend([record], rest, column, value);
    assert [record][..0] == [];
  }

  /** Filtering keeps exactly the one matching record when only one does. */
  lemma {:induction false} MatchingSingle(records: seq<Record>, k: nat, column: string, value: Option<string>)
    requires k < |records| && Matches(records[k], column, value)
    requires forall j :: 0 <= j < |records| && j != k ==> !Matches(records[j], column, value)
    ensures Matching(records, column, value) == [records[k]]
    decreases |records|
  {
    var n := |records| - 1;
    if k == n {
      MatchingNone(records[..n], column, value);
    } else {
      MatchingSingle(records[..n], k, column, value);
    }
  }

  /** Filtering keeps nothing when no record matches. */
  lemma {:induction false} MatchingNone(records: seq<Record>, column: string, value: Option<string>)
    requires forall j :: 0 <= j < |records| ==> !Matches(records[j], column, value)
    ensures Matching(records, column, value) == []
    decreases |records|
  {
    if records != [] {
      MatchingNone(records[..|records| - 1], column, value);
    }
  }

  /** `xs` is `ys` with some elements left out and the rest in order. */
  predicate IsSubsequence<T(==)>(xs: seq<T>, ys: seq<T>)
    decreases |ys|
  {
    if xs == [] then true
    else if ys == [] then false
    else
      var m, n := |xs| - 1, |ys| - 1;
      (xs[m] == ys[n] && IsSubsequence(xs[..m], ys[..n])) || IsSubsequence(xs, ys[..n])
  }

  /** The selection keeps arrival order: its survivors form a subsequence. */
  lemma {:induction false} MatchingIsSubsequence(records: seq<Record>, column: string, value: Option<string>)
    ensures IsSubsequence(Matching(records, column, value), records)
    decreases |records|
  {
    if records != [] {
      var n := |records| - 1;
      MatchingIsSubsequence(records[..n], column, value);
      var kept := Matching(records, column, value);
      if !Matches(records[n], column, value) {
        assert kept == Matching(records[..n], column, value);
        if kept != [] {
          assert IsSubsequence(kept, records[..n]);
        }
      } else {
        assert kept[..|kept| - 1] == Matching(records[..n], column, value);
      }
    }
  }

  /** The record narrowed to the columns listed in `headers`, with their values. */
  function ProjectRecord(record: Record, headers: seq<string>): (projected: Record)
    ensures projected.Keys <= record.Keys
  {
    map k | k in record && k in headers :: record[k]
  }

  /** Projection keeps exactly the record's columns that are listed, each
      with its value. */
  lemma ProjectRecordFields(record: Record, headers: seq<string>)
    ensures ProjectRecord(record, headers).Keys == record.Keys * (set h | h in headers)
    ensures forall k :: k in ProjectRecord(record, headers) ==> ProjectRecord(record, headers)[k] == record[k]
  {
  }

  /** Projecting a projected record with the same headers changes nothing. */
  lemma ProjectIdempotent(record: Record, headers: seq<string>)
    ensures ProjectRecord(ProjectRecord(record, headers), headers) == ProjectRecord(record, headers)
  {
  }

  /** A record whose columns are all listed is projected to itself. */
  lemma ProjectListedColumns(record: Record, headers: seq<string>)
    requires forall k :: k in record ==> k in headers
    ensures ProjectRecord(record, headers) == record
  {
  }

  /** Each record narrowed to `headers`, in order. */
  function Projected(records: seq<Record>, headers: seq<string>): (out: seq<Record>)
    ensures |out| == |records|
    ensures forall i :: 0 <= i < |records| ==> out[i] == ProjectRecord(records[i], headers)
    decreases |records|
  {
    if records == [] then []
    else [ProjectRecord(records[0], headers)] + Projected(records[1..], headers)
  }

  /** Projecting a whole sequence twice is projecting it once. */
  lemma ProjectedIdempotent(records: seq<Record>, headers: seq<string>)
    ensures Projected(Projected(records, headers), headers) == Projected(records, headers)
  {
    var once := Projected(records, headers);
    forall i | 0 <= i < |records| ensures Projected(once, headers)[i] == once[i] {
      ProjectIdempotent(records[i], headers);
    }
  }

  /** Projection distributes over concatenation. */
  lemma ProjectedAppend(a: seq<Record>, b: seq<Record>, headers: seq<string>)
    ensures Projected(a + b, headers) == Projected(a, headers) + Projected(b, headers)
  {
  }

  /** Projection maps a subsequence to a subsequence. */
  lemma {:induction false} ProjectedSubsequence(xs: seq<Record>, ys: seq<Record>, headers: seq<string>)
    requires IsSubsequence(xs, ys)
    ensures IsSubsequence(Projected(xs, headers), Projected(ys, headers))
    decreases |ys|
  {
    if xs != [] {
      var m, n := |xs| - 1, |ys| - 1;
      var pxs, pys := Projected(xs, headers), Projected(ys, headers);
      assert pxs[..m] == Projected(xs[..m], headers);
      assert pys[..n] == Projected(ys[..n], headers);
      if xs[m] == ys[n] && IsSubsequence(xs[..m], ys[..n]) {
        ProjectedSubsequence(xs[..m], ys[..n], headers);
      } else {
        ProjectedSubsequence(xs, ys[..n], headers);
      }
    }
  }
}
