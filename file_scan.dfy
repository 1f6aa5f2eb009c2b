/** The source operator: it reads the whole tabular text as soon as it is
    constructed, takes the first line as the schema and forwards one record
    per later line, in line order, to every selection in its `nextList`. */
module Scan {
  import opened Wrappers
  import opened Text
  import opened Records
  import opened QueryNodes

  /** The position of the first selection whose comparison names no
      comparator, or the length of the list when there is none. */
  function FirstUnknown(selections: seq<Selection>): (j: nat)
    ensures j <= |selections|
    ensures forall i :: 0 <= i < j ==> selections[i].KnownComparator()
    ensures j < |selections| ==> !selections[j].KnownComparator()
    decreases |selections|
  {
    if selections == [] then 0
    else if !selections[0].KnownComparator() then 0
    else 1 + FirstUnknown(selections[1..])
  }

  /** No selection of `selections` accepts `record`. */
  predicate Unmatched(selections: seq<Selection>, record: Record)
  {
    forall i :: 0 <= i < |selections| ==> !Matches(record, selections[i].header, selections[i].value)
  }

  /** What forwarding `record` to each selection of `selections` in turn
      logs, every selection being idle with a known comparator. */
  function Broadcast(selections: seq<Selection>, record: Record): (logged: seq<Record>)
    ensures Unmatched(selections, record) ==> logged == []
    decreases |selections|
  {
    if selections == [] then []
    else
      var n := |selections| - 1;
      Broadcast(selections[..n], record) + selections[n].Reaction(record)
  }

  /** Broadcasting to one more selection adds what that selection forwards. */
  lemma BroadcastSnoc(selections: seq<Selection>, i: nat, record: Record)
    requires i < |selections|
    ensures Broadcast(selections[..i + 1], record)
         == Broadcast(selections[..i], record)
          + selections[i].Reaction(record)
  {
    assert selections[..i + 1][..i] == selections[..i];
  }

  /** The selections of the list, as a set. */
  function SelectionsOf(selections: seq<Selection>): set<Selection>
  {
    set sel | sel in selections
  }

  /** The projections downstream of `selections`. */
  function ProjectionsOf(selections: seq<Selection>): set<Projection>
  {
    set sel, p | sel in selections && p in sel.nextList :: p
  }

  /** Every selection of the list, and every projection after it, logs to
      `console`. */
  ghost predicate WiredTo(selections: seq<Selection>, console: Console)
  {
    forall sel :: sel in selections ==> sel.console == console && sel.Wired()
  }

  /** Nothing is pending in `selections` or downstream of them. */
  ghost predicate AllIdle(selections: seq<Selection>)
    reads SelectionsOf(selections), ProjectionsOf(selections)
  {
    && (forall sel :: sel in selections ==> sel.unprocessedRecords == [])
    && (forall sel, p :: sel in selections && p in sel.nextList ==> p.unprocessedRecords == [])
  }

  class FileScan {
    const nextList: seq<Selection>
    const source: string
    /** The console the pipeline after this scan logs to. */
    ghost const console: Console
    var currentRow: nat
    var schema: seq<string>
    /** Set when a downstream operator failed and the scan stopped early;
        in JavaScript the error propagates out of the constructor. */
    var aborted: bool

    /** Reads the whole source at construction, forwarding every record. */
    constructor (nextList: seq<Selection>, source: string, ghost console: Console)
      requires WiredTo(nextList, console) && AllIdle(nextList)
      modifies SelectionsOf(nextList), ProjectionsOf(nextList), console
      ensures this.nextList == nextList && this.source == source && this.console == console
      ensures AllIdle(nextList)
      ensures aborted == (Table(source) != [] && FirstUnknown(nextList) < |nextList|)
      ensures schema == if |Lines(source)| > 1 then Header(source) else []
      ensures currentRow == if aborted then 1 else |Lines(source)|
      ensures console.output == old(console.output) +
        if aborted then Broadcast(nextList[..FirstUnknown(nextList)], Table(source)[0])
        else Delivered(Table(source))
    {
      this.nextList := nextList;
      this.source := source;
      this.console := console;
      currentRow := 1;
      schema := [];
      aborted := false;
      new;
      var ok := Init();
      aborted := !ok;
    }

    /** What forwarding each of `records` in turn logs. */
    function Delivered(records: seq<Record>): (logged: seq<Record>)
      ensures (forall i :: 0 <= i < |records| ==> Unmatched(nextList, records[i])) ==> logged == []
      decreases |records|
    {
      if records == [] then []
      else
        var n := |records| - 1;
        Delivered(records[..n]) + Broadcast(nextList, records[n])
    }

    /** Forwarding one more record adds what it broadcasts. */
    lemma DeliveredStep(records: seq<Record>, k: nat)
      requires k < |records|
      ensures Delivered(records[..k + 1]) == Delivered(records[..k]) + Broadcast(nextList, records[k])
    {
      assert records[..k + 1][..k] == records[..k];
    }

    /** When every selection is known, the log after one more record is the
        log of the records so far followed by that record's broadcast. */
    lemma DeliveredAfter(logged: seq<Record>, records: seq<Record>, k: nat)
      requires k < |records| && FirstUnknown(nextList) == |nextList|
      ensures logged + Delivered(records[..k]) + Broadcast(nextList[..FirstUnknown(nextList)], records[k])
           == logged + Delivered(records[..k + 1])
    {
      assert nextList[..FirstUnknown(nextList)] == nextList;
      DeliveredStep(records, k);
      AppendAssociative(logged, Delivered(records[..k]), Broadcast(nextList, records[k]));
    }

    /** Forwards the record of every line after the first, in line order;
        stops, with ok false, at the first failure downstream. */
    method Init() returns (ok: bool)
      requires currentRow == 1 && schema == []
      requires WiredTo(nextList, console) && AllIdle(nextList)
      modifies this`currentRow, this`schema, SelectionsOf(nextList), ProjectionsOf(nextList), console
      ensures AllIdle(nextList)
      ensures ok == (Table(source) == [] || FirstUnknown(nextList) == |nextList|)
      ensures schema == if |Lines(source)| > 1 then Header(source) else []
      ensures currentRow == if ok then |Lines(source)| else 1
      ensures console.output == old(console.output) +
        if ok then Delivered(Table(source))
        else Broadcast(nextList[..FirstUnknown(nextList)], Table(source)[0])
    {
      ghost var table := Table(source);
      ok := true;
      while currentRow < |Split(source, '\n')|
        invariant 1 <= currentRow <= |table| + 1
        invariant schema == if currentRow > 1 then Header(source) else []
        invariant currentRow > 1 ==> FirstUnknown(nextList) == |nextList|
        invariant AllIdle(nextList)
        invariant console.output == old(console.output) + Delivered(table[..currentRow - 1])
      {
        ok := ScanRow();
        if !ok {
          assert table[..0] == [];
          return;
        }
        DeliveredAfter(old(console.output), table, currentRow - 2);
      }
      assert table[..currentRow - 1] == table;
    }

    /** One pass of the scan loop: forwards the record of line `currentRow`
        and moves on to the next line. When a selection fails, the failure
        propagates before the line counter moves (ok is false). */
    method ScanRow() returns (ok: bool)
      requires 1 <= currentRow < |Lines(source)|
      requires schema == if currentRow > 1 then Header(source) else []
      requires WiredTo(nextList, console) && AllIdle(nextList)
      modifies this`currentRow, this`schema, SelectionsOf(nextList), ProjectionsOf(nextList), console
      ensures AllIdle(nextList)
      ensures schema == Header(source)
      ensures ok == (FirstUnknown(nextList) == |nextList|)
      ensures currentRow == if ok then old(currentRow) + 1 else old(currentRow)
      ensures console.output == old(console.output)
        + Broadcast(nextList[..FirstUnknown(nextList)], Table(source)[old(currentRow) - 1])
    {
      ghost var record := Table(source)[currentRow - 1];
      var row := ReadRow();
      assert row == record;
      ok := Forward(row);
      if ok {
        currentRow := currentRow + 1;
      }
    }

    /** The record of line `currentRow`: the line's comma-separated values
        zipped with the schema, which is read from the first line when not
        yet set. */
    method ReadRow() returns (row: Record)
      requires currentRow < |Lines(source)|
      modifies this`schema
      ensures schema == if old(schema) == [] then Header(source) else old(schema)
      ensures row == ParseRow(schema, Lines(source)[currentRow])
      ensures 1 <= currentRow && (old(schema) == [] || old(schema) == Header(source)) ==>
        row == Table(source)[currentRow - 1]
    {
      var rows := Split(source, '\n');
      if |schema| == 0 {
        schema := Split(rows[0], ',');
      }
      row := ParseRow(schema, rows[currentRow]);
      if 1 <= currentRow && schema == Header(source) {
        TableAt(source, currentRow - 1);
      }
    }

    /** Hands `result` to every selection of `nextList`, in list order; a
        selection that fails stops the delivery to the rest. */
    method Forward(result: Record) returns (ok: bool)
      requires WiredTo(nextList, console) && AllIdle(nextList)
      modifies SelectionsOf(nextList), ProjectionsOf(nextList), console
      ensures AllIdle(nextList)
      ensures ok == (FirstUnknown(nextList) == |nextList|)
      ensures console.output == old(console.output) + Broadcast(nextList[..FirstUnknown(nextList)], result)
    {
      ghost var stop := FirstUnknown(nextList);
      var i := 0;
      while i < |nextList|
        invariant 0 <= i <= stop
        invariant AllIdle(nextList)
        invariant console.output == old(console.output) + Broadcast(nextList[..i], result)
      {
        ok := HandOn(i, result, old(console.output));
        if !ok {
          return;
        }
        i := i + 1;
      }
      assert i == stop == |nextList|;
      return true;
    }

    /** One step of the delivery: hands `result` to the selection at
        position `i`, which leaves every other operator untouched. */
    method HandOn(i: nat, result: Record, ghost logged: seq<Record>) returns (ok: bool)
      requires i < |nextList|
      requires WiredTo(nextList, console) && AllIdle(nextList)
      requires console.output == logged + Broadcast(nextList[..i], result)
      modifies SelectionsOf(nextList), ProjectionsOf(nextList), console
      ensures AllIdle(nextList)
      ensures ok == nextList[i].KnownComparator()
      ensures ok ==> console.output == logged + Broadcast(nextList[..i + 1], result)
      ensures !ok ==> console.output == old(console.output)
    {
      var sel := nextList[i];
      assert sel.Idle();
      ok := sel.Receive(result);
      assert AllIdle(nextList) by {
        forall other, q | other in nextList && q in other.nextList && q !in sel.nextList
          ensures q.unprocessedRecords == []
        {
          assert q.unprocessedRecords == old(q.unprocessedRecords);
        }
      }
      if ok {
        assert console.output == logged + Broadcast(nextList[..i + 1], result) by {
          BroadcastSnoc(nextList, i, result);
          AppendAssociative(logged, Broadcast(nextList[..i], result), sel.Reaction(result));
        }
      } else {
        assert console.output == old(console.output) + [];
      }
    }
  }

  /** In the executor's chain, broadcasting one record to the selection logs
      the record narrowed when it matches, and nothing otherwise. */
  lemma ChainStep(sel: Selection, p: Projection, r: Record)
    requires sel.nextList == [p] && p.nextList == [Log]
    ensures Broadcast([sel], r) == Projected(Matching([r], sel.header, sel.value), p.headers)
  {
    assert [sel][..0] == [];
    SelectionChain(sel, p, Matching([r], sel.header, sel.value));
    sel.ReactionSingle(r);
  }

  /** In the executor's chain scan -> selection -> projection -> console
      logger, the console receives the matching records, narrowed, in
      source order. */
  lemma {:induction false} ScanChain(scan: FileScan, sel: Selection, p: Projection, records: seq<Record>)
    requires scan.nextList == [sel] && sel.nextList == [p] && p.nextList == [Log]
    ensures scan.Delivered(records) == Projected(Matching(records, sel.header, sel.value), p.headers)
    decreases |records|
  {
    if records != [] {
      var n := |records| - 1;
      var r := records[n];
      ScanChain(scan, sel, p, records[..n]);
      ChainStep(sel, p, r);
      assert records[..n] + [r] == records;
      MatchingAppend(records[..n], [r], sel.header, sel.value);
      ProjectedAppend(Matching(records[..n], sel.header, sel.value), Matching([r], sel.header, sel.value), p.headers);
    }
  }
}
