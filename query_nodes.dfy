/** The operators downstream of the scan: projection and selection, and the
    console the projection logs to. Each operator owns a FIFO queue of
    pending input records; `Receive` appends to it and starts the operator's
    processing only when the queue goes from empty to one record, and the
    processing drains the queue one record at a time, forwarding results to
    every receiver in the operator's `nextList`, in list order.

    Receiver lists are typed by the stage that follows in the executor's
    fixed plan: a selection forwards to projections, a projection to the
    console logger. Every operator of a pipeline logs to one console, as
    every `console.log` call writes to the one global console. */
module QueryNodes {
  import opened Wrappers
  import opened Records

  /** The console: every record logged is appended to its output. */
  class Console {
    var output: seq<Record>

    constructor ()
      ensures output == []
    {
      output := [];
    }

    method Log(record: Record)
      modifies this
      ensures output == old(output) + [record]
    {
      output := output + [record];
    }
  }

  /** A receiver of a projection: the function `row => console.log(row)`. */
  datatype Receiver = Log

  /** Concatenation is associative. */
  lemma AppendAssociative(a: seq<Record>, b: seq<Record>, c: seq<Record>)
    ensures a + b + c == a + (b + c)
  {
  }

  /** `n` copies of `record`. */
  function Copies(record: Record, n: nat): seq<Record>
  {
    seq(n, _ => record)
  }

  /** Narrows each record it receives to the listed columns and logs the
      fresh record once per receiver; the input record itself is a value
      and is not changed. */
  class Projection {
    const nextList: seq<Receiver>
    const headers: seq<string>
    const console: Console
    var unprocessedRecords: seq<Record>

    constructor (nextList: seq<Receiver>, headers: seq<string>, console: Console)
      ensures this.nextList == nextList && this.headers == headers && this.console == console
      ensures unprocessedRecords == []
    {
      this.nextList := nextList;
      this.headers := headers;
      this.console := console;
      unprocessedRecords := [];
    }

    /** What forwarding each of `records` in turn logs: one copy of each
        record per receiver. */
    function Logged(records: seq<Record>): (logged: seq<Record>)
      ensures |logged| == |records| * |nextList|
      decreases |records|
    {
      if records == [] then []
      else Copies(records[0], |nextList|) + Logged(records[1..])
    }

    /** Appends `record` to the queue; on the empty-to-one transition the
        queue is drained at once, otherwise the record only waits. */
    method Receive(record: Record)
      modifies this`unprocessedRecords, console
      ensures old(unprocessedRecords) == [] ==>
        && unprocessedRecords == []
        && console.output == old(console.output) + Copies(ProjectRecord(record, headers), |nextList|)
      ensures old(unprocessedRecords) != [] ==>
        && unprocessedRecords == old(unprocessedRecords) + [record]
        && console.output == old(console.output)
    {
      unprocessedRecords := unprocessedRecords + [record];
      var newTotal := |unprocessedRecords|;
      if newTotal == 1 {
        Project();
        assert Projected([record], headers) == [ProjectRecord(record, headers)];
        assert Logged([ProjectRecord(record, headers)]) == Copies(ProjectRecord(record, headers), |nextList|) + Logged([]);
      }
    }

    /** Removes and returns the head of the queue; None when it is empty. */
    method GetNextRecord() returns (head: Option<Record>)
      modifies this`unprocessedRecords
      ensures old(unprocessedRecords) == [] ==> head == None && unprocessedRecords == []
      ensures old(unprocessedRecords) != [] ==>
        head == Some(old(unprocessedRecords)[0]) && unprocessedRecords == old(unprocessedRecords)[1..]
    {
      if unprocessedRecords == [] {
        head := None;
      } else {
        head := Some(unprocessedRecords[0]);
        unprocessedRecords := unprocessedRecords[1..];
      }
    }

    /** Hands `result` to every receiver of `nextList`, in list order, and
        changes nothing else. */
    method Forward(result: Record)
      modifies console
      ensures console.output == old(console.output) + Copies(result, |nextList|)
    {
      var i := 0;
      while i < |nextList|
        invariant 0 <= i <= |nextList|
        invariant console.output == old(console.output) + Copies(result, i)
      {
        match nextList[i]
        case Log => console.Log(result);
        assert Copies(result, i) + [result] == Copies(result, i + 1);
        i := i + 1;
      }
    }

    /** Drains the queue: the head is narrowed to the listed columns and
        forwarded, then the rest of the queue is drained the same way. */
    method Project()
      requires unprocessedRecords != []
      modifies this`unprocessedRecords, console
      ensures unprocessedRecords == []
      ensures console.output == old(console.output) + Logged(Projected(old(unprocessedRecords), headers))
      decreases |unprocessedRecords|
    {
      ghost var input := unprocessedRecords;
      ghost var start := console.output;
      var currentRow := GetNextRecord();
      var reducedRow := ProjectRecord(currentRow.value, headers);
      Forward(reducedRow);
      ghost var head := Copies(reducedRow, |nextList|);
      ghost var tail := Logged(Projected(input[1..], headers));
      assert Logged(Projected(input, headers)) == head + tail;
      if |unprocessedRecords| > 0 {
        Project();
      } else {
        assert tail == [];
      }
      AppendAssociative(start, head, tail);
    }
  }

  /** A projection with a single logger logs exactly what it forwards. */
  lemma {:induction false} ProjectionSingleLog(p: Projection, records: seq<Record>)
    requires p.nextList == [Log]
    ensures p.Logged(records) == records
    decreases |records|
  {
    if records != [] {
      ProjectionSingleLog(p, records[1..]);
      assert Copies(records[0], 1) == [records[0]];
      assert [records[0]] + records[1..] == records;
    }
  }

  /** How many receivers the projections have in all. */
  function ReceiverCount(projections: seq<Projection>): nat
    decreases |projections|
  {
    if projections == [] then 0
    else
      var n := |projections| - 1;
      ReceiverCount(projections[..n]) + |projections[n].nextList|
  }

  /** What forwarding `record` to each projection of `projections` in turn
      logs, every projection being idle: each narrows the record to its own
      columns and logs it at once. */
  function FanOut(projections: seq<Projection>, record: Record): (out: seq<Record>)
    ensures |out| == ReceiverCount(projections)
    decreases |projections|
  {
    if projections == [] then []
    else
      var n := |projections| - 1;
      var p := projections[n];
      FanOut(projections[..n], record) + Copies(ProjectRecord(record, p.headers), |p.nextList|)
  }

  /** Keeps the records whose value in column `header` equals `value` and
      forwards them unchanged; `comparison` names the comparator. */
  class Selection {
    const nextList: seq<Projection>
    const header: string
    const comparison: string
    const value: Option<string>
    /** The console the projections downstream log to. */
    ghost const console: Console
    var unprocessedRecords: seq<Record>

    constructor (nextList: seq<Projection>, header: string, comparison: string, value: Option<string>, ghost console: Console)
      ensures this.nextList == nextList && this.header == header
      ensures this.comparison == comparison && this.value == value
      ensures this.console == console
      ensures unprocessedRecords == []
    {
      this.nextList := nextList;
      this.header := header;
      this.comparison := comparison;
      this.value := value;
      this.console := console;
      unprocessedRecords := [];
    }

    /** The projections this selection forwards to. */
    function Projections(): set<Projection>
    {
      set p | p in nextList
    }

    /** Every projection downstream logs to this selection's console. */
    ghost predicate Wired()
    {
      forall p :: p in nextList ==> p.console == console
    }

    /** Every projection downstream has an empty queue. */
    ghost predicate DownstreamIdle()
      reads Projections()
    {
      forall p :: p in nextList ==> p.unprocessedRecords == []
    }

    /** Nothing is pending here or downstream. */
    ghost predicate Idle()
      reads this, Projections()
    {
      unprocessedRecords == [] && DownstreamIdle()
    }

    /** The comparison symbol names a comparator. */
    predicate KnownComparator()
    {
      GetPredicate(comparison).Some?
    }

    /** What this selection logs, when idle, for one record: the record
        fanned out to the projections when it matches, nothing otherwise. */
    function Reaction(record: Record): (logged: seq<Record>)
      ensures Matches(record, header, value) ==> logged == FanOut(nextList, record)
      ensures !Matches(record, header, value) ==> logged == []
    {
      if Matches(record, header, value) then FanOut(nextList, record) else []
    }

    /** What forwarding each of `records` in turn logs. */
    function Forwarded(records: seq<Record>): (logged: seq<Record>)
      ensures |logged| == |records| * ReceiverCount(nextList)
      decreases |records|
    {
      if records == [] then []
      else FanOut(nextList, records[0]) + Forwarded(records[1..])
    }

    /** Appends `record` to the queue; on the empty-to-one transition the
        queue is drained at once, which fails (ok is false) when the
        comparison symbol names no comparator. */
    method Receive(record: Record) returns (ok: bool)
      requires Wired() && DownstreamIdle()
      modifies this`unprocessedRecords, Projections(), console
      ensures DownstreamIdle()
      ensures old(unprocessedRecords) == [] ==>
        && unprocessedRecords == []
        && ok == KnownComparator()
        && console.output == old(console.output) + if ok then Reaction(record) else []
      ensures old(unprocessedRecords) != [] ==>
        && ok
        && unprocessedRecords == old(unprocessedRecords) + [record]
        && console.output == old(console.output)
    {
      unprocessedRecords := unprocessedRecords + [record];
      var newTotal := |unprocessedRecords|;
      ok := true;
      if newTotal == 1 {
        ReactionSingle(record);
        ok := Select();
      }
    }

    /** Removes and returns the head of the queue; None when it is empty. */
    method GetNextRecord() returns (head: Option<Record>)
      modifies this`unprocessedRecords
      ensures old(unprocessedRecords) == [] ==> head == None && unprocessedRecords == []
      ensures old(unprocessedRecords) != [] ==>
        head == Some(old(unprocessedRecords)[0]) && unprocessedRecords == old(unprocessedRecords)[1..]
    {
      if unprocessedRecords == [] {
        head := None;
      } else {
        head := Some(unprocessedRecords[0]);
        unprocessedRecords := unprocessedRecords[1..];
      }
    }

    /** Hands `result` to every projection of `nextList`, in list order. */
    method Forward(result: Record)
      requires Wired() && DownstreamIdle()
      modifies Projections(), console
      ensures DownstreamIdle()
      ensures console.output == old(console.output) + FanOut(nextList, result)
    {
      var i := 0;
      while i < |nextList|
        invariant 0 <= i <= |nextList|
        invariant DownstreamIdle()
        invariant console.output == old(console.output) + FanOut(nextList[..i], result)
      {
        var p := nextList[i];
        assert nextList[..i + 1][..i] == nextList[..i];
        p.Receive(result);
        i := i + 1;
      }
      assert nextList[..i] == nextList;
    }

    /** Drains the queue: the head is taken off and forwarded unchanged when
        it satisfies the predicate, then the rest is drained the same way.
        The comparator is looked up for every record; when the symbol names
        none, the head has already been dequeued and the drain fails. */
    method Select() returns (ok: bool)
      requires unprocessedRecords != []
      requires Wired() && DownstreamIdle()
      modifies this`unprocessedRecords, Projections(), console
      ensures DownstreamIdle()
      ensures ok == KnownComparator()
      ensures ok ==>
        && unprocessedRecords == []
        && console.output == old(console.output) + Forwarded(Matching(old(unprocessedRecords), header, value))
      ensures !ok ==>
        && unprocessedRecords == old(unprocessedRecords)[1..]
        && console.output == old(console.output)
      decreases |unprocessedRecords|
    {
      ghost var input := unprocessedRecords;
      var currentRow := GetNextRecord();
      var comparator := GetPredicate(comparison);
      if comparator == None {
        return false;
      }
      var row := currentRow.value;
      assert input == [row] + input[1..];
      ForwardedCons(row, input[1..]);
      ghost var start := console.output;
      ghost var tail := Forwarded(Matching(input[1..], header, value));
      if Holds(comparator.value, Lookup(row, header), value) {
        Forward(row);
      }
      ghost var head := Reaction(row);
      assert console.output == start + head;
      ghost var handed := console.output;
      ok := true;
      if |unprocessedRecords| > 0 {
        ok := Select();
        assert console.output == handed + tail;
      } else {
        assert tail == [];
      }
      AppendAssociative(start, head, tail);
    }

    /** Filtering and forwarding a non-empty queue forwards its head when it
        matches, then what the tail forwards. */
    lemma ForwardedCons(record: Record, rest: seq<Record>)
      ensures Forwarded(Matching([record] + rest, header, value))
           == Reaction(record) + Forwarded(Matching(rest, header, value))
    {
      var tail := Matching(rest, header, value);
      MatchingCons(record, rest, header, value);
      if Matches(record, header, value) {
        assert ([record] + tail)[1..] == tail;
      } else {
        assert [] + tail == tail;
      }
      if rest == [] {
        assert tail == [];
      }
    }

    /** Filtering and forwarding a single record is the selection's reaction
        to it. */
    lemma ReactionSingle(record: Record)
      ensures Forwarded(Matching([record], header, value)) == Reaction(record)
    {
      ForwardedCons(record, []);
      assert [record] + [] == [record];
    }
  }

  /** In a chain selection -> projection -> console logger, the console
      receives each forwarded record narrowed to the projection's columns,
      in order. */
  lemma {:induction false} SelectionChain(sel: Selection, p: Projection, records: seq<Record>)
    requires sel.nextList == [p] && p.nextList == [Log]
    ensures sel.Forwarded(records) == Projected(records, p.headers)
    decreases |records|
  {
    if records != [] {
      SelectionChain(sel, p, records[1..]);
      assert [p][..0] == [];
      assert Copies(ProjectRecord(records[0], p.headers), 1) == [ProjectRecord(records[0], p.headers)];
      assert FanOut([p], records[0]) == [ProjectRecord(records[0], p.headers)];
    }
  }
}
