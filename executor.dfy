/** The executor: it wires a fixed pipeline from a three-entry query plan
    (console logger <- projection <- selection <- scan) and lets the scan
    push the source through it. The plan's entries are taken by position:
    entry 0 configures the projection, entry 1 the selection, and the kinds
    and the scan's entry are never read. */
module Executor {
  import opened Wrappers
  import opened Text
  import opened Records
  import opened QueryNodes
  import opened Scan

  /** One entry of a query plan: the operator's kind and its configuration
      strings. */
  datatype PlanEntry = PlanEntry(kind: string, config: seq<string>)

  /** Why a run stopped: the plan has fewer than two entries (building the
      projection, for no entry, or the selection, for one entry, reads a
      missing entry and throws), or the selection's
      comparison symbol names no comparator (calling the missing predicate
      throws on the first record). The entries' kinds are never read, so a
      second entry of any kind configures the selection. */
  datatype Error = MalformedPlan | UnknownComparator(comparison: string)

  /** What a run leaves behind: the records logged to the console, in order,
      and the error that stopped it, if any. */
  datatype Outcome = Outcome(logged: seq<Record>, error: Option<Error>)

  /** The selection's configuration `[header, comparison, value]`, each part
      `undefined` when the configuration is shorter. */
  datatype Criterion = Criterion(header: string, comparison: string, value: Option<string>)

  /** The `i`-th configuration string, or `undefined` past the end. */
  function ConfigAt(config: seq<string>, i: nat): (v: Option<string>)
    ensures v.Some? <==> i < |config|
    ensures v.Some? ==> v.value == config[i]
  {
    if i < |config| then Some(config[i]) else None
  }

  /** A string standing for a possibly undefined one where only its use as a
      property key or a `switch` label matters: `undefined` becomes the key
      "undefined", and as a comparison symbol it names no comparator, as the
      string "undefined" does not either. */
  function OrUndefined(v: Option<string>): (s: string)
    ensures v.Some? ==> s == v.value
    ensures v.None? ==> s == UndefinedKey
  {
    match v
    case Some(s) => s
    case None => UndefinedKey
  }

  /** Destructures the selection's configuration into its three parts. */
  function Destructure(config: seq<string>): (c: Criterion)
    ensures |config| >= 3 ==> c == Criterion(config[0], config[1], Some(config[2]))
    ensures |config| < 3 ==> c.value == None
  {
    Criterion(OrUndefined(ConfigAt(config, 0)), OrUndefined(ConfigAt(config, 1)), ConfigAt(config, 2))
  }

  /** What the executor does with `query` over `source`: the table's
      records that satisfy the selection, narrowed to the projection's
      columns, in source order; or the error that stops it. A comparator
      that does not exist fails only once a record reaches the selection,
      so a source without records runs to completion whatever the
      comparison says. */
  function Execute(query: seq<PlanEntry>, source: string): (outcome: Outcome)
    ensures outcome.error.Some? ==> outcome.logged == []
    ensures outcome.error.None? ==> |outcome.logged| <= |Table(source)|
  {
    if |query| < 2 then Outcome([], Some(MalformedPlan))
    else
      var c := Destructure(query[1].config);
      if Table(source) != [] && GetPredicate(c.comparison) == None then
        Outcome([], Some(UnknownComparator(c.comparison)))
      else
        Outcome(Projected(Matching(Table(source), c.header, c.value), query[0].config), None)
  }

  /** Builds the pipeline from the plan and runs it: the console, then the
      projection logging to it, then the selection forwarding to the
      projection, then the scan, whose construction reads the whole source.
      A plan with fewer than two entries fails before any record is read. */
  method Run(query: seq<PlanEntry>, source: string) returns (outcome: Outcome)
    ensures outcome == Execute(query, source)
  {
    if |query| < 2 {
      return Outcome([], Some(MalformedPlan));
    }
    var console := new Console();
    var projector := new Projection([Log], query[0].config, console);
    var c := Destructure(query[1].config);
    var selector := new Selection([projector], c.header, c.comparison, c.value, console);
    assert FirstUnknown([selector]) == if GetPredicate(c.comparison).Some? then 1 else 0;
    var scan := new FileScan([selector], source, console);
    if scan.aborted {
      assert [selector][..0] == [];
      outcome := Outcome(console.output, Some(UnknownComparator(c.comparison)));
    } else {
      assert console.output == scan.Delivered(Table(source));
      ScanChain(scan, selector, projector, Table(source));
      outcome := Outcome(console.output, None);
    }
  }

  /** Soundness and completeness of a run: a record is logged exactly when
      it is the projection of a table record that satisfies the selection. */
  lemma ExecuteSelects(query: seq<PlanEntry>, source: string)
    requires |query| >= 2 && Execute(query, source).error == None
    ensures var c := Destructure(query[1].config);
      forall r :: r in Execute(query, source).logged <==>
        exists t :: t in Table(source) && Matches(t, c.header, c.value) && r == ProjectRecord(t, query[0].config)
  {
    var c := Destructure(query[1].config);
    var kept := Matching(Table(source), c.header, c.value);
    var logged := Projected(kept, query[0].config);
    MatchingMembers(Table(source), c.header, c.value);
    forall r | r in logged
      ensures exists t :: t in Table(source) && Matches(t, c.header, c.value) && r == ProjectRecord(t, query[0].config)
    {
      var i :| 0 <= i < |logged| && logged[i] == r;
      assert kept[i] in kept;
    }
    forall t | t in Table(source) && Matches(t, c.header, c.value)
      ensures ProjectRecord(t, query[0].config) in logged
    {
      var i :| 0 <= i < |kept| && kept[i] == t;
      assert logged[i] == ProjectRecord(t, query[0].config);
    }
  }

  /** A run keeps source order: what it logs is a subsequence of the whole
      table narrowed to the projection's columns. */
  lemma ExecuteOrder(query: seq<PlanEntry>, source: string)
    requires |query| >= 2 && Execute(query, source).error == None
    ensures IsSubsequence(Execute(query, source).logged, Projected(Table(source), query[0].config))
  {
    var c := Destructure(query[1].config);
    MatchingIsSubsequence(Table(source), c.header, c.value);
    ProjectedSubsequence(Matching(Table(source), c.header, c.value), Table(source), query[0].config);
  }

  /** An unknown comparison symbol stops the run exactly when the source has
      a record, and then nothing is logged. */
  lemma UnknownComparatorFails(query: seq<PlanEntry>, source: string)
    requires |query| >= 2
    requires GetPredicate(Destructure(query[1].config).comparison) == None
    ensures Execute(query, source).error.Some? <==> |Lines(source)| > 1
    ensures Execute(query, source).logged == []
  {
  }

  /** The second entry configures the selection whatever its kind: one
      whose configuration has fewer than two strings leaves the comparison
      `undefined`, so a source with a record stops the run. */
  lemma SecondEntryIsSelection(query: seq<PlanEntry>, source: string)
    requires |query| >= 2 && |query[1].config| < 2 && |Lines(source)| > 1
    ensures Execute(query, source) == Outcome([], Some(UnknownComparator(UndefinedKey)))
  {
  }

  /** A selection configured as `[header, "EQUALS", value]` keeps the
      records whose column holds `value`; configured as `[header, "EQUALS"]`
      its value is `undefined`, and it keeps the records without the
      column. Either way the run does not fail. */
  lemma ConfiguredSelection(query: seq<PlanEntry>, source: string)
    requires |query| >= 2 && |query[1].config| >= 2 && query[1].config[1] == "EQUALS"
    ensures var value := if |query[1].config| >= 3 then Some(query[1].config[2]) else None;
      Execute(query, source) == Outcome(Projected(Matching(Table(source), query[1].config[0], value), query[0].config), None)
  {
  }

  /** A source of at most one line, the schema, has no records: the run
      logs nothing and, once the plan has a selection, does not fail. */
  lemma NoRecordsNoOutput(query: seq<PlanEntry>, source: string)
    requires |query| >= 2 && |Lines(source)| <= 1
    ensures Execute(query, source) == Outcome([], None)
  {
  }

  /** The plan the executor is run with: the rating of the records whose
      title is "movie4". */
  const DummyQuery: seq<PlanEntry> := [
    PlanEntry("PROJECTION", ["rating"]),
    PlanEntry("SELECTION", ["title", "EQUALS", "movie4"]),
    PlanEntry("FILESCAN", ["movies"])]

  /** The lines of the embedded source: a schema and nine movies. */
  const DummyLines: seq<string> := [
    "id,title,rating",
    "1,movie1,1", "2,movie2,2", "3,movie3,3",
    "4,movie4,4", "5,movie5,5", "6,movie6,6",
    "7,movie7,7", "8,movie8,8", "9,movie9,9"]

  /** The embedded source: its lines joined by newlines. */
  const DummyData: string := Join(DummyLines, '\n')

  /** Splitting the embedded source on newlines gives back its lines. */
  lemma DummyDataLines()
    ensures Lines(DummyData) == DummyLines
  {
    assert forall i :: 0 <= i < |DummyLines| ==> '\n' !in DummyLines[i];
    SplitJoin(DummyLines, '\n');
  }

  /** Three comma-free fields joined by commas split back into them. */
  lemma SplitThree(a: string, b: string, c: string)
    requires ',' !in a && ',' !in b && ',' !in c
    ensures Split(a + "," + b + "," + c, ',') == [a, b, c]
  {
    SplitPlain(c, ',');
    SplitCons(b, c, ',');
    assert b + "," + c == b + [','] + c;
    SplitCons(a, b + "," + c, ',');
    assert a + "," + b + "," + c == a + [','] + (b + "," + c);
  }

  /** The schema discovered from the embedded source's first line. */
  lemma DummyHeader(source: string)
    requires Lines(source) == DummyLines
    ensures Header(source) == ["id", "title", "rating"]
  {
    SplitThree("id", "title", "rating");
    assert "id,title,rating" == "id" + "," + "title" + "," + "rating";
  }

  /** Line `i` of the embedded movies: id `d`, title "movie" + `d`, rating
      `d`, where `d` is the digit `i`. */
  function MovieLine(d: char): string
  {
    [d, ',', 'm', 'o', 'v', 'i', 'e', d, ',', d]
  }

  /** The title of the movie with digit `d`. */
  function TitleOf(d: char): string
  {
    "movie" + [d]
  }

  /** The record the scan builds from a movie line. */
  function Movie(d: char): Record
  {
    map["id" := [d], "title" := TitleOf(d), "rating" := [d]]
  }

  /** Each line after the schema is a movie line. */
  lemma DummyMovieLines(i: nat)
    requires 1 <= i < |DummyLines|
    ensures DummyLines[i] == MovieLine(('0' as int + i) as char)
  {
  }

  /** Zipping a movie line with the schema builds its movie record. */
  lemma ParseMovie(d: char)
    requires d != ','
    ensures ParseRow(["id", "title", "rating"], MovieLine(d)) == Movie(d)
  {
    var values := [[d], "movie" + [d], [d]];
    assert MovieLine(d) == [d] + "," + ("movie" + [d]) + "," + [d];
    SplitThree([d], "movie" + [d], [d]);
    var schema := ["id", "title", "rating"];
    assert values[..2] == [[d], "movie" + [d]];
    assert values[..2][..1] == [[d]];
    assert [[d]][..0] == [];
    assert Zip(schema, [[d]]) == map["id" := [d]];
    assert Zip(schema, values[..2]) == Zip(schema, [[d]])["title" := "movie" + [d]];
    assert Zip(schema, values) == Zip(schema, values[..2])["rating" := [d]];
  }

  /** The table of the embedded source: the nine movies, in order. */
  lemma DummyTable(source: string)
    requires Lines(source) == DummyLines
    ensures |Table(source)| == 9
    ensures forall i :: 0 <= i < 9 ==> Table(source)[i] == Movie(('1' as int + i) as char)
  {
    DummyHeader(source);
    forall i | 0 <= i < 9 ensures Table(source)[i] == Movie(('1' as int + i) as char) {
      TableAt(source, i);
      DummyMovieLines(i + 1);
      ParseMovie(('1' as int + i) as char);
    }
  }

  /** A movie matches title "movie4" exactly when it is movie 4. */
  lemma MovieTitle(d: char)
    ensures Matches(Movie(d), "title", Some("movie4")) <==> d == '4'
  {
    assert Lookup(Movie(d), "title") == Some("movie" + [d]);
    if "movie" + [d] == "movie4" {
      assert ("movie" + [d])[5] == "movie4"[5];
    }
  }

  /** A movie matches no title but its own. */
  lemma MovieOtherTitle(d: char, title: string)
    requires title != TitleOf(d)
    ensures !Matches(Movie(d), "title", Some(title))
  {
    assert Lookup(Movie(d), "title") == Some(TitleOf(d));
  }

  /** The executor's run over the embedded data logs one record, the
      rating of movie 4. */
  lemma DummyRun()
    ensures Execute(DummyQuery, DummyData) == Outcome([map["rating" := "4"]], None)
  {
    DummyDataLines();
    DummyResult(DummyData);
  }

  /** Of the embedded movies, the selection keeps movie 4 alone. */
  lemma DummyMatching(source: string)
    requires Lines(source) == DummyLines
    ensures Matching(Table(source), "title", Some("movie4")) == [Movie('4')]
  {
    var table := Table(source);
    DummyTable(source);
    forall j | 0 <= j < |table| && j != 3 ensures !Matches(table[j], "title", Some("movie4")) {
      MovieTitle(('1' as int + j) as char);
    }
    MovieTitle('4');
    MatchingSingle(table, 3, "title", Some("movie4"));
  }

  /** Narrowing movie 4 to its rating. */
  lemma ProjectMovie4()
    ensures ProjectRecord(Movie('4'), ["rating"]) == map["rating" := "4"]
  {
    ProjectRecordFields(Movie('4'), ["rating"]);
  }

  /** The run of the embedded plan over any source with the embedded lines. */
  lemma DummyResult(source: string)
    requires Lines(source) == DummyLines
    ensures Execute(DummyQuery, source) == Outcome([map["rating" := "4"]], None)
  {
    DummyMatching(source);
    ProjectMovie4();
    assert Destructure(DummyQuery[1].config) == Criterion("title", "EQUALS", Some("movie4"));
    assert Projected([Movie('4')], ["rating"]) == [ProjectRecord(Movie('4'), ["rating"])];
  }

  /** No embedded movie has a title other than "movie1" to "movie9". */
  lemma DummyNoMatching(source: string, title: string)
    requires Lines(source) == DummyLines
    requires forall d :: '1' <= d <= '9' ==> title != TitleOf(d)
    ensures Matching(Table(source), "title", Some(title)) == []
  {
    var table := Table(source);
    DummyTable(source);
    forall j | 0 <= j < |table| ensures !Matches(table[j], "title", Some(title)) {
      var d := ('1' as int + j) as char;
      assert '1' <= d <= '9' && table[j] == Movie(d);
      MovieOtherTitle(d, title);
    }
    MatchingNone(table, "title", Some(title));
  }

  /** Asking the embedded source for a title no movie has logs nothing,
      and does not fail. */
  lemma DummyNoMatch(source: string, title: string)
    requires Lines(source) == DummyLines
    requires forall d :: '1' <= d <= '9' ==> title != TitleOf(d)
    ensures Execute([DummyQuery[0], PlanEntry("SELECTION", ["title", "EQUALS", title]), DummyQuery[2]], source)
         == Outcome([], None)
  {
    var query := [DummyQuery[0], PlanEntry("SELECTION", ["title", "EQUALS", title]), DummyQuery[2]];
    assert Destructure(query[1].config) == Criterion("title", "EQUALS", Some(title));
    assert Execute(query, source).logged == Projected(Matching(Table(source), "title", Some(title)), query[0].config);
    DummyNoMatching(source, title);
  }
}
