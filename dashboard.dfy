/**
 * The `update_charts` callback: what it shows for a year and a state picked
 * from the two dropdowns, and when it asks the generator for feedback.
 * The map figure is left out; the two fluoride aggregates are abstract
 * functions of the rows they are taken over, already formatted.
 */
module Dashboard {
  import opened Wrappers
  import opened Strings
  import opened Client

  /** One row of the fluoride dataset, with the columns the callback uses. */
  datatype Row = Row(state: string, stateName: string, year: int, cwsName: string, fluoride: real)

  /** The three outputs, less the map: the table rows and the feedback text.
      `view` is `None` when an exception escapes the callback. */
  datatype Update = Update(view: Option<View>, posts: seq<Post>)
  datatype View = View(table: seq<Row>, feedback: string)

  const Placeholder := "Select a year and state to view data."

  /** `selected_year` is truthy: set, and not 0. */
  predicate YearChosen(y: Option<int>) {
    y.Some? && y.value != 0
  }

  /** `selected_state` is truthy: set, and not the empty string. */
  predicate StateChosen(s: Option<string>) {
    s.Some? && s.value != ""
  }

  /** Boolean-mask selection of a frame: the rows that pass, in their order. */
  function Filter<T(!new)>(s: seq<T>, keep: T -> bool): (r: seq<T>)
    ensures |r| <= |s|
    ensures forall x :: x in r <==> x in s && keep(x)
  {
    if s == [] then [] else (if keep(s[0]) then [s[0]] else []) + Filter(s[1..], keep)
  }

  /** Selection distributes over concatenation, so it keeps the rows' order. */
  lemma {:induction false} FilterAppend<T(!new)>(a: seq<T>, b: seq<T>, keep: T -> bool)
    ensures Filter(a + b, keep) == Filter(a, keep) + Filter(b, keep)
  {
    if a != [] {
      assert (a + b)[0] == a[0];
      assert (a + b)[1..] == a[1..] + b;
      FilterAppend(a[1..], b, keep);
    } else {
      assert a + b == b;
    }
  }

  lemma {:induction false} NothingKept<T(!new)>(s: seq<T>, keep: T -> bool)
    requires forall x :: x in s ==> !keep(x)
    ensures Filter(s, keep) == []
  {
    if s != [] {
      assert s[0] in s;
      NothingKept(s[1..], keep);
    }
  }

  /** `fluoride_data[fluoride_data['State'] == state]` */
  function RowsOfState(rows: seq<Row>, state: string): seq<Row> {
    Filter(rows, (x: Row) => x.state == state)
  }

  /** `frame[frame['Year'] == year]` */
  function RowsOfYear(rows: seq<Row>, year: int): seq<Row> {
    Filter(rows, (x: Row) => x.year == year)
  }

  /** `update_charts(selected_year, selected_state)`, given the dataset, the
      two lookup tables, the aggregates and the generator's network oracle. */
  function UpdateCharts(gen: FeedbackGenerator, abbreviations: map<string, string>,
                        guidelines: map<string, string>, data: seq<Row>,
                        maxText: seq<Row> -> string, avgText: seq<Row> -> string,
                        respond: nat -> Outcome,
                        selectedYear: Option<int>, selectedState: Option<string>): (u: Update)
    ensures |u.posts| <= Max0(gen.retries)
    ensures u.view.Some? ==> forall x :: x in u.view.value.table ==>
      StateChosen(selectedState) && x in data && x.state == selectedState.value
  {
    if !YearChosen(selectedYear) || !StateChosen(selectedState) then
      Update(Some(View([], Placeholder)), [])
    else
      var year := selectedYear.value;
      var state := selectedState.value;
      if state !in abbreviations then Update(None, [])          // KeyError
      else
        var stateName := abbreviations[state];
        var allYears := RowsOfState(data, state);
        var forYear := RowsOfYear(allYears, year);
        if forYear == [] then
          Update(Some(View(allYears, "No data for " + stateName + " in " + IntToString(year) + ".")), [])
        else
          var run := Feedback(respond, gen.retries);
          var posts := Repeat(gen.PostFor(guidelines, stateName, year, maxText(forYear),
                                          avgText(allYears), forYear[0].cwsName), run.calls);
          match ReplyOf(run)
          case Returned(text) => Update(Some(View(allYears, text)), posts)
          case Raised => Update(None, posts)
  }

  /** Without a (truthy) year and state: empty table, the prompt to choose, no POST. */
  lemma UnselectedShowsPlaceholder(gen: FeedbackGenerator, abbreviations: map<string, string>,
                                   guidelines: map<string, string>, data: seq<Row>,
                                   maxText: seq<Row> -> string, avgText: seq<Row> -> string,
                                   respond: nat -> Outcome,
                                   selectedYear: Option<int>, selectedState: Option<string>)
    requires !YearChosen(selectedYear) || !StateChosen(selectedState)
    ensures UpdateCharts(gen, abbreviations, guidelines, data, maxText, avgText, respond, selectedYear, selectedState)
      == Update(Some(View([], Placeholder)), [])
  {
  }

  /** A state code missing from the abbreviation table raises `KeyError`:
      no view, no POST. */
  lemma UnknownStateRaises(gen: FeedbackGenerator, abbreviations: map<string, string>,
                           guidelines: map<string, string>, data: seq<Row>,
                           maxText: seq<Row> -> string, avgText: seq<Row> -> string,
                           respond: nat -> Outcome, year: int, state: string)
    requires year != 0 && state != "" && state !in abbreviations
    ensures UpdateCharts(gen, abbreviations, guidelines, data, maxText, avgText, respond, Some(year), Some(state))
      == Update(None, [])
  {
  }

  /** Once a year and a known state are chosen, the table holds exactly the
      state's rows of every year, in dataset order. */
  lemma TableHoldsStateRows(gen: FeedbackGenerator, abbreviations: map<string, string>,
                            guidelines: map<string, string>, data: seq<Row>,
                            maxText: seq<Row> -> string, avgText: seq<Row> -> string,
                            respond: nat -> Outcome, year: int, state: string)
    requires year != 0 && state != "" && state in abbreviations
    ensures var u := UpdateCharts(gen, abbreviations, guidelines, data, maxText, avgText, respond, Some(year), Some(state));
      u.view.Some? ==>
        u.view.value.table == RowsOfState(data, state) &&
        forall x :: x in u.view.value.table <==> x in data && x.state == state
  {
  }

  /** No row of the state for that year: the "No data" line, the state's rows, no POST. */
  lemma NoRowsForYear(gen: FeedbackGenerator, abbreviations: map<string, string>,
                      guidelines: map<string, string>, data: seq<Row>,
                      maxText: seq<Row> -> string, avgText: seq<Row> -> string,
                      respond: nat -> Outcome, year: int, state: string)
    requires year != 0 && state != "" && state in abbreviations
    requires forall x :: x in data ==> x.state != state || x.year != year
    ensures UpdateCharts(gen, abbreviations, guidelines, data, maxText, avgText, respond, Some(year), Some(state))
      == Update(Some(View(RowsOfState(data, state),
                          "No data for " + abbreviations[state] + " in " + IntToString(year) + ".")), [])
  {
    var allYears := RowsOfState(data, state);
    NothingKept(allYears, (x: Row) => x.year == year);
  }

  /** With rows for the year, the generator runs for the state's full name,
      the first such row's CWS, the maximum over the year's rows and the
      average over all the state's rows; what it returns is shown as is, and
      its POSTs are the callback's. */
  lemma RowsForYearAskGenerator(gen: FeedbackGenerator, abbreviations: map<string, string>,
                                guidelines: map<string, string>, data: seq<Row>,
                                maxText: seq<Row> -> string, avgText: seq<Row> -> string,
                                respond: nat -> Outcome, year: int, state: string, row: Row)
    requires year != 0 && state != "" && state in abbreviations
    requires row in data && row.state == state && row.year == year
    ensures var allYears := RowsOfState(data, state);
      var forYear := RowsOfYear(allYears, year);
      var run := Feedback(respond, gen.retries);
      var u := UpdateCharts(gen, abbreviations, guidelines, data, maxText, avgText, respond, Some(year), Some(state));
      forYear != [] && forYear[0] in data && forYear[0].state == state && forYear[0].year == year &&
      u.posts == Repeat(gen.PostFor(guidelines, abbreviations[state], year, maxText(forYear),
                                    avgText(allYears), forYear[0].cwsName), run.calls) &&
      |u.posts| <= Max0(gen.retries) &&
      (u.view.Some? <==> ReplyOf(run).Returned?) &&
      (u.view.Some? ==> u.view.value == View(allYears, ReplyOf(run).text))
  {
    var allYears := RowsOfState(data, state);
    assert row in allYears;
    assert row in RowsOfYear(allYears, year);
    ExhaustedIffAllRetried(respond, gen.retries);
  }

  /** The CWS named in the prompt is that of the dataset's first row of the
      state for the year (`iloc[0]`). */
  lemma {:induction false} FirstRowForYear(data: seq<Row>, state: string, year: int,
                                           pre: seq<Row>, first: Row, post: seq<Row>)
    requires data == pre + [first] + post
    requires first.state == state && first.year == year
    requires forall y :: y in pre ==> y.state != state || y.year != year
    ensures var forYear := RowsOfYear(RowsOfState(data, state), year);
      forYear != [] && forYear[0] == first
  {
    var ofState := (x: Row) => x.state == state;
    var ofYear := (x: Row) => x.year == year;
    FilterAppend(pre + [first], post, ofState);
    FilterAppend(pre, [first], ofState);
    assert Filter([first], ofState) == [first];
    var head := RowsOfState(pre, state);
    assert RowsOfState(data, state) == head + [first] + RowsOfState(post, state);
    FilterAppend(head + [first], RowsOfState(post, state), ofYear);
    FilterAppend(head, [first], ofYear);
    assert Filter([first], ofYear) == [first];
    NothingKept(head, ofYear);
  }

  /** The callback POSTs only when a year and a known state are chosen and
      the dataset has a row of that state for that year. */
  lemma PostsOnlyWithRowsForYear(gen: FeedbackGenerator, abbreviations: map<string, string>,
                                 guidelines: map<string, string>, data: seq<Row>,
                                 maxText: seq<Row> -> string, avgText: seq<Row> -> string,
                                 respond: nat -> Outcome,
                                 selectedYear: Option<int>, selectedState: Option<string>)
    ensures UpdateCharts(gen, abbreviations, guidelines, data, maxText, avgText, respond, selectedYear, selectedState).posts != [] ==>
      YearChosen(selectedYear) && StateChosen(selectedState) && selectedState.value in abbreviations &&
      exists x :: x in data && x.state == selectedState.value && x.year == selectedYear.value
  {
    if YearChosen(selectedYear) && StateChosen(selectedState) && selectedState.value in abbreviations {
      var forYear := RowsOfYear(RowsOfState(data, selectedState.value), selectedYear.value);
      if forYear != [] {
        assert forYear[0] in forYear;
      }
    }
  }
}
