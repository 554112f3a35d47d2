/**
 * The `/search` query builder and the mapping of stored rows to the
 * `ImageMetadata` records that `/images` and `/search` return.
 */
module Search {
  import opened Wrappers

  /** The columns every query selects, in the order a row holds them. */
  const SelectedColumns: string := "id, filename, date_time, location"
  /** The query every search starts from; it matches every row. */
  const BaseQuery: string := "SELECT " + SelectedColumns + " FROM images WHERE 1=1"
  /** The SQL placeholder a parameter is bound to. */
  const Placeholder: string := "?"
  /** The test appended when a date filter is given: a LIKE on the capture time. */
  const DateTest: string := " AND date_time LIKE "
  /** The test appended when a location filter is given: an exact match on the location. */
  const LocationTest: string := " AND location = "
  /** The route the response's url points into. */
  const ImagesRoute: string := "/images/"

  /** One condition of the WHERE clause, with the value bound to its placeholder. */
  datatype Filter = DateContains(fragment: string) | LocationIs(value: string)

  /** The kind of a condition, as it can be read back from the query text. */
  datatype Column = DateTime | Location

  /** Python truthiness of an optional query argument: given and non-empty. */
  predicate Given(arg: Option<string>) {
    arg.Some? && arg.value != ""
  }

  /** The filters a request asks for: the date one first, then the location one. */
  function Filters(date: Option<string>, location: Option<string>): (fs: seq<Filter>)
    ensures |fs| == (if Given(date) then 1 else 0) + (if Given(location) then 1 else 0)
    ensures Given(date) <==> DateContains(if date.Some? then date.value else "") in fs
    ensures Given(location) <==> LocationIs(if location.Some? then location.value else "") in fs
    ensures forall i :: 0 <= i < |fs| && fs[i].LocationIs? ==> i == |fs| - 1
  {
    (if Given(date) then [DateContains(date.value)] else [])
    + (if Given(location) then [LocationIs(location.value)] else [])
  }

  function ColumnOf(f: Filter): Column {
    match f
    case DateContains(_) => DateTime
    case LocationIs(_) => Location
  }

  /** The text appended for one condition: its test and one placeholder. */
  function Clause(c: Column): string {
    match c
    case DateTime => DateTest + Placeholder
    case Location => LocationTest + Placeholder
  }

  /** The value bound to a filter's placeholder: a date is wrapped in '%' for a substring match. */
  function Binding(f: Filter): string {
    match f
    case DateContains(fragment) => "%" + fragment + "%"
    case LocationIs(value) => value
  }

  /** The text the filters append to the base query, clause by clause. */
  function Render(fs: seq<Filter>): string {
    if fs == [] then [] else Clause(ColumnOf(fs[0])) + Render(fs[1..])
  }

  /** The parameter list bound to the rendered clauses, in the same order. */
  function Bindings(fs: seq<Filter>): (ps: seq<string>)
    ensures |ps| == |fs|
    ensures forall i :: 0 <= i < |fs| ==> ps[i] == Binding(fs[i])
  {
    if fs == [] then [] else [Binding(fs[0])] + Bindings(fs[1..])
  }

  /** Number of occurrences of `c` in `s`. */
  function Occurrences(s: string, c: char): nat {
    if s == [] then 0 else (if s[0] == c then 1 else 0) + Occurrences(s[1..], c)
  }

  /** The columns a run of filters tests, in order. */
  function ColumnsOf(fs: seq<Filter>): (cs: seq<Column>)
    ensures |cs| == |fs|
  {
    if fs == [] then [] else [ColumnOf(fs[0])] + ColumnsOf(fs[1..])
  }

  /** Reads the columns tested by a run of clauses back from the query text. */
  function ParseClauses(s: string): Option<seq<Column>>
    decreases |s|
  {
    if s == [] then Some([])
    else if Clause(DateTime) <= s then
      match ParseClauses(s[|Clause(DateTime)|..])
      case None => None
      case Some(cs) => Some([DateTime] + cs)
    else if Clause(Location) <= s then
      match ParseClauses(s[|Clause(Location)|..])
      case None => None
      case Some(cs) => Some([Location] + cs)
    else None
  }

  lemma {:induction false} OccurrencesConcat(a: string, b: string, c: char)
    ensures Occurrences(a + b, c) == Occurrences(a, c) + Occurrences(b, c)
  {
    if a == [] {
      assert a + b == b;
    } else {
      assert (a + b)[1..] == a[1..] + b;
      OccurrencesConcat(a[1..], b, c);
    }
  }

  lemma {:induction false} NoOccurrence(s: string, c: char)
    requires c !in s
    ensures Occurrences(s, c) == 0
  {
    if s != [] {
      assert s == [s[0]] + s[1..];
      NoOccurrence(s[1..], c);
    }
  }

  /** A test without '?' followed by the placeholder holds exactly one '?'. */
  lemma OnePlaceholderAfter(test: string)
    requires '?' !in test
    ensures Occurrences(test + Placeholder, '?') == 1
  {
    NoOccurrence(test, '?');
    OccurrencesConcat(test, Placeholder, '?');
    assert Placeholder == ['?'];
    assert Occurrences(['?'], '?') == 1 + Occurrences([], '?');
  }

  /** Each clause carries exactly one placeholder. */
  lemma ClausePlaceholder(col: Column)
    ensures Occurrences(Clause(col), '?') == 1
  {
    match col
    case DateTime =>
      assert '?' !in DateTest;
      OnePlaceholderAfter(DateTest);
    case Location =>
      assert '?' !in LocationTest;
      OnePlaceholderAfter(LocationTest);
  }

  /** The base query tests nothing, so it holds no placeholder. */
  lemma BaseQueryHasNoPlaceholder()
    ensures Occurrences(BaseQuery, '?') == 0
  {
    assert '?' !in SelectedColumns;
    assert '?' !in BaseQuery;
    NoOccurrence(BaseQuery, '?');
  }

  /** Every rendered clause carries exactly one '?', so the placeholders match the bindings one for one. */
  lemma {:induction false} PlaceholdersMatchBindings(fs: seq<Filter>)
    ensures Occurrences(Render(fs), '?') == |Bindings(fs)|
  {
    if fs != [] {
      OccurrencesConcat(Clause(ColumnOf(fs[0])), Render(fs[1..]), '?');
      ClausePlaceholder(ColumnOf(fs[0]));
      PlaceholdersMatchBindings(fs[1..]);
    }
  }

  /** The rendered clauses read back as the filters' columns, in order: no clause is a prefix of another's text. */
  lemma {:induction false} ParseRender(fs: seq<Filter>)
    ensures ParseClauses(Render(fs)) == Some(ColumnsOf(fs))
  {
    if fs != [] {
      var col := ColumnOf(fs[0]);
      var rest := Render(fs[1..]);
      var s := Render(fs);
      assert s == Clause(col) + rest;
      assert Clause(col) <= s;
      assert s[|Clause(col)|..] == rest;
      if col == Location {
        assert s[5] == LocationTest[5] != DateTest[5];
        assert !(Clause(DateTime) <= s);
      }
      ParseRender(fs[1..]);
    }
  }

  /** The rendered text of the filters a request asks for: the date clause, then the location clause. */
  lemma RenderFilters(date: Option<string>, location: Option<string>)
    ensures Render(Filters(date, location))
         == (if Given(date) then Clause(DateTime) else []) + (if Given(location) then Clause(Location) else [])
    ensures Bindings(Filters(date, location))
         == (if Given(date) then ["%" + date.value + "%"] else []) + (if Given(location) then [location.value] else [])
  {
    var fs := Filters(date, location);
    if |fs| == 2 {
      assert fs[1..] == [fs[1]];
      assert Render(fs[1..]) == Clause(ColumnOf(fs[1])) + Render([]);
    } else if |fs| == 1 {
      assert Render(fs) == Clause(ColumnOf(fs[0])) + Render([]);
    }
  }

  /**
   * Builds the SQL text and parameter list of a search, appending one clause
   * and one parameter per given filter.
   */
  method BuildSearch(date: Option<string>, location: Option<string>) returns (query: string, params: seq<string>)
    ensures query == BaseQuery + Render(Filters(date, location))
    ensures params == Bindings(Filters(date, location))
    ensures Occurrences(query, '?') == |params|
    ensures BaseQuery <= query && ParseClauses(query[|BaseQuery|..]) == Some(ColumnsOf(Filters(date, location)))
    ensures !Given(date) && !Given(location) ==> query == BaseQuery && params == []
  {
    query := BaseQuery;
    params := [];
    if date.Some? && date.value != "" {
      query := query + Clause(DateTime);
      params := params + ["%" + date.value + "%"];
    }
    if location.Some? && location.value != "" {
      query := query + Clause(Location);
      params := params + [location.value];
    }
    ghost var dateText := if Given(date) then Clause(DateTime) else [];
    ghost var locationText := if Given(location) then Clause(Location) else [];
    assert query == (BaseQuery + dateText) + locationText;
    assert query == BaseQuery + (dateText + locationText);
    RenderFilters(date, location);
    QueryShape(Filters(date, location));
  }

  /** The text of any query the builder can produce: its placeholders and clauses line up with the bindings. */
  lemma QueryShape(fs: seq<Filter>)
    ensures var query := BaseQuery + Render(fs);
            && Occurrences(query, '?') == |Bindings(fs)|
            && BaseQuery <= query
            && ParseClauses(query[|BaseQuery|..]) == Some(ColumnsOf(fs))
  {
    var query := BaseQuery + Render(fs);
    PlaceholdersMatchBindings(fs);
    OccurrencesConcat(BaseQuery, Render(fs), '?');
    BaseQueryHasNoPlaceholder();
    assert query[|BaseQuery|..] == Render(fs);
    ParseRender(fs);
  }

  /** A row of the `images` table, in the column order the SELECTs use. */
  datatype Row = Row(id: int, filename: string, dateTime: Option<string>, location: Option<string>)

  /** The response record: the row's columns and the url the image is served under. */
  datatype ImageMetadata = ImageMetadata(id: int, filename: string, dateTime: Option<string>, location: Option<string>, url: string)

  /** The response for each stored row, in the order the store returned them. */
  function ToResponses(rows: seq<Row>): (r: seq<ImageMetadata>)
    ensures |r| == |rows|
    ensures forall i :: 0 <= i < |rows| ==>
              && r[i].id == rows[i].id
              && r[i].filename == rows[i].filename
              && r[i].dateTime == rows[i].dateTime
              && r[i].location == rows[i].location
              && r[i].url == ImagesRoute + rows[i].filename
  {
    seq(|rows|, i requires 0 <= i < |rows| =>
      ImageMetadata(rows[i].id, rows[i].filename, rows[i].dateTime, rows[i].location, ImagesRoute + rows[i].filename))
  }

  /** The file a response url serves, or None when the url is outside the image route. */
  function UrlFilename(url: string): Option<string> {
    if ImagesRoute <= url then Some(url[|ImagesRoute|..]) else None
  }

  /** Drops the url of a response, giving back the stored row. */
  function ToRows(images: seq<ImageMetadata>): (rows: seq<Row>)
    ensures |rows| == |images|
  {
    seq(|images|, i requires 0 <= i < |images| =>
      Row(images[i].id, images[i].filename, images[i].dateTime, images[i].location))
  }

  /** Every response url serves exactly the file its row names, and dropping the urls recovers the rows. */
  lemma ResponsesRoundTrip(rows: seq<Row>)
    ensures ToRows(ToResponses(rows)) == rows
    ensures forall i :: 0 <= i < |rows| ==> UrlFilename(ToResponses(rows)[i].url) == Some(rows[i].filename)
  {
    var r := ToResponses(rows);
    forall i | 0 <= i < |rows|
      ensures UrlFilename(r[i].url) == Some(rows[i].filename)
    {
      assert ImagesRoute <= r[i].url;
      assert r[i].url[|ImagesRoute|..] == rows[i].filename;
    }
  }
}
