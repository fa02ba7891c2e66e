/** The branch reports page: the column-header to field-key mapping, the
    search box that keeps the rows some value of which contains the search
    term regardless of case, and the `useReport` fetch state with the
    loading / error / table precedence of the report card. */
module BranchReports {
  import opened Wrappers
  import opened JsStrings
  import opened JsValues
  import opened Seqs
  import opened Http

  /** A report row: a JSON object with primitive values. */
  type ReportRow = map<string, Scalar>

  /** `s.replace(/ /g, "_")`. */
  function ReplaceSpaces(s: string): (r: string)
    ensures |r| == |s|
    ensures forall i | 0 <= i < |s| :: r[i] == if s[i] == ' ' then '_' else s[i]
  {
    if s == [] then [] else [if s[0] == ' ' then '_' else s[0]] + ReplaceSpaces(s[1..])
  }

  /** The key a column header reads: `header.toLowerCase().replace(/ /g, "_")`.
      It is as long as the header and holds no space. */
  function ColumnKey(header: string): (k: string)
    ensures |k| == |header|
    ensures forall i | 0 <= i < |k| :: k[i] != ' '
    ensures forall i | 0 <= i < |k| :: k[i] == if header[i] == ' ' then '_' else LowerChar(header[i])
  {
    ReplaceSpaces(ToLower(header))
  }

  /** A key maps to itself. */
  lemma ColumnKeyIdempotent(header: string)
    ensures ColumnKey(ColumnKey(header)) == ColumnKey(header)
  {
    var k := ColumnKey(header);
    forall i | 0 <= i < |k| ensures ColumnKey(k)[i] == k[i] {
      assert ToLower(k)[i] == LowerChar(k[i]);
      assert ToLower(header)[i] == LowerChar(header[i]);
      assert LowerChar(LowerChar(header[i])) == LowerChar(header[i]);
    }
  }

  /** The report tables' "Product Name" column reads `product_name`. */
  lemma ProductNameKey()
    ensures ColumnKey("Product Name") == "product_name"
  {
    LowerProductName();
    SpacesProductName();
  }

  lemma LowerProductName()
    ensures ToLower("Product Name") == "product name"
  {
    var h := "Product Name";
    var r := ToLower(h);
    forall i | 0 <= i < |h| ensures r[i] == "product name"[i] {
      assert r[i] == LowerChar(h[i]);
    }
  }

  /** The replacement works piece by piece. */
  lemma {:induction false} ReplaceSpacesAppend(x: string, y: string)
    ensures ReplaceSpaces(x + y) == ReplaceSpaces(x) + ReplaceSpaces(y)
  {
    if x == [] {
      assert x + y == y;
    } else {
      assert (x + y)[0] == x[0];
      assert (x + y)[1..] == x[1..] + y;
      ReplaceSpacesAppend(x[1..], y);
    }
  }

  /** Text without a space is left alone. */
  lemma {:induction false} ReplaceSpacesNoSpace(a: string)
    requires forall i | 0 <= i < |a| :: a[i] != ' '
    ensures ReplaceSpaces(a) == a
  {
  }

  /** Replacing the spaces of two space-free words joined by one space. */
  lemma {:induction false} ReplaceOneSpace(a: string, b: string)
    requires forall i | 0 <= i < |a| :: a[i] != ' '
    requires forall i | 0 <= i < |b| :: b[i] != ' '
    ensures ReplaceSpaces(a + " " + b) == a + "_" + b
  {
    calc {
      ReplaceSpaces(a + " " + b);
      { ReplaceSpacesAppend(a + " ", b); }
      ReplaceSpaces(a + " ") + ReplaceSpaces(b);
      { ReplaceSpacesAppend(a, " "); }
      ReplaceSpaces(a) + ReplaceSpaces(" ") + ReplaceSpaces(b);
      { ReplaceSpacesNoSpace(a); ReplaceSpacesNoSpace(b); }
      a + ReplaceSpaces(" ") + b;
      { assert ReplaceSpaces(" ")[0] == '_'; }
      a + "_" + b;
    }
  }

  lemma SpacesProductName()
    ensures ReplaceSpaces("product name") == "product_name"
  {
    ReplaceOneSpace("product", "name");
    assert "product" + " " + "name" == "product name";
    assert "product" + "_" + "name" == "product_name";
  }

  /** The cell a table shows for a row under a header; `None` stands for
      `undefined`. */
  function Cell(row: ReportRow, header: string): (v: Option<Scalar>)
    ensures v.Some? <==> ColumnKey(header) in row
    ensures v.Some? ==> v.value == row[ColumnKey(header)]
  {
    var k := ColumnKey(header);
    if k in row then Some(row[k]) else None
  }

  /** Some value of the row is truthy and its string, lower-cased,
      contains the lower-cased search term. */
  predicate ItemMatches(row: ReportRow, term: string) {
    exists k | k in row :: Truthy(row[k]) && Includes(ToLower(ScalarToString(row[k])), ToLower(term))
  }

  /** The search filter of a report card. */
  function FilterReport(data: seq<ReportRow>, term: string): (r: seq<ReportRow>)
    ensures IsSubsequence(r, data)
    ensures forall x :: x in r <==> x in data && ItemMatches(x, term)
    ensures forall x :: multiset(r)[x] == if ItemMatches(x, term) then multiset(data)[x] else 0
  {
    Filter(data, (x: ReportRow) => ItemMatches(x, term))
  }

  /** The letter case of the search term does not matter. */
  lemma SearchIgnoresCase(data: seq<ReportRow>, term: string)
    ensures FilterReport(data, ToLower(term)) == FilterReport(data, term)
  {
    ToLowerIdempotent(term);
    FilterCongruent(data, (x: ReportRow) => ItemMatches(x, ToLower(term)), (x: ReportRow) => ItemMatches(x, term));
  }

  /** An empty search keeps exactly the rows with some truthy value. */
  lemma EmptySearchKeepsTruthyRows(data: seq<ReportRow>, x: ReportRow)
    ensures x in FilterReport(data, "") <==> x in data && exists k | k in x :: Truthy(x[k])
  {
    if x in data && exists k | k in x :: Truthy(x[k]) {
      var k :| k in x && Truthy(x[k]);
      IncludesEmpty(ToLower(ScalarToString(x[k])));
    }
  }

  /** `useReport(endpoint)`: the rows, the loading flag and the error. */
  datatype ReportState = ReportState(data: seq<ReportRow>, loading: bool, error: Option<string>)

  const Start := ReportState([], true, None)

  const FetchFailed := "Failed to fetch data. Please try again later."

  /** The fetch effect, once the request settles. A success stores the
      rows and leaves `error` as it was; a failure stores the message and
      keeps the rows. */
  function FetchReport(s: ReportState, reply: Reply<seq<ReportRow>>): (r: ReportState)
    ensures !r.loading
    ensures reply.Ok? ==> r.data == reply.value && r.error == s.error
    ensures reply.Fail? ==> r.data == s.data && r.error == Some(FetchFailed)
  {
    match reply
    case Ok(rows) => ReportState(rows, false, s.error)
    case Fail(_) => ReportState(s.data, false, Some(FetchFailed))
  }

  /** What the report card shows. */
  datatype View = Spinner | ErrorAlert(message: string) | Table(rows: seq<ReportRow>)

  function ReportView(s: ReportState, term: string): (v: View)
    ensures v == Spinner <==> s.loading
    ensures v.ErrorAlert? <==> !s.loading && Present(s.error)
    ensures v.Table? ==> v.rows == FilterReport(s.data, term)
  {
    if s.loading then Spinner
    else if Present(s.error) then ErrorAlert(s.error.value)
    else Table(FilterReport(s.data, term))
  }

  /** A failed fetch shows its message; a later success does not clear it,
      so the card keeps showing the alert. */
  lemma FailureSticks(s: ReportState, e: HttpError, rows: seq<ReportRow>, term: string)
    ensures ReportView(FetchReport(s, Fail(e)), term) == ErrorAlert(FetchFailed)
    ensures ReportView(FetchReport(FetchReport(s, Fail(e)), Ok(rows)), term) == ErrorAlert(FetchFailed)
  {
  }

  /** From the start, a successful fetch shows its rows, filtered. */
  lemma FirstSuccessShowsRows(rows: seq<ReportRow>, term: string)
    ensures ReportView(FetchReport(Start, Ok(rows)), term) == Table(FilterReport(rows, term))
  {
  }
}
