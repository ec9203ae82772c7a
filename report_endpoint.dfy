/** The decision logic of the `/generate_report` endpoint: the default
    window, the ladder of date checks, the mapping of API failures to response
    statuses, and the fixed-width text table of the report rows. Dates are
    instants in seconds; `now` is the one clock reading used for every
    comparison, `parse` is `strptime` with the `dd-mm-yyyy` format (None when
    it raises `ValueError`) and `format` is the matching `strftime`. */
module ReportEndpoint {
  import opened GitHubData
  import ContentUtils
  import GenerateReport

  const SecondsPerDay: int := 86400
  /** The default window is the last seven days. */
  const DefaultWindowDays: int := 7

  const BothInvalid: string := "Both Start and End Dates are invalid"
  const StartInvalid: string := "Start Date is invalid"
  const EndInvalid: string := "End Date is invalid"
  const EndBeforeStart: string := "End date must be greater than start date."
  const BadFormat: string := "Incorrect date format, should be dd-mm-yyyy."
  const RateLimited: string := "Rate limit exceeded"
  const GenerationFailed: string := "Error generating report"

  /** What the endpoint answers: 200 with the report path, or an
      `HTTPException` with its status and detail. */
  datatype Response = Success(filePath: string) | Failure(status: int, detail: string)

  /** The window a request resolves to, with the date strings the endpoint
      reports (the supplied ones, or the formatted defaults). */
  datatype Window = Window(start: int, end: int, startStr: string, endStr: string)

  datatype Resolution = Accepted(window: Window) | Rejected(response: Response)

  /** Python truthiness of an optional query parameter. */
  predicate Supplied(arg: Option<string>) {
    arg.Some? && arg.value != ""
  }

  /** The ladder of date checks, in the order the endpoint makes them; None
      when the window passes. */
  function ValidateWindow(start: int, end: int, now: int): (r: Option<Response>)
    ensures r.None? <==> start <= end <= now
    ensures r.Some? ==> r.value.Failure? && r.value.status == 400
    ensures r == Some(Failure(400, BothInvalid)) <==> start > now && end > now
    ensures r == Some(Failure(400, StartInvalid)) <==> start > now && end <= now
    ensures r == Some(Failure(400, EndInvalid)) <==> start <= now && end > now
    ensures r == Some(Failure(400, EndBeforeStart)) <==> start <= now && end <= now && end < start
  {
    if start > now && end > now then Some(Failure(400, BothInvalid))
    else if start > now then Some(Failure(400, StartInvalid))
    else if end > now then Some(Failure(400, EndInvalid))
    else if end < start then Some(Failure(400, EndBeforeStart))
    else None
  }

  /** The default window: the seven days ending now. */
  function DefaultWindow(now: int, format: int -> string): Window {
    var start := now - DefaultWindowDays * SecondsPerDay;
    Window(start, now, format(start), format(now))
  }

  /** The first part of the endpoint: choose the window and check it. */
  function ResolveWindow(startArg: Option<string>, endArg: Option<string>, now: int,
                         parse: string -> Option<int>, format: int -> string): (r: Resolution)
    ensures r.Accepted? ==> r.window.start <= r.window.end <= now
    ensures r.Rejected? ==> r.response.Failure? && r.response.status == 400
  {
    var w :=
      if Supplied(startArg) && Supplied(endArg) then
        match (parse(startArg.value), parse(endArg.value))
        case (Some(s), Some(e)) => Some(Window(s, e, startArg.value, endArg.value))
        case _ => None
      else Some(DefaultWindow(now, format));
    if w.None? then Rejected(Failure(400, BadFormat))
    else
      match ValidateWindow(w.value.start, w.value.end, now)
      case Some(resp) => Rejected(resp)
      case None => Accepted(w.value)
  }

  /** An `HTTPStatusError` raised while the report is generated: 403 (the rate
      limit) becomes 429, every other status 500. */
  function FailureResponse(status: int): (r: Response)
    ensures r.Failure?
    ensures r.status == 429 <==> status == 403
    ensures r.status == 500 <==> status != 403
    ensures status == 403 ==> r == Failure(429, RateLimited)
    ensures status != 403 ==> r == Failure(500, GenerationFailed)
  {
    if status == 403 then Failure(429, RateLimited) else Failure(500, GenerationFailed)
  }

  /** `generate_report_endpoint`. `generate` stands for `generate_report` with
      its network access: the report path, or the status of the
      `HTTPStatusError` it raised. */
  function GenerateReportEndpoint(startArg: Option<string>, endArg: Option<string>, now: int,
                                  parse: string -> Option<int>, format: int -> string,
                                  generate: (int, int) -> Fetch<string>): (r: Response)
    ensures r.Success? ==>
      var res := ResolveWindow(startArg, endArg, now, parse, format);
      res.Accepted? && generate(res.window.start, res.window.end) == Ok(r.filePath)
  {
    match ResolveWindow(startArg, endArg, now, parse, format)
    case Rejected(resp) => resp
    case Accepted(w) =>
      match generate(w.start, w.end)
      case Ok(path) => Success(path)
      case HttpError(status) => FailureResponse(status)
  }

  // ---------------------------------------------------------------------
  // Properties of the endpoint logic
  // ---------------------------------------------------------------------

  /** When either date is missing or empty, both are replaced by the last
      seven days: a lone supplied date is ignored, and the window passes. */
  lemma DefaultWindowRule(startArg: Option<string>, endArg: Option<string>, now: int,
                          parse: string -> Option<int>, format: int -> string)
    requires !Supplied(startArg) || !Supplied(endArg)
    ensures ResolveWindow(startArg, endArg, now, parse, format) ==
      Accepted(Window(now - 7 * 86400, now, format(now - 7 * 86400), format(now)))
  {
  }

  /** With both dates supplied, an unparsable one is a format error; parsed
      ones go through the ladder of checks and keep the supplied strings. */
  lemma SuppliedWindowRule(startArg: Option<string>, endArg: Option<string>, now: int,
                           parse: string -> Option<int>, format: int -> string)
    requires Supplied(startArg) && Supplied(endArg)
    ensures var r := ResolveWindow(startArg, endArg, now, parse, format);
      (parse(startArg.value).None? || parse(endArg.value).None? ==> r == Rejected(Failure(400, BadFormat))) &&
      (parse(startArg.value).Some? && parse(endArg.value).Some? ==>
        var s, e := parse(startArg.value).value, parse(endArg.value).value;
        (s <= e <= now ==> r == Accepted(Window(s, e, startArg.value, endArg.value))) &&
        (!(s <= e <= now) ==> r == Rejected(ValidateWindow(s, e, now).value)))
  {
  }

  /** A rejected request never reaches report generation: its response is
      the same whatever `generate` would do. */
  lemma RejectedBeforeGeneration(startArg: Option<string>, endArg: Option<string>, now: int,
                                 parse: string -> Option<int>, format: int -> string,
                                 g1: (int, int) -> Fetch<string>, g2: (int, int) -> Fetch<string>)
    requires ResolveWindow(startArg, endArg, now, parse, format).Rejected?
    ensures GenerateReportEndpoint(startArg, endArg, now, parse, format, g1) ==
            GenerateReportEndpoint(startArg, endArg, now, parse, format, g2)
    ensures GenerateReportEndpoint(startArg, endArg, now, parse, format, g1).status == 400
  {
  }

  /** An accepted request answers 429 exactly when generation hit the rate
      limit, 500 for any other status, and 200 with the path otherwise. */
  lemma AcceptedResponses(startArg: Option<string>, endArg: Option<string>, now: int,
                          parse: string -> Option<int>, format: int -> string,
                          generate: (int, int) -> Fetch<string>)
    requires ResolveWindow(startArg, endArg, now, parse, format).Accepted?
    ensures var w := ResolveWindow(startArg, endArg, now, parse, format).window;
      var r := GenerateReportEndpoint(startArg, endArg, now, parse, format, generate);
      (generate(w.start, w.end).Ok? ==> r == Success(generate(w.start, w.end).value)) &&
      (generate(w.start, w.end) == HttpError(403) ==> r == Failure(429, RateLimited)) &&
      (generate(w.start, w.end).HttpError? && generate(w.start, w.end).status != 403 ==>
        r == Failure(500, GenerationFailed))
  {
  }

  // ---------------------------------------------------------------------
  // The text table sent with the completion message
  // ---------------------------------------------------------------------

  /** The column titles, 51 characters: "USERS" and "TESTS ADDED" are followed
      by blanks up to columns 21 and 36. */
  const HeaderLine: string := "USERS                " + "TESTS ADDED    " + "PRs CONTRIBUTED"
  /** Fifty dashes. */
  const RuleLine: string := "-------------------------" + "-------------------------"

  function TableHeader(): string {
    (HeaderLine + "\n") + (RuleLine + "\n")
  }

  /** Left-justify `s` in a field of `width` characters (`:<width`): pad with
      spaces, never truncate. */
  function PadRight(s: string, width: nat): (r: string)
    ensures |r| == if |s| < width then width else |s|
  {
    if |s| >= width then s else s + Spaces(width - |s|)
  }

  /** `n` blanks. */
  function Spaces(n: nat): (r: string)
    ensures |r| == n
  {
    if n == 0 then "" else Spaces(n - 1) + " "
  }

  lemma {:induction false} SpacesAreBlank(n: nat)
    ensures forall i :: 0 <= i < n ==> Spaces(n)[i] == ' '
  {
    if n > 0 {
      SpacesAreBlank(n - 1);
    }
  }

  /** The padded field starts with the value, whole, and the rest is blank. */
  lemma PadRightShape(s: string, width: nat)
    ensures PadRight(s, width)[..|s|] == s
    ensures forall i :: |s| <= i < |PadRight(s, width)| ==> PadRight(s, width)[i] == ' '
  {
    if |s| < width {
      SpacesAreBlank(width - |s|);
    }
  }

  function DigitChar(d: nat): char
    requires d < 10
  {
    ('0' as int + d) as char
  }

  /** The decimal digits of `n`, most significant first. */
  function Digits(n: nat): (r: string)
    ensures |r| >= 1
    ensures forall i :: 0 <= i < |r| ==> '0' <= r[i] <= '9'
  {
    if n < 10 then [DigitChar(n)] else Digits(n / 10) + [DigitChar(n % 10)]
  }

  /** The value of a string of decimal digits. */
  function DigitsValue(s: string): nat
    requires forall i :: 0 <= i < |s| ==> '0' <= s[i] <= '9'
  {
    if s == [] then 0
    else DigitsValue(s[..|s| - 1]) * 10 + (s[|s| - 1] as int - '0' as int)
  }

  /** Reading the digits back gives the number. */
  lemma {:induction false} DigitsRoundTrip(n: nat)
    ensures DigitsValue(Digits(n)) == n
  {
    if n >= 10 {
      DigitsRoundTrip(n / 10);
      var d := Digits(n);
      assert d[..|d| - 1] == Digits(n / 10);
    }
  }

  /** `str(n)` of a Python int. */
  function Decimal(n: int): (r: string)
    ensures |r| >= 1
  {
    if n < 0 then "-" + Digits(-n) else Digits(n)
  }

  /** A rendered number holds neither blanks nor newlines, so the padding
      that follows it stays distinguishable. */
  lemma DecimalHasNoBlank(n: int)
    ensures forall i :: 0 <= i < |Decimal(n)| ==> Decimal(n)[i] != ' ' && Decimal(n)[i] != '\n'
  {
    var r := Decimal(n);
    if n < 0 {
      forall i | 0 < i < |r| ensures r[i] == Digits(-n)[i - 1] { }
    }
  }

  /** Reading a rendered count back gives the count: an optional minus sign
      followed by the digits of its magnitude. */
  lemma DecimalRoundTrip(n: int)
    ensures n >= 0 ==> DigitsValue(Decimal(n)) == n
    ensures n < 0 ==> Decimal(n)[0] == '-' && DigitsValue(Decimal(n)[1..]) == -n
  {
    if n >= 0 {
      DigitsRoundTrip(n);
    } else {
      DigitsRoundTrip(-n);
      assert Decimal(n)[1..] == Digits(-n);
    }
  }

  /** One data line of the table, without its newline. */
  function RowText(row: GenerateReport.Row): string {
    Columns(row.user, Decimal(row.testsAdded), Decimal(row.prsContributed))
  }

  /** Three values left-justified in fields of 20, 12 and 16 characters,
      separated by single blanks. */
  function Columns(u: string, t: string, p: string): string {
    PadRight(u, 20) + " " + PadRight(t, 12) + " " + PadRight(p, 16)
  }

  /** The rendered lines of `rows`, in order. */
  function RowTexts(rows: seq<GenerateReport.Row>): (texts: seq<string>)
    ensures |texts| == |rows|
  {
    if rows == [] then [] else RowTexts(rows[..|rows| - 1]) + [RowText(rows[|rows| - 1])]
  }

  /** The data lines of the table: each row line followed by a newline. */
  function TableBody(rows: seq<GenerateReport.Row>): string {
    ContentUtils.Unlines(RowTexts(rows))
  }

  lemma TableBodyStep(rows: seq<GenerateReport.Row>, i: nat)
    requires i < |rows|
    ensures TableBody(rows[..i + 1]) == TableBody(rows[..i]) + (RowText(rows[i]) + "\n")
  {
    assert rows[..i + 1][..i] == rows[..i];
    ContentUtils.UnlinesSnoc(RowTexts(rows[..i]), RowText(rows[i]));
    ConcatAssoc(TableBody(rows[..i]), RowText(rows[i]), "\n");
  }

  lemma ConcatAssoc(a: string, b: string, c: string)
    ensures (a + b) + c == a + (b + c)
  {
  }

  /** The loop that appends one formatted line per report row. */
  method ReportTable(rows: seq<GenerateReport.Row>) returns (table: string)
    ensures table == TableHeader() + TableBody(rows)
  {
    table := HeaderLine + "\n";
    table := table + (RuleLine + "\n");
    assert TableHeader() + TableBody(rows[..0]) == table + [];
    for i := 0 to |rows|
      invariant table == TableHeader() + TableBody(rows[..i])
    {
      var line := RowText(rows[i]) + "\n";
      TableBodyStep(rows, i);
      ConcatAssoc(TableHeader(), TableBody(rows[..i]), line);
      table := table + line;
    }
    assert rows[..|rows|] == rows;
  }

  lemma SliceOfLeft(a: string, b: string, i: nat, j: nat)
    requires i <= j <= |a|
    ensures (a + b)[i..j] == a[i..j]
  {
  }

  lemma SliceOfRight(a: string, b: string, i: nat, j: nat)
    requires |a| <= i <= j <= |a| + |b|
    ensures (a + b)[i..j] == b[i - |a|..j - |a|]
  {
  }

  /** The layout of three columns: the first value comes first and whole;
      each field takes at least its width and more when the value is longer;
      with values that fit, the second and third start at columns 21 and 34
      and the line is 50 wide. */
  lemma ColumnsLayout(u: string, t: string, p: string)
    ensures var line := Columns(u, t, p);
      |line| == (if |u| < 20 then 20 else |u|) + (if |t| < 12 then 12 else |t|) +
                (if |p| < 16 then 16 else |p|) + 2 &&
      line[..|u|] == u &&
      (|u| <= 20 && |t| <= 12 ==> line[21..21 + |t|] == t && line[34..34 + |p|] == p) &&
      (|u| <= 20 && |t| <= 12 && |p| <= 16 ==> |line| == 50)
  {
    ColumnsStartWithFirst(u, t, p);
    if |u| <= 20 && |t| <= 12 {
      ColumnsAligned(u, t, p);
    }
  }

  lemma ColumnsStartWithFirst(u: string, t: string, p: string)
    ensures Columns(u, t, p)[..|u|] == u
  {
    var pu := PadRight(u, 20);
    var rest := " " + PadRight(t, 12) + " " + PadRight(p, 16);
    PadRightShape(u, 20);
    assert Columns(u, t, p) == pu + rest;
    SliceOfLeft(pu, rest, 0, |u|);
    assert (pu + rest)[..|u|] == (pu + rest)[0..|u|];
    assert pu[0..|u|] == pu[..|u|];
  }

  lemma ColumnsAligned(u: string, t: string, p: string)
    requires |u| <= 20 && |t| <= 12
    ensures Columns(u, t, p)[21..21 + |t|] == t
    ensures Columns(u, t, p)[34..34 + |p|] == p
  {
    var pu, pt, pp := PadRight(u, 20), PadRight(t, 12), PadRight(p, 16);
    var z := pu + " ";
    var x := z + pt + " ";
    assert Columns(u, t, p) == x + pp;
    assert |z| == 21 && |x| == 34;
    PadRightShape(t, 12);
    PadRightShape(p, 16);
    SliceOfLeft(x, pp, 21, 21 + |t|);
    SliceOfLeft(z + pt, " ", 21, 21 + |t|);
    SliceOfRight(z, pt, 21, 21 + |t|);
    assert pt[0..|t|] == pt[..|t|];
    SliceOfRight(x, pp, 34, 34 + |p|);
    assert pp[0..|p|] == pp[..|p|];
  }

  /** The layout of a row line: the user name, then the two counts in
      decimal, in the columns above. */
  lemma RowLayout(row: GenerateReport.Row)
    ensures var line, u := RowText(row), row.user;
      var t, p := Decimal(row.testsAdded), Decimal(row.prsContributed);
      |line| == (if |u| < 20 then 20 else |u|) + (if |t| < 12 then 12 else |t|) +
                (if |p| < 16 then 16 else |p|) + 2 &&
      line[..|u|] == u &&
      (|u| <= 20 && |t| <= 12 ==> line[21..21 + |t|] == t && line[34..34 + |p|] == p) &&
      (|u| <= 20 && |t| <= 12 && |p| <= 16 ==> |line| == 50)
  {
    ColumnsLayout(row.user, Decimal(row.testsAdded), Decimal(row.prsContributed));
  }

  /** Padding adds only blanks. */
  lemma PadRightAddsNoNewline(s: string, width: nat)
    requires '\n' !in s
    ensures '\n' !in PadRight(s, width)
  {
    if |s| < width {
      SpacesAreBlank(width - |s|);
    }
  }

  /** The rendering of a row contains no newline when the user name has none. */
  lemma RowTextHasNoNewline(row: GenerateReport.Row)
    requires '\n' !in row.user
    ensures '\n' !in RowText(row)
  {
    DecimalHasNoBlank(row.testsAdded);
    DecimalHasNoBlank(row.prsContributed);
    PadRightAddsNoNewline(row.user, 20);
    PadRightAddsNoNewline(Decimal(row.testsAdded), 12);
    PadRightAddsNoNewline(Decimal(row.prsContributed), 16);
  }

  /** No row line contains a newline when no user name does. */
  lemma {:induction false} RowTextsAreSingle(rows: seq<GenerateReport.Row>)
    requires forall i :: 0 <= i < |rows| ==> '\n' !in rows[i].user
    ensures ContentUtils.NoNewlines(RowTexts(rows))
  {
    if rows != [] {
      var init := rows[..|rows| - 1];
      assert forall i :: 0 <= i < |init| ==> init[i] == rows[i];
      RowTextsAreSingle(init);
      RowTextHasNoNewline(rows[|rows| - 1]);
    }
  }

  /** The two fixed lines are single lines. */
  lemma HeaderHasNoNewline()
    ensures '\n' !in HeaderLine
  {
    assert '\n' !in "USERS                ";
    assert '\n' !in "TESTS ADDED    ";
    assert '\n' !in "PRs CONTRIBUTED";
  }

  lemma RuleHasNoNewline()
    ensures '\n' !in RuleLine
  {
    assert '\n' !in "-------------------------";
  }

  lemma HeaderIsUnlines()
    ensures ContentUtils.Unlines([HeaderLine, RuleLine]) == TableHeader()
  {
    assert [HeaderLine, RuleLine][1..] == [RuleLine];
    assert [RuleLine][1..] == [];
    assert ContentUtils.Unlines([RuleLine]) == RuleLine + "\n" + "";
    assert RuleLine + "\n" + "" == RuleLine + "\n";
    ConcatAssoc(HeaderLine, "\n", RuleLine + "\n");
  }

  /** The whole table is its lines, each terminated by a newline. */
  lemma TableIsUnlines(rows: seq<GenerateReport.Row>)
    ensures TableHeader() + TableBody(rows) ==
      ContentUtils.Unlines([HeaderLine, RuleLine] + RowTexts(rows))
  {
    HeaderIsUnlines();
    ContentUtils.UnlinesAppend([HeaderLine, RuleLine], RowTexts(rows));
  }

  lemma TableLinesAreSingle(rows: seq<GenerateReport.Row>)
    requires forall i :: 0 <= i < |rows| ==> '\n' !in rows[i].user
    ensures ContentUtils.NoNewlines([HeaderLine, RuleLine] + RowTexts(rows))
  {
    FixedLinesAreSingle();
    RowTextsAreSingle(rows);
    ContentUtils.NoNewlinesAppend([HeaderLine, RuleLine], RowTexts(rows));
  }

  lemma FixedLinesAreSingle()
    ensures ContentUtils.NoNewlines([HeaderLine, RuleLine])
  {
    var fixed := [HeaderLine, RuleLine];
    forall j | 0 <= j < 2 ensures '\n' !in fixed[j] {
      if j == 0 {
        HeaderHasNoNewline();
      } else {
        RuleHasNoNewline();
      }
    }
  }

  /** The table splits into the header line, the rule and one line per row,
      in row order. */
  lemma TableLines(rows: seq<GenerateReport.Row>)
    requires forall i :: 0 <= i < |rows| ==> '\n' !in rows[i].user
    ensures ContentUtils.SplitLines(TableHeader() + TableBody(rows)) ==
      [HeaderLine, RuleLine] + RowTexts(rows)
  {
    TableIsUnlines(rows);
    TableLinesAreSingle(rows);
    ContentUtils.SplitUnlines([HeaderLine, RuleLine] + RowTexts(rows));
  }
}
