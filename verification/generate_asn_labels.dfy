/** The `generate_asn_labels` management command: checks the target folder,
    lays out `pages` sheets of `rows` x `columns` ASN labels numbered from
    `asn_start`, and names the PDF after the first and last ASN of the run.
    The PDF library is reduced to the trace of calls the command makes
    (see SheetLayout); the file system is reduced to two answers about the
    target folder. */
module LabelCommand {
  import opened Outcomes
  import opened LabelFormat
  import opened SheetLayout
  import opened Decimal

  /** The command's options. Counts are Python integers: argparse accepts
      negative values, and `range(0, n)` runs no iteration for them. */
  datatype Options = Options(asnStart: int, template: Template, rows: int, columns: int, pages: int)

  /** What `os.path.exists` and `os.access(target, os.W_OK)` answer. */
  datatype Target = Target(present: bool, writable: bool)

  /** Why the command stops before writing a file. */
  datatype Failure = PathMissing | PathNotWritable | DivisionByZero

  /** What the command leaves behind: the renderer calls and the file name
      (placed in the target folder). */
  datatype Sheet = Sheet(trace: seq<Event>, fileName: string)

  /** The defaults of the command line: start at 1, `<ASN:{:09}>`, 14 rows,
      4 columns, one page. */
  const Defaults := Options(1, AsnTemplate, 14, 4, 1)

  /** The text the command reports for each failure. */
  function Message(f: Failure): (m: string)
    ensures m != ""
  {
    match f
    case PathMissing => "That path doesn't exist"
    case PathNotWritable => "That path doesn't appear to be writable"
    case DivisionByZero => "float division by zero"
  }

  /** Each failure reports its own message. */
  lemma MessagesDistinct(f: Failure, g: Failure)
    ensures Message(f) == Message(g) <==> f == g
  {
  }

  /** Number of iterations of `range(0, n)`. */
  function Count(n: int): nat {
    if n > 0 then n else 0
  }

  /** The label text of one number under the template. */
  function Labeler(t: Template): int -> string {
    n => Format(t, n)
  }

  /** The last ASN of the run, computed from the options as given. */
  function AsnEnd(o: Options): int {
    o.asnStart + o.pages * o.rows * o.columns - 1
  }

  /** The name of the PDF: first ASN, a dash, last ASN, `.pdf`. */
  function FileName(o: Options): string {
    Format(o.template, o.asnStart) + "-" + Format(o.template, AsnEnd(o)) + ".pdf"
  }

  /** The reference layout of the whole run. */
  function Document(o: Options): seq<Event> {
    Pages(Labeler(o.template), o.asnStart, Count(o.pages), Count(o.rows), Count(o.columns))
  }

  /** Number of labels the run prints. */
  function LabelCount(o: Options): nat {
    Count(o.pages) * (Count(o.rows) * Count(o.columns))
  }

  /** The innermost loop: one cell per column, each labelled with the next
      ASN, then the line break that closes the row. */
  method EmitRow(fmt: int -> string, first: int, columns: nat) returns (events: seq<Event>, next: int)
    ensures events == RowBlock(fmt, columns)(first)
    ensures next == first + columns
  {
    var asn := first;
    events := [];
    var column := 0;
    while column < columns
      invariant column <= columns
      invariant asn == first + column
      invariant events == RowCells(fmt, first, column)
    {
      events := events + [Cell(fmt(asn))];
      asn := asn + 1;
      column := column + 1;
    }
    events := events + [LineBreak];
    next := asn;
  }

  /** The middle loop: a page start, then `rows` rows. */
  method EmitPage(fmt: int -> string, first: int, rows: nat, columns: nat) returns (events: seq<Event>, next: int)
    ensures events == PageBlock(fmt, rows, columns)(first)
    ensures next == first + rows * columns
  {
    var asn := first;
    var body := [];
    var row := 0;
    while row < rows
      invariant row <= rows
      invariant asn == first + row * columns
      invariant body == Rows(fmt, first, row, columns)
    {
      var cells;
      cells, asn := EmitRow(fmt, asn, columns);
      RepeatSnoc(RowBlock(fmt, columns), first, columns, row);
      MulSucc(row, columns);
      body := body + cells;
      row := row + 1;
    }
    events := [NewPage] + body;
    next := asn;
  }

  /** The outer loop over pages; the counter ends one past the last label. */
  method EmitPages(fmt: int -> string, first: int, pages: nat, rows: nat, columns: nat) returns (trace: seq<Event>, next: int)
    ensures trace == Pages(fmt, first, pages, rows, columns)
    ensures next == first + pages * (rows * columns)
  {
    var perPage := rows * columns;
    var asn := first;
    trace := [];
    var page := 0;
    while page < pages
      invariant page <= pages
      invariant asn == first + page * perPage
      invariant trace == Pages(fmt, first, page, rows, columns)
    {
      var events;
      events, asn := EmitPage(fmt, asn, rows, columns);
      RepeatSnoc(PageBlock(fmt, rows, columns), first, perPage, page);
      MulSucc(page, perPage);
      trace := trace + events;
      page := page + 1;
    }
    next := asn;
  }

  /** The emission loops run with the template as the labelling function
      and `range` semantics for the counts. */
  method Render(o: Options) returns (trace: seq<Event>, asn: int)
    ensures trace == Document(o)
    ensures asn == o.asnStart + LabelCount(o)
  {
    trace, asn := EmitPages(Labeler(o.template), o.asnStart, Count(o.pages), Count(o.rows), Count(o.columns));
  }

  /** The command: the two path checks in order, then the cell size
      divisions (which fail on zero columns or zero rows), then the
      emission loop and the file name. */
  method Handle(o: Options, target: Target) returns (r: Result<Sheet, Failure>)
    ensures !target.present ==> r == Failure(PathMissing)
    ensures target.present && !target.writable ==> r == Failure(PathNotWritable)
    ensures target.present && target.writable && (o.rows == 0 || o.columns == 0) ==> r == Failure(DivisionByZero)
    ensures r.Success? <==> target.present && target.writable && o.rows != 0 && o.columns != 0
    ensures r.Success? ==> r.value == Sheet(Document(o), FileName(o))
  {
    if !target.present {
      return Failure(PathMissing);
    }
    if !target.writable {
      return Failure(PathNotWritable);
    }
    var asnEnd := o.asnStart + o.pages * o.rows * o.columns - 1;
    if o.columns == 0 || o.rows == 0 {
      return Failure(DivisionByZero);
    }
    var trace, _ := Render(o);
    var fileName := Format(o.template, o.asnStart);
    fileName := fileName + "-";
    fileName := fileName + Format(o.template, asnEnd);
    fileName := fileName + ".pdf";
    return Success(Sheet(trace, fileName));
  }

  /** The labels of a run, in emission order, are the template applied to
      `asn_start`, `asn_start + 1`, ... */
  lemma DocumentLabels(o: Options)
    ensures |Labels(Document(o))| == LabelCount(o)
    ensures forall k :: 0 <= k < LabelCount(o) ==> Labels(Document(o))[k] == Format(o.template, o.asnStart + k)
  {
    PagesLabels(Labeler(o.template), o.asnStart, Count(o.pages), Count(o.rows), Count(o.columns));
  }

  /** The label texts the run prints, in order. */
  function PrintedLabels(o: Options): seq<string> {
    Labels(Document(o))
  }

  lemma PrintedLabelAt(o: Options, k: nat)
    requires k < LabelCount(o)
    ensures |PrintedLabels(o)| == LabelCount(o)
    ensures PrintedLabels(o)[k] == Format(o.template, o.asnStart + k)
  {
    DocumentLabels(o);
  }

  /** `ParseFormat` for a label known only by its equation. */
  lemma ParseLabel(t: Template, text: string, n: int)
    requires text == Format(t, n)
    ensures Parse(t, text) == Some(n)
  {
    ParseFormat(t, n);
  }

  /** `FormatInjective` for labels known only by their equations. */
  lemma LabelsEqual(t: Template, a: string, b: string, n: int, m: int)
    requires a == Format(t, n) && b == Format(t, m)
    ensures a == b <==> n == m
  {
    FormatInjective(t, n, m);
  }

  /** Reading the `k`-th printed label back yields `asn_start + k`. */
  lemma LabelReadsBack(o: Options, k: nat)
    requires k < LabelCount(o)
    ensures |PrintedLabels(o)| == LabelCount(o)
    ensures Parse(o.template, PrintedLabels(o)[k]) == Some(o.asnStart + k)
  {
    PrintedLabelAt(o, k);
    ParseLabel(o.template, PrintedLabels(o)[k], o.asnStart + k);
  }

  /** No label is printed twice. */
  lemma LabelsDistinct(o: Options, i: nat, j: nat)
    requires i < LabelCount(o) && j < LabelCount(o)
    ensures |PrintedLabels(o)| == LabelCount(o)
    ensures PrintedLabels(o)[i] == PrintedLabels(o)[j] <==> i == j
  {
    DocumentLabels(o);
    ConsecutiveDistinct(PrintedLabels(o), o.template, o.asnStart, i, j);
  }

  /** In a run of labels of consecutive numbers, positions with equal
      labels are equal. */
  lemma ConsecutiveDistinct(labels: seq<string>, t: Template, start: int, i: nat, j: nat)
    requires forall k :: 0 <= k < |labels| ==> labels[k] == Format(t, start + k)
    requires i < |labels| && j < |labels|
    ensures labels[i] == labels[j] <==> i == j
  {
    LabelsEqual(t, labels[i], labels[j], start + i, start + j);
  }

  /** One page start per page, one line break per row of every page. */
  lemma DocumentBreaks(o: Options)
    ensures PageBreaks(Document(o)) == Count(o.pages)
    ensures LineBreaks(Document(o)) == Count(o.pages) * Count(o.rows)
  {
    PagesBreaks(Labeler(o.template), o.asnStart, Count(o.pages), Count(o.rows), Count(o.columns));
  }

  /** With non-negative counts, `asn_end` is the last number the loop
      used: one less than the counter after the loop. */
  lemma EndMatchesCounter(o: Options)
    requires o.pages >= 0 && o.rows >= 0 && o.columns >= 0
    ensures AsnEnd(o) == o.asnStart + LabelCount(o) - 1
  {
  }

  /** The run prints nothing exactly when one of the three counts is zero
      or negative. */
  lemma NothingPrinted(o: Options)
    ensures LabelCount(o) == 0 <==> o.pages <= 0 || o.rows <= 0 || o.columns <= 0
  {
    if o.pages > 0 && o.rows > 0 && o.columns > 0 {
      MulSucc(o.rows - 1, o.columns);
      MulSucc(o.pages - 1, o.rows * o.columns);
    }
  }

  /** When at least one label is printed, the file name is the first
      printed label, a dash, the last printed label and `.pdf`. */
  lemma FileNameNamesRange(o: Options)
    requires o.pages > 0 && o.rows > 0 && o.columns > 0
    ensures LabelCount(o) > 0 && |PrintedLabels(o)| == LabelCount(o)
    ensures FileName(o) == PrintedLabels(o)[0] + "-" + PrintedLabels(o)[LabelCount(o) - 1] + ".pdf"
  {
    DocumentLabels(o);
    EndMatchesCounter(o);
    MulSucc(o.rows - 1, o.columns);
    MulSucc(o.pages - 1, o.rows * o.columns);
  }

  /** A negative page count prints nothing, yet the end ASN in the file
      name falls below the start. */
  lemma NegativePagesNameEmptyRange(o: Options)
    requires o.pages < 0 && o.rows > 0 && o.columns > 0
    ensures Document(o) == []
    ensures AsnEnd(o) < o.asnStart - 1
  {
    MulSucc(o.rows - 1, o.columns);
    assert o.pages * o.rows * o.columns == o.pages * (o.rows * o.columns);
  }

  /** Under the default template a file name of in-range ASNs splits back
      into its start and end ASN. */
  lemma AsnFileNameReadsBack(o: Options)
    requires o.template == AsnTemplate
    requires 0 <= o.asnStart < Pow10(9) && 0 <= AsnEnd(o) < Pow10(9)
    ensures |FileName(o)| == 35
    ensures Parse(AsnTemplate, FileName(o)[..15]) == Some(o.asnStart)
    ensures FileName(o)[15] == '-' && FileName(o)[31..] == ".pdf"
    ensures Parse(AsnTemplate, FileName(o)[16..31]) == Some(AsnEnd(o))
  {
    var first := Format(AsnTemplate, o.asnStart);
    var last := Format(AsnTemplate, AsnEnd(o));
    AsnLabelMatchesPattern(o.asnStart);
    AsnLabelMatchesPattern(AsnEnd(o));
    ParseFormat(AsnTemplate, o.asnStart);
    ParseFormat(AsnTemplate, AsnEnd(o));
    assert FileName(o) == first + "-" + last + ".pdf";
    assert FileName(o)[..15] == first;
    assert FileName(o)[16..31] == last;
  }

  lemma DefaultTexts()
    ensures Format(AsnTemplate, 1) == "<ASN:000000001>"
    ensures Format(AsnTemplate, 56) == "<ASN:000000056>"
  {
    assert AllDigits("000000001") && Value("000000001") == 1 by {
      ValueIgnoresLeadingZeros(8, "1");
      assert Zeros(8) + "1" == "000000001";
    }
    assert AllDigits("000000056") && Value("000000056") == 56 by {
      ValueIgnoresLeadingZeros(7, "56");
      assert Zeros(7) + "56" == "000000056";
    }
    AsnLabelOfDigits("000000001", 1);
    AsnLabelOfDigits("000000056", 56);
    DefaultConcat();
  }

  lemma DefaultConcat()
    ensures "<ASN:" + "000000001" + ">" == "<ASN:000000001>"
    ensures "<ASN:" + "000000056" + ">" == "<ASN:000000056>"
  {
  }

  /** The closing log line exactly as the source builds it: only the first
      of the two adjacent string literals is an f-string, so the second
      keeps its braces and is never filled in. */
  function LogLineAsWritten(o: Options): string {
    "Produced ASN labels from " + "{options['asn_start']} to {asn_end}."
  }

  /** Two runs over different ranges log the same line. */
  lemma LogLineAsWrittenHidesRange(a: Options, b: Options)
    requires a == Defaults && b == Defaults.(asnStart := 990000001)
    ensures AsnEnd(a) != AsnEnd(b)
    ensures LogLineAsWritten(a) == LogLineAsWritten(b)
  {
  }

  const LogPrefix := "Produced ASN labels from "

  /** Python's `str` of an integer: the template body at width zero. */
  function IntText(n: int): string {
    Body(0, n)
  }

  /** The closing log line with both placeholders filled in. */
  function LogLine(o: Options): string {
    LogPrefix + IntText(o.asnStart) + " to " + IntText(AsnEnd(o)) + "."
  }

  /** Index of the first space in `s`, or `|s|` when there is none. */
  function FirstSpace(s: string): (i: nat)
    ensures i <= |s|
    ensures forall j :: 0 <= j < i ==> s[j] != ' '
    ensures i < |s| ==> s[i] == ' '
  {
    if s == [] || s[0] == ' ' then 0 else 1 + FirstSpace(s[1..])
  }

  /** Reads the start and end ASN back from a log line. */
  function ParseLogLine(s: string): Option<(int, int)> {
    if |s| >= |LogPrefix| + 1 && s[..|LogPrefix|] == LogPrefix && s[|s| - 1] == '.' then
      var middle := s[|LogPrefix|..|s| - 1];
      var i := FirstSpace(middle);
      if i + 4 <= |middle| && middle[i..i + 4] == " to " then
        match (ParseBody(middle[..i]), ParseBody(middle[i + 4..]))
        case (Some(first), Some(last)) => Some((first, last))
        case _ => None
      else None
    else None
  }

  /** An integer's text holds no space. */
  lemma IntTextHasNoSpace(n: int)
    ensures forall j :: 0 <= j < |IntText(n)| ==> IntText(n)[j] != ' '
  {
    SignedDigitsHaveNoSpace(IntText(n));
  }

  lemma SignedDigitsHaveNoSpace(s: string)
    requires AllDigits(s) || (|s| >= 2 && s[0] == '-' && AllDigits(s[1..]))
    ensures forall j :: 0 <= j < |s| ==> s[j] != ' '
  {
    if !AllDigits(s) {
      forall j | 1 <= j < |s|
        ensures s[j] != ' '
      {
        assert s[j] == s[1..][j - 1];
      }
    }
  }

  lemma {:induction false} FirstSpaceAfter(a: string, rest: string)
    requires forall j :: 0 <= j < |a| ==> a[j] != ' '
    requires |rest| >= 1 && rest[0] == ' '
    ensures FirstSpace(a + rest) == |a|
    decreases |a|
  {
    if a != [] {
      assert (a + rest)[1..] == a[1..] + rest;
      FirstSpaceAfter(a[1..], rest);
    }
  }

  /** A line built from two space-free integer texts splits back into them. */
  lemma ParseLogLineOf(a: string, b: string, first: int, last: int)
    requires forall j :: 0 <= j < |a| ==> a[j] != ' '
    requires ParseBody(a) == Some(first) && ParseBody(b) == Some(last)
    ensures ParseLogLine(LogPrefix + a + " to " + b + ".") == Some((first, last))
  {
    var middle := a + " to " + b;
    SplitAtTo(a, b, middle);
    LineFrame(LogPrefix + a + " to " + b + ".", middle);
    ParseLogLineParts(LogPrefix + a + " to " + b + ".", middle, |a|, first, last);
  }

  lemma SplitAtTo(a: string, b: string, middle: string)
    requires forall j :: 0 <= j < |a| ==> a[j] != ' '
    requires middle == a + " to " + b
    ensures FirstSpace(middle) == |a| && |a| + 4 <= |middle|
    ensures middle[..|a|] == a && middle[|a|..|a| + 4] == " to " && middle[|a| + 4..] == b
  {
    assert middle == a + (" to " + b);
    FirstSpaceAfter(a, " to " + b);
  }

  lemma LineFrame(s: string, middle: string)
    requires s == LogPrefix + middle + "."
    ensures |s| >= |LogPrefix| + 1 && s[..|LogPrefix|] == LogPrefix && s[|s| - 1] == '.'
    ensures s[|LogPrefix|..|s| - 1] == middle
  {
  }

  lemma ParseLogLineParts(s: string, middle: string, i: nat, first: int, last: int)
    requires |s| >= |LogPrefix| + 1 && s[..|LogPrefix|] == LogPrefix && s[|s| - 1] == '.'
    requires s[|LogPrefix|..|s| - 1] == middle
    requires FirstSpace(middle) == i && i + 4 <= |middle| && middle[i..i + 4] == " to "
    requires ParseBody(middle[..i]) == Some(first) && ParseBody(middle[i + 4..]) == Some(last)
    ensures ParseLogLine(s) == Some((first, last))
  {
  }

  /** The corrected log line names the run's range: reading it back gives
      the start and end ASN. */
  lemma LogLineReadsBack(o: Options)
    ensures ParseLogLine(LogLine(o)) == Some((o.asnStart, AsnEnd(o)))
  {
    IntTextHasNoSpace(o.asnStart);
    BodyRoundTrip(0, o.asnStart);
    BodyRoundTrip(0, AsnEnd(o));
    ParseLogLineOf(IntText(o.asnStart), IntText(AsnEnd(o)), o.asnStart, AsnEnd(o));
  }

  /** Two runs log the same corrected line exactly when they cover the same
      range. */
  lemma LogLineNamesRange(x: Options, y: Options)
    ensures LogLine(x) == LogLine(y) <==> x.asnStart == y.asnStart && AsnEnd(x) == AsnEnd(y)
  {
    LogLineReadsBack(x);
    LogLineReadsBack(y);
  }

  /** The default run: one page of 56 labels from `<ASN:000000001>` to
      `<ASN:000000056>`. */
  lemma DefaultRun(o: Options)
    requires o == Defaults
    ensures LabelCount(o) == 56 && |PrintedLabels(o)| == 56
    ensures forall k :: 0 <= k < 56 ==> PrintedLabels(o)[k] == Format(AsnTemplate, 1 + k)
    ensures PrintedLabels(o)[0] == "<ASN:000000001>"
    ensures PrintedLabels(o)[55] == "<ASN:000000056>"
    ensures PageBreaks(Document(o)) == 1
  {
    assert Count(o.pages) == 1 && Count(o.rows) == 14 && Count(o.columns) == 4;
    DefaultTexts();
    DocumentLabels(o);
    DocumentBreaks(o);
  }

  /** The default file name. */
  lemma DefaultFileName(o: Options)
    requires o == Defaults
    ensures FileName(o) == "<ASN:000000001>-<ASN:000000056>.pdf"
  {
    assert Format(o.template, o.asnStart) == "<ASN:000000001>" by {
      assert o.template == AsnTemplate && o.asnStart == 1;
      DefaultTexts();
    }
    assert Format(o.template, AsnEnd(o)) == "<ASN:000000056>" by {
      assert o.template == AsnTemplate && AsnEnd(o) == 56;
      DefaultTexts();
    }
    FileNameParts(o, "<ASN:000000001>", "<ASN:000000056>");
    DefaultNameText();
  }

  lemma DefaultNameText()
    ensures "<ASN:000000001>" + "-" + "<ASN:000000056>" + ".pdf" == "<ASN:000000001>-<ASN:000000056>.pdf"
  {
  }

  lemma FileNameParts(o: Options, first: string, last: string)
    requires Format(o.template, o.asnStart) == first && Format(o.template, AsnEnd(o)) == last
    ensures FileName(o) == first + "-" + last + ".pdf"
  {
  }

  /** Ten pages of defaults make ten page starts. */
  lemma TenPages(o: Options)
    requires o == Defaults.(pages := 10)
    ensures PageBreaks(Document(o)) == 10
  {
    DocumentBreaks(o);
  }

  /** Under the default template, a printed label whose number fits nine
      digits matches the extraction pattern and reads back as its number. */
  lemma AsnLabelAt(o: Options, k: nat)
    requires o.template == AsnTemplate && k < LabelCount(o)
    requires 0 <= o.asnStart + k < Pow10(9)
    ensures |PrintedLabels(o)| == LabelCount(o)
    ensures MatchesAsnPattern(PrintedLabels(o)[k])
    ensures Parse(AsnTemplate, PrintedLabels(o)[k]) == Some(o.asnStart + k)
  {
    PrintedLabelAt(o, k);
    AsnLabelFacts(PrintedLabels(o)[k], o.asnStart + k);
  }

  lemma AsnLabelFacts(text: string, n: int)
    requires text == Format(AsnTemplate, n) && 0 <= n < Pow10(9)
    ensures MatchesAsnPattern(text) && Parse(AsnTemplate, text) == Some(n)
  {
    AsnLabelMatchesPattern(n);
    ParseFormat(AsnTemplate, n);
  }

  /** The digit strings of the first and last label of a run from
      990000001, read digit by digit. */
  lemma HighDigits()
    ensures AllDigits("990000001") && Value("990000001") == 990000001
    ensures AllDigits("990000056") && Value("990000056") == 990000056
  {
    assert Value("9900000") == 9900000 by {
      HighPrefix();
    }
    ValueSnoc("9900000", '0');
    assert "9900000" + ['0'] == "99000000";
    ValueSnoc("99000000", '1');
    assert "99000000" + ['1'] == "990000001";
    ValueSnoc("9900000", '5');
    assert "9900000" + ['5'] == "99000005";
    ValueSnoc("99000005", '6');
    assert "99000005" + ['6'] == "990000056";
  }

  lemma HighPrefix()
    ensures AllDigits("9900000") && Value("9900000") == 9900000
  {
    ValueSnoc([], '9');
    assert [] + ['9'] == "9";
    ValueSnoc("9", '9');
    assert "9" + ['9'] == "99";
    ValueSnoc("99", '0');
    assert "99" + ['0'] == "990";
    ValueSnoc("990", '0');
    assert "990" + ['0'] == "9900";
    ValueSnoc("9900", '0');
    assert "9900" + ['0'] == "99000";
    ValueSnoc("99000", '0');
    assert "99000" + ['0'] == "990000";
    ValueSnoc("990000", '0');
    assert "990000" + ['0'] == "9900000";
  }

  lemma HighTexts()
    ensures "<ASN:" + "990000001" + ">" == "<ASN:990000001>"
    ensures "<ASN:" + "990000056" + ">" == "<ASN:990000056>"
  {
  }

  /** Starting at 990000001 the first and last labels are
      `<ASN:990000001>` and `<ASN:990000056>`; both match the extraction
      pattern and read back as their numbers. */
  lemma HighStart(o: Options)
    requires o == Defaults.(asnStart := 990000001)
    ensures LabelCount(o) == 56 && |PrintedLabels(o)| == 56
    ensures MatchesAsnPattern(PrintedLabels(o)[0])
    ensures Parse(AsnTemplate, PrintedLabels(o)[0]) == Some(990000001)
    ensures MatchesAsnPattern(PrintedLabels(o)[55])
    ensures Parse(AsnTemplate, PrintedLabels(o)[55]) == Some(990000056)
    ensures PrintedLabels(o)[0] == "<ASN:990000001>"
    ensures PrintedLabels(o)[55] == "<ASN:990000056>"
  {
    assert Count(o.pages) == 1 && Count(o.rows) == 14 && Count(o.columns) == 4;
    AsnLabelAt(o, 0);
    AsnLabelAt(o, 55);
    HighDigits();
    HighTexts();
    LabelTextAt(o, 0, "990000001", "<ASN:990000001>");
    LabelTextAt(o, 55, "990000056", "<ASN:990000056>");
  }

  /** The `k`-th default-template label, given the nine digits of its
      number. */
  lemma LabelTextAt(o: Options, k: nat, digits: string, full: string)
    requires o.template == AsnTemplate && k < LabelCount(o)
    requires |digits| == 9 && AllDigits(digits) && Value(digits) == o.asnStart + k
    requires "<ASN:" + digits + ">" == full
    ensures |PrintedLabels(o)| == LabelCount(o)
    ensures PrintedLabels(o)[k] == full
  {
    PrintedLabelAt(o, k);
    LabelIs(PrintedLabels(o)[k], o.template, o.asnStart + k, digits, full);
  }

  lemma LabelIs(text: string, t: Template, n: int, digits: string, full: string)
    requires t == AsnTemplate && text == Format(t, n)
    requires |digits| == 9 && AllDigits(digits) && Value(digits) == n
    requires "<ASN:" + digits + ">" == full
    ensures text == full
  {
    AsnLabelOfDigits(digits, n);
  }
}
