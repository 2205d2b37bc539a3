/** The reports that are exported (analytics/reports.service.ts): fixed titles, headings and columns, dates as
    `toISOString` writes them, and rows of any content.
 */
module Reports {
  import opened Wrappers
  import opened Csv

  datatype Kind = RevenueReport | BookingReport | CustomerReport | TechnicianReport | SubscriptionReport

  function Title(kind: Kind): string {
    match kind
    case RevenueReport => "Revenue Report"
    case BookingReport => "Booking Report"
    case CustomerReport => "Customer Report"
    case TechnicianReport => "Technician Report"
    case SubscriptionReport => "Subscription Report"
  }

  /** Headings with their columns. */
  function Layout(kind: Kind): seq<(string, Record)> {
    match kind
    case RevenueReport =>
      [("Summary", ["Metric", "Value"]), ("Revenue Over Time", ["Period", "Net"]),
       ("Revenue by Service", ["Service", "Net", "Payments"]), ("Revenue by Technician", ["Technician", "Net"])]
    case BookingReport =>
      [("Summary", ["Metric", "Value"]), ("By Status", ["Status", "Count"]), ("Trend", ["Period", "Bookings"])]
    case CustomerReport => [("Summary", ["Metric", "Value"])]
    case TechnicianReport =>
      [("Technician Performance",
        ["Technician", "Jobs (total)", "Jobs (range)", "Avg Rating", "Revenue", "Utilization"])]
    case SubscriptionReport => [("Summary", ["Metric", "Value"])]
  }

  // ---- dates ----

  datatype UtcTime = UtcTime(year: int, month: nat, day: nat, hour: nat, minute: nat, second: nat, millisecond: nat)

  /** The last `width` decimal digits. */
  function Digits(n: nat, width: nat): string {
    if width == 0 then "" else Digits(n / 10, width - 1) + ["0123456789"[n % 10]]
  }

  /** Years outside 0 to 9999 get a sign and six digits. */
  function YearText(year: int): string {
    if 0 <= year <= 9999 then Digits(year, 4) else if year < 0 then "-" + Digits(-year, 6) else "+" + Digits(year, 6)
  }

  function ToISOString(t: UtcTime): string {
    YearText(t.year) + "-" + Digits(t.month, 2) + "-" + Digits(t.day, 2) + "T" + Digits(t.hour, 2) + ":" +
    Digits(t.minute, 2) + ":" + Digits(t.second, 2) + "." + Digits(t.millisecond, 3) + "Z"
  }

  function Envelope(kind: Kind, generatedAt: UtcTime, from: UtcTime, to: UtcTime, rows: seq<seq<Record>>): Report
    requires |rows| == |Layout(kind)|
  {
    var sections := seq(|rows|, i requires 0 <= i < |rows| => Section(Layout(kind)[i].0, Layout(kind)[i].1, rows[i]));
    Report(Title(kind), ToISOString(generatedAt), ToISOString(from), ToISOString(to), sections)
  }

  // ---- none of it needs quotes ----

  lemma JoinedTextIsClean(a: string, b: string)
    ensures NeedsQuotes(a + b) <==> NeedsQuotes(a) || NeedsQuotes(b)
  {
    assert forall c :: c in a + b <==> c in a || c in b;
  }

  lemma {:induction false} DigitsAreClean(n: nat, width: nat)
    ensures !NeedsQuotes(Digits(n, width))
  {
    if width > 0 {
      DigitsAreClean(n / 10, width - 1);
      assert "0123456789"[n % 10] !in {'"', ',', '\n'};
    }
  }

  lemma CleanAfterDigits(text: string, separator: string, n: nat, width: nat)
    requires !NeedsQuotes(text) && !NeedsQuotes(separator)
    ensures !NeedsQuotes(text + separator + Digits(n, width))
  {
    DigitsAreClean(n, width);
    JoinedTextIsClean(text, separator);
    JoinedTextIsClean(text + separator, Digits(n, width));
  }

  lemma SeparatorsAreClean()
    ensures !NeedsQuotes("") && !NeedsQuotes("-") && !NeedsQuotes("+") && !NeedsQuotes("T") && !NeedsQuotes(":")
    ensures !NeedsQuotes(".") && !NeedsQuotes("Z")
  {
  }

  lemma DatesNeedNoQuotes(t: UtcTime)
    ensures !NeedsQuotes(ToISOString(t))
  {
    SeparatorsAreClean();
    DigitsAreClean(if t.year < 0 then -t.year else t.year, if 0 <= t.year <= 9999 then 4 else 6);
    JoinedTextIsClean("-", Digits(if t.year < 0 then -t.year else t.year, 6));
    JoinedTextIsClean("+", Digits(if t.year < 0 then -t.year else t.year, 6));
    var year := YearText(t.year);
    CleanAfterDigits(year, "-", t.month, 2);
    var month := year + "-" + Digits(t.month, 2);
    CleanAfterDigits(month, "-", t.day, 2);
    var day := month + "-" + Digits(t.day, 2);
    CleanAfterDigits(day, "T", t.hour, 2);
    var hour := day + "T" + Digits(t.hour, 2);
    CleanAfterDigits(hour, ":", t.minute, 2);
    var minute := hour + ":" + Digits(t.minute, 2);
    CleanAfterDigits(minute, ":", t.second, 2);
    var second := minute + ":" + Digits(t.second, 2);
    CleanAfterDigits(second, ".", t.millisecond, 3);
    JoinedTextIsClean(second + "." + Digits(t.millisecond, 3), "Z");
  }

  lemma TitlesNeedNoQuotes(kind: Kind)
    ensures !NeedsQuotes(Title(kind))
  {
  }

  lemma HeadingsNeedNoQuotes(kind: Kind, i: nat)
    requires i < |Layout(kind)|
    ensures !NeedsQuotes(Layout(kind)[i].0)
  {
  }

  /** Every report the service exports reads back from its CSV: title, dates, and for each section its heading, its
      columns and its rows, each at its place, whatever names, labels and figures the rows hold. */
  lemma EveryExportReadsBack(kind: Kind, generatedAt: UtcTime, from: UtcTime, to: UtcTime, rows: seq<seq<Record>>)
    requires |rows| == |Layout(kind)|
    ensures var report := Envelope(kind, generatedAt, from, to, rows);
      ReadsAs(CsvText(report), report)
  {
    var report := Envelope(kind, generatedAt, from, to, rows);
    TitlesNeedNoQuotes(kind);
    DatesNeedNoQuotes(generatedAt);
    DatesNeedNoQuotes(from);
    DatesNeedNoQuotes(to);
    forall s | s in report.sections ensures !NeedsQuotes(s.heading) {
      var i :| 0 <= i < |rows| && report.sections[i] == s;
      HeadingsNeedNoQuotes(kind, i);
    }
    ExportReadsBackExactlyWhen(report);
  }
}
