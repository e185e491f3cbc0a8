/** The monthly payments report (apps/payments/reports.py): payment lines split into pages at the
    Telegram limit, and totals per currency. Times of payments are text already formatted. */
module MonthlyReport {
  import opened Wrappers

  const MESSAGE_LIMIT := 4000
  const NO_PAYMENTS := "В заданном периоде платежей не было."

  datatype Currency = Code(n: int) | Digits(n: int, text: string) | Word(text: string)

  function FormatCurrency(c: Currency): string {
    match c
    case Word(text) => text
    case Digits(n, text) => if n in CURRENCY_NAMES then CURRENCY_NAMES[n] else text
    case Code(n) => if n in CURRENCY_NAMES then CURRENCY_NAMES[n] else "UNKNOWN"
  }

  const CURRENCY_NAMES: map<int, string> := map[933 := "BYN", 840 := "USD", 978 := "EUR", 643 := "RUB"]
  const KNOWN_CODES: seq<string> := ["BYN", "USD", "EUR", "RUB"]

  /** amount: in hundredths; the times are texts. */
  datatype Payment = Payment(createdAt: string, account: string, amount: int, currency: Currency,
                             cancelledAt: Option<string>)

  /** A calendar day. */
  datatype Day = Day(day: nat, month: nat, year: nat)

  type Date = d: Day | 1 <= d.day <= 31 && 1 <= d.month <= 12 && 1 <= d.year <= 9999 witness Day(1, 1, 1)

  /** Texts of the report: header of a page, its number label, and the summary from the number of
      payments, the number of cancelled ones and the positive totals in order. */
  datatype Texts = Texts(header: nat -> seq<string>, pageLabel: nat -> string,
                         summary: (nat, nat, seq<(string, int)>) -> seq<string>)

  /** The names of the known codes; an unknown number has none, other texts stand for themselves. */
  lemma CurrencyNames(n: int, text: string)
    ensures FormatCurrency(Word(text)) == text
    ensures FormatCurrency(Code(n)) ==
      if n == 933 then "BYN" else if n == 840 then "USD" else if n == 978 then "EUR" else if n == 643 then "RUB"
      else "UNKNOWN"
    ensures FormatCurrency(Digits(n, text)) ==
      if n == 933 then "BYN" else if n == 840 then "USD" else if n == 978 then "EUR" else if n == 643 then "RUB"
      else text
  {}

  // ---------- text ----------

  function Join(lines: seq<string>): string {
    if lines == [] then "" else if |lines| == 1 then lines[0]
      else Join(lines[..|lines| - 1]) + "\n" + lines[|lines| - 1]
  }

  const DIGITS := "0123456789"

  function Decimal(n: nat): (r: string)
    ensures r != ""
  {
    if n < 10 then [DIGITS[n]] else Decimal(n / 10) + [DIGITS[n % 10]]
  }

  function TwoDigits(n: nat): string {
    if n < 10 then "0" + Decimal(n) else Decimal(n)
  }

  /** An amount with two decimals. */
  function Money(hundredths: int): string {
    var abs := if hundredths < 0 then -hundredths else hundredths;
    (if hundredths < 0 then "-" else "") + Decimal(abs / 100) + "." + TwoDigits(abs % 100)
  }

  function Value(digits: string): nat {
    if digits == "" then 0
    else
      var last := digits[|digits| - 1];
      10 * Value(digits[..|digits| - 1]) + if '0' <= last <= '9' then last as int - '0' as int else 0
  }

  /** Numbers read back as what was written. */
  lemma {:induction false} DecimalReadsBack(n: nat)
    ensures Value(Decimal(n)) == n
  {
    if n < 10 {
      assert Decimal(n)[..0] == "";
    } else {
      DecimalReadsBack(n / 10);
      assert Decimal(n)[..|Decimal(n)| - 1] == Decimal(n / 10);
    }
  }

  /** An amount reads back from its two parts around the point. */
  lemma MoneyReadsBack(hundredths: nat)
    ensures var text := Money(hundredths); var point := |text| - 3;
      && point > 0 && text[point] == '.'
      && Value(text[..point]) == hundredths / 100 && Value(text[point + 1..]) == hundredths % 100
  {
    var units, rest := Decimal(hundredths / 100), TwoDigits(hundredths % 100);
    DecimalReadsBack(hundredths / 100);
    TwoDigitsReadBack(hundredths % 100);
    assert Money(hundredths) == units + "." + rest;
    assert (units + "." + rest)[..|units|] == units && (units + "." + rest)[|units| + 1..] == rest;
  }

  lemma TwoDigitsReadBack(n: nat)
    requires n < 100
    ensures |TwoDigits(n)| == 2 && Value(TwoDigits(n)) == n
  {
    DecimalReadsBack(n);
    if n < 10 {
      assert TwoDigits(n)[..1] == "0" && "0"[..0] == "" && TwoDigits(n)[1] == DIGITS[n];
    } else {
      assert Decimal(n) == Decimal(n / 10) + [DIGITS[n % 10]];
    }
  }

  function DateText(d: Date): string {
    TwoDigits(d.day) + "." + TwoDigits(d.month) + "." + Decimal(d.year)
  }

  lemma DateReadsBack(d: Date)
    ensures var text := DateText(d);
      && |text| > 6 && text[2] == '.' && text[5] == '.'
      && Value(text[..2]) == d.day && Value(text[3..5]) == d.month && Value(text[6..]) == d.year
  {
    TwoDigitsReadBack(d.day);
    TwoDigitsReadBack(d.month);
    DecimalReadsBack(d.year);
    var text := DateText(d);
    assert text[..2] == TwoDigits(d.day) && text[3..5] == TwoDigits(d.month) && text[6..] == Decimal(d.year);
  }

  function EscapedChar(c: char): string {
    match c
    case '&' => "&amp;"
    case '<' => "&lt;"
    case '>' => "&gt;"
    case '\"' => "&quot;"
    case '\'' => "&#x27;"
    case _ => [c]
  }

  function Escaped(text: string): string {
    if text == "" then "" else Escaped(text[..|text| - 1]) + EscapedChar(text[|text| - 1])
  }

  /** No escaped text contains markup characters. */
  lemma {:induction false} EscapedIsPlain(text: string)
    ensures forall c :: c in Escaped(text) ==> c !in {'<', '>', '\"', '\''}
  {
    if text != "" { EscapedIsPlain(text[..|text| - 1]); }
  }

  function Line(p: Payment): string {
    p.createdAt + " - " + Escaped(p.account) + " - " + Money(p.amount) + " " + FormatCurrency(p.currency) + " " +
    if p.cancelledAt.Some? then "⚠️ ВОЗВРАТ: " + p.cancelledAt.value else ""
  }

  function Lines(payments: seq<Payment>): seq<string> {
    seq(|payments|, i requires 0 <= i < |payments| => Line(payments[i]))
  }

  function Period(start: Date, end: Date): string {
    DateText(start) + " - " + DateText(end)
  }

  function ReportHeader(start: Date, end: Date, page: nat): seq<string> {
    [if page > 1 then "<b>Отчет о платежах (для НПД) — стр. " + Decimal(page) + "</b>"
     else "<b>Отчет о платежах (для НПД)</b>",
     "", "<b>Период</b>", Period(start, end), ""]
  }

  function TotalLines(totals: seq<(string, int)>): seq<string> {
    seq(|totals|, i requires 0 <= i < |totals| => " * " + totals[i].0 + ": " + Money(totals[i].1))
  }

  function Summary(count: nat, cancelled: nat, totals: seq<(string, int)>): seq<string> {
    ["", "<b>ИТОГО:</b>", "Платежей: " + Decimal(count), "Возвратов: " + Decimal(cancelled), "Доход для НПД:"] +
    TotalLines(totals)
  }

  function ReportTexts(start: Date, end: Date): Texts {
    Texts((page: nat) => ReportHeader(start, end, page), (page: nat) => "Страница: " + Decimal(page), Summary)
  }

  // ---------- pages ----------

  /** closed: the payment lines of the finished pages; open: those of the page being filled. */
  datatype Pages = Pages(closed: seq<seq<string>>, open: seq<string>)

  /** A page is closed by the line that takes its text to the limit. */
  function AddLine(pages: Pages, line: string, header: nat -> seq<string>): Pages {
    var page := pages.open + [line];
    if |Join(header(|pages.closed| + 1) + page)| >= MESSAGE_LIMIT then Pages(pages.closed + [page], [])
    else Pages(pages.closed, page)
  }

  function Paginate(lines: seq<string>, header: nat -> seq<string>): Pages {
    if lines == [] then Pages([], []) else AddLine(Paginate(lines[..|lines| - 1], header), lines[|lines| - 1], header)
  }

  function RenderClosed(closed: seq<seq<string>>, t: Texts): seq<string> {
    seq(|closed|, i requires 0 <= i < |closed| => Join(t.header(i + 1) + closed[i] + ["", t.pageLabel(i + 1)]))
  }

  // ---------- totals ----------

  /** Currencies in the order in which the totals list them: the known ones, then new ones as they come. */
  function Codes(payments: seq<Payment>): seq<string> {
    if payments == [] then KNOWN_CODES
    else
      var before := Codes(payments[..|payments| - 1]);
      var last := payments[|payments| - 1];
      if last.cancelledAt.Some? || FormatCurrency(last.currency) in before then before
        else before + [FormatCurrency(last.currency)]
  }

  function Income(payments: seq<Payment>, code: string): int {
    if payments == [] then 0
    else
      var last := payments[|payments| - 1];
      Income(payments[..|payments| - 1], code) + if last.cancelledAt.None? && FormatCurrency(last.currency) == code
        then last.amount else 0
  }

  function Cancelled(payments: seq<Payment>): nat {
    if payments == [] then 0
    else Cancelled(payments[..|payments| - 1]) + if payments[|payments| - 1].cancelledAt.Some? then 1 else 0
  }

  function PositiveTotals(codes: seq<string>, payments: seq<Payment>): seq<(string, int)> {
    if codes == [] then []
    else
      var code := codes[|codes| - 1];
      PositiveTotals(codes[..|codes| - 1], payments) + if Income(payments, code) > 0
        then [(code, Income(payments, code))] else []
  }

  function Report(payments: seq<Payment>, t: Texts): seq<string> {
    if payments == [] then [Join(t.header(1) + [NO_PAYMENTS])]
    else
      var pages := Paginate(Lines(payments), t.header);
      var page := |pages.closed| + 1;
      RenderClosed(pages.closed, t) +
      [Join(t.header(page) + pages.open + (if page > 1 then ["", t.pageLabel(page)] else []) +
            t.summary(|payments|, Cancelled(payments), PositiveTotals(Codes(payments), payments)))]
  }

  // ---------- the code ----------

  method PositiveItems(codes: seq<string>, totals: map<string, int>, ghost payments: seq<Payment>)
    returns (items: seq<(string, int)>)
    requires forall code :: code in codes ==> code in totals && totals[code] == Income(payments, code)
    ensures items == PositiveTotals(codes, payments)
  {
    items := [];
    for n := 0 to |codes|
      invariant items == PositiveTotals(codes[..n], payments)
    {
      assert codes[..n + 1][..n] == codes[..n] && codes[n] in codes;
      if totals[codes[n]] > 0 {
        items := items + [(codes[n], totals[codes[n]])];
      }
    }
    assert codes[..|codes|] == codes;
  }

  /** The running totals after some payments. */
  ghost predicate TotalsOf(codes: seq<string>, totals: map<string, int>, payments: seq<Payment>) {
    && codes == Codes(payments)
    && (forall code :: code in codes <==> code in totals)
    && (forall code :: code in totals ==> totals[code] == Income(payments, code))
  }

  method AddPayment(codes: seq<string>, totals: map<string, int>, cancelled: nat, payment: Payment,
                    ghost payments: seq<Payment>)
    returns (codes': seq<string>, totals': map<string, int>, cancelled': nat)
    requires TotalsOf(codes, totals, payments) && cancelled == Cancelled(payments)
    ensures TotalsOf(codes', totals', payments + [payment]) && cancelled' == Cancelled(payments + [payment])
  {
    assert (payments + [payment])[..|payments|] == payments;
    codes', totals', cancelled' := codes, totals, cancelled;
    var code := FormatCurrency(payment.currency);
    if payment.cancelledAt.Some? {
      cancelled' := cancelled + 1;
    } else {
      if code !in totals {
        UnlistedHasNoIncome(payments, code);
        totals' := totals'[code := 0];
        codes' := codes' + [code];
      }
      totals' := totals'[code := totals'[code] + payment.amount];
    }
  }

  /** The report so far and the page being filled. */
  ghost predicate Filling(report: seq<string>, header: seq<string>, lines: seq<string>, page: nat, pages: Pages,
                          t: Texts) {
    report == RenderClosed(pages.closed, t) && lines == pages.open && page == |pages.closed| + 1 &&
      header == t.header(page)
  }

  method AddToPage(report: seq<string>, header: seq<string>, lines: seq<string>, page: nat, line: string, t: Texts,
                   ghost pages: Pages)
    returns (report': seq<string>, header': seq<string>, lines': seq<string>, page': nat)
    requires Filling(report, header, lines, page, pages, t)
    ensures Filling(report', header', lines', page', AddLine(pages, line, t.header), t)
  {
    report', header', lines', page' := report, header, lines + [line], page;
    RenderSnoc(pages.closed, lines', t);
    if |Join(header' + lines')| >= MESSAGE_LIMIT {
      report' := report' + [Join(header' + lines' + ["", t.pageLabel(page')])];
      page' := page' + 1;
      header' := t.header(page');
      lines' := [];
    }
  }

  /** One iteration of the loop over the payments. */
  method AddNext(payments: seq<Payment>, n: nat, report: seq<string>, header: seq<string>, lines: seq<string>,
                 page: nat, codes: seq<string>, totals: map<string, int>, cancelled: nat, t: Texts)
    returns (report': seq<string>, header': seq<string>, lines': seq<string>, page': nat,
             codes': seq<string>, totals': map<string, int>, cancelled': nat)
    requires n < |payments| && Filling(report, header, lines, page, Paginate(Lines(payments[..n]), t.header), t)
    requires TotalsOf(codes, totals, payments[..n]) && cancelled == Cancelled(payments[..n])
    ensures Filling(report', header', lines', page', Paginate(Lines(payments[..n + 1]), t.header), t)
    ensures TotalsOf(codes', totals', payments[..n + 1]) && cancelled' == Cancelled(payments[..n + 1])
  {
    assert payments[..n + 1] == payments[..n] + [payments[n]];
    codes', totals', cancelled' := AddPayment(codes, totals, cancelled, payments[n], payments[..n]);
    PaginateSnoc(payments[..n], payments[n], t.header);
    report', header', lines', page' := AddToPage(report, header, lines, page, Line(payments[n]), t,
      Paginate(Lines(payments[..n]), t.header));
  }

  /** The loop over the payments. */
  method FillPages(payments: seq<Payment>, t: Texts)
    returns (report: seq<string>, header: seq<string>, lines: seq<string>, page: nat,
             codes: seq<string>, totals: map<string, int>, cancelled: nat)
    ensures Filling(report, header, lines, page, Paginate(Lines(payments), t.header), t)
    ensures TotalsOf(codes, totals, payments) && cancelled == Cancelled(payments)
  {
    header := t.header(1);
    lines := [];   // payment lines of the current page
    report := [];
    page := 1;
    codes := KNOWN_CODES;
    totals := map code | code in KNOWN_CODES :: 0;
    cancelled := 0;
    for n := 0 to |payments|
      invariant Filling(report, header, lines, page, Paginate(Lines(payments[..n]), t.header), t)
      invariant TotalsOf(codes, totals, payments[..n]) && cancelled == Cancelled(payments[..n])
    {
      report, header, lines, page, codes, totals, cancelled :=
        AddNext(payments, n, report, header, lines, page, codes, totals, cancelled, t);
    }
    assert payments[..|payments|] == payments;
  }

  method BuildReport(payments: seq<Payment>, start: Date, end: Date) returns (report: seq<string>)
    ensures report == Report(payments, ReportTexts(start, end))
    ensures payments == [] ==>
      report == [Join(ReportHeader(start, end, 1) + ["В заданном периоде платежей не было."])]
    ensures payments != [] ==> exists pages, totals :: LaidOut(report, pages, totals, payments, start, end)
  {
    var t := ReportTexts(start, end);
    if payments == [] {
      return [Join(t.header(1) + [NO_PAYMENTS])];
    }
    var header, lines, page, codes, totals, cancelled;
    report, header, lines, page, codes, totals, cancelled := FillPages(payments, t);
    var items := PositiveItems(codes, totals, payments);
    var footer := if page > 1 || report != [] then ["", t.pageLabel(page)] else [];
    report := report + [Join(header + lines + footer + t.summary(|payments|, cancelled, items))];
    ghost var pages, sums := ReportIsLaidOut(payments, start, end);
  }

  lemma PaginateSnoc(payments: seq<Payment>, payment: Payment, header: nat -> seq<string>)
    ensures Paginate(Lines(payments + [payment]), header) ==
      AddLine(Paginate(Lines(payments), header), Line(payment), header)
  {
    LinesSnoc(payments, payment);
    PaginateMore(Lines(payments), Line(payment), header);
  }

  lemma LinesSnoc(payments: seq<Payment>, payment: Payment)
    ensures Lines(payments + [payment]) == Lines(payments) + [Line(payment)]
  {}

  lemma PaginateMore(lines: seq<string>, line: string, header: nat -> seq<string>)
    ensures Paginate(lines + [line], header) == AddLine(Paginate(lines, header), line, header)
  {
    assert (lines + [line])[..|lines|] == lines;
  }

  lemma RenderSnoc(closed: seq<seq<string>>, page: seq<string>, t: Texts)
    ensures RenderClosed(closed + [page], t) ==
      RenderClosed(closed, t) + [Join(t.header(|closed| + 1) + page + ["", t.pageLabel(|closed| + 1)])]
  {}

  // ---------- what the pages contain ----------

  function Flatten(pages: seq<seq<string>>): seq<string> {
    if pages == [] then [] else Flatten(pages[..|pages| - 1]) + pages[|pages| - 1]
  }

  function AllLines(pages: Pages): seq<string> {
    Flatten(pages.closed) + pages.open
  }

  /** The pages in order hold exactly one line per payment, in order. */
  lemma {:induction false} PagesHoldEveryLine(lines: seq<string>, header: nat -> seq<string>)
    ensures AllLines(Paginate(lines, header)) == lines
  {
    if lines != [] {
      var n := |lines| - 1;
      assert lines[..n] + [lines[n]] == lines;
      PagesHoldEveryLine(lines[..n], header);
      OneMoreLine(lines[..n], lines[n], header);
    }
  }

  lemma {:induction false} OneMoreLine(before: seq<string>, line: string, header: nat -> seq<string>)
    requires AllLines(Paginate(before, header)) == before
    ensures AllLines(Paginate(before + [line], header)) == before + [line]
  {
    assert (before + [line])[..|before|] == before;
    AddLineHolds(Paginate(before, header), line, header);
  }

  lemma AddLineHolds(pages: Pages, line: string, header: nat -> seq<string>)
    ensures AllLines(AddLine(pages, line, header)) == AllLines(pages) + [line]
  {
    var page := pages.open + [line];
    assert (pages.closed + [page])[..|pages.closed|] == pages.closed;
    assert Flatten(pages.closed + [page]) == Flatten(pages.closed) + page;
  }

  lemma JoinLonger(lines: seq<string>, line: string)
    requires lines != []
    ensures |Join(lines + [line])| == |Join(lines)| + 1 + |line|
  {
    assert (lines + [line])[..|lines|] == lines;
  }

  /** The headers of the first pages fit into a message. */
  ghost predicate HeadersFit(header: nat -> seq<string>, pages: nat) {
    forall p :: 1 <= p <= pages ==> |Join(header(p))| < MESSAGE_LIMIT
  }

  ghost predicate NoEmptyHeader(header: nat -> seq<string>) {
    forall p :: header(p) != []
  }

  /** The page's text before its footer has reached the limit, by its last line. */
  ghost predicate Filled(head: seq<string>, page: seq<string>) {
    page != [] && MESSAGE_LIMIT <= |Join(head + page)| < MESSAGE_LIMIT + 1 + |page[|page| - 1]|
  }

  ghost predicate WellFilled(pages: Pages, header: nat -> seq<string>) {
    && (forall i :: 0 <= i < |pages.closed| ==> Filled(header(i + 1), pages.closed[i]))
    && |Join(header(|pages.closed| + 1) + pages.open)| < MESSAGE_LIMIT
  }

  /** A line takes a page from below the limit to at most its own length and a line break above. */
  lemma LastLineFills(head: seq<string>, open: seq<string>, line: string)
    requires head != [] && |Join(head + open)| < MESSAGE_LIMIT
    ensures |Join(head + (open + [line]))| >= MESSAGE_LIMIT ==> Filled(head, open + [line])
  {
    JoinLonger(head + open, line);
    assert head + open + [line] == head + (open + [line]);
  }

  lemma AddLineKeepsFilled(pages: Pages, line: string, header: nat -> seq<string>)
    requires NoEmptyHeader(header) && WellFilled(pages, header)
    requires HeadersFit(header, |AddLine(pages, line, header).closed| + 1)
    ensures WellFilled(AddLine(pages, line, header), header)
  {
    var page := pages.open + [line];
    LastLineFills(header(|pages.closed| + 1), pages.open, line);
    if |Join(header(|pages.closed| + 1) + page)| >= MESSAGE_LIMIT {
      ClosedPageIsFilled(pages, page, header);
    }
  }

  lemma ClosedPageIsFilled(pages: Pages, page: seq<string>, header: nat -> seq<string>)
    requires HeadersFit(header, |pages.closed| + 2) && WellFilled(pages, header) &&
      Filled(header(|pages.closed| + 1), page)
    ensures WellFilled(Pages(pages.closed + [page], []), header)
  {
    var closed := pages.closed + [page];
    forall i | 0 <= i < |closed| ensures Filled(header(i + 1), closed[i]) {
      if i < |pages.closed| { assert Filled(header(i + 1), pages.closed[i]); }
    }
    assert header(|closed| + 1) + [] == header(|closed| + 1);
  }

  lemma {:induction false} FittingPagesAreFull(lines: seq<string>, header: nat -> seq<string>)
    requires NoEmptyHeader(header) && HeadersFit(header, |Paginate(lines, header).closed| + 1)
    ensures WellFilled(Paginate(lines, header), header)
  {
    if lines == [] {
      assert header(1) + [] == header(1);
    } else {
      FittingPagesAreFull(lines[..|lines| - 1], header);
      AddLineKeepsFilled(Paginate(lines[..|lines| - 1], header), lines[|lines| - 1], header);
    }
  }

  lemma {:induction false} JoinGrows(head: seq<string>, page: seq<string>)
    requires head != []
    ensures |Join(head + page)| >= |Join(head)| + if page == [] then 0 else 1 + |page[|page| - 1]|
  {
    if page == [] {
      assert head + page == head;
    } else {
      var n := |page| - 1;
      JoinGrows(head, page[..n]);
      JoinLonger(head + page[..n], page[n]);
      assert head + page[..n] + [page[n]] == head + page;
    }
  }

  lemma FullPagesFit(pages: Pages, header: nat -> seq<string>)
    requires NoEmptyHeader(header) && WellFilled(pages, header)
    ensures HeadersFit(header, |pages.closed| + 1)
  {
    forall p | 1 <= p <= |pages.closed| + 1 ensures |Join(header(p))| < MESSAGE_LIMIT {
      if p <= |pages.closed| {
        FilledPageFits(header(p), pages.closed[p - 1]);
        assert Filled(header(p - 1 + 1), pages.closed[p - 1]);
      } else {
        JoinGrows(header(p), pages.open);
      }
    }
  }

  lemma FilledPageFits(head: seq<string>, page: seq<string>)
    requires head != []
    ensures Filled(head, page) ==> |Join(head)| < MESSAGE_LIMIT
  {
    JoinGrows(head, page);
  }

  /** Every page but the last has been filled up to the limit by its last line and the last page is
      below the limit, if and only if the header of every page fits. */
  lemma PagesAreFullIff(lines: seq<string>, header: nat -> seq<string>)
    requires NoEmptyHeader(header)
    ensures WellFilled(Paginate(lines, header), header) <==> HeadersFit(header, |Paginate(lines, header).closed| + 1)
  {
    var pages := Paginate(lines, header);
    if WellFilled(pages, header) {
      FullPagesFit(pages, header);
    } else if HeadersFit(header, |pages.closed| + 1) {
      FittingPagesAreFull(lines, header);
    }
  }

  // ---------- the headers of this report fit ----------

  function PowerOfTen(k: nat): nat {
    if k == 0 then 1 else 10 * PowerOfTen(k - 1)
  }

  /** A number has at most k digits exactly when it is below the k-th power of ten. */
  lemma {:induction false} DecimalLength(n: nat, k: nat)
    requires k > 0
    ensures |Decimal(n)| <= k <==> n < PowerOfTen(k)
  {
    if n < 10 {
      PowerAtLeastTen(k);
    } else if k == 1 {
      assert PowerOfTen(1) == 10 * PowerOfTen(0) == 10;
    } else {
      DecimalLength(n / 10, k - 1);
    }
  }

  lemma {:induction false} PowerAtLeastTen(k: nat)
    requires k > 0
    ensures PowerOfTen(k) >= 10
  {
    if k > 1 { PowerAtLeastTen(k - 1); }
  }

  lemma DateTextLength(d: Date)
    ensures |DateText(d)| <= 10
  {
    DecimalLength(d.day, 2);
    DecimalLength(d.month, 2);
    PowerFour();
    DecimalLength(d.year, 4);
  }

  lemma PowerFour()
    ensures PowerOfTen(2) == 100 && PowerOfTen(4) == 10000
  {
    assert PowerOfTen(1) == 10 * PowerOfTen(0);
    assert PowerOfTen(2) == 10 * PowerOfTen(1);
    assert PowerOfTen(3) == 10 * PowerOfTen(2);
  }

  lemma HeaderLength(start: Date, end: Date, page: nat)
    ensures |Join(ReportHeader(start, end, page))| ==
      50 + |Period(start, end)| + if page > 1 then 8 + |Decimal(page)| else 0
  {
    var head := ReportHeader(start, end, page);
    assert |head[0]| == 33 + if page > 1 then 8 + |Decimal(page)| else 0;
    JoinLonger([head[0]], head[1]);
    JoinLonger([head[0]] + [head[1]], head[2]);
    JoinLonger([head[0]] + [head[1]] + [head[2]], head[3]);
    JoinLonger([head[0]] + [head[1]] + [head[2]] + [head[3]], head[4]);
    assert head == [head[0]] + [head[1]] + [head[2]] + [head[3]] + [head[4]];
  }

  lemma DecimalGrows(n: nat, m: nat)
    requires n <= m
    ensures |Decimal(n)| <= |Decimal(m)|
  {
    DecimalLength(m, |Decimal(m)|);
    DecimalLength(n, |Decimal(m)|);
  }

  lemma PeriodLength(start: Date, end: Date)
    ensures |Period(start, end)| <= 23
  {
    DateTextLength(start);
    DateTextLength(end);
  }

  /** The last page's header is the longest. */
  lemma LastHeaderDecides(start: Date, end: Date, pages: nat)
    requires pages >= 1
    ensures HeadersFit(ReportTexts(start, end).header, pages) <==>
      pages == 1 || 58 + |Period(start, end)| + |Decimal(pages)| < MESSAGE_LIMIT
  {
    var header := ReportTexts(start, end).header;
    PeriodLength(start, end);
    assert header(pages) == ReportHeader(start, end, pages);
    HeaderLength(start, end, pages);
    if pages == 1 || 58 + |Period(start, end)| + |Decimal(pages)| < MESSAGE_LIMIT {
      forall p | 1 <= p <= pages ensures |Join(header(p))| < MESSAGE_LIMIT {
        HeaderLength(start, end, p);
        DecimalGrows(p, pages);
      }
    }
  }

  lemma ReportHeadersNotEmpty(start: Date, end: Date)
    ensures NoEmptyHeader(ReportTexts(start, end).header)
  {}

  /** The pages of this report are full for any two dates, if and only if the number of the last page
      is not thousands of digits long. */
  lemma ReportPagesAreFullIff(lines: seq<string>, start: Date, end: Date)
    ensures var header := ReportTexts(start, end).header;
      var pages := Paginate(lines, header); var last := |pages.closed| + 1;
      WellFilled(pages, header) <==> last == 1 || 58 + |Period(start, end)| + |Decimal(last)| < MESSAGE_LIMIT
  {
    var header := ReportTexts(start, end).header;
    ReportHeadersNotEmpty(start, end);
    PagesAreFullIff(lines, header);
    LastHeaderDecides(start, end, |Paginate(lines, header).closed| + 1);
  }

  /** So they are full for any number of payments below the 3918th power of ten. */
  lemma ReportPagesAreFull(lines: seq<string>, start: Date, end: Date, digits: nat)
    requires 0 < digits <= 3918 && |lines| + 1 < PowerOfTen(digits)
    ensures var header := ReportTexts(start, end).header; WellFilled(Paginate(lines, header), header)
  {
    var header := ReportTexts(start, end).header;
    var last := |Paginate(lines, header).closed| + 1;
    PagesAtMostLines(lines, header);
    DecimalLength(last, digits);
    PeriodLength(start, end);
    ReportPagesAreFullIff(lines, start, end);
  }

  lemma {:induction false} PagesAtMostLines(lines: seq<string>, header: nat -> seq<string>)
    ensures |Paginate(lines, header).closed| <= |lines|
  {
    if lines != [] { PagesAtMostLines(lines[..|lines| - 1], header); }
  }

  // ---------- what the totals add up to ----------

  function SumOver(codes: seq<string>, payments: seq<Payment>): int {
    if codes == [] then 0 else SumOver(codes[..|codes| - 1], payments) + Income(payments, codes[|codes| - 1])
  }

  /** The payments that were not cancelled, in order. */
  function Kept(payments: seq<Payment>): seq<Payment> {
    if payments == [] then []
    else
      var last := payments[|payments| - 1];
      Kept(payments[..|payments| - 1]) + if last.cancelledAt.Some? then [] else [last]
  }

  function Amounts(payments: seq<Payment>): int {
    if payments == [] then 0 else Amounts(payments[..|payments| - 1]) + payments[|payments| - 1].amount
  }

  /** The amounts of the payments that were not cancelled. */
  function Counted(payments: seq<Payment>): int {
    if payments == [] then 0
    else Counted(payments[..|payments| - 1]) + if payments[|payments| - 1].cancelledAt.Some? then 0
      else payments[|payments| - 1].amount
  }

  lemma {:induction false} KeptAreCounted(payments: seq<Payment>)
    ensures Counted(payments) == Amounts(Kept(payments)) && Cancelled(payments) + |Kept(payments)| == |payments|
  {
    if payments != [] {
      KeptAreCounted(payments[..|payments| - 1]);
      AmountsSnoc(Kept(payments[..|payments| - 1]), payments[|payments| - 1]);
    }
  }

  lemma AmountsSnoc(payments: seq<Payment>, last: Payment)
    ensures Amounts(payments + [last]) == Amounts(payments) + last.amount && payments + [] == payments
  {
    assert (payments + [last])[..|payments|] == payments;
  }

  ghost predicate Distinct(codes: seq<string>) {
    forall i, j :: 0 <= i < j < |codes| ==> codes[i] != codes[j]
  }

  /** One more payment raises the sum by its amount, if its currency is listed. */
  lemma {:induction false} SumOverSnoc(codes: seq<string>, payments: seq<Payment>)
    requires Distinct(codes) && payments != []
    ensures var last := payments[|payments| - 1];
      SumOver(codes, payments) == SumOver(codes, payments[..|payments| - 1]) +
        if last.cancelledAt.None? && FormatCurrency(last.currency) in codes then last.amount else 0
  {
    if codes != [] {
      var m := |codes| - 1;
      SumOverSnoc(codes[..m], payments);
      assert forall code :: code in codes <==> code in codes[..m] || code == codes[m];
    }
  }

  lemma {:induction false} UnlistedHasNoIncome(payments: seq<Payment>, code: string)
    requires code !in Codes(payments)
    ensures Income(payments, code) == 0
  {
    if payments != [] { UnlistedHasNoIncome(payments[..|payments| - 1], code); }
  }

  /** No currency is listed twice, the totals over all listed currencies are exactly the amounts of the
      payments that were not cancelled, and those and the cancelled ones are all the payments. */
  lemma TotalsConserved(payments: seq<Payment>)
    ensures Distinct(Codes(payments))
    ensures SumOver(Codes(payments), payments) == Amounts(Kept(payments))
    ensures Cancelled(payments) + |Kept(payments)| == |payments|
  {
    SumsAreCounted(payments);
    KeptAreCounted(payments);
  }

  lemma {:induction false} SumsAreCounted(payments: seq<Payment>)
    ensures Distinct(Codes(payments))
    ensures SumOver(Codes(payments), payments) == Counted(payments)
  {
    if payments == [] {
      NothingToSum(KNOWN_CODES);
    } else {
      var n := |payments| - 1;
      var before := Codes(payments[..n]);
      SumsAreCounted(payments[..n]);
      SumOverSnoc(before, payments);
      var codes := Codes(payments);
      if codes != before {
        assert codes[..|before|] == before;
        UnlistedHasNoIncome(payments[..n], codes[|before|]);
      }
    }
  }

  lemma {:induction false} NothingToSum(codes: seq<string>)
    ensures SumOver(codes, []) == 0
  {
    if codes != [] { NothingToSum(codes[..|codes| - 1]); }
  }

  // ---------- what the messages contain ----------

  /** The kept payments in a currency. */
  function KeptIn(payments: seq<Payment>, code: string): seq<Payment> {
    if payments == [] then []
    else
      var last := payments[|payments| - 1];
      KeptIn(payments[..|payments| - 1], code) +
      if last.cancelledAt.None? && FormatCurrency(last.currency) == code then [last] else []
  }

  ghost predicate Names(totals: seq<(string, int)>, code: string) {
    exists i :: 0 <= i < |totals| && totals[i].0 == code
  }

  /** Each currency with a positive sum of kept payments once, with that sum, and no other. */
  ghost predicate PositiveSums(totals: seq<(string, int)>, payments: seq<Payment>) {
    && (forall i, j :: 0 <= i < j < |totals| ==> totals[i].0 != totals[j].0)
    && (forall i :: 0 <= i < |totals| ==>
      totals[i].1 == Amounts(KeptIn(payments, totals[i].0)) && totals[i].1 > 0)
    && (forall code {:trigger Names(totals, code)} :: Amounts(KeptIn(payments, code)) > 0 ==> Names(totals, code))
  }

  /** The page with its first k lines is below the limit. */
  ghost predicate Below(head: seq<string>, page: seq<string>, k: nat)
    requires k <= |page|
  {
    |Join(head + page[..k])| < 4000
  }

  /** The page stays below the limit until its last line. */
  ghost predicate ClosedByLast(head: seq<string>, page: seq<string>) {
    page != [] && |Join(head + page)| >= 4000 && forall k: nat :: 0 < k < |page| ==> Below(head, page, k)
  }

  ghost predicate StillOpen(head: seq<string>, page: seq<string>) {
    forall k: nat :: 0 < k <= |page| ==> Below(head, page, k)
  }

  /** The message of a closed page: header, lines and number. */
  ghost predicate ClosedMessage(message: string, page: seq<string>, number: nat, start: Date, end: Date) {
    && ClosedByLast(ReportHeader(start, end, number), page)
    && message == Join(ReportHeader(start, end, number) + page + ["", "Страница: " + Decimal(number)])
  }

  /** The last message: header, lines, number if there are several, and the summary. */
  ghost predicate LastMessage(message: string, page: seq<string>, number: nat, totals: seq<(string, int)>,
                              payments: seq<Payment>, start: Date, end: Date) {
    && StillOpen(ReportHeader(start, end, number), page)
    && PositiveSums(totals, payments)
    && message == Join(ReportHeader(start, end, number) + page +
      (if number > 1 then ["", "Страница: " + Decimal(number)] else []) +
      (["", "<b>ИТОГО:</b>", "Платежей: " + Decimal(|payments|), "Возвратов: " + Decimal(Cancelled(payments)),
        "Доход для НПД:"] + TotalLines(totals)))
  }

  /** The pages hold one line per payment in order, each is closed as soon as it reaches the limit, and
      there is a message for each. */
  ghost predicate LaidOut(report: seq<string>, pages: Pages, totals: seq<(string, int)>, payments: seq<Payment>,
                          start: Date, end: Date) {
    var last := |pages.closed|;
    && |report| == last + 1
    && AllLines(pages) == Lines(payments)
    && (forall i :: 0 <= i < last ==> ClosedMessage(report[i], pages.closed[i], i + 1, start, end))
    && LastMessage(report[last], pages.open, last + 1, totals, payments, start, end)
  }

  ghost predicate PagesClosed(pages: Pages, header: nat -> seq<string>) {
    && (forall i :: 0 <= i < |pages.closed| ==> ClosedByLast(header(i + 1), pages.closed[i]))
    && StillOpen(header(|pages.closed| + 1), pages.open)
  }

  lemma AddLineKeepsClosed(pages: Pages, line: string, header: nat -> seq<string>)
    requires PagesClosed(pages, header)
    ensures PagesClosed(AddLine(pages, line, header), header)
  {
    var page := pages.open + [line];
    var head := header(|pages.closed| + 1);
    forall k: nat | 0 < k <= |pages.open| ensures Below(head, page, k) {
      assert page[..k] == pages.open[..k] && Below(head, pages.open, k);
    }
    assert page[..|page|] == page;
  }

  lemma {:induction false} PaginateCloses(lines: seq<string>, header: nat -> seq<string>)
    ensures PagesClosed(Paginate(lines, header), header)
  {
    if lines != [] {
      PaginateCloses(lines[..|lines| - 1], header);
      AddLineKeepsClosed(Paginate(lines[..|lines| - 1], header), lines[|lines| - 1], header);
    }
  }

  lemma {:induction false} IncomeIsKept(payments: seq<Payment>, code: string)
    ensures Income(payments, code) == Amounts(KeptIn(payments, code))
  {
    if payments != [] {
      IncomeIsKept(payments[..|payments| - 1], code);
      AmountsSnoc(KeptIn(payments[..|payments| - 1], code), payments[|payments| - 1]);
    }
  }

  /** What the list of positive totals holds. */
  ghost predicate Listed(totals: seq<(string, int)>, codes: seq<string>, payments: seq<Payment>) {
    && (forall i, j :: 0 <= i < j < |totals| ==> totals[i].0 != totals[j].0)
    && (forall i :: 0 <= i < |totals| ==>
      totals[i].0 in codes && totals[i].1 == Income(payments, totals[i].0) && totals[i].1 > 0)
    && (forall code :: code in codes && Income(payments, code) > 0 ==> Names(totals, code))
  }

  lemma ListedSnoc(totals: seq<(string, int)>, codes: seq<string>, code: string, payments: seq<Payment>)
    requires Listed(totals, codes, payments) && code !in codes
    ensures Listed(totals + if Income(payments, code) > 0 then [(code, Income(payments, code))] else [],
      codes + [code], payments)
  {
    var all := totals + if Income(payments, code) > 0 then [(code, Income(payments, code))] else [];
    forall c | c in codes + [code] && Income(payments, c) > 0 ensures Names(all, c) {
      if c == code {
        assert all[|totals|].0 == c;
      } else {
        var i :| 0 <= i < |totals| && totals[i].0 == c;
        assert all[i].0 == c;
      }
    }
  }

  lemma {:induction false} PositiveTotalsListed(codes: seq<string>, payments: seq<Payment>)
    requires Distinct(codes)
    ensures Listed(PositiveTotals(codes, payments), codes, payments)
  {
    if codes != [] {
      var n := |codes| - 1;
      PositiveTotalsListed(codes[..n], payments);
      assert codes[n] !in codes[..n] && codes[..n] + [codes[n]] == codes;
      ListedSnoc(PositiveTotals(codes[..n], payments), codes[..n], codes[n], payments);
    }
  }

  lemma TotalsArePositiveSums(payments: seq<Payment>)
    ensures PositiveSums(PositiveTotals(Codes(payments), payments), payments)
  {
    var codes := Codes(payments);
    TotalsConserved(payments);
    PositiveTotalsListed(codes, payments);
    forall code ensures Income(payments, code) == Amounts(KeptIn(payments, code)) &&
      (code !in codes ==> Income(payments, code) == 0) {
      IncomeIsKept(payments, code);
      if code !in codes { UnlistedHasNoIncome(payments, code); }
    }
  }

  lemma ClosedMessages(closed: seq<seq<string>>, start: Date, end: Date)
    requires forall i :: 0 <= i < |closed| ==> ClosedByLast(ReportHeader(start, end, i + 1), closed[i])
    ensures var report := RenderClosed(closed, ReportTexts(start, end));
      |report| == |closed| && forall i :: 0 <= i < |closed| ==>
        ClosedMessage(report[i], closed[i], i + 1, start, end)
  {}

  lemma LastIsLaidOut(page: seq<string>, number: nat, payments: seq<Payment>, start: Date, end: Date)
    requires StillOpen(ReportHeader(start, end, number), page)
    ensures var t := ReportTexts(start, end); var totals := PositiveTotals(Codes(payments), payments);
      LastMessage(Join(t.header(number) + page + (if number > 1 then ["", t.pageLabel(number)] else []) +
        t.summary(|payments|, Cancelled(payments), totals)), page, number, totals, payments, start, end)
  {
    TotalsArePositiveSums(payments);
  }

  lemma PagesOfReport(lines: seq<string>, start: Date, end: Date)
    ensures var pages := Paginate(lines, ReportTexts(start, end).header);
      && AllLines(pages) == lines
      && (forall i :: 0 <= i < |pages.closed| ==> ClosedByLast(ReportHeader(start, end, i + 1), pages.closed[i]))
      && StillOpen(ReportHeader(start, end, |pages.closed| + 1), pages.open)
  {
    var header := ReportTexts(start, end).header;
    PaginateCloses(lines, header);
    PagesHoldEveryLine(lines, header);
    ClosedUnderHeaders(Paginate(lines, header), start, end);
  }

  lemma ClosedUnderHeaders(pages: Pages, start: Date, end: Date)
    requires PagesClosed(pages, ReportTexts(start, end).header)
    ensures forall i :: 0 <= i < |pages.closed| ==> ClosedByLast(ReportHeader(start, end, i + 1), pages.closed[i])
    ensures StillOpen(ReportHeader(start, end, |pages.closed| + 1), pages.open)
  {
    forall i | 0 <= i < |pages.closed| ensures ClosedByLast(ReportHeader(start, end, i + 1), pages.closed[i]) {
      assert ClosedByLast(ReportTexts(start, end).header(i + 1), pages.closed[i]);
    }
  }

  /** The report is laid out like that. */
  lemma ReportIsLaidOut(payments: seq<Payment>, start: Date, end: Date)
    returns (pages: Pages, totals: seq<(string, int)>)
    requires payments != []
    ensures LaidOut(Report(payments, ReportTexts(start, end)), pages, totals, payments, start, end)
  {
    var t := ReportTexts(start, end);
    pages := Paginate(Lines(payments), t.header);
    totals := PositiveTotals(Codes(payments), payments);
    PagesOfReport(Lines(payments), start, end);
    ClosedMessages(pages.closed, start, end);
    LastIsLaidOut(pages.open, |pages.closed| + 1, payments, start, end);
    assert Report(payments, t)[..|pages.closed|] == RenderClosed(pages.closed, t);
  }

  ghost predicate Contains(text: string, part: string) {
    exists before, after :: text == before + part + after
  }

  lemma {:induction false} JoinContains(lines: seq<string>, j: nat)
    requires j < |lines|
    ensures Contains(Join(lines), lines[j])
    decreases |lines|
  {
    var n := |lines| - 1;
    if j == n {
      assert Join(lines) == (if n == 0 then "" else Join(lines[..n]) + "\n") + lines[j] + "";
    } else {
      JoinContains(lines[..n], j);
      var before, after :| Join(lines[..n]) == before + lines[j] + after;
      assert Join(lines) == before + lines[j] + (after + "\n" + lines[n]);
    }
  }

  lemma {:induction false} LineOnPage(pages: seq<seq<string>>, i: nat) returns (m: nat, j: nat)
    requires i < |Flatten(pages)|
    ensures m < |pages| && j < |pages[m]| && pages[m][j] == Flatten(pages)[i]
  {
    var n := |pages| - 1;
    if i < |Flatten(pages[..n])| {
      m, j := LineOnPage(pages[..n], i);
    } else {
      m, j := n, i - |Flatten(pages[..n])|;
    }
  }

  /** So the line of every payment stands in some message. */
  lemma EveryPaymentIsReported(report: seq<string>, pages: Pages, totals: seq<(string, int)>, payments: seq<Payment>,
                               start: Date, end: Date, i: nat)
    returns (m: nat)
    requires LaidOut(report, pages, totals, payments, start, end) && i < |payments|
    ensures m < |report| && Contains(report[m], Line(payments[i]))
  {
    var j;
    m, j := LineOnPages(pages, i);
    MessageContains(report, pages, totals, payments, start, end, m, j);
    PaymentLine(payments, i);
  }

  lemma PaymentLine(payments: seq<Payment>, i: nat)
    requires i < |payments|
    ensures Lines(payments)[i] == Line(payments[i])
  {}

  function Page(pages: Pages, m: nat): seq<string>
    requires m <= |pages.closed|
  {
    if m < |pages.closed| then pages.closed[m] else pages.open
  }

  lemma LineOnPages(pages: Pages, i: nat) returns (m: nat, j: nat)
    requires i < |AllLines(pages)|
    ensures m <= |pages.closed| && j < |Page(pages, m)| && Page(pages, m)[j] == AllLines(pages)[i]
  {
    if i < |Flatten(pages.closed)| {
      m, j := LineOnPage(pages.closed, i);
    } else {
      m, j := |pages.closed|, i - |Flatten(pages.closed)|;
    }
  }

  lemma MessageContains(report: seq<string>, pages: Pages, totals: seq<(string, int)>, payments: seq<Payment>,
                        start: Date, end: Date, m: nat, j: nat)
    requires LaidOut(report, pages, totals, payments, start, end) && m <= |pages.closed| && j < |Page(pages, m)|
    ensures Contains(report[m], Page(pages, m)[j])
  {
    if m < |pages.closed| {
      ClosedLine(report, pages, totals, payments, start, end, m, j);
    } else {
      LastLine(report, pages, totals, payments, start, end, j);
    }
  }

  lemma ClosedLine(report: seq<string>, pages: Pages, totals: seq<(string, int)>, payments: seq<Payment>,
                   start: Date, end: Date, m: nat, j: nat)
    requires LaidOut(report, pages, totals, payments, start, end) && m < |pages.closed| && j < |pages.closed[m]|
    ensures Contains(report[m], pages.closed[m][j])
  {
    ClosedContains(report[m], pages.closed[m], m + 1, start, end, j);
  }

  lemma LastLine(report: seq<string>, pages: Pages, totals: seq<(string, int)>, payments: seq<Payment>,
                 start: Date, end: Date, j: nat)
    requires LaidOut(report, pages, totals, payments, start, end) && j < |pages.open|
    ensures Contains(report[|pages.closed|], pages.open[j])
  {
    LastContains(report[|pages.closed|], pages.open, |pages.closed| + 1, totals, payments, start, end, j);
  }

  lemma PageInText(head: seq<string>, page: seq<string>, footer: seq<string>, summary: seq<string>, j: nat)
    requires j < |page|
    ensures Contains(Join(head + page + footer + summary), page[j])
  {
    var lines := head + page + footer + summary;
    assert lines[|head| + j] == page[j];
    JoinContains(lines, |head| + j);
  }

  lemma ClosedContains(message: string, page: seq<string>, number: nat, start: Date, end: Date, j: nat)
    requires ClosedMessage(message, page, number, start, end) && j < |page|
    ensures Contains(message, page[j])
  {
    var head, footer := ReportHeader(start, end, number), ["", "Страница: " + Decimal(number)];
    PageInText(head, page, footer, [], j);
    assert head + page + footer + [] == head + page + footer;
  }

  lemma LastContains(message: string, page: seq<string>, number: nat, totals: seq<(string, int)>,
                     payments: seq<Payment>, start: Date, end: Date, j: nat)
    requires LastMessage(message, page, number, totals, payments, start, end) && j < |page|
    ensures Contains(message, page[j])
  {
    PageInText(ReportHeader(start, end, number), page,
      if number > 1 then ["", "Страница: " + Decimal(number)] else [],
      Summary(|payments|, Cancelled(payments), totals), j);
  }
}
