/** `displayTable` (static/js/app.js): one header row, then one row per bar with its prices,
    its indicator values (or `N/A`) and a marker cell naming the signals at that bar.
    `toFixed(2)` and `toLocaleString()` are passed in as `fmt` and `group`. */
module ResultTable {
  import opened Common
  import opened JsText
  import opened Signals
  import opened DateFormat

  /** One record of `stock_data` as the client reads it; `Date` arrives already parsed. */
  datatype Bar = Bar(date: CalendarDate, open: real, high: real, low: real, close: real, volume: real)

  /** The series of `indicators` the table reads; a JSON `null` is `None`. */
  datatype ClientIndicators = ClientIndicators(
    ma5: seq<Option<real>>, ma20: seq<Option<real>>, ma60: seq<Option<real>>,
    k: seq<Option<real>>, d: seq<Option<real>>, macd: seq<Option<real>>, rsi: seq<Option<real>>)

  /** The four signal lists of `signals`. */
  datatype ClientSignals = ClientSignals(ma: seq<Signal>, kd: seq<Signal>, macd: seq<Signal>, rsi: seq<Signal>)

  /** The parts of a successful `/query` answer the table reads. */
  datatype QueryData = QueryData(stockData: seq<Bar>, indicators: ClientIndicators, signals: ClientSignals)

  /** What `toFixed(2)` guarantees: some digits, so never empty and never the text `N/A`. */
  ghost predicate FixedFormatter(fmt: real -> string) {
    forall v :: fmt(v) != "" && fmt(v) != "N/A"
  }

  /** `series[index]?.toFixed(2) || 'N/A'`: an index past the end and a `null` both give
      `undefined`, and an empty rendering would be falsy too. */
  function IndicatorCell(series: seq<Option<real>>, index: nat, fmt: real -> string): (cell: string)
    ensures cell == "N/A" || (index < |series| && series[index].Some? && cell == fmt(series[index].value))
    ensures index >= |series| || series[index].None? ==> cell == "N/A"
  {
    if index < |series| && series[index].Some? && fmt(series[index].value) != "" then fmt(series[index].value)
    else "N/A"
  }

  lemma FixedAt(fmt: real -> string, v: real)
    requires FixedFormatter(fmt)
    ensures fmt(v) != "" && fmt(v) != "N/A"
  {
  }

  /** With a `toFixed`-like formatter a cell is `N/A` exactly when the value is absent, and
      otherwise the value's rendering; a present zero is therefore shown, not taken for a
      missing value. */
  lemma IndicatorCellSpec(series: seq<Option<real>>, index: nat, fmt: real -> string)
    requires FixedFormatter(fmt)
    ensures IndicatorCell(series, index, fmt) == "N/A" <==> index >= |series| || series[index].None?
    ensures index < |series| && series[index].Some? ==>
      IndicatorCell(series, index, fmt) == fmt(series[index].value)
    ensures index < |series| && series[index] == Some(0.0) ==> IndicatorCell(series, index, fmt) == fmt(0.0)
  {
    if index < |series| && series[index].Some? {
      FixedAt(fmt, series[index].value);
    }
  }

  /** `signals.find(s => s.position === index)?.type`: the type of the first signal at
      `index`, if any. */
  function FindType(signals: seq<Signal>, index: nat): Option<SignalType> {
    if signals == [] then None
    else if signals[0].position == index then Some(signals[0].kind)
    else FindType(signals[1..], index)
  }

  /** `find` fails exactly when no signal sits at `index`; when it succeeds, the list holds
      a signal of that type at `index`. */
  lemma {:induction false} FindTypeSpec(signals: seq<Signal>, index: nat)
    ensures FindType(signals, index).None? <==> forall j :: 0 <= j < |signals| ==> signals[j].position != index
    ensures FindType(signals, index).Some? ==> Signal(index, FindType(signals, index).value) in signals
    ensures FindType(signals, index).Some? ==>
      exists j :: 0 <= j < |signals| && signals[j] == Signal(index, FindType(signals, index).value)
        && forall l :: 0 <= l < j ==> signals[l].position != index
  {
    if signals != [] && signals[0].position != index {
      FindTypeSpec(signals[1..], index);
      assert forall j :: 1 <= j < |signals| ==> signals[j] == signals[1..][j - 1];
      if FindType(signals, index).Some? {
        var t := FindType(signals, index).value;
        var j :| 0 <= j < |signals[1..]| && signals[1..][j] == Signal(index, t)
          && forall l :: 0 <= l < j ==> signals[1..][l].position != index;
        assert signals[j + 1] == Signal(index, t);
        assert forall l :: 1 <= l < j + 1 ==> signals[l].position != index;
      }
    } else if signals != [] {
      assert signals[0] == Signal(index, FindType(signals, index).value);
    }
  }

  /** On a list the server produces (positions strictly increasing) there is at most one
      signal per position, so `find` returns exactly the signal at that position. */
  lemma {:induction false} FindTypeWellFormed(signals: seq<Signal>, n: nat, index: nat, t: SignalType)
    requires WellFormedSignals(signals, n)
    ensures FindType(signals, index) == Some(t) <==> Signal(index, t) in signals
  {
    FindTypeSpec(signals, index);
    if signals != [] && signals[0].position != index {
      assert WellFormedSignals(signals[1..], n);
      FindTypeWellFormed(signals[1..], n, index, t);
      if Signal(index, t) in signals {
        var j :| 0 <= j < |signals| && signals[j] == Signal(index, t);
        assert signals[1..][j - 1] == Signal(index, t);
      }
    } else if signals != [] && Signal(index, t) in signals {
      var j :| 0 <= j < |signals| && signals[j] == Signal(index, t);
    }
  }

  /** For the lists `calculate_indicators_with_signals` produces, the lookup at a row is
      exactly what the family's rule decided at that bar (nothing at bar 0 or past the end). */
  lemma ServerSignalAtRow(rule: Rule, index: nat)
    requires WellFormed(rule)
    ensures FindType(Emitted(rule, Length(rule)), index) ==
      if 1 <= index < Length(rule) then SignalAt(rule, index) else None
  {
    var n := Length(rule);
    var signals := Emitted(rule, n);
    EmittedWellFormed(rule, n);
    EmittedMembership(rule, n, index, Buy);
    EmittedMembership(rule, n, index, Sell);
    FindTypeWellFormed(signals, n, index, Buy);
    FindTypeWellFormed(signals, n, index, Sell);
    if FindType(signals, index).Some? {
      var t := FindType(signals, index).value;
      assert t == Buy || t == Sell;
    }
  }

  /** `${sig ? `LABEL: ${sig}` : ''}` for one family. */
  function SlotText(name: string, t: Option<SignalType>): (s: string)
    requires name != ""
    ensures s == "" <==> t.None?
  {
    if t.Some? then name + ": " + TypeName(t.value) else ""
  }

  /** The marker cell: the KD, MA, MACD and RSI slots, in that order, joined by single
      spaces; the separators are there even when every slot is empty. */
  function Marker(signals: ClientSignals, index: nat): string {
    SlotText("KD", FindType(signals.kd, index)) + " " + SlotText("MA", FindType(signals.ma, index)) + " "
    + SlotText("MACD", FindType(signals.macd, index)) + " " + SlotText("RSI", FindType(signals.rsi, index))
  }

  /** A row where no family fired still carries the three separators. */
  lemma QuietRowMarker(signals: ClientSignals, index: nat)
    requires FindType(signals.kd, index).None? && FindType(signals.ma, index).None?
    requires FindType(signals.macd, index).None? && FindType(signals.rsi, index).None?
    ensures Marker(signals, index) == "   "
  {
  }

  predicate StartsWith(s: string, p: string) {
    |p| <= |s| && s[..|p|] == p
  }

  /** The family names of the marker slots, in the order the cell lists them. */
  const MarkerFamilies: seq<string> := ["KD", "MA", "MACD", "RSI"]

  /** The first signal of each family at row `index`, in marker order. */
  function RowSignals(signals: ClientSignals, index: nat): seq<Option<SignalType>> {
    [FindType(signals.kd, index), FindType(signals.ma, index),
     FindType(signals.macd, index), FindType(signals.rsi, index)]
  }

  /** Slot names a reader can recognise: non-empty and not starting with the separator. */
  predicate SlotNames(names: seq<string>) {
    forall i :: 0 <= i < |names| ==> names[i] != "" && names[i][0] != ' '
  }

  /** Slots joined by single spaces. */
  function SlotsText(names: seq<string>, ts: seq<Option<SignalType>>): string
    requires |names| == |ts| >= 1 && SlotNames(names)
  {
    if |names| == 1 then SlotText(names[0], ts[0])
    else SlotText(names[0], ts[0]) + " " + SlotsText(names[1..], ts[1..])
  }

  /** Reads the slot labelled `name` off the front of `m`: the signal it names and the
      text after it. */
  function ReadSlot(name: string, m: string): (Option<SignalType>, string) {
    if StartsWith(m, name + ": buy") then (Some(Buy), m[|name| + 5..])
    else if StartsWith(m, name + ": sell") then (Some(Sell), m[|name| + 6..])
    else (None, m)
  }

  /** Reads space-separated slots labelled `names`, in order, consuming all of `m`. */
  function ReadSlots(names: seq<string>, m: string): Option<seq<Option<SignalType>>>
    requires |names| >= 1
  {
    var (t, rest) := ReadSlot(names[0], m);
    if |names| == 1 then (if rest == "" then Some([t]) else None)
    else if !StartsWith(rest, " ") then None
    else
      match ReadSlots(names[1..], rest[1..])
      case None => None
      case Some(ts) => Some([t] + ts)
  }

  /** Reads a marker cell back into the signal each family shows. */
  function DecodeMarker(m: string): Option<seq<Option<SignalType>>> {
    ReadSlots(MarkerFamilies, m)
  }

  /** A slot is read back as the signal it was written for, leaving what follows it. */
  lemma ReadSlotText(name: string, t: Option<SignalType>, rest: string)
    requires name != "" && name[0] != ' '
    requires rest == "" || rest[0] == ' '
    ensures ReadSlot(name, SlotText(name, t) + rest) == (t, rest)
  {
    var m := SlotText(name, t) + rest;
    if t == Some(Sell) {
      assert m == name + ": sell" + rest;
      assert m[|name| + 2] == 's';
      assert (name + ": buy")[|name| + 2] == 'b';
      assert m[|name| + 6..] == rest;
    } else if t == Some(Buy) {
      assert m == name + ": buy" + rest;
      assert m[|name| + 5..] == rest;
    } else {
      assert m == rest;
    }
  }

  /** Slots written side by side read back as the signals they were written for. */
  lemma {:induction false} ReadSlotsText(names: seq<string>, ts: seq<Option<SignalType>>)
    requires |names| == |ts| >= 1 && SlotNames(names)
    ensures ReadSlots(names, SlotsText(names, ts)) == Some(ts)
  {
    if |names| == 1 {
      ReadSlotText(names[0], ts[0], "");
      assert SlotText(names[0], ts[0]) + "" == SlotsText(names, ts);
      assert ts == [ts[0]];
    } else {
      var tail := SlotsText(names[1..], ts[1..]);
      assert SlotsText(names, ts) == SlotText(names[0], ts[0]) + (" " + tail);
      ReadSlotText(names[0], ts[0], " " + tail);
      assert (" " + tail)[1..] == tail;
      ReadSlotsText(names[1..], ts[1..]);
      assert [ts[0]] + ts[1..] == ts;
    }
  }

  /** Four pieces joined by single spaces, grouped either way. */
  lemma JoinFour(a: string, b: string, c: string, d: string)
    ensures a + " " + (b + " " + (c + " " + d)) == a + " " + b + " " + c + " " + d
  {
    AppendAssoc(b + " ", c, " " + d);
    AppendAssoc(a + " ", b + " " + c, " " + d);
  }

  /** Four slots written side by side. */
  lemma SlotsTextFour(names: seq<string>, ts: seq<Option<SignalType>>)
    requires |names| == |ts| == 4 && SlotNames(names)
    ensures SlotsText(names, ts) == SlotText(names[0], ts[0]) + " " + SlotText(names[1], ts[1]) + " "
                                    + SlotText(names[2], ts[2]) + " " + SlotText(names[3], ts[3])
  {
    var d := SlotText(names[3], ts[3]);
    var c := SlotText(names[2], ts[2]);
    var b := SlotText(names[1], ts[1]);
    var a := SlotText(names[0], ts[0]);
    assert names[1..][1..][1..] == names[3..] && ts[1..][1..][1..] == ts[3..];
    assert SlotsText(names[3..], ts[3..]) == d;
    assert names[1..][1..] == names[2..] && ts[1..][1..] == ts[2..];
    assert SlotsText(names[2..], ts[2..]) == c + " " + d;
    assert SlotsText(names[1..], ts[1..]) == b + " " + (c + " " + d);
    JoinFour(a, b, c, d);
  }

  /** The marker cell is the four slots joined by single spaces. */
  lemma MarkerIsSlots(signals: ClientSignals, index: nat)
    ensures SlotNames(MarkerFamilies)
    ensures Marker(signals, index) == SlotsText(MarkerFamilies, RowSignals(signals, index))
  {
    var names := MarkerFamilies;
    assert names[0] == "KD" && names[1] == "MA" && names[2] == "MACD" && names[3] == "RSI";
    assert SlotNames(names);
    SlotsTextFour(names, RowSignals(signals, index));
  }

  /** The marker cell is unambiguous: it reads back as the first signal of each family at
      that row. */
  lemma MarkerRoundTrip(signals: ClientSignals, index: nat)
    ensures DecodeMarker(Marker(signals, index)) == Some(RowSignals(signals, index))
  {
    MarkerIsSlots(signals, index);
    ReadSlotsText(MarkerFamilies, RowSignals(signals, index));
  }

  /** The cells of one data row, named after the columns they fill. */
  datatype Row = Row(date: string, open: string, high: string, low: string, close: string, volume: string,
                     ma5: string, ma20: string, ma60: string, kd: string, macd: string, rsi: string,
                     marker: string)

  /** The row for bar `index`, cell by cell as the loop body computes it. */
  function RowOf(data: QueryData, index: nat, fmt: real -> string, group: real -> string): Row
    requires index < |data.stockData|
  {
    var bar := data.stockData[index];
    var ind := data.indicators;
    Row(FormatDate(bar.date), fmt(bar.open), fmt(bar.high), fmt(bar.low), fmt(bar.close), group(bar.volume),
        IndicatorCell(ind.ma5, index, fmt), IndicatorCell(ind.ma20, index, fmt), IndicatorCell(ind.ma60, index, fmt),
        IndicatorCell(ind.k, index, fmt) + " / " + IndicatorCell(ind.d, index, fmt),
        IndicatorCell(ind.macd, index, fmt), IndicatorCell(ind.rsi, index, fmt),
        Marker(data.signals, index))
  }

  /** What the row for bar `index` shows: its date as `YYYYMMDD`, each indicator column
      `N/A` exactly when that series has no value at the row (the KD column joins K and D
      with ` / `), and a marker that reads back as the signal each family has at the row. */
  lemma RowOfSpec(data: QueryData, index: nat, fmt: real -> string, group: real -> string)
    requires index < |data.stockData|
    requires FixedFormatter(fmt)
    ensures var row := RowOf(data, index, fmt, group);
      var ind := data.indicators;
      && row.date == FormatDate(data.stockData[index].date)
      && (row.ma5 == "N/A" <==> index >= |ind.ma5| || ind.ma5[index].None?)
      && (row.ma20 == "N/A" <==> index >= |ind.ma20| || ind.ma20[index].None?)
      && (row.ma60 == "N/A" <==> index >= |ind.ma60| || ind.ma60[index].None?)
      && row.kd == IndicatorCell(ind.k, index, fmt) + " / " + IndicatorCell(ind.d, index, fmt)
      && (row.macd == "N/A" <==> index >= |ind.macd| || ind.macd[index].None?)
      && (row.rsi == "N/A" <==> index >= |ind.rsi| || ind.rsi[index].None?)
      && DecodeMarker(row.marker) == Some(RowSignals(data.signals, index))
  {
    var ind := data.indicators;
    IndicatorCellSpec(ind.ma5, index, fmt);
    IndicatorCellSpec(ind.ma20, index, fmt);
    IndicatorCellSpec(ind.ma60, index, fmt);
    IndicatorCellSpec(ind.macd, index, fmt);
    IndicatorCellSpec(ind.rsi, index, fmt);
    MarkerRoundTrip(data.signals, index);
  }

  /** One header cell of the template. */
  function Th(title: string): string {
    "\n                <th>" + title + "</th>"
  }

  /** One data cell of the template. */
  function Td(cell: string): string {
    "\n                    <td>" + cell + "</td>"
  }

  /** The header row template. */
  function HeaderHtml(): string {
    "\n            <tr>"
    + Th("日期") + Th("Open") + Th("High") + Th("Low") + Th("Close") + Th("Volume")
    + Th("MA5") + Th("MA20") + Th("MA60") + Th("KD (K/D)") + Th("MACD") + Th("RSI") + Th("買賣訊號")
    + "\n            </tr>"
  }

  /** The data row template, its cells in column order. */
  function RowHtml(row: Row): string {
    "\n                <tr>"
    + Td(row.date) + Td(row.open) + Td(row.high) + Td(row.low) + Td(row.close) + Td(row.volume)
    + Td(row.ma5) + Td(row.ma20) + Td(row.ma60) + Td(row.kd) + Td(row.macd) + Td(row.rsi) + Td(row.marker)
    + "\n                </tr>"
  }

  /** The `forEach` callback: the row template for bar `index`. */
  function RowRenderer(data: QueryData, fmt: real -> string, group: real -> string): nat -> string {
    (index: nat) => if index < |data.stockData| then RowHtml(RowOf(data, index, fmt, group)) else ""
  }

  /** What the callback appends for the first `k` bars, one after another. */
  function RowsHtml(render: nat -> string, k: nat): string {
    if k == 0 then "" else RowsHtml(render, k - 1) + render(k - 1)
  }

  /** The whole table: the header row, then one row per bar. */
  function TableHtml(data: QueryData, fmt: real -> string, group: real -> string): string {
    "<table>" + HeaderHtml() + RowsHtml(RowRenderer(data, fmt, group), |data.stockData|) + "</table>"
  }

  /** The pieces written one after another. */
  function Concat(parts: seq<string>): string {
    if parts == [] then "" else Concat(parts[..|parts| - 1]) + parts[|parts| - 1]
  }

  /** The rows of the table: one per bar of `stock_data`, in order. */
  function TableRows(data: QueryData, fmt: real -> string, group: real -> string): seq<Row>
  {
    seq(|data.stockData|, k requires 0 <= k < |data.stockData| => RowOf(data, k, fmt, group))
  }

  /** The template of each row. */
  function RowHtmls(rows: seq<Row>): (out: seq<string>)
    ensures |out| == |rows|
    ensures forall k :: 0 <= k < |rows| ==> out[k] == RowHtml(rows[k])
  {
    seq(|rows|, k requires 0 <= k < |rows| => RowHtml(rows[k]))
  }

  /** What the callback returns for the indices below `n`, in order. */
  function Renders(render: nat -> string, n: nat): (out: seq<string>)
    ensures |out| == n
    ensures forall k :: 0 <= k < n ==> out[k] == render(k)
  {
    seq(n, (k: int) requires 0 <= k < n => render(k))
  }

  /** What the loop appends for the first `n` indices is the callback's results for them,
      one after another. */
  lemma {:induction false} RowsHtmlConcat(render: nat -> string, n: nat)
    ensures RowsHtml(render, n) == Concat(Renders(render, n))
  {
    if n > 0 {
      RowsHtmlConcat(render, n - 1);
      assert Renders(render, n)[..n - 1] == Renders(render, n - 1);
    }
  }

  /** The table is the header row followed by exactly one row per bar, in the order of
      `stock_data`, between the opening and closing tags. */
  lemma TableHtmlRows(data: QueryData, fmt: real -> string, group: real -> string)
    ensures |TableRows(data, fmt, group)| == |data.stockData|
    ensures TableHtml(data, fmt, group)
      == "<table>" + HeaderHtml() + Concat(RowHtmls(TableRows(data, fmt, group))) + "</table>"
  {
    var render := RowRenderer(data, fmt, group);
    RowsHtmlConcat(render, |data.stockData|);
    assert Renders(render, |data.stockData|) == RowHtmls(TableRows(data, fmt, group));
  }

  lemma AppendAssoc(a: string, b: string, c: string)
    ensures (a + b) + c == a + (b + c)
  {
  }

  /** The `forEach` loop: `html += render(index)` for every index below `n`. */
  method AppendRows(start: string, n: nat, render: nat -> string) returns (html: string)
    ensures html == start + RowsHtml(render, n)
  {
    html := start;
    assert start + "" == start;
    var index := 0;
    while index < n
      invariant index <= n
      invariant html == start + RowsHtml(render, index)
    {
      AppendAssoc(start, RowsHtml(render, index), render(index));
      html := html + render(index);
      index := index + 1;
    }
  }

  /** `displayTable`: the opening tag and header, then the rows, then the closing tag. */
  method DisplayTable(data: QueryData, fmt: real -> string, group: real -> string) returns (html: string)
    ensures html == TableHtml(data, fmt, group)
  {
    html := "<table>";
    html := html + HeaderHtml();
    html := AppendRows(html, |data.stockData|, RowRenderer(data, fmt, group));
    html := html + "</table>";
  }
}
