/** The click handler of the query button in static/js/app.js: it reads and trims the three
    inputs, refuses an empty symbol, builds the request payload, shows the loading texts,
    and then renders whatever the server answered into the three page regions and the six
    chart slots. The network exchange is a parameter: the answer the page receives for a
    payload. */
module Dashboard {
  import opened Common
  import opened JsText
  import StockQuery
  import opened Analysis
  import opened ResultTable
  import opened Charts

  /** The alert shown for an empty symbol. */
  const EmptySymbolAlert: string := "請輸入股票代碼"
  const LoadingInfo: string := "查詢中..."
  const LoadingAnalysis: string := "GPT分析中..."
  /** The notice of the `catch` block. */
  const GenericErrorHtml: string := "<p style='color:red;'>發生錯誤，請稍後再試</p>"

  /** The request body: `symbol` always, each date only when its trimmed input is non-empty. */
  function BuildPayload(symbol: string, startDate: string, endDate: string): (payload: map<string, string>)
    ensures "symbol" in payload && payload["symbol"] == symbol
    ensures "start_date" in payload <==> startDate != ""
    ensures "end_date" in payload <==> endDate != ""
    ensures "start_date" in payload ==> payload["start_date"] == startDate
    ensures "end_date" in payload ==> payload["end_date"] == endDate
    ensures forall key :: key in payload ==> key == "symbol" || key == "start_date" || key == "end_date"
  {
    var withSymbol := map["symbol" := symbol];
    var withStart := if startDate != "" then withSymbol["start_date" := startDate] else withSymbol;
    if endDate != "" then withStart["end_date" := endDate] else withStart
  }

  /** What the server makes of a payload the page sends: the symbol always arrives and is
      accepted when non-empty; the dates arrive exactly when filled in; a payload without a
      start date gets the default 180-day window whatever end date was typed. */
  lemma PayloadWindow(symbol: string, startDate: string, endDate: string, otherEnd: string, now: int)
    requires symbol != ""
    ensures StockQuery.Supplied(StockQuery.Get(BuildPayload(symbol, startDate, endDate), "symbol"))
    ensures StockQuery.Get(BuildPayload(symbol, startDate, endDate), "symbol") == Some(symbol)
    ensures StockQuery.Get(BuildPayload(symbol, startDate, endDate), "start_date")
      == (if startDate == "" then None else Some(startDate))
    ensures StockQuery.Get(BuildPayload(symbol, startDate, endDate), "end_date")
      == (if endDate == "" then None else Some(endDate))
    ensures startDate == "" ==>
      var p := BuildPayload(symbol, startDate, endDate);
      var q := BuildPayload(symbol, startDate, otherEnd);
      StockQuery.RequestedWindow(StockQuery.Get(p, "start_date"), StockQuery.Get(p, "end_date"), now)
        == StockQuery.RequestedWindow(StockQuery.Get(q, "start_date"), StockQuery.Get(q, "end_date"), now)
  {
    var p := BuildPayload(symbol, startDate, endDate);
    var q := BuildPayload(symbol, startDate, otherEnd);
    if startDate == "" {
      StockQuery.WindowDefaulting(StockQuery.Get(p, "start_date"), StockQuery.Get(p, "end_date"),
                                  StockQuery.Get(q, "end_date"), now);
    }
  }

  /** `x ? `${x.toFixed(2)}%` : 'N/A'` for a number: zero is falsy. */
  function Percent(x: real, fmt: real -> string): (s: string)
  {
    if x == 0.0 then "N/A" else fmt(x) + "%"
  }

  /** With a real two-decimal formatter, the cell is `N/A` exactly for zero. */
  lemma PercentNotAvailable(x: real, fmt: real -> string)
    requires FixedFormatter(fmt)
    ensures Percent(x, fmt) == "N/A" <==> x == 0.0
    ensures x != 0.0 ==> |Percent(x, fmt)| >= 2 && Percent(x, fmt)[|Percent(x, fmt)| - 1] == '%'
  {
    if x != 0.0 {
      FixedAt(fmt, x);
      assert Percent(x, fmt)[|Percent(x, fmt)| - 1] == '%';
    }
  }

  /** The content `displayBasicInfo` writes. */
  function BasicInfoHtml(volatility: real, percentChange: real, fmt: real -> string): string {
    "\n            <h3>基本資訊</h3>\n            <p><strong>年化波動率:</strong> "
    + Percent(volatility, fmt)
    + "</p>\n            <p><strong>區間報酬:</strong> "
    + Percent(percentChange, fmt)
    + "</p>\n        "
  }

  /** The notice for an answer carrying a (truthy) `error`. */
  function ErrorHtml(error: string): string {
    "<p style=\"color:red;\">錯誤: " + error + "</p>"
  }

  /** The JSON body the page parsed: an error object, or the data of a successful query
      (the parts `displayBasicInfo`, `displayGPTAnalysis` and `displayTable` read). */
  datatype Body =
    | ErrorBody(error: string)
    | ResultBody(table: QueryData, volatility: real, percentChange: real, gptAnalysis: Option<string>)

  /** How the exchange ended: it threw (network failure, a non-OK status, a body that is not
      JSON), or the page holds a parsed body. */
  datatype Reply = Failed | Answered(body: Body)

  /** The six `create…Chart` events of a successful render, in the order the handler runs them. */
  const Creations: seq<Event> :=
    [Created(ClosePrice), Created(Volume), Created(MA), Created(KD), Created(MACD), Created(RSI)]

  /** In the events a successful render appends, every destruction comes before every creation. */
  lemma DestroyBeforeCreate(before: map<Slot, ChartHandle?>)
    ensures var tail := DestroyEvents(before, SlotOrder) + Creations;
      forall i, j :: 0 <= i < |tail| && 0 <= j < |tail| && tail[i].Destroyed? && tail[j].Created? ==> i < j
    ensures forall s :: Created(s) in Creations
  {
    var destroyed := DestroyEvents(before, SlotOrder);
    DestroyEventsSpec(before, SlotOrder, ClosePrice);
    var tail := destroyed + Creations;
    assert forall k :: 0 <= k < |destroyed| ==> tail[k] == destroyed[k] && tail[k] in destroyed;
    assert forall k :: |destroyed| <= k < |tail| ==> tail[k] == Creations[k - |destroyed|];
    forall s ensures Created(s) in Creations {
      match s
      case ClosePrice => assert Creations[0] == Created(s);
      case Volume => assert Creations[1] == Created(s);
      case MA => assert Creations[2] == Created(s);
      case KD => assert Creations[3] == Created(s);
      case MACD => assert Creations[4] == Created(s);
      case RSI => assert Creations[5] == Created(s);
    }
  }

  /** The page: its three regions, the alerts and requests it produced, and the chart slots. */
  class Page {
    var basicInfo: string
    var gptAnalysis: string
    var resultTable: string
    var alerts: seq<string>
    var requests: seq<map<string, string>>
    const charts: ChartSet

    ghost predicate Valid()
      reads this, charts
    {
      charts.Valid()
    }

    /** The page as loaded: empty regions and six empty slots. */
    constructor ()
      ensures Valid() && fresh(charts)
      ensures basicInfo == "" && gptAnalysis == "" && resultTable == ""
      ensures alerts == [] && requests == []
      ensures forall s :: charts.charts[s] == null
    {
      basicInfo := "";
      gptAnalysis := "";
      resultTable := "";
      alerts := [];
      requests := [];
      charts := new ChartSet();
    }

    /** The click handler, for the raw input values, the answer the page receives for a
        payload, and the number formatters. */
    method OnQuery(symbolInput: string, startInput: string, endInput: string,
                   server: map<string, string> -> Reply,
                   fmt: real -> string, group: real -> string)
      requires Valid()
      modifies this, charts
      ensures Valid()
      // An empty symbol: one alert, no request, nothing else changes.
      ensures Trim(symbolInput) == "" ==>
        && alerts == old(alerts) + [EmptySymbolAlert]
        && requests == old(requests)
        && basicInfo == old(basicInfo) && gptAnalysis == old(gptAnalysis) && resultTable == old(resultTable)
        && charts.charts == old(charts.charts) && charts.log == old(charts.log)
      ensures Trim(symbolInput) != "" ==>
        var payload := BuildPayload(Trim(symbolInput), Trim(startInput), Trim(endInput));
        && alerts == old(alerts)
        && requests == old(requests) + [payload]
        && match server(payload)
           // The request threw: generic notices, charts and table as they were left.
           case Failed =>
             && basicInfo == GenericErrorHtml && gptAnalysis == FallbackHtml && resultTable == ""
             && charts.charts == old(charts.charts) && charts.log == old(charts.log)
           case Answered(ErrorBody(error)) =>
             if error != "" then
               // A truthy error: shown; analysis cleared; table empty; no chart touched.
               && basicInfo == ErrorHtml(error) && gptAnalysis == "" && resultTable == ""
               && charts.charts == old(charts.charts) && charts.log == old(charts.log)
             else
               // An empty error is falsy: the charts are destroyed, then reading the missing
               // indicators throws.
               && basicInfo == GenericErrorHtml && gptAnalysis == FallbackHtml && resultTable == ""
               && (forall s :: charts.charts[s] == null)
               && charts.log == old(charts.log) + DestroyEvents(old(charts.charts), SlotOrder)
           case Answered(ResultBody(table, volatility, percentChange, analysis)) =>
             && basicInfo == BasicInfoHtml(volatility, percentChange, fmt)
             && gptAnalysis == AnalysisHtml(analysis)
             && resultTable == TableHtml(table, fmt, group)
             && (forall s :: charts.charts[s] != null && fresh(charts.charts[s]))
             && charts.log == old(charts.log) + DestroyEvents(old(charts.charts), SlotOrder) + Creations
    {
      var symbol := Trim(symbolInput);
      var startDate := Trim(startInput);
      var endDate := Trim(endInput);
      if symbol == "" {
        alerts := alerts + [EmptySymbolAlert];
        return;
      }
      var payload := BuildPayload(symbol, startDate, endDate);
      basicInfo := LoadingInfo;
      gptAnalysis := LoadingAnalysis;
      resultTable := "";
      requests := requests + [payload];
      ShowReply(server(payload), fmt, group);
    }

    /** Everything the handler does once the exchange has ended: the answer, or the
        failure, rendered into the page and the chart slots. */
    method ShowReply(reply: Reply, fmt: real -> string, group: real -> string)
      requires Valid()
      modifies this, charts
      ensures Valid()
      ensures alerts == old(alerts) && requests == old(requests)
      ensures match reply
           // The request threw: generic notices, charts and table as they were left.
           case Failed =>
             && basicInfo == GenericErrorHtml && gptAnalysis == FallbackHtml && resultTable == old(resultTable)
             && charts.charts == old(charts.charts) && charts.log == old(charts.log)
           case Answered(ErrorBody(error)) =>
             if error != "" then
               // A truthy error: shown; analysis cleared; table empty; no chart touched.
               && basicInfo == ErrorHtml(error) && gptAnalysis == "" && resultTable == old(resultTable)
               && charts.charts == old(charts.charts) && charts.log == old(charts.log)
             else
               // An empty error is falsy: the charts are destroyed, then reading the missing
               // indicators throws.
               && basicInfo == GenericErrorHtml && gptAnalysis == FallbackHtml && resultTable == old(resultTable)
               && (forall s :: charts.charts[s] == null)
               && charts.log == old(charts.log) + DestroyEvents(old(charts.charts), SlotOrder)
           case Answered(ResultBody(table, volatility, percentChange, analysis)) =>
             && basicInfo == BasicInfoHtml(volatility, percentChange, fmt)
             && gptAnalysis == AnalysisHtml(analysis)
             && resultTable == TableHtml(table, fmt, group)
             && (forall s :: charts.charts[s] != null && fresh(charts.charts[s]))
             && charts.log == old(charts.log) + DestroyEvents(old(charts.charts), SlotOrder) + Creations
    {
      match reply
      case Failed =>
        basicInfo := GenericErrorHtml;
        gptAnalysis := FallbackHtml;
      case Answered(ErrorBody(error)) =>
        if error != "" {
          basicInfo := ErrorHtml(error);
          gptAnalysis := "";
        } else {
          charts.DestroyAll();
          basicInfo := GenericErrorHtml;
          gptAnalysis := FallbackHtml;
        }
      case Answered(ResultBody(table, volatility, percentChange, analysis)) =>
        charts.DestroyAll();
        basicInfo := BasicInfoHtml(volatility, percentChange, fmt);
        gptAnalysis := AnalysisHtml(analysis);
        resultTable := DisplayTable(table, fmt, group);
        CreateAll();
    }

    /** The six `charts.<slot> = create…Chart(data)` assignments, in order. */
    method CreateAll()
      requires Valid()
      modifies charts
      ensures Valid()
      ensures forall s :: charts.charts[s] != null && fresh(charts.charts[s])
      ensures charts.log == old(charts.log) + Creations
    {
      charts.Create(ClosePrice);
      charts.Create(Volume);
      charts.Create(MA);
      charts.Create(KD);
      charts.Create(MACD);
      charts.Create(RSI);
      forall s ensures charts.charts[s] != null && fresh(charts.charts[s]) {
        match s
        case ClosePrice =>
        case Volume =>
        case MA =>
        case KD =>
        case MACD =>
        case RSI =>
      }
    }
  }
}
