/** The server side of `POST /query` (app.py): the argument checks and date-window
    defaulting of `fetch_stock_data`, the serialisation loop of `query_stock`, and the
    way `query_stock` turns every raised error into `{'error': message}`. Market data,
    TA-Lib and the analysis text come from collaborators passed in as functions. */
module StockQuery {
  import opened Common
  import opened Signals

  /** A date bound handed to the market-data download: the text the client sent, or a
      moment of the server clock (seconds). */
  datatype DateArg = Given(text: string) | Clock(seconds: int)

  /** The `start=`/`end=` arguments of the download; an absent end means "up to today". */
  datatype Window = Window(start: DateArg, end: Option<DateArg>)

  /** Length of the default window, `timedelta(days=180)`. */
  const DefaultWindowDays: int := 180
  const SecondsPerDay: int := 86400

  /** One row of the downloaded price frame: its timestamp (seconds) and OHLCV values. */
  datatype PriceRow = PriceRow(timestamp: int, open: real, high: real, low: real, close: real, volume: real)

  /** The two `ValueError`s `fetch_stock_data` raises. */
  datatype FetchError = EmptySymbol | NoData(symbol: string)

  /** `str(e)` of each error. */
  function ErrorMessage(e: FetchError): (m: string)
    ensures m != ""
  {
    match e
    case EmptySymbol => "股票代碼不能為空"
    case NoData(symbol) => "找不到股票代碼 " + symbol + " 的數據"
  }

  /** Python truthiness of an optional string argument: `None` and `''` are false. */
  predicate Supplied(arg: Option<string>) {
    arg.Some? && arg.value != ""
  }

  /** The window `fetch_stock_data` downloads, given its date arguments and the clock. */
  function RequestedWindow(startDate: Option<string>, endDate: Option<string>, now: int): Window {
    if !Supplied(startDate) then
      Window(Clock(now - DefaultWindowDays * SecondsPerDay), Some(Clock(now)))
    else
      Window(Given(startDate.value), if endDate.Some? then Some(Given(endDate.value)) else None)
  }

  /** Without a start date the window is the 180 days up to now, whatever end date came with
      the request; with one, both dates are passed on untouched. */
  lemma WindowDefaulting(startDate: Option<string>, endDate: Option<string>, otherEnd: Option<string>, now: int)
    ensures !Supplied(startDate) ==>
      RequestedWindow(startDate, endDate, now) == RequestedWindow(startDate, otherEnd, now)
      && RequestedWindow(startDate, endDate, now).end == Some(Clock(now))
      && RequestedWindow(startDate, endDate, now).start.Clock?
      && now - RequestedWindow(startDate, endDate, now).start.seconds == 180 * 86400
    ensures Supplied(startDate) ==>
      RequestedWindow(startDate, endDate, now).start == Given(startDate.value)
      && (RequestedWindow(startDate, endDate, now).end.Some? <==> endDate.Some?)
      && (endDate.Some? ==> RequestedWindow(startDate, endDate, now).end.value == Given(endDate.value))
  {
  }

  /** `fetch_stock_data(symbol, start_date, end_date)`: an empty or absent symbol is refused
      before anything is downloaded; an empty download is refused too. */
  method FetchStockData(symbol: Option<string>, startDate: Option<string>, endDate: Option<string>,
                               now: int, history: (string, Window) -> seq<PriceRow>)
    returns (r: Result<seq<PriceRow>, FetchError>)
    ensures !Supplied(symbol) ==> r == Failure(EmptySymbol)
    ensures Supplied(symbol) ==>
      var rows := history(symbol.value, RequestedWindow(startDate, endDate, now));
      r == if rows == [] then Failure(NoData(symbol.value)) else Success(rows)
  {
    if !Supplied(symbol) {
      return Failure(EmptySymbol);
    }
    var start: DateArg;
    var end: Option<DateArg>;
    if !Supplied(startDate) {
      end := Some(Clock(now));
      start := Clock(now - DefaultWindowDays * SecondsPerDay);
    } else {
      start := Given(startDate.value);
      end := if endDate.Some? then Some(Given(endDate.value)) else None;
    }
    var rows := history(symbol.value, Window(start, end));
    if rows == [] {
      return Failure(NoData(symbol.value));
    }
    return Success(rows);
  }

  /** A JSON value of the `indicators` object: a list with `null` for NaN, or a number. */
  datatype JsonIndicator = JsonList(items: seq<Option<real>>) | JsonNumber(x: Num)

  /** `[float(x) if pd.notna(x) else None for x in value]`. */
  function SerialiseSeries(values: seq<Num>): (items: seq<Option<real>>)
    ensures |items| == |values|
    ensures forall j :: 0 <= j < |values| ==> (items[j] == None <==> values[j] == NaN)
    ensures forall j :: 0 <= j < |values| && values[j].Fin? ==> items[j] == Some(values[j].value)
  {
    seq(|values|, j requires 0 <= j < |values| => if values[j].Fin? then Some(values[j].value) else None)
  }

  /** One step of the loop: a series becomes a list, anything else `float(value)`. */
  function SerialiseValue(v: IndicatorValue): JsonIndicator {
    match v
    case Series(values) => JsonList(SerialiseSeries(values))
    case Scalar(x) => JsonNumber(x)
  }

  /** Reading a serialised indicator back: `null` becomes NaN again. */
  function DeserialiseValue(j: JsonIndicator): IndicatorValue {
    match j
    case JsonList(items) =>
      Series(seq(|items|, i requires 0 <= i < |items| => if items[i].Some? then Fin(items[i].value) else NaN))
    case JsonNumber(x) => Scalar(x)
  }

  /** Serialisation loses nothing: NaN and `None` stand for each other. */
  lemma SerialiseRoundTrip(v: IndicatorValue)
    ensures DeserialiseValue(SerialiseValue(v)) == v
  {
    match v
    case Series(values) =>
      var back := DeserialiseValue(SerialiseValue(v)).values;
      assert |back| == |values|;
      forall j | 0 <= j < |values| ensures back[j] == values[j] {
        if values[j].NaN? {
          assert SerialiseSeries(values)[j] == None;
        }
      }
    case Scalar(x) =>
  }

  /** The `serializable_indicators` loop: every key keeps its place with its value
      serialised. */
  method SerialiseIndicators(indicators: map<IndicatorKey, IndicatorValue>)
    returns (out: map<IndicatorKey, JsonIndicator>)
    ensures out.Keys == indicators.Keys
    ensures forall key :: key in out ==> out[key] == SerialiseValue(indicators[key])
  {
    out := map[];
    var todo := indicators.Keys;
    while todo != {}
      invariant todo <= indicators.Keys
      invariant out.Keys == indicators.Keys - todo
      invariant forall key :: key in out ==> out[key] == SerialiseValue(indicators[key])
      decreases todo
    {
      var key :| key in todo;
      out := out[key := SerialiseValue(indicators[key])];
      todo := todo - {key};
    }
  }

  /** The JSON body `query_stock` answers with. */
  datatype QueryResponse =
    | ErrorResponse(error: string)
    | ResultResponse(stockData: seq<PriceRow>, indicators: map<IndicatorKey, JsonIndicator>,
                     signals: map<Family, seq<Signal>>, gptAnalysis: string)

  /** `query_stock` for a JSON request object: fetch, compute, analyse, serialise; a raised
      error becomes `{'error': str(e)}`. */
  method QueryStock(request: map<string, string>, now: int,
                           history: (string, Window) -> seq<PriceRow>,
                           talib: seq<PriceRow> -> TalibOutput,
                           analyse: (seq<PriceRow>, map<IndicatorKey, IndicatorValue>, map<Family, seq<Signal>>) -> string)
    returns (response: QueryResponse)
    requires AlignedOracle(talib)
    ensures var symbol := Get(request, "symbol");
      && (!Supplied(symbol) ==> response == ErrorResponse(ErrorMessage(EmptySymbol)))
      && (Supplied(symbol) ==>
            var rows := history(symbol.value, RequestedWindow(Get(request, "start_date"), Get(request, "end_date"), now));
            && (rows == [] ==> response == ErrorResponse(ErrorMessage(NoData(symbol.value))))
            && (rows != [] ==>
                  && response.ResultResponse?
                  && response.stockData == rows
                  && (forall key :: key in response.indicators
                        && DeserialiseValue(response.indicators[key]) == IndicatorOf(talib(rows), key))
                  && (forall f :: f in response.signals
                        && response.signals[f] == Emitted(FamilyRule(talib(rows), f), |rows|)
                        && WellFormedSignals(response.signals[f], |rows|))
                  && response.gptAnalysis
                       == analyse(rows, IndicatorMap(talib(rows)), SignalMap(talib(rows), |rows|))))
  {
    var symbol := Get(request, "symbol");
    var startDate := Get(request, "start_date");
    var endDate := Get(request, "end_date");
    var fetched := FetchStockData(symbol, startDate, endDate, now, history);
    if fetched.Failure? {
      return ErrorResponse(ErrorMessage(fetched.error));
    }
    var rows := fetched.value;
    assert Aligned(talib(rows), |rows|);
    var indicators, signals := CalculateIndicatorsWithSignals(|rows|, talib(rows));
    assert indicators == IndicatorMap(talib(rows));
    assert signals == SignalMap(talib(rows), |rows|);
    var gptAnalysis := analyse(rows, indicators, signals);
    var serialisable := SerialiseIndicators(indicators);
    forall key: IndicatorKey
      ensures key in serialisable && DeserialiseValue(serialisable[key]) == IndicatorOf(talib(rows), key)
    {
      SerialiseRoundTrip(indicators[key]);
    }
    response := ResultResponse(rows, serialisable, signals, gptAnalysis);
  }

  /** TA-Lib returns one entry per bar for every series. */
  ghost predicate AlignedOracle(talib: seq<PriceRow> -> TalibOutput) {
    forall rows {:trigger talib(rows)} :: Aligned(talib(rows), |rows|)
  }

  /** `data.get(key)` on the request object. */
  function Get(request: map<string, string>, key: string): Option<string> {
    if key in request then Some(request[key]) else None
  }
}
