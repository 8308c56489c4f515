/** Values shared by the server (app.py) and the browser client (static/js/app.js). */
module Common {

  /** A value that may be missing: JSON `null`, a JavaScript `undefined`, a Python `None`. */
  datatype Option<T> = None | Some(value: T)

  /** Success or failure of a step that the source ends by raising an exception. */
  datatype Result<T, E> = Success(value: T) | Failure(error: E)

  /** The `type` field of a signal record: the strings 'buy' and 'sell'. */
  datatype SignalType = Buy | Sell

  /** One `{position, type}` record of a signal family. */
  datatype Signal = Signal(position: nat, kind: SignalType)

  /** The text the record carries in its `type` field. */
  function TypeName(t: SignalType): (s: string)
    ensures s != ""
    ensures t == Buy <==> s == "buy"
    ensures t == Sell <==> s == "sell"
  {
    match t
    case Buy => "buy"
    case Sell => "sell"
  }
}
