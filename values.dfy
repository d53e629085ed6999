/** JavaScript values as they arrive in a message payload or an RPC reply,
    with the truthiness test the service applies to them. */
module Values {

  datatype Option<+T> = None | Some(value: T)

  /** A JSON-like JavaScript value. Numbers are integers here: the model
      does not represent fractions, NaN or the infinities. */
  datatype JsValue =
    | Undefined
    | Null
    | Bool(b: bool)
    | Num(n: int)
    | Str(s: string)
    | Arr(items: seq<JsValue>)
    | Obj(fields: map<string, JsValue>)

  /** JavaScript's `!!v`: false exactly for undefined, null, false, 0 and "". */
  predicate Truthy(v: JsValue)
  {
    match v
    case Undefined => false
    case Null => false
    case Bool(b) => b
    case Num(n) => n != 0
    case Str(s) => s != ""
    case Arr(_) => true
    case Obj(_) => true
  }

  /** The falsy values, listed outright: a reference definition for Truthy. */
  predicate IsFalsyLiteral(v: JsValue)
  {
    v == Undefined || v == Null || v == Bool(false) || v == Num(0) || v == Str("")
  }

  lemma TruthyIffNotFalsyLiteral(v: JsValue)
    ensures Truthy(v) <==> !IsFalsyLiteral(v)
  {
  }
}
