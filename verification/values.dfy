/** The value vocabulary of the JSON library: the type tag of a JObject, the
    payload it carries (as a value, so that nested lists and dictionaries are
    copied, never shared), and the errors that the library throws as
    `std::logic_error`. */
module Values {

  /** `int_t` is `int32_t`. */
  newtype Int32 = x: int | -0x8000_0000 <= x < 0x8000_0000

  /** The enum `TYPE` (T_NULL ... T_DICT). */
  datatype Type = TNull | TBool | TInt | TDouble | TStr | TList | TDict

  /** A JObject seen as a value: the active alternative is the tag.
      A double is kept as the decimal text it stands for; the conversion of
      that text to a binary floating-point number is not modelled. */
  datatype JValue =
    | Null
    | Bool(boolean: bool)
    | Int(integer: Int32)
    | Double(lexeme: string)
    | Str(chars: string)
    | List(items: seq<JValue>)
    | Dict(entries: map<string, JValue>)

  /** The tag that belongs to each payload alternative. */
  function TypeOf(v: JValue): Type
  {
    match v
    case Null => TNull
    case Bool(_) => TBool
    case Int(_) => TInt
    case Double(_) => TDouble
    case Str(_) => TStr
    case List(_) => TList
    case Dict(_) => TDict
  }

  /** One error per kind of failure the library throws a `std::logic_error` for. */
  datatype Error =
    | TypeError(expected: Type)   // Value<V>() on a JObject of another type
    | NotAList                    // push_back / pop_back on a non-list
    | NotADict                    // operator[] on a non-dict
    | UnexpectedEnd               // get_next_token: nothing but whitespace left
    | InvalidComment              // skip_comment: a `//` line without a newline
    | UnexpectedChar              // parse: no sub-parser for the lookahead
    | NullError                   // parse_null
    | BoolError                   // parse_bool
    | NumberError                 // parse_number: no digit in the integer part
    | FractionError               // parse_number: no digit after '.'
    | StringError                 // parse_string: no '"' after the opening quote
    | UnterminatedString          // parse_string: every later '"' is escaped
    | ListSeparator               // parse_list: neither ',' nor ']'
    | DictColon                   // parse_dict: no ':' after a key
    | DictSeparator               // parse_dict: neither ',' nor '}'

  datatype Option<T> = None | Some(value: T)

  /** A computation that either yields a value or throws. */
  datatype Result<T> = Ok(value: T) | Err(error: Error)
  {
    predicate IsFailure() { Err? }

    function PropagateFailure<U>(): Result<U>
      requires Err?
    {
      Err(error)
    }

    function Extract(): T
      requires Ok?
    {
      value
    }
  }
}
