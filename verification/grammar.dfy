/** What each routine of `json::Parser` computes, as functions of the text
    and the cursor position they start from. A successful routine yields the
    value it built and the position the cursor is left at; a routine that
    throws yields the error. The class Parser (parser.dfy) is proved to follow
    these functions step by step, and module GrammarFacts proves what they
    accept and reject. */
module Grammar {
  import opened Values
  import opened Chars

  /** A value built by a routine and the cursor position after it. */
  datatype Parsed = Parsed(value: JValue, next: nat)

  /** A `//` comment starts at `i`. */
  predicate CommentAt(s: string, i: nat)
  {
    MatchesAt(s, i, "//")
  }

  /** The `while (true)` loop of `skip_comment`, started on a comment at `p`:
      jump past the next newline, skip whitespace, and go round again while
      another comment starts there. */
  function CommentRun(s: string, p: nat): (r: Result<nat>)
    requires p <= |s|
    ensures r.Ok? ==> p < r.value <= |s|
    ensures r.Err? ==> r.error == InvalidComment
    decreases |s| - p
  {
    match FindFrom(s, p, '\n')
    case None => Err(InvalidComment)
    case Some(n) =>
      var q := SkipSpaces(s, n + 1);
      if CommentAt(s, q) then CommentRun(s, q) else Ok(q)
  }

  /** `skip_comment` from position `j`. */
  function AfterComments(s: string, j: nat): (r: Result<nat>)
    requires j <= |s|
    ensures r.Ok? ==> j <= r.value <= |s|
    ensures r.Err? ==> r.error == InvalidComment
  {
    if CommentAt(s, j) then CommentRun(s, j) else Ok(j)
  }

  /** `get_next_token` from position `i`: the position of the next character
      that is neither whitespace nor inside a run of `//` lines. Whitespace is
      skipped one character at a time; the end of the text is an error. */
  function NextToken(s: string, i: nat): (r: Result<nat>)
    requires i <= |s|
    ensures r.Ok? ==> i <= r.value <= |s|
    ensures r.Err? ==> r.error == UnexpectedEnd || r.error == InvalidComment
    decreases |s| - i
  {
    if i < |s| && IsSpace(s[i]) then NextToken(s, i + 1)
    else if i == |s| then Err(UnexpectedEnd)
    else AfterComments(s, i)
  }

  /** `get_next_token` as the source writes it: skip all the whitespace, fail
      at the end of the text, and skip the comments from there. */
  lemma {:induction false} NextTokenSkips(s: string, i: nat)
    requires i <= |s|
    ensures NextToken(s, i) ==
      (var j := SkipSpaces(s, i); if j >= |s| then Err(UnexpectedEnd) else AfterComments(s, j))
    decreases |s| - i
  {
    if i < |s| && IsSpace(s[i]) {
      NextTokenSkips(s, i + 1);
    }
  }

  /** The kind of value that `parse` selects for a lookahead character. */
  function Starter(c: char): Option<Type>
  {
    if c == 'n' then Some(TNull)
    else if c == 't' || c == 'f' then Some(TBool)
    else if c == '-' || IsDigit(c) then Some(TDouble)
    else if c == '"' then Some(TStr)
    else if c == '[' then Some(TList)
    else if c == '{' then Some(TDict)
    else None
  }

  /** `parse_null` at `i`. */
  function NullAt(s: string, i: nat): (r: Result<Parsed>)
    requires i <= |s|
    ensures r.Ok? ==> i < r.value.next <= |s|
    ensures r.Err? ==> r.error == NullError
  {
    if MatchesAt(s, i, "null") then Ok(Parsed(Null, i + 4)) else Err(NullError)
  }

  /** `parse_bool` at `i`. */
  function BoolAt(s: string, i: nat): (r: Result<Parsed>)
    requires i <= |s|
    ensures r.Ok? ==> i < r.value.next <= |s|
    ensures r.Err? ==> r.error == BoolError
  {
    if MatchesAt(s, i, "true") then Ok(Parsed(Bool(true), i + 4))
    else if MatchesAt(s, i, "false") then Ok(Parsed(Bool(false), i + 5))
    else Err(BoolError)
  }

  /** `parse_number` at `i`: an optional '-', digits, and optionally '.'
      followed by digits. The number is kept as the text scanned. */
  function NumberAt(s: string, i: nat): (r: Result<Parsed>)
    requires i <= |s|
    ensures r.Ok? ==> i < r.value.next <= |s|
    ensures r.Err? ==> r.error == NumberError || r.error == FractionError
  {
    var j0 := if At(s, i) == '-' then i + 1 else i;
    if !IsDigit(At(s, j0)) then Err(NumberError)
    else
      var j1 := SkipDigits(s, j0);
      if At(s, j1) != '.' then Ok(Parsed(Double(s[i..j1]), j1))
      else if !IsDigit(At(s, j1 + 1)) then Err(FractionError)
      else
        var j2 := SkipDigits(s, j1 + 1);
        Ok(Parsed(Double(s[i..j2]), j2))
  }

  /** A '"' at `q` that closes a string: the backslashes right before it, if
      any, pair off. */
  predicate ClosesString(s: string, q: nat)
    requires q < |s|
  {
    s[q] == '"' && RunBefore(s, q) % 2 == 0
  }

  /** The first closing quote at or after `from`. */
  function ClosingQuote(s: string, from: nat): (r: Option<nat>)
    ensures r.Some? ==> from <= r.value < |s| && ClosesString(s, r.value)
    decreases |s| - from
  {
    if from >= |s| then None
    else if ClosesString(s, from) then Some(from)
    else ClosingQuote(s, from + 1)
  }

  /** `ClosingQuote` finds the first closing quote: none comes before it, and
      when it finds nothing there is none at all. */
  lemma {:induction false} ClosingQuoteFirst(s: string, from: nat)
    ensures ClosingQuote(s, from).Some? ==>
      forall k :: from <= k < ClosingQuote(s, from).value ==> !ClosesString(s, k)
    ensures ClosingQuote(s, from).None? ==> forall k :: from <= k < |s| ==> !ClosesString(s, k)
    decreases |s| - from
  {
    if from < |s| && !ClosesString(s, from) {
      ClosingQuoteFirst(s, from + 1);
    }
  }

  /** A closing quote at `q` with none between `from` and it is the first. */
  lemma {:induction false} FirstClosingQuote(s: string, from: nat, q: nat)
    requires from <= q < |s| && ClosesString(s, q)
    requires forall k :: from <= k < q ==> !ClosesString(s, k)
    ensures ClosingQuote(s, from) == Some(q)
    decreases q - from
  {
    if from < q {
      FirstClosingQuote(s, from + 1, q);
    }
  }

  /** No closing quote up to `q`, and no quote at all after it: there is no
      closing quote. */
  lemma {:induction false} NoClosingQuote(s: string, from: nat, q: nat)
    requires from <= q < |s|
    requires forall k :: from <= k <= q ==> !ClosesString(s, k)
    requires forall k :: q < k < |s| ==> s[k] != '"'
    ensures ClosingQuote(s, from).None?
    decreases |s| - from
  {
    if from < q {
      NoClosingQuote(s, from + 1, q);
    } else if from + 1 < |s| {
      NoClosingQuote(s, from + 1, from + 1);
    }
  }

  /** `parse_string` with the opening quote at `i`: the text up to the first
      closing quote, verbatim (no escape sequence is decoded). */
  function StringAt(s: string, i: nat): (r: Result<Parsed>)
    requires i < |s|
    ensures r.Ok? ==> i + 2 <= r.value.next <= |s|
    ensures r.Err? ==> r.error == StringError || r.error == UnterminatedString
  {
    var start := i + 1;
    match FindFrom(s, start, '"')
    case None => Err(StringError)
    case Some(_) =>
      match ClosingQuote(s, start)
      case None => Err(UnterminatedString)
      case Some(q) => Ok(Parsed(Str(s[start..q]), q + 1))
  }

  /** `parse` at `i`: skip to the next token and dispatch on it. */
  function ValueAt(s: string, i: nat): (r: Result<Parsed>)
    requires i <= |s|
    ensures r.Ok? ==> i < r.value.next <= |s|
    decreases |s| - i, 2
  {
    var j :- NextToken(s, i);
    Dispatch(s, j)
  }

  /** The choice of `parse` among the routines by the token at `j`. */
  function Dispatch(s: string, j: nat): (r: Result<Parsed>)
    requires j <= |s|
    ensures r.Ok? ==> j < r.value.next <= |s|
    decreases |s| - j, 1
  {
    var c := At(s, j);
    if c == 'n' then NullAt(s, j)
    else if c == 't' || c == 'f' then BoolAt(s, j)
    else if c == '-' || IsDigit(c) then NumberAt(s, j)
    else if c == '"' then StringAt(s, j)
    else if c == '[' then ListAt(s, j)
    else if c == '{' then DictAt(s, j)
    else Err(UnexpectedChar)
  }

  /** How one round of the `while (true)` loop of `parse_list` or `parse_dict`
      ends: the routine returns or throws (`Stopped`), or the loop goes round
      again at `next` with the elements gathered so far (`Continues`). */
  datatype Step<A> = Stopped(outcome: Result<Parsed>) | Continues(next: nat, acc: A)

  /** `parse_list` with the '[' at `i`. */
  function ListAt(s: string, i: nat): (r: Result<Parsed>)
    requires i < |s|
    ensures r.Ok? ==> i < r.value.next <= |s| && r.value.value.List?
    decreases |s| - i, 0
  {
    var j :- NextToken(s, i + 1);
    if At(s, j) == ']' then Ok(Parsed(List([]), j + 1))
    else ListTail(s, j, [])
  }

  /** The `while (true)` loop of `parse_list` at `p`, with `items` parsed so
      far. */
  function ListTail(s: string, p: nat, items: seq<JValue>): (r: Result<Parsed>)
    requires p <= |s|
    ensures r.Ok? ==> p < r.value.next <= |s| && r.value.value.List?
    decreases |s| - p, 4
  {
    match ListStep(s, p, items)
    case Stopped(outcome) => outcome
    case Continues(q, items') => ListTail(s, q, items')
  }

  /** One round of that loop: a value, then ']' to finish or ',' to go round
      again; anything else throws. */
  function ListStep(s: string, p: nat, items: seq<JValue>): (r: Step<seq<JValue>>)
    requires p <= |s|
    ensures r.Stopped? && r.outcome.Ok? ==> p < r.outcome.value.next <= |s| && r.outcome.value.value.List?
    ensures r.Continues? ==> p < r.next <= |s|
    decreases |s| - p, 3
  {
    match ValueAt(s, p)
    case Err(e) => Stopped(Err(e))
    case Ok(item) =>
      match NextToken(s, item.next)
      case Err(e) => Stopped(Err(e))
      case Ok(t) =>
        var items' := items + [item.value];
        if At(s, t) == ']' then Stopped(Ok(Parsed(List(items'), t + 1)))
        else if At(s, t) != ',' then Stopped(Err(ListSeparator))
        else Continues(t + 1, items')
  }

  /** `parse_dict` with the '{' at `i`. */
  function DictAt(s: string, i: nat): (r: Result<Parsed>)
    requires i < |s|
    ensures r.Ok? ==> i < r.value.next <= |s| && r.value.value.Dict?
    decreases |s| - i, 0
  {
    var j :- NextToken(s, i + 1);
    if At(s, j) == '}' then Ok(Parsed(Dict(map[]), j + 1))
    else DictTail(s, j, map[])
  }

  /** The `while (true)` loop of `parse_dict` at `p`, with `entries` parsed
      so far. */
  function DictTail(s: string, p: nat, entries: map<string, JValue>): (r: Result<Parsed>)
    requires p <= |s|
    ensures r.Ok? ==> p < r.value.next <= |s| && r.value.value.Dict?
    decreases |s| - p, 5
  {
    match DictStep(s, p, entries)
    case Stopped(outcome) => outcome
    case Continues(q, entries') => DictTail(s, q, entries')
  }

  /** The key of a round of that loop at `p`: a value that must be a string,
      then ':'. The result is the key and the position after the ':'. */
  function DictKeyAt(s: string, p: nat): (r: Result<(string, nat)>)
    requires p <= |s|
    ensures r.Ok? ==> p < r.value.1 <= |s|
    decreases |s| - p, 3
  {
    var key :- ValueAt(s, p);
    if !key.value.Str? then Err(TypeError(TStr))
    else
      var c :- NextToken(s, key.next);
      if At(s, c) != ':' then Err(DictColon)
      else Ok((key.value.chars, c + 1))
  }

  /** One round of that loop: a key, then the rest of the round. */
  function DictStep(s: string, p: nat, entries: map<string, JValue>): (r: Step<map<string, JValue>>)
    requires p <= |s|
    ensures r.Stopped? && r.outcome.Ok? ==> p < r.outcome.value.next <= |s| && r.outcome.value.value.Dict?
    ensures r.Continues? ==> p < r.next <= |s|
    decreases |s| - p, 4
  {
    match DictKeyAt(s, p)
    case Err(e) => Stopped(Err(e))
    case Ok((key, v)) => EntryStep(s, v, key, entries)
  }

  /** The rest of a round at `v`, after the ':' of `key`: the value, stored
      under `key` (replacing an earlier one), then '}' to finish or ',' to go
      round again; anything else throws. */
  function EntryStep(s: string, v: nat, key: string, entries: map<string, JValue>): (r: Step<map<string, JValue>>)
    requires v <= |s|
    ensures r.Stopped? && r.outcome.Ok? ==> v < r.outcome.value.next <= |s| && r.outcome.value.value.Dict?
    ensures r.Continues? ==> v < r.next <= |s|
    decreases |s| - v, 3
  {
    match ValueAt(s, v)
    case Err(e) => Stopped(Err(e))
    case Ok(val) =>
      match NextToken(s, val.next)
      case Err(e) => Stopped(Err(e))
      case Ok(t) =>
        var entries' := entries[key := val.value];
        if At(s, t) == '}' then Stopped(Ok(Parsed(Dict(entries'), t + 1)))
        else if At(s, t) != ',' then Stopped(Err(DictSeparator))
        else Continues(t + 1, entries')
  }

  /** `Parser::FromString(src)`: trim the trailing whitespace, then parse one
      value from the start. What follows that value is not looked at. */
  function Document(src: string): Result<JValue>
  {
    var v :- ValueAt(StripTrailingSpace(src), 0);
    Ok(v.value)
  }
}
