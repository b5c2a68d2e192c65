/** The class `json::Parser`: a text buffer `m_str` and a cursor `m_idx`
    that its routines advance step by step. Each method is proved to do what
    the matching function of module Grammar says. */
module Parsers {
  import opened Values
  import opened Chars
  import opened Grammar
  import opened JObjects

  /** A routine's observable outcome agrees with its specification: on
      success it returns the specified value and leaves the cursor where the
      specification says; on failure it throws the specified error. */
  predicate Follows(r: Result<JValue>, cursor: nat, spec: Result<Parsed>)
  {
    match spec
    case Ok(p) => r == Ok(p.value) && cursor == p.next
    case Err(e) => r == Err(e)
  }

  class Parser {
    /** `m_str`, fixed once `init` has trimmed it. */
    const str: string
    /** `m_idx` */
    var idx: nat

    /** The cursor never passes the terminating '\0' of the buffer. */
    ghost predicate Valid()
      reads this
    {
      idx <= |str|
    }

    /** `FromString(content)`: parse one value from `content`. The source
        reuses one static parser and re-initialises it with `init`, which
        resets both fields; a parser made by `Init` is in the same state. */
    static method FromString(content: string) returns (r: Result<JValue>)
      ensures r == Document(content)
    {
      var parser := new Parser.Init(content);
      r := parser.Parse();
    }

    /** `init(src)`: the buffer is `src` without its trailing whitespace and
        the cursor is at its start. */
    constructor Init(src: string)
      ensures Valid() && idx == 0 && str == StripTrailingSpace(src)
    {
      var trimmed := TrimRight(src);
      str := trimmed;
      idx := 0;
    }

    /** `trim_right()`: erase the whitespace at the end of the text. */
    static method TrimRight(text: string) returns (trimmed: string)
      ensures trimmed == StripTrailingSpace(text)
    {
      var n: nat := |text|;
      assert text[..n] == text;
      while n > 0 && IsSpace(text[n - 1])
        invariant n <= |text|
        invariant StripTrailingSpace(text[..n]) == StripTrailingSpace(text)
        decreases n
      {
        assert text[..n][..n - 1] == text[..n - 1];
        n := n - 1;
      }
      trimmed := text[..n];
    }

    /** `while (isspace(m_str[m_idx])) m_idx++;` */
    method SkipWhitespace()
      requires Valid()
      modifies this`idx
      ensures Valid() && idx == SkipSpaces(str, old(idx))
    {
      while IsSpace(At(str, idx))
        invariant Valid() && SkipSpaces(str, idx) == SkipSpaces(str, old(idx))
        decreases |str| - idx
      {
        idx := idx + 1;
      }
    }

    /** `skip_comment()` */
    method SkipComment() returns (r: Result<()>)
      requires Valid()
      modifies this`idx
      ensures Valid()
      ensures match AfterComments(str, old(idx))
              case Ok(j) => r.Ok? && idx == j
              case Err(e) => r == Err(e)
    {
      if !MatchesAt(str, idx, "//") {
        return Ok(());
      }
      ghost var start := idx;
      while true
        invariant Valid() && CommentRun(str, idx) == AfterComments(str, start)
        decreases |str| - idx
      {
        var nextPos := FindFrom(str, idx, '\n');
        if nextPos.None? {
          return Err(InvalidComment);
        }
        idx := nextPos.value + 1;
        SkipWhitespace();
        if !MatchesAt(str, idx, "//") {
          return Ok(());
        }
      }
    }

    /** `get_next_token()`: skip whitespace and comments and return the
        character under the cursor. */
    method GetNextToken() returns (r: Result<char>)
      requires Valid()
      modifies this`idx
      ensures Valid()
      ensures match NextToken(str, old(idx))
              case Ok(j) => r == Ok(At(str, j)) && idx == j
              case Err(e) => r == Err(e)
    {
      NextTokenSkips(str, idx);
      SkipWhitespace();
      if idx >= |str| {
        return Err(UnexpectedEnd);
      }
      var skipped := SkipComment();
      if skipped.Err? {
        return Err(skipped.error);
      }
      return Ok(At(str, idx));
    }

    /** `is_esc_consume(pos)`: whether the backslash at `pos` ends a run of
        backslashes of even length, so that they all pair off. The scan down
        the run must stop before index 0 (below it `size_t` would wrap). */
    method IsEscConsume(pos: nat) returns (b: bool)
      requires pos < |str|
      requires pos == 0 || RunBefore(str, pos + 1) <= pos
      ensures b <==> pos != 0 && str[pos] == '\\' && RunBefore(str, pos + 1) % 2 == 0
    {
      if pos == 0 || str[pos] != '\\' {
        return false;
      }
      var endPos := pos;
      var p := pos;
      while str[p] == '\\'
        invariant p <= endPos
        invariant RunBefore(str, endPos + 1) == (endPos - p) + RunBefore(str, p + 1)
        decreases p
      {
        p := p - 1;
      }
      var count := endPos - p;
      return count % 2 == 0;
    }

    /** `parse()` */
    method Parse() returns (r: Result<JValue>)
      requires Valid()
      modifies this`idx
      ensures Valid() && Follows(r, idx, ValueAt(str, old(idx)))
      decreases |str| - idx, 2
    {
      var token := GetNextToken();
      if token.Err? {
        return Err(token.error);
      }
      var c := token.value;
      if c == 'n' {
        r := ParseNull();
      } else if c == 't' || c == 'f' {
        r := ParseBool();
      } else if c == '-' || IsDigit(c) {
        r := ParseNumber();
      } else if c == '"' {
        r := ParseString();
      } else if c == '[' {
        r := ParseList();
      } else if c == '{' {
        r := ParseDict();
      } else {
        r := Err(UnexpectedChar);
      }
    }

    /** `parse_null()` */
    method ParseNull() returns (r: Result<JValue>)
      requires Valid()
      modifies this`idx
      ensures Valid() && Follows(r, idx, NullAt(str, old(idx)))
    {
      if MatchesAt(str, idx, "null") {
        idx := idx + 4;
        return Ok(Null);
      }
      return Err(NullError);
    }

    /** `parse_bool()` */
    method ParseBool() returns (r: Result<JValue>)
      requires Valid()
      modifies this`idx
      ensures Valid() && Follows(r, idx, BoolAt(str, old(idx)))
    {
      if MatchesAt(str, idx, "true") {
        idx := idx + 4;
        return Ok(Bool(true));
      }
      if MatchesAt(str, idx, "false") {
        idx := idx + 5;
        return Ok(Bool(false));
      }
      return Err(BoolError);
    }

    /** `while (isdigit(m_str[m_idx])) m_idx++;` */
    method ScanDigits()
      requires Valid()
      modifies this`idx
      ensures Valid() && idx == SkipDigits(str, old(idx))
    {
      while IsDigit(At(str, idx))
        invariant Valid() && SkipDigits(str, idx) == SkipDigits(str, old(idx))
        decreases |str| - idx
      {
        idx := idx + 1;
      }
    }

    /** `parse_number()` */
    method ParseNumber() returns (r: Result<JValue>)
      requires Valid()
      modifies this`idx
      ensures Valid() && Follows(r, idx, NumberAt(str, old(idx)))
    {
      var pos := idx;
      if At(str, idx) == '-' {
        idx := idx + 1;
      }
      if !IsDigit(At(str, idx)) {
        return Err(NumberError);
      }
      ScanDigits();
      if At(str, idx) == '.' {
        idx := idx + 1;
        if !IsDigit(At(str, idx)) {
          return Err(FractionError);
        }
        ScanDigits();
      }
      return Ok(Double(str[pos..idx]));
    }

    /** `parse_string()`, entered on the opening quote. */
    method ParseString() returns (r: Result<JValue>)
      requires Valid() && idx < |str| && str[idx] == '"'
      modifies this`idx
      ensures Valid() && Follows(r, idx, StringAt(str, old(idx)))
    {
      ghost var open := idx;
      idx := idx + 1;
      var prePos := idx;
      var found := FindFrom(str, idx, '"');
      if found.None? {
        return Err(StringError);
      }
      FindFromFirst(str, idx, '"');
      var pos := found.value;
      while true
        invariant idx == prePos <= pos < |str| && str[pos] == '"'
        invariant forall k :: prePos <= k < pos ==> !ClosesString(str, k)
        decreases |str| - pos
      {
        var closes := QuoteCloses(open, pos);
        if closes {
          break;
        }
        found := FindFrom(str, pos + 1, '"');
        if found.None? {
          FindFromNone(str, pos + 1, '"');
          NoClosingQuote(str, prePos, pos);
          return Err(UnterminatedString);
        }
        FindFromFirst(str, pos + 1, '"');
        pos := found.value;
      }
      FirstClosingQuote(str, prePos, pos);
      idx := pos + 1;
      return Ok(Str(str[prePos..pos]));
    }

    /** The test of the loop of `parse_string()`: the quote at `pos`, inside
        the string opened at `open`, closes it when no backslash precedes it
        or when `is_esc_consume` finds that the backslashes before it pair off. */
    method QuoteCloses(ghost open: nat, pos: nat) returns (b: bool)
      requires open < pos < |str| && str[open] == '"' && str[pos] == '"'
      ensures b <==> ClosesString(str, pos)
    {
      if str[pos - 1] != '\\' {
        assert RunBefore(str, pos) == 0;
        return true;
      }
      BackslashRunStops(str, open, pos);
      b := IsEscConsume(pos - 1);
    }

    /** `parse_list()`, entered on the '['. */
    method ParseList() returns (r: Result<JValue>)
      requires Valid() && idx < |str|
      modifies this`idx
      ensures Valid() && Follows(r, idx, ListAt(str, old(idx)))
      decreases |str| - idx, 1
    {
      ghost var start := idx;
      var arr := new JObject.FromList([]);
      idx := idx + 1;
      var ch := GetNextToken();
      ListOpens(str, start);
      if ch.Err? {
        return Err(ch.error);
      }
      if ch.value == ']' {
        idx := idx + 1;
        return Ok(arr.value);
      }
      while true
        invariant Valid() && start < idx
        invariant arr.Valid() && arr.value.List?
        invariant ListTail(str, idx, arr.value.items) == ListAt(str, start)
        decreases |str| - idx
      {
        var done := ListRound(arr);
        if done.Err? {
          return Err(done.error);
        }
        if done.value {
          break;
        }
      }
      return Ok(arr.value);
    }

    /** One round of the loop of `parse_list()`: `arr.push_back(parse())`,
        then ']' ends the list (the result is true) or ',' is skipped. */
    method ListRound(arr: JObject) returns (r: Result<bool>)
      requires Valid() && arr.Valid() && arr.value.List?
      modifies this`idx, arr
      ensures Valid() && arr.Valid() && arr.value.List?
      ensures match ListStep(str, old(idx), old(arr.value.items))
              case Stopped(Err(e)) => r == Err(e)
              case Stopped(Ok(p)) => r == Ok(true) && arr.value == p.value && idx == p.next
              case Continues(q, items) => r == Ok(false) && arr.value == List(items) && idx == q
      decreases |str| - idx, 3
    {
      var item := Parse();
      if item.Err? {
        return Err(item.error);
      }
      var _ := arr.PushBack(item.value);
      var ch := GetNextToken();
      if ch.Err? {
        return Err(ch.error);
      }
      if ch.value == ']' {
        idx := idx + 1;
        return Ok(true);
      }
      if ch.value != ',' {
        return Err(ListSeparator);
      }
      idx := idx + 1;
      return Ok(false);
    }

    /** `parse_dict()`, entered on the '{'. */
    method ParseDict() returns (r: Result<JValue>)
      requires Valid() && idx < |str|
      modifies this`idx
      ensures Valid() && Follows(r, idx, DictAt(str, old(idx)))
      decreases |str| - idx, 1
    {
      ghost var start := idx;
      var dict := new JObject.FromDict(map[]);
      idx := idx + 1;
      var ch := GetNextToken();
      DictOpens(str, start);
      if ch.Err? {
        return Err(ch.error);
      }
      if ch.value == '}' {
        idx := idx + 1;
        return Ok(dict.value);
      }
      while true
        invariant Valid() && start < idx
        invariant dict.Valid() && dict.value.Dict?
        invariant DictTail(str, idx, dict.value.entries) == DictAt(str, start)
        decreases |str| - idx
      {
        var done := DictRound(dict);
        if done.Err? {
          return Err(done.error);
        }
        if done.value {
          break;
        }
      }
      return Ok(dict.value);
    }

    /** One round of the loop of `parse_dict()`: a key and its ':', then the
        entry; the result is true when the '}' after it ends the dictionary. */
    method DictRound(dict: JObject) returns (r: Result<bool>)
      requires Valid() && dict.Valid() && dict.value.Dict?
      modifies this`idx, dict
      ensures Valid() && dict.Valid() && dict.value.Dict?
      ensures match DictStep(str, old(idx), old(dict.value.entries))
              case Stopped(Err(e)) => r == Err(e)
              case Stopped(Ok(p)) => r == Ok(true) && dict.value == p.value && idx == p.next
              case Continues(q, entries) => r == Ok(false) && dict.value == Dict(entries) && idx == q
      decreases |str| - idx, 5
    {
      var key := DictKey();
      if key.Err? {
        return Err(key.error);
      }
      r := DictEntry(key.value, dict);
    }

    /** The first half of the body of the loop of `parse_dict()`:
        `parse().Value<string>()` for the key, then the ':' after it. */
    method DictKey() returns (r: Result<string>)
      requires Valid()
      modifies this`idx
      ensures Valid()
      ensures match DictKeyAt(str, old(idx))
              case Err(e) => r == Err(e)
              case Ok((key, v)) => r == Ok(key) && idx == v
      decreases |str| - idx, 4
    {
      var parsedKey := Parse();
      if parsedKey.Err? {
        return Err(parsedKey.error);
      }
      var keyObject := new JObject.Of(parsedKey.value);
      var key := keyObject.GetStr();
      if key.Err? {
        return Err(key.error);
      }
      var ch := GetNextToken();
      if ch.Err? {
        return Err(ch.error);
      }
      if ch.value != ':' {
        return Err(DictColon);
      }
      idx := idx + 1;
      return Ok(key.value);
    }

    /** The second half: `dict[key] = parse()`, then '}' ends the
        dictionary (the result is true) or ',' is skipped. */
    method DictEntry(key: string, dict: JObject) returns (r: Result<bool>)
      requires Valid() && dict.Valid() && dict.value.Dict?
      modifies this`idx, dict
      ensures Valid() && dict.Valid() && dict.value.Dict?
      ensures match EntryStep(str, old(idx), key, old(dict.value.entries))
              case Stopped(Err(e)) => r == Err(e)
              case Stopped(Ok(p)) => r == Ok(true) && dict.value == p.value && idx == p.next
              case Continues(q, entries) => r == Ok(false) && dict.value == Dict(entries) && idx == q
      decreases |str| - idx, 4
    {
      var val := Parse();
      if val.Err? {
        return Err(val.error);
      }
      var _ := dict.SetEntry(key, val.value);
      var ch := GetNextToken();
      if ch.Err? {
        return Err(ch.error);
      }
      if ch.value == '}' {
        idx := idx + 1;
        return Ok(true);
      }
      if ch.value != ',' {
        return Err(DictSeparator);
      }
      idx := idx + 1;
      return Ok(false);
    }
  }

  /** The opening of `parse_list`: the first token after the '[' decides. */
  lemma ListOpens(s: string, i: nat)
    requires i < |s|
    ensures NextToken(s, i + 1).Err? ==> ListAt(s, i) == Err(NextToken(s, i + 1).error)
    ensures NextToken(s, i + 1).Ok? && At(s, NextToken(s, i + 1).value) == ']' ==>
      ListAt(s, i) == Ok(Parsed(List([]), NextToken(s, i + 1).value + 1))
    ensures NextToken(s, i + 1).Ok? && At(s, NextToken(s, i + 1).value) != ']' ==>
      ListAt(s, i) == ListTail(s, NextToken(s, i + 1).value, [])
  {
  }

  /** The opening of `parse_dict`: the first token after the '{' decides. */
  lemma DictOpens(s: string, i: nat)
    requires i < |s|
    ensures NextToken(s, i + 1).Err? ==> DictAt(s, i) == Err(NextToken(s, i + 1).error)
    ensures NextToken(s, i + 1).Ok? && At(s, NextToken(s, i + 1).value) == '}' ==>
      DictAt(s, i) == Ok(Parsed(Dict(map[]), NextToken(s, i + 1).value + 1))
    ensures NextToken(s, i + 1).Ok? && At(s, NextToken(s, i + 1).value) != '}' ==>
      DictAt(s, i) == DictTail(s, NextToken(s, i + 1).value, map[])
  {
  }

  /** Inside a string opened at `open`, the run of backslashes before a later
      position `q` stops at the opening quote, well above index 0. */
  lemma {:induction false} BackslashRunStops(s: string, open: nat, q: nat)
    requires open < q <= |s| && s[open] != '\\'
    ensures RunBefore(s, q) <= q - open - 1
    decreases q
  {
    if s[q - 1] == '\\' {
      BackslashRunStops(s, open, q - 1);
    }
  }
}
