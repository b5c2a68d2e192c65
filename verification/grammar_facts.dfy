/** What the routines of the parser accept and reject, proved about the
    functions of module Grammar: the scans stop exactly where the source's
    loops stop, `get_next_token` lands on a real token or fails only at the
    end, `parse` dispatches on the lookahead, numbers and strings are exactly
    the lexemes the source scans, and the list and dictionary loops only ever
    grow what they have gathered. */
module GrammarFacts {
  import opened Values
  import opened Chars
  import opened Grammar

  /* ---------- Scans over the text ---------- */

  /** `while (isspace(s[i])) i++` passes only whitespace. */
  lemma {:induction false} SkipSpacesPasses(s: string, i: nat)
    requires i <= |s|
    ensures forall k :: i <= k < SkipSpaces(s, i) ==> IsSpace(s[k])
    decreases |s| - i
  {
    if i < |s| && IsSpace(s[i]) {
      SkipSpacesPasses(s, i + 1);
    }
  }

  /** `while (isdigit(s[i])) i++` passes only digits. */
  lemma {:induction false} SkipDigitsPasses(s: string, i: nat)
    requires i <= |s|
    ensures DigitsIn(s, i, SkipDigits(s, i))
    decreases |s| - i
  {
    if i < |s| && IsDigit(s[i]) {
      SkipDigitsPasses(s, i + 1);
    }
  }

  /** A run of digits from `i` up to a non-digit is what `SkipDigits` passes. */
  lemma {:induction false} SkipDigitsStops(s: string, i: nat, j: nat)
    requires i <= j <= |s| && DigitsIn(s, i, j)
    requires !IsDigit(At(s, j))
    ensures SkipDigits(s, i) == j
    decreases j - i
  {
    if i < j {
      SkipDigitsStops(s, i + 1, j);
    }
  }

  /** `trim_right` erases whitespace only: everything it drops is whitespace. */
  lemma {:induction false} StripTrailingSpaceDrops(s: string)
    ensures forall k :: |StripTrailingSpace(s)| <= k < |s| ==> IsSpace(s[k])
    decreases |s|
  {
    if s != [] && IsSpace(s[|s| - 1]) {
      StripTrailingSpaceDrops(s[..|s| - 1]);
    }
  }

  /** `RunBefore(s, i)` counts a run of backslashes: every character it
      counts is one. */
  lemma {:induction false} RunBeforeBackslashes(s: string, i: nat)
    requires i <= |s|
    ensures forall k :: i - RunBefore(s, i) <= k < i ==> s[k] == '\\'
    decreases i
  {
    if i > 0 && s[i - 1] == '\\' {
      RunBeforeBackslashes(s, i - 1);
    }
  }

  /* ---------- get_next_token ---------- */

  /** The loop of `skip_comment` stops on a character that is neither
      whitespace nor the start of another comment. */
  lemma {:induction false} CommentRunStops(s: string, p: nat)
    requires p <= |s| && CommentRun(s, p).Ok?
    ensures !IsSpace(At(s, CommentRun(s, p).value))
    ensures !CommentAt(s, CommentRun(s, p).value)
    decreases |s| - p
  {
    var n := FindFrom(s, p, '\n').value;
    var q := SkipSpaces(s, n + 1);
    if CommentAt(s, q) {
      CommentRunStops(s, q);
    }
  }

  /** `get_next_token` returns a real token: the cursor ends on a character
      that is neither whitespace nor the start of a `//` comment. */
  lemma {:induction false} NextTokenLands(s: string, i: nat)
    requires i <= |s| && NextToken(s, i).Ok?
    ensures !IsSpace(At(s, NextToken(s, i).value))
    ensures !CommentAt(s, NextToken(s, i).value)
    decreases |s| - i
  {
    if i < |s| && IsSpace(s[i]) {
      NextTokenLands(s, i + 1);
    } else if CommentAt(s, i) {
      CommentRunStops(s, i);
    }
  }

  /** `get_next_token` throws "unexpected character" exactly when nothing but
      whitespace is left. */
  lemma {:induction false} NextTokenEnd(s: string, i: nat)
    requires i <= |s|
    ensures NextToken(s, i) == Err(UnexpectedEnd) <==> forall k :: i <= k < |s| ==> IsSpace(s[k])
    decreases |s| - i
  {
    if i < |s| && IsSpace(s[i]) {
      NextTokenEnd(s, i + 1);
    }
  }

  /** On a character that is neither whitespace nor '/', the next token is
      that character. */
  lemma NextTokenHere(s: string, i: nat)
    requires i < |s| && !IsSpace(s[i]) && s[i] != '/'
    ensures NextToken(s, i) == Ok(i)
  {
    assert s[i + 0] != "//"[0];
  }

  /* ---------- parse ---------- */

  /** `parse` follows its lookahead: a character that starts no value throws
      "unexpected character", and a value that parses is of the kind its
      first character announces. */
  lemma DispatchByStarter(s: string, j: nat)
    requires j <= |s|
    ensures Starter(At(s, j)).None? ==> Dispatch(s, j) == Err(UnexpectedChar)
    ensures Dispatch(s, j).Ok? ==> Starter(At(s, j)) == Some(TypeOf(Dispatch(s, j).value.value))
  {
  }

  /** No value contains an `int_t`: numbers are always read as doubles. */
  predicate NoInt(v: JValue)
  {
    match v
    case Int(_) => false
    case List(items) => forall k :: 0 <= k < |items| ==> NoInt(items[k])
    case Dict(entries) => forall key :: key in entries ==> NoInt(entries[key])
    case _ => true
  }

  /** The parser never builds an `int_t`. */
  lemma {:induction false} ValueHasNoInt(s: string, i: nat)
    requires i <= |s| && ValueAt(s, i).Ok?
    ensures NoInt(ValueAt(s, i).value.value)
    decreases |s| - i, 2
  {
    var j := NextToken(s, i).value;
    DispatchHasNoInt(s, j);
  }

  lemma {:induction false} DispatchHasNoInt(s: string, j: nat)
    requires j <= |s| && Dispatch(s, j).Ok?
    ensures NoInt(Dispatch(s, j).value.value)
    decreases |s| - j, 1
  {
    var c := At(s, j);
    if c == '[' {
      var t := NextToken(s, j + 1).value;
      if At(s, t) != ']' {
        ListTailHasNoInt(s, t, []);
      }
    } else if c == '{' {
      var t := NextToken(s, j + 1).value;
      if At(s, t) != '}' {
        DictTailHasNoInt(s, t, map[]);
      }
    }
  }

  lemma {:induction false} ListTailHasNoInt(s: string, p: nat, items: seq<JValue>)
    requires p <= |s| && ListTail(s, p, items).Ok?
    requires forall k :: 0 <= k < |items| ==> NoInt(items[k])
    ensures NoInt(ListTail(s, p, items).value.value)
    decreases |s| - p, 4
  {
    ListStepHasNoInt(s, p, items);
    match ListStep(s, p, items)
    case Stopped(_) =>
    case Continues(q, items') =>
      assert ListStep(s, p, items).acc == items';
      ListTailHasNoInt(s, q, items');
  }

  lemma {:induction false} ListStepHasNoInt(s: string, p: nat, items: seq<JValue>)
    requires p <= |s|
    requires forall k :: 0 <= k < |items| ==> NoInt(items[k])
    ensures match ListStep(s, p, items)
      case Stopped(Ok(r)) => NoInt(r.value)
      case Stopped(Err(_)) => true
      case Continues(_, items') => forall k :: 0 <= k < |items'| ==> NoInt(items'[k])
    decreases |s| - p, 3
  {
    if ValueAt(s, p).Ok? {
      ValueHasNoInt(s, p);
    }
  }

  lemma {:induction false} DictTailHasNoInt(s: string, p: nat, entries: map<string, JValue>)
    requires p <= |s| && DictTail(s, p, entries).Ok?
    requires forall key :: key in entries ==> NoInt(entries[key])
    ensures NoInt(DictTail(s, p, entries).value.value)
    decreases |s| - p, 5
  {
    match DictKeyAt(s, p)
    case Err(_) =>
    case Ok((key, v)) =>
      EntryStepHasNoInt(s, v, key, entries);
      match EntryStep(s, v, key, entries)
      case Stopped(_) =>
      case Continues(q, entries') =>
        assert EntryStep(s, v, key, entries).acc == entries';
        DictTailHasNoInt(s, q, entries');
  }

  lemma {:induction false} EntryStepHasNoInt(s: string, v: nat, key: string, entries: map<string, JValue>)
    requires v <= |s|
    requires forall k :: k in entries ==> NoInt(entries[k])
    ensures match EntryStep(s, v, key, entries)
      case Stopped(Ok(r)) => NoInt(r.value)
      case Stopped(Err(_)) => true
      case Continues(_, entries') => forall k :: k in entries' ==> NoInt(entries'[k])
    decreases |s| - v, 3
  {
    if ValueAt(s, v).Ok? {
      ValueHasNoInt(s, v);
    }
  }

  /* ---------- Numbers ---------- */

  /** Every character of `w` from `lo` up to `hi` is a digit. */
  predicate DigitsIn(w: string, lo: nat, hi: nat)
    requires lo <= hi <= |w|
  {
    forall k :: lo <= k < hi ==> IsDigit(w[k])
  }

  /** `[0-9]+(\.[0-9]+)?` */
  predicate IsUnsigned(u: string)
  {
    |u| > 0 &&
    (DigitsIn(u, 0, |u|) || exists d :: 0 < d < |u| - 1 && u[d] == '.' && DigitsIn(u, 0, d) && DigitsIn(u, d + 1, |u|))
  }

  /** The numbers `parse_number` accepts: `-?[0-9]+(\.[0-9]+)?`. */
  predicate IsNumber(w: string)
  {
    if |w| > 0 && w[0] == '-' then IsUnsigned(w[1..]) else IsUnsigned(w)
  }

  /** The character after a number cannot continue it: it is not a digit,
      and it is not a '.' when the number has no fraction yet. */
  predicate NumberStops(w: string, c: char)
  {
    !IsDigit(c) && ('.' in w || c != '.')
  }

  /** A run of digits is an unsigned number without a fraction. */
  lemma UnsignedOfDigits(s: string, a: nat, b: nat)
    requires a < b <= |s| && DigitsIn(s, a, b)
    ensures IsUnsigned(s[a..b]) && '.' !in s[a..b]
  {
    var u := s[a..b];
    assert forall k :: 0 <= k < |u| ==> u[k] == s[a + k];
    assert DigitsIn(u, 0, |u|);
  }

  /** Digits, '.', digits is an unsigned number with a fraction. */
  lemma UnsignedOfFraction(s: string, a: nat, m: nat, b: nat)
    requires a < m && m + 1 < b <= |s| && s[m] == '.'
    requires DigitsIn(s, a, m) && DigitsIn(s, m + 1, b)
    ensures IsUnsigned(s[a..b]) && '.' in s[a..b]
  {
    var u, d := s[a..b], m - a;
    assert forall k :: 0 <= k < |u| ==> u[k] == s[a + k];
    assert u[d] == '.' && DigitsIn(u, 0, d) && DigitsIn(u, d + 1, |u|);
  }

  /** An unsigned number without a '.' is a run of digits. */
  lemma UnsignedWhole(s: string, a: nat, b: nat)
    requires a <= b <= |s| && IsUnsigned(s[a..b]) && '.' !in s[a..b]
    ensures a < b && DigitsIn(s, a, b)
  {
    var u := s[a..b];
    assert forall k :: a <= k < b ==> s[k] == u[k - a];
    assert DigitsIn(u, 0, |u|);
  }

  /** An unsigned number with a '.' has digits on both sides of it; the
      result is the position of the '.'. */
  lemma UnsignedPoint(s: string, a: nat, b: nat) returns (m: nat)
    requires a <= b <= |s| && IsUnsigned(s[a..b]) && '.' in s[a..b]
    ensures a < m && m + 1 < b && s[m] == '.'
    ensures DigitsIn(s, a, m) && DigitsIn(s, m + 1, b)
  {
    var u := s[a..b];
    var dot :| 0 <= dot < |u| && u[dot] == '.';
    assert !IsDigit(u[dot]);
    var d :| 0 < d < |u| - 1 && u[d] == '.' && DigitsIn(u, 0, d) && DigitsIn(u, d + 1, |u|);
    m := a + d;
    assert forall k :: a <= k < b ==> s[k] == u[k - a];
  }

  /** An optional '-' in front: a number is a sign and an unsigned number. */
  lemma SignSplit(s: string, i: nat, b: nat)
    requires i < b <= |s|
    ensures var j0 := if At(s, i) == '-' then i + 1 else i;
      (IsNumber(s[i..b]) <==> IsUnsigned(s[j0..b])) && ('.' in s[i..b] <==> '.' in s[j0..b])
  {
    var w := s[i..b];
    if At(s, i) == '-' {
      assert w[0] == '-' && w[1..] == s[i + 1..b];
      assert w == [w[0]] + w[1..];
    }
  }

  /** What `parse_number` accepts is a number, taken as long as it goes,
      and the double it returns is made from exactly that text. */
  lemma NumberAtSound(s: string, i: nat)
    requires i <= |s| && NumberAt(s, i).Ok?
    ensures var p := NumberAt(s, i).value;
      p.value == Double(s[i..p.next]) && IsNumber(s[i..p.next]) && NumberStops(s[i..p.next], At(s, p.next))
  {
    var j0 := if At(s, i) == '-' then i + 1 else i;
    var j1 := SkipDigits(s, j0);
    SkipDigitsPasses(s, j0);
    if At(s, j1) == '.' {
      var j2 := SkipDigits(s, j1 + 1);
      SkipDigitsPasses(s, j1 + 1);
      assert NumberAt(s, i) == Ok(Parsed(Double(s[i..j2]), j2));
      UnsignedOfFraction(s, j0, j1, j2);
      SignSplit(s, i, j2);
    } else {
      assert NumberAt(s, i) == Ok(Parsed(Double(s[i..j1]), j1));
      UnsignedOfDigits(s, j0, j1);
      SignSplit(s, i, j1);
    }
  }

  /** `parse_number` on a sign and a run of digits from `j0` to `j`. */
  lemma NumberAtWhole(s: string, i: nat, j: nat)
    requires i < j <= |s|
    requires var j0 := if At(s, i) == '-' then i + 1 else i;
      j0 < j && DigitsIn(s, j0, j)
    requires !IsDigit(At(s, j)) && At(s, j) != '.'
    ensures NumberAt(s, i) == Ok(Parsed(Double(s[i..j]), j))
  {
    var j0 := if At(s, i) == '-' then i + 1 else i;
    SkipDigitsStops(s, j0, j);
  }

  /** `parse_number` on a sign, digits, the '.' at `m` and digits up to `j`. */
  lemma NumberAtFraction(s: string, i: nat, m: nat, j: nat)
    requires i < m && m + 1 < j <= |s| && s[m] == '.'
    requires var j0 := if At(s, i) == '-' then i + 1 else i;
      j0 < m && DigitsIn(s, j0, m)
    requires DigitsIn(s, m + 1, j)
    requires !IsDigit(At(s, j))
    ensures NumberAt(s, i) == Ok(Parsed(Double(s[i..j]), j))
  {
    var j0 := if At(s, i) == '-' then i + 1 else i;
    SkipDigitsStops(s, j0, m);
    SkipDigitsStops(s, m + 1, j);
  }

  /** Every number that is followed by a character that cannot continue it
      is accepted by `parse_number`, as exactly that text. */
  lemma NumberAtComplete(s: string, i: nat, j: nat)
    requires i <= j <= |s| && IsNumber(s[i..j]) && NumberStops(s[i..j], At(s, j))
    ensures NumberAt(s, i) == Ok(Parsed(Double(s[i..j]), j))
  {
    var j0 := if At(s, i) == '-' then i + 1 else i;
    SignSplit(s, i, j);
    if '.' !in s[j0..j] {
      UnsignedWhole(s, j0, j);
      NumberAtWhole(s, i, j);
    } else {
      var m := UnsignedPoint(s, j0, j);
      NumberAtFraction(s, i, m, j);
    }
  }

  /* ---------- Strings ---------- */

  /** The text between the quotes of a string `parse_string` can return: each
      '"' in it is escaped (an odd run of backslashes before it), and a
      trailing run of backslashes pairs off, so that it does not escape the
      closing quote. */
  predicate IsStringBody(b: string)
  {
    (forall k :: 0 <= k < |b| && b[k] == '"' ==> RunBefore(b, k) % 2 == 1) &&
    RunBefore(b, |b|) % 2 == 0
  }

  /** Behind a character that is not a backslash, the backslash runs of the
      text that follows it are those of the whole. */
  lemma {:induction false} RunBeforeAfter(s: string, i: nat, j: nat, k: nat)
    requires i < j <= |s| && s[i] != '\\' && k <= j - i - 1
    ensures RunBefore(s, i + 1 + k) == RunBefore(s[i + 1..j], k)
    decreases k
  {
    if k > 0 && s[i + k] == '\\' {
      RunBeforeAfter(s, i, j, k - 1);
    }
  }

  /** `parse_string` with the opening quote at `i` returns the text up to a
      quote that is not escaped, and that text is a string body. */
  lemma StringAtSound(s: string, i: nat)
    requires i < |s| && s[i] == '"' && StringAt(s, i).Ok?
    ensures var p := StringAt(s, i).value;
      s[p.next - 1] == '"' && p.value == Str(s[i + 1..p.next - 1]) && IsStringBody(s[i + 1..p.next - 1])
  {
    var q := ClosingQuote(s, i + 1).value;
    var b := s[i + 1..q];
    ClosingQuoteFirst(s, i + 1);
    forall k | 0 <= k < |b| && b[k] == '"'
      ensures RunBefore(b, k) % 2 == 1
    {
      assert !ClosesString(s, i + 1 + k);
      RunBeforeAfter(s, i, q, k);
    }
    RunBeforeAfter(s, i, q, |b|);
  }

  /** Inside quotes around a string body, no quote closes the string early. */
  lemma BodyHasNoClosingQuote(s: string, i: nat, q: nat)
    requires i < q <= |s| && s[i] == '"' && IsStringBody(s[i + 1..q])
    ensures forall k :: i + 1 <= k < q ==> !ClosesString(s, k)
  {
    var b := s[i + 1..q];
    forall k | i + 1 <= k < q
      ensures !ClosesString(s, k)
    {
      if s[k] == '"' {
        assert b[k - i - 1] == '"';
        RunBeforeAfter(s, i, q, k - i - 1);
      }
    }
  }

  /** Every string body between quotes is read back by `parse_string`,
      verbatim, with the cursor after the closing quote. */
  lemma StringAtComplete(s: string, i: nat, q: nat)
    requires i < q < |s| && s[i] == '"' && s[q] == '"' && IsStringBody(s[i + 1..q])
    ensures StringAt(s, i) == Ok(Parsed(Str(s[i + 1..q]), q + 1))
  {
    FindFromNone(s, i + 1, '"');
    RunBeforeAfter(s, i, q, q - i - 1);
    BodyHasNoClosingQuote(s, i, q);
    FirstClosingQuote(s, i + 1, q);
  }

  /* ---------- The loops of parse_list and parse_dict ---------- */

  /** The loop of `parse_list` only appends: the items gathered so far are a
      prefix of the list it returns, and it adds at least one. */
  lemma {:induction false} ListTailExtends(s: string, p: nat, items: seq<JValue>)
    requires p <= |s| && ListTail(s, p, items).Ok?
    ensures |items| < |ListTail(s, p, items).value.value.items|
    ensures items == ListTail(s, p, items).value.value.items[..|items|]
    decreases |s| - p
  {
    match ListStep(s, p, items)
    case Stopped(_) =>
    case Continues(q, items') =>
      ListTailExtends(s, q, items');
  }

  /** The loop of `parse_dict` never drops a key: every key gathered so far
      is still in the dictionary it returns. */
  lemma {:induction false} DictTailKeeps(s: string, p: nat, entries: map<string, JValue>)
    requires p <= |s| && DictTail(s, p, entries).Ok?
    ensures entries.Keys <= DictTail(s, p, entries).value.value.entries.Keys
    decreases |s| - p
  {
    match DictKeyAt(s, p)
    case Err(_) =>
    case Ok((key, v)) =>
      assert DictStep(s, p, entries) == EntryStep(s, v, key, entries);
      match ValueAt(s, v)
      case Err(_) =>
      case Ok(val) =>
        match NextToken(s, val.next)
        case Err(_) =>
        case Ok(t) =>
          if At(s, t) == ',' {
            DictTailKeeps(s, t + 1, entries[key := val.value]);
          }
  }

  /** A key that is not a string throws the type error of
      `Value<string>()`, whatever follows it. */
  lemma KeyMustBeString(s: string, p: nat)
    requires p <= |s| && NextToken(s, p).Ok?
    requires var c := At(s, NextToken(s, p).value); c != '"'
    requires ValueAt(s, p).Ok?
    ensures DictKeyAt(s, p) == Err(TypeError(TStr))
  {
    DispatchByStarter(s, NextToken(s, p).value);
  }
}
