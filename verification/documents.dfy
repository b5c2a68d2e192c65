/** The documents the parser reads back: a syntax of terms, the compact text
    each term is written as, and the value it stands for. The main theorem is
    a round trip: `FromString` of the text of any well-formed term yields the
    value of that term, whatever follows the text as long as it cannot
    continue it. In a dictionary written with a repeated key, the last entry
    wins. */
module Documents {
  import opened Values
  import opened Chars
  import opened Grammar
  import opened GrammarFacts

  /** A term of the JSON dialect that `parse` accepts. */
  datatype Term =
    | NullTerm
    | BoolTerm(b: bool)
    | NumberTerm(lexeme: string)
    | StringTerm(body: string)
    | ListTerm(elems: seq<Term>)
    | DictTerm(members: seq<Member>)

  /** A `"key": value` member of a dictionary term. */
  datatype Member = Member(key: string, val: Term)

  /** Numbers are numerals, strings and keys are string bodies. */
  predicate WellFormed(t: Term)
    decreases t
  {
    match t
    case NumberTerm(l) => IsNumber(l)
    case StringTerm(b) => IsStringBody(b)
    case ListTerm(es) => forall k :: 0 <= k < |es| ==> WellFormed(es[k])
    case DictTerm(ms) => forall k :: 0 <= k < |ms| ==> IsStringBody(ms[k].key) && WellFormed(ms[k].val)
    case _ => true
  }

  /** A string body between quotes. */
  function Quoted(b: string): string
  {
    "\"" + b + "\""
  }

  /** The text of a term, without any whitespace. */
  function Text(t: Term): string
    decreases t, 1
  {
    match t
    case NullTerm => "null"
    case BoolTerm(b) => if b then "true" else "false"
    case NumberTerm(l) => l
    case StringTerm(b) => Quoted(b)
    case ListTerm(es) => if es == [] then "[]" else "[" + ListRest(t, 0)
    case DictTerm(ms) => if ms == [] then "{}" else "{" + DictRest(t, 0)
  }

  /** The text of a list from its element `k` on, with the closing ']'. */
  function ListRest(t: Term, k: nat): string
    requires t.ListTerm? && k < |t.elems|
    decreases t, 0, |t.elems| - k
  {
    Text(t.elems[k]) + if k + 1 == |t.elems| then "]" else "," + ListRest(t, k + 1)
  }

  /** The text of a dictionary from its member `k` on, with the closing '}'. */
  function DictRest(t: Term, k: nat): string
    requires t.DictTerm? && k < |t.members|
    decreases t, 0, |t.members| - k
  {
    var m := t.members[k];
    Quoted(m.key) + ":" + Text(m.val) + if k + 1 == |t.members| then "}" else "," + DictRest(t, k + 1)
  }

  /** The value a term stands for. */
  function Denote(t: Term): JValue
    decreases t, 1
  {
    match t
    case NullTerm => Null
    case BoolTerm(b) => Bool(b)
    case NumberTerm(l) => Double(l)
    case StringTerm(b) => Str(b)
    case ListTerm(es) => List(Items(t, 0, []))
    case DictTerm(ms) => Dict(Entries(t, 0, map[]))
  }

  /** The values of a list term: `items` followed by the values of its
      elements from `k` on, one after the other. */
  function Items(t: Term, k: nat, items: seq<JValue>): (r: seq<JValue>)
    requires t.ListTerm? && k <= |t.elems|
    ensures |r| == |items| + |t.elems| - k
    decreases t, 0, |t.elems| - k
  {
    if k == |t.elems| then items else Items(t, k + 1, items + [Denote(t.elems[k])])
  }

  /** The entries of a dictionary term: `acc` updated by its members from `k`
      on, one after the other. */
  function Entries(t: Term, k: nat, acc: map<string, JValue>): map<string, JValue>
    requires t.DictTerm? && k <= |t.members|
    decreases t, 0, |t.members| - k
  {
    if k == |t.members| then acc
    else Entries(t, k + 1, acc[t.members[k].key := Denote(t.members[k].val)])
  }

  /* ---------- Repeated keys ---------- */

  /** A dictionary keeps the value of the last member with a given key. */
  lemma {:induction false} LastMemberWins(t: Term, k: nat, acc: map<string, JValue>, j: nat)
    requires t.DictTerm? && k <= j < |t.members|
    requires forall m :: j < m < |t.members| ==> t.members[m].key != t.members[j].key
    ensures t.members[j].key in Entries(t, k, acc)
    ensures Entries(t, k, acc)[t.members[j].key] == Denote(t.members[j].val)
    decreases |t.members| - k
  {
    var acc' := acc[t.members[k].key := Denote(t.members[k].val)];
    if k < j {
      LastMemberWins(t, k + 1, acc', j);
    } else {
      OtherKeysKept(t, k + 1, acc', t.members[j].key);
    }
  }

  /** A key that no member from `k` on has keeps what `acc` says about it. */
  lemma {:induction false} OtherKeysKept(t: Term, k: nat, acc: map<string, JValue>, key: string)
    requires t.DictTerm? && k <= |t.members|
    requires forall m :: k <= m < |t.members| ==> t.members[m].key != key
    ensures key in Entries(t, k, acc) <==> key in acc
    ensures key in acc ==> Entries(t, k, acc)[key] == acc[key]
    decreases |t.members| - k
  {
    if k < |t.members| {
      OtherKeysKept(t, k + 1, acc[t.members[k].key := Denote(t.members[k].val)], key);
    }
  }

  /* ---------- Positions in the text ---------- */

  /** A character that cannot continue the text of a value before it. */
  predicate Ends(c: char)
  {
    !IsDigit(c) && c != '.'
  }

  /** Text that matches at `i` in two pieces. */
  lemma MatchesSplit(s: string, i: nat, a: string, b: string)
    requires MatchesAt(s, i, a + b)
    ensures MatchesAt(s, i, a) && MatchesAt(s, i + |a|, b)
  {
    forall k | 0 <= k < |a|
      ensures s[i + k] == a[k]
    {
      assert (a + b)[k] == a[k];
    }
    forall k | 0 <= k < |b|
      ensures s[i + |a| + k] == b[k]
    {
      assert (a + b)[|a| + k] == b[k];
    }
  }

  lemma MatchesChar(s: string, i: nat, w: string, k: nat)
    requires MatchesAt(s, i, w) && k < |w|
    ensures s[i + k] == w[k]
  {
  }

  /** Text that matches at `i` is the slice of `s` from `i`. */
  lemma MatchesSlice(s: string, i: nat, w: string)
    requires MatchesAt(s, i, w)
    ensures s[i..i + |w|] == w
  {
    forall k | 0 <= k < |w|
      ensures s[i..i + |w|][k] == w[k]
    {
    }
  }

  /** A numeral starts with '-' or a digit and ends with a digit. */
  lemma NumberEnds(l: string)
    requires IsNumber(l)
    ensures |l| > 0 && (l[0] == '-' || IsDigit(l[0])) && IsDigit(l[|l| - 1])
  {
    var u := if |l| > 0 && l[0] == '-' then l[1..] else l;
    assert IsDigit(u[0]) && IsDigit(u[|u| - 1]);
  }

  /** The first character of the text of a term announces its kind and is
      neither whitespace nor '/'. */
  lemma FirstChar(t: Term)
    requires WellFormed(t)
    ensures |Text(t)| > 0
    ensures Starter(Text(t)[0]) == Some(TypeOf(Denote(t)))
  {
    match t
    case NumberTerm(l) => NumberEnds(l);
    case ListTerm(es) =>
      if es != [] {
        assert Text(t)[0] == '[';
      }
    case DictTerm(ms) =>
      if ms != [] {
        assert Text(t)[0] == '{';
      }
    case _ =>
  }

  /** A character that starts a value is neither whitespace nor the start
      of a comment. */
  lemma StarterToken(c: char)
    requires Starter(c).Some?
    ensures c != '/' && !IsSpace(c)
  {
  }

  /** The text of a term ends in a character that is not whitespace. */
  lemma LastChar(t: Term)
    requires WellFormed(t)
    ensures |Text(t)| > 0 && !IsSpace(Text(t)[|Text(t)| - 1])
  {
    match t
    case NumberTerm(l) => NumberEnds(l);
    case ListTerm(es) =>
      if es != [] {
        ListRestLast(t, 0);
      }
    case DictTerm(ms) =>
      if ms != [] {
        DictRestLast(t, 0);
      }
    case _ =>
  }

  lemma {:induction false} ListRestLast(t: Term, k: nat)
    requires t.ListTerm? && k < |t.elems|
    ensures |ListRest(t, k)| > 0 && ListRest(t, k)[|ListRest(t, k)| - 1] == ']'
    decreases |t.elems| - k
  {
    if k + 1 < |t.elems| {
      ListRestLast(t, k + 1);
    }
  }

  lemma {:induction false} DictRestLast(t: Term, k: nat)
    requires t.DictTerm? && k < |t.members|
    ensures |DictRest(t, k)| > 0 && DictRest(t, k)[|DictRest(t, k)| - 1] == '}'
    decreases |t.members| - k
  {
    if k + 1 < |t.members| {
      DictRestLast(t, k + 1);
    }
  }

  /* ---------- Reading the text back ---------- */

  /** On the first character of a term's text, that character is the next
      token. */
  lemma TokenAtTerm(s: string, i: nat, t: Term)
    requires WellFormed(t) && MatchesAt(s, i, Text(t))
    ensures NextToken(s, i) == Ok(i) && At(s, i) == Text(t)[0]
  {
    FirstChar(t);
    StarterToken(Text(t)[0]);
    MatchesChar(s, i, Text(t), 0);
    NextTokenHere(s, i);
  }

  /** On a structural character (one of `]}:,`), that character is the next
      token. */
  lemma TokenAtMark(s: string, i: nat, c: char)
    requires i < |s| && s[i] == c && (c == ']' || c == '}' || c == ':' || c == ',')
    ensures NextToken(s, i) == Ok(i)
  {
    NextTokenHere(s, i);
  }

  /** Where a quoted string body occurs: its quotes at `i` and after the
      body, and the body in between. */
  lemma QuotedParts(s: string, i: nat, b: string)
    requires MatchesAt(s, i, Quoted(b))
    ensures i + |b| + 1 < |s| && s[i] == '"' && s[i + |b| + 1] == '"' && s[i + 1..i + 1 + |b|] == b
  {
    MatchesSplit(s, i, "\"" + b, "\"");
    MatchesSplit(s, i, "\"", b);
    MatchesChar(s, i, Quoted(b), 0);
    MatchesChar(s, i + |b| + 1, "\"", 0);
    MatchesSlice(s, i + 1, b);
  }

  /** A quoted string body is read back as that string. */
  lemma StringRoundTrip(s: string, i: nat, b: string)
    requires IsStringBody(b) && MatchesAt(s, i, Quoted(b))
    ensures ValueAt(s, i) == Ok(Parsed(Str(b), i + |Quoted(b)|))
  {
    QuotedParts(s, i, b);
    StringAtComplete(s, i, i + |b| + 1);
    NextTokenHere(s, i);
  }

  /** The text of a number term, followed by a character that cannot
      continue it, is read back as the number. */
  lemma NumberRoundTrip(s: string, i: nat, t: Term)
    requires t.NumberTerm? && WellFormed(t) && MatchesAt(s, i, Text(t)) && Ends(At(s, i + |Text(t)|))
    ensures ValueAt(s, i) == Ok(Parsed(Denote(t), i + |Text(t)|))
  {
    TokenAtTerm(s, i, t);
    MatchesSlice(s, i, t.lexeme);
    NumberAtComplete(s, i, i + |t.lexeme|);
    assert Dispatch(s, i) == NumberAt(s, i);
  }

  /** The text of `null` is read back as null. */
  lemma NullRoundTrip(s: string, i: nat)
    requires MatchesAt(s, i, Text(NullTerm))
    ensures ValueAt(s, i) == Ok(Parsed(Null, i + 4))
  {
    TokenAtTerm(s, i, NullTerm);
    assert Dispatch(s, i) == NullAt(s, i);
  }

  /** The text of `true` or `false` is read back as that boolean. */
  lemma BoolRoundTrip(s: string, i: nat, b: bool)
    requires MatchesAt(s, i, Text(BoolTerm(b)))
    ensures ValueAt(s, i) == Ok(Parsed(Bool(b), i + |Text(BoolTerm(b))|))
  {
    TokenAtTerm(s, i, BoolTerm(b));
    assert !b ==> s[i + 0] != "true"[0];
    assert Dispatch(s, i) == BoolAt(s, i);
  }


  /** Where the rest of a list term occurs when `k` is its last element:
      the element, then ']'. */
  lemma ListLastParts(s: string, p: nat, t: Term, k: nat)
    requires t.ListTerm? && k + 1 == |t.elems| && MatchesAt(s, p, ListRest(t, k))
    ensures MatchesAt(s, p, Text(t.elems[k]))
    ensures p + |Text(t.elems[k])| < |s| && s[p + |Text(t.elems[k])|] == ']'
    ensures |ListRest(t, k)| == |Text(t.elems[k])| + 1
  {
    MatchesSplit(s, p, Text(t.elems[k]), "]");
    MatchesChar(s, p + |Text(t.elems[k])|, "]", 0);
  }

  /** Where the rest of a list term occurs when more elements follow `k`:
      the element, ',', then the rest from `k + 1`. */
  lemma ListMoreParts(s: string, p: nat, t: Term, k: nat)
    requires t.ListTerm? && k + 1 < |t.elems| && MatchesAt(s, p, ListRest(t, k))
    ensures MatchesAt(s, p, Text(t.elems[k]))
    ensures p + |Text(t.elems[k])| < |s| && s[p + |Text(t.elems[k])|] == ','
    ensures MatchesAt(s, p + |Text(t.elems[k])| + 1, ListRest(t, k + 1))
    ensures |ListRest(t, k)| == |Text(t.elems[k])| + 1 + |ListRest(t, k + 1)|
  {
    var n := p + |Text(t.elems[k])|;
    MatchesSplit(s, p, Text(t.elems[k]), "," + ListRest(t, k + 1));
    MatchesSplit(s, n, ",", ListRest(t, k + 1));
    MatchesChar(s, n, ",", 0);
  }

  /** The rest of a list term starts with a token that is not ']'. */
  lemma ListRestStarts(s: string, p: nat, t: Term, k: nat)
    requires t.ListTerm? && k < |t.elems| && WellFormed(t) && MatchesAt(s, p, ListRest(t, k))
    ensures NextToken(s, p) == Ok(p) && At(s, p) != ']'
  {
    var e := t.elems[k];
    MatchesSplit(s, p, Text(e), if k + 1 == |t.elems| then "]" else "," + ListRest(t, k + 1));
    TokenAtTerm(s, p, e);
    FirstChar(e);
  }

  /** Where the rest of a dictionary term occurs when `k` is its last member:
      the quoted key, ':' at `c`, the value, then '}' at `n`. */
  lemma DictLastParts(s: string, p: nat, t: Term, k: nat, c: nat, n: nat)
    requires t.DictTerm? && k + 1 == |t.members| && MatchesAt(s, p, DictRest(t, k))
    requires c == p + |Quoted(t.members[k].key)| && n == c + 1 + |Text(t.members[k].val)|
    ensures MatchesAt(s, p, Quoted(t.members[k].key)) && c < |s| && s[c] == ':'
    ensures MatchesAt(s, c + 1, Text(t.members[k].val)) && n < |s| && s[n] == '}'
    ensures p + |DictRest(t, k)| == n + 1
  {
    var m := t.members[k];
    MatchesSplit(s, p, Quoted(m.key) + ":" + Text(m.val), "}");
    MatchesSplit(s, p, Quoted(m.key) + ":", Text(m.val));
    MatchesSplit(s, p, Quoted(m.key), ":");
    MatchesChar(s, c, ":", 0);
    MatchesChar(s, n, "}", 0);
  }

  /** Where the rest of a dictionary term occurs when more members follow
      `k`: the quoted key, ':' at `c`, the value, ',' at `n`, then the rest
      from `k + 1`. */
  lemma DictMoreParts(s: string, p: nat, t: Term, k: nat, c: nat, n: nat)
    requires t.DictTerm? && k + 1 < |t.members| && MatchesAt(s, p, DictRest(t, k))
    requires c == p + |Quoted(t.members[k].key)| && n == c + 1 + |Text(t.members[k].val)|
    ensures MatchesAt(s, p, Quoted(t.members[k].key)) && c < |s| && s[c] == ':'
    ensures MatchesAt(s, c + 1, Text(t.members[k].val)) && n < |s| && s[n] == ','
    ensures MatchesAt(s, n + 1, DictRest(t, k + 1))
    ensures p + |DictRest(t, k)| == n + 1 + |DictRest(t, k + 1)|
  {
    var m := t.members[k];
    MatchesSplit(s, p, Quoted(m.key) + ":" + Text(m.val), "," + DictRest(t, k + 1));
    MatchesSplit(s, p, Quoted(m.key) + ":", Text(m.val));
    MatchesSplit(s, p, Quoted(m.key), ":");
    MatchesChar(s, c, ":", 0);
    MatchesSplit(s, n, ",", DictRest(t, k + 1));
    MatchesChar(s, n, ",", 0);
  }

  /** The rest of a dictionary term starts with a token that is not '}'. */
  lemma DictRestStarts(s: string, p: nat, t: Term, k: nat)
    requires t.DictTerm? && k < |t.members| && MatchesAt(s, p, DictRest(t, k))
    ensures NextToken(s, p) == Ok(p) && At(s, p) == '"'
  {
    var m := t.members[k];
    MatchesSplit(s, p, Quoted(m.key) + ":" + Text(m.val), if k + 1 == |t.members| then "}" else "," + DictRest(t, k + 1));
    MatchesSplit(s, p, Quoted(m.key) + ":", Text(m.val));
    MatchesSplit(s, p, Quoted(m.key), ":");
    MatchesChar(s, p, Quoted(m.key), 0);
    NextTokenHere(s, p);
  }

  /** A quoted key followed by ':' is read as that key by the first half of
      a round of `parse_dict`. */
  lemma KeyRoundTrip(s: string, p: nat, key: string)
    requires IsStringBody(key) && MatchesAt(s, p, Quoted(key))
    requires p + |Quoted(key)| < |s| && s[p + |Quoted(key)|] == ':'
    ensures DictKeyAt(s, p) == Ok((key, p + |Quoted(key)| + 1))
  {
    StringRoundTrip(s, p, key);
    TokenAtMark(s, p + |Quoted(key)|, ':');
  }

  /** The text of a well-formed term, followed by a character that cannot
      continue it, is read back by `parse` as the value of the term, and the
      cursor is left right after it. */
  lemma {:induction false} ValueRoundTrip(s: string, i: nat, t: Term)
    requires WellFormed(t) && MatchesAt(s, i, Text(t)) && Ends(At(s, i + |Text(t)|))
    ensures ValueAt(s, i) == Ok(Parsed(Denote(t), i + |Text(t)|))
    decreases t, 3
  {
    if t.ListTerm? {
      ListTermRoundTrip(s, i, t);
    } else if t.DictTerm? {
      DictTermRoundTrip(s, i, t);
    } else if t.NumberTerm? {
      NumberRoundTrip(s, i, t);
    } else if t.StringTerm? {
      StringRoundTrip(s, i, t.body);
    } else if t.BoolTerm? {
      BoolRoundTrip(s, i, t.b);
    } else {
      NullRoundTrip(s, i);
    }
  }

  /** The text of a list term is read back by `parse`. */
  lemma {:induction false} ListTermRoundTrip(s: string, i: nat, t: Term)
    requires t.ListTerm? && WellFormed(t) && MatchesAt(s, i, Text(t))
    ensures ValueAt(s, i) == Ok(Parsed(Denote(t), i + |Text(t)|))
    decreases t, 2, 1
  {
    TokenAtTerm(s, i, t);
    ListAtRoundTrip(s, i, t);
    assert Dispatch(s, i) == ListAt(s, i);
  }

  /** The text of a list term is read back by `parse_list`. */
  lemma {:induction false} ListAtRoundTrip(s: string, i: nat, t: Term)
    requires t.ListTerm? && WellFormed(t) && MatchesAt(s, i, Text(t))
    ensures ListAt(s, i) == Ok(Parsed(Denote(t), i + |Text(t)|))
    decreases t, 2, 0
  {
    if t.elems == [] {
      MatchesChar(s, i, Text(t), 1);
      TokenAtMark(s, i + 1, ']');
    } else {
      MatchesSplit(s, i, "[", ListRest(t, 0));
      ListRestStarts(s, i + 1, t, 0);
      ListRoundTrip(s, i + 1, t, 0, []);
      assert ListAt(s, i) == ListTail(s, i + 1, []);
    }
  }

  /** The text of a dictionary term is read back by `parse`. */
  lemma {:induction false} DictTermRoundTrip(s: string, i: nat, t: Term)
    requires t.DictTerm? && WellFormed(t) && MatchesAt(s, i, Text(t))
    ensures ValueAt(s, i) == Ok(Parsed(Denote(t), i + |Text(t)|))
    decreases t, 2, 1
  {
    TokenAtTerm(s, i, t);
    DictAtRoundTrip(s, i, t);
    assert Dispatch(s, i) == DictAt(s, i);
  }

  /** The text of a dictionary term is read back by `parse_dict`. */
  lemma {:induction false} DictAtRoundTrip(s: string, i: nat, t: Term)
    requires t.DictTerm? && WellFormed(t) && MatchesAt(s, i, Text(t))
    ensures DictAt(s, i) == Ok(Parsed(Denote(t), i + |Text(t)|))
    decreases t, 2, 0
  {
    if t.members == [] {
      MatchesChar(s, i, Text(t), 1);
      TokenAtMark(s, i + 1, '}');
    } else {
      MatchesSplit(s, i, "{", DictRest(t, 0));
      DictRestStarts(s, i + 1, t, 0);
      DictRoundTrip(s, i + 1, t, 0, map[]);
      assert DictAt(s, i) == DictTail(s, i + 1, map[]);
    }
  }

  /** A round of `parse_list` over a value followed by ']' returns the list. */
  lemma ListStepCloses(s: string, p: nat, items: seq<JValue>, v: JValue, n: nat)
    requires p <= |s| && ValueAt(s, p) == Ok(Parsed(v, n)) && n < |s| && s[n] == ']'
    ensures ListTail(s, p, items) == Ok(Parsed(List(items + [v]), n + 1))
  {
    TokenAtMark(s, n, ']');
    assert ListStep(s, p, items) == Stopped(Ok(Parsed(List(items + [v]), n + 1)));
  }

  /** A round of `parse_list` over a value followed by ',' goes round again. */
  lemma ListStepContinues(s: string, p: nat, items: seq<JValue>, v: JValue, n: nat)
    requires p <= |s| && ValueAt(s, p) == Ok(Parsed(v, n)) && n < |s| && s[n] == ','
    ensures ListTail(s, p, items) == ListTail(s, n + 1, items + [v])
  {
    TokenAtMark(s, n, ',');
    assert ListStep(s, p, items) == Continues(n + 1, items + [v]);
  }

  /** A quoted key followed by ':' at `c` starts a round of `parse_dict`
      that goes on after the ':'. */
  lemma QuotedKeyStep(s: string, p: nat, acc: map<string, JValue>, key: string, c: nat)
    requires IsStringBody(key) && MatchesAt(s, p, Quoted(key)) && c == p + |Quoted(key)| && c < |s| && s[c] == ':'
    ensures DictStep(s, p, acc) == EntryStep(s, c + 1, key, acc)
  {
    KeyRoundTrip(s, p, key);
  }

  /** A round of `parse_dict` that stops ends the loop with its outcome. */
  lemma DictStepStops(s: string, p: nat, acc: map<string, JValue>, outcome: Result<Parsed>)
    requires p <= |s| && DictStep(s, p, acc) == Stopped(outcome)
    ensures DictTail(s, p, acc) == outcome
  {
  }

  /** A round of `parse_dict` that continues goes round the loop again. */
  lemma DictStepContinues(s: string, p: nat, acc: map<string, JValue>, q: nat, acc': map<string, JValue>)
    requires p <= |s| && DictStep(s, p, acc) == Continues(q, acc')
    ensures DictTail(s, p, acc) == DictTail(s, q, acc')
  {
  }

  /** The text of a term `e` after the ':' of `key`, followed by '}', ends
      the round with the dictionary. */
  lemma {:induction false} EntryRoundCloses(s: string, v: nat, key: string, acc: map<string, JValue>, e: Term)
    requires WellFormed(e) && MatchesAt(s, v, Text(e)) && v + |Text(e)| < |s| && s[v + |Text(e)|] == '}'
    ensures EntryStep(s, v, key, acc) == Stopped(Ok(Parsed(Dict(acc[key := Denote(e)]), v + |Text(e)| + 1)))
    decreases e, 4
  {
    ValueRoundTrip(s, v, e);
    TokenAtMark(s, v + |Text(e)|, '}');
  }

  /** The text of a term `e` after the ':' of `key`, followed by ',', ends
      the round and goes round again. */
  lemma {:induction false} EntryRoundContinues(s: string, v: nat, key: string, acc: map<string, JValue>, e: Term)
    requires WellFormed(e) && MatchesAt(s, v, Text(e)) && v + |Text(e)| < |s| && s[v + |Text(e)|] == ','
    ensures EntryStep(s, v, key, acc) == Continues(v + |Text(e)| + 1, acc[key := Denote(e)])
    decreases e, 4
  {
    ValueRoundTrip(s, v, e);
    TokenAtMark(s, v + |Text(e)|, ',');
  }

  /** A quoted key, ':' at `c`, and the text of a term `e` followed by '}'
      end the loop of `parse_dict`. */
  lemma {:induction false} MemberRoundCloses(s: string, p: nat, key: string, acc: map<string, JValue>, c: nat, e: Term)
    requires IsStringBody(key) && MatchesAt(s, p, Quoted(key)) && c == p + |Quoted(key)| && c < |s| && s[c] == ':'
    requires WellFormed(e) && MatchesAt(s, c + 1, Text(e)) && c + 1 + |Text(e)| < |s| && s[c + 1 + |Text(e)|] == '}'
    ensures DictTail(s, p, acc) == Ok(Parsed(Dict(acc[key := Denote(e)]), c + 1 + |Text(e)| + 1))
    decreases e, 5
  {
    EntryRoundCloses(s, c + 1, key, acc, e);
    QuotedKeyStep(s, p, acc, key, c);
    DictStepStops(s, p, acc, Ok(Parsed(Dict(acc[key := Denote(e)]), c + 1 + |Text(e)| + 1)));
  }

  /** A quoted key, ':' at `c`, and the text of a term `e` followed by ','
      go round the loop of `parse_dict` again. */
  lemma {:induction false} MemberRoundContinues(s: string, p: nat, key: string, acc: map<string, JValue>, c: nat, e: Term)
    requires IsStringBody(key) && MatchesAt(s, p, Quoted(key)) && c == p + |Quoted(key)| && c < |s| && s[c] == ':'
    requires WellFormed(e) && MatchesAt(s, c + 1, Text(e)) && c + 1 + |Text(e)| < |s| && s[c + 1 + |Text(e)|] == ','
    ensures DictTail(s, p, acc) == DictTail(s, c + 1 + |Text(e)| + 1, acc[key := Denote(e)])
    decreases e, 5
  {
    EntryRoundContinues(s, c + 1, key, acc, e);
    QuotedKeyStep(s, p, acc, key, c);
    DictStepContinues(s, p, acc, c + 1 + |Text(e)| + 1, acc[key := Denote(e)]);
  }

  /** The loop of `parse_list` reads the rest of a list term from its
      element `k` on, appending their values to `items`. */
  lemma {:induction false} ListRoundTrip(s: string, p: nat, t: Term, k: nat, items: seq<JValue>)
    requires t.ListTerm? && k < |t.elems| && WellFormed(t) && MatchesAt(s, p, ListRest(t, k))
    ensures ListTail(s, p, items) == Ok(Parsed(List(Items(t, k, items)), p + |ListRest(t, k)|))
    decreases t, 1, |t.elems| - k, 1
  {
    if k + 1 == |t.elems| {
      ListRoundLast(s, p, t, k, items);
    } else {
      var e := t.elems[k];
      ListRoundOver(s, p, t, k, items);
      ListRoundTrip(s, p + |Text(e)| + 1, t, k + 1, items + [Denote(e)]);
    }
  }

  /** The round of that loop over the last element returns the list. */
  lemma {:induction false} ListRoundLast(s: string, p: nat, t: Term, k: nat, items: seq<JValue>)
    requires t.ListTerm? && k + 1 == |t.elems| && WellFormed(t) && MatchesAt(s, p, ListRest(t, k))
    ensures ListTail(s, p, items) == Ok(Parsed(List(Items(t, k, items)), p + |ListRest(t, k)|))
    decreases t, 1, |t.elems| - k, 0
  {
    var e := t.elems[k];
    ListLastParts(s, p, t, k);
    ValueRoundTrip(s, p, e);
    ListStepCloses(s, p, items, Denote(e), p + |Text(e)|);
  }

  /** A round of that loop over an element `k` that is not the last goes
      round again after the ',' that follows it. */
  lemma {:induction false} ListRoundOver(s: string, p: nat, t: Term, k: nat, items: seq<JValue>)
    requires t.ListTerm? && k + 1 < |t.elems| && WellFormed(t) && MatchesAt(s, p, ListRest(t, k))
    ensures ListTail(s, p, items) == ListTail(s, p + |Text(t.elems[k])| + 1, items + [Denote(t.elems[k])])
    ensures MatchesAt(s, p + |Text(t.elems[k])| + 1, ListRest(t, k + 1))
    ensures |ListRest(t, k)| == |Text(t.elems[k])| + 1 + |ListRest(t, k + 1)|
    decreases t, 1, |t.elems| - k, 0
  {
    var e := t.elems[k];
    ListMoreParts(s, p, t, k);
    ValueRoundTrip(s, p, e);
    ListStepContinues(s, p, items, Denote(e), p + |Text(e)|);
  }

  /** The loop of `parse_dict` reads the rest of a dictionary term from its
      member `k` on, storing each value under its key in `acc`. */
  lemma {:induction false} DictRoundTrip(s: string, p: nat, t: Term, k: nat, acc: map<string, JValue>)
    requires t.DictTerm? && k < |t.members| && WellFormed(t) && MatchesAt(s, p, DictRest(t, k))
    ensures DictTail(s, p, acc) == Ok(Parsed(Dict(Entries(t, k, acc)), p + |DictRest(t, k)|))
    decreases t, 1, |t.members| - k, 1
  {
    if k + 1 == |t.members| {
      DictRoundLast(s, p, t, k, acc);
    } else {
      var m := t.members[k];
      var c := p + |Quoted(m.key)|;
      var n := c + 1 + |Text(m.val)|;
      DictMoreParts(s, p, t, k, c, n);
      MemberRoundContinues(s, p, m.key, acc, c, m.val);
      DictRoundTrip(s, n + 1, t, k + 1, acc[m.key := Denote(m.val)]);
    }
  }

  /** The round of that loop over the last member returns the dictionary. */
  lemma {:induction false} DictRoundLast(s: string, p: nat, t: Term, k: nat, acc: map<string, JValue>)
    requires t.DictTerm? && k + 1 == |t.members| && WellFormed(t) && MatchesAt(s, p, DictRest(t, k))
    ensures DictTail(s, p, acc) == Ok(Parsed(Dict(Entries(t, k, acc)), p + |DictRest(t, k)|))
    decreases t, 1, |t.members| - k, 0
  {
    var m := t.members[k];
    var c := p + |Quoted(m.key)|;
    DictLastParts(s, p, t, k, c, c + 1 + |Text(m.val)|);
    MemberRoundCloses(s, p, m.key, acc, c, m.val);
  }

  /* ---------- Whole documents ---------- */

  /** `trim_right` keeps every character up to the last one that is not
      whitespace. */
  lemma {:induction false} StripKeeps(s: string, n: nat)
    requires 0 < n <= |s| && !IsSpace(s[n - 1])
    ensures n <= |StripTrailingSpace(s)|
    decreases |s|
  {
    if n < |s| && IsSpace(s[|s| - 1]) {
      StripKeeps(s[..|s| - 1], n);
    }
  }

  /** `FromString` reads the text of a well-formed term back as its value,
      and ignores whatever text follows when that text cannot continue it. */
  lemma DocumentRoundTrip(t: Term, rest: string)
    requires WellFormed(t)
    requires rest == [] || Ends(rest[0])
    ensures Document(Text(t) + rest) == Ok(Denote(t))
  {
    var src := Text(t) + rest;
    var s := StripTrailingSpace(src);
    var n := |Text(t)|;
    LastChar(t);
    assert src[n - 1] == Text(t)[n - 1];
    StripKeeps(src, n);
    forall k | 0 <= k < n
      ensures s[0 + k] == Text(t)[k]
    {
      assert s[k] == src[k];
    }
    assert n < |s| ==> s[n] == rest[0];
    ValueRoundTrip(s, 0, t);
  }
}
