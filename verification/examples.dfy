/** Worked examples: what `Parser::FromString` makes of a few short texts,
    including the ways it fails, and what the JObject operations do in a
    few typical sequences of calls. */
module Examples {
  import opened Values
  import opened Chars
  import opened Grammar
  import opened GrammarFacts
  import opened Documents
  import opened JObjects

  /* ---------- Documents that parse ---------- */

  /** Only one value is read: the text after it is never looked at. */
  lemma NullThenText()
    ensures Document("null x") == Ok(Null)
  {
    DocumentRoundTrip(NullTerm, " x");
    assert Text(NullTerm) + " x" == "null x";
  }

  /** A `//` line before the value is skipped, and the number is a double. */
  lemma CommentLine()
    ensures Document("// c\n7") == Ok(Double("7"))
  {
    var s := "// c\n7";
    assert StripTrailingSpace(s) == s;
    assert FindFrom(s, 0, '\n') == Some(4);
    assert CommentAt(s, 0) && !CommentAt(s, 5);
    assert NextToken(s, 0) == Ok(5);
    assert Dispatch(s, 5) == NumberAt(s, 5);
    NumberAtWhole(s, 5, 6);
    assert s[5..6] == "7";
  }

  /** `a\"b`: its quote is escaped by one backslash. */
  lemma EscapedQuoteBody()
    ensures IsStringBody("a\\\"b")
  {
    assert RunBefore("a\\\"b", 2) == 1;
  }

  /** An escaped quote does not end a string, and the backslash is kept. */
  lemma EscapedQuote()
    ensures Document("\"a\\\"b\"") == Ok(Str("a\\\"b"))
  {
    var t := StringTerm("a\\\"b");
    EscapedQuoteBody();
    DocumentRoundTrip(t, "");
    assert Text(t) + "" == "\"a\\\"b\"";
  }

  /** `{"a":1,"a":2}` */
  function RepeatedKeyTerm(): Term
  {
    DictTerm([Member("a", NumberTerm("1")), Member("a", NumberTerm("2"))])
  }

  /** The term is well formed, and this is its text. */
  lemma RepeatedKeyParts()
    ensures WellFormed(RepeatedKeyTerm())
    ensures Text(RepeatedKeyTerm()) == "{\"a\":1,\"a\":2}"
  {
    assert DigitsIn("1", 0, 1) && DigitsIn("2", 0, 1);
  }

  /** Its value keeps the second entry for "a". */
  lemma RepeatedKeyValue()
    ensures Denote(RepeatedKeyTerm()) == Dict(map["a" := Double("2")])
  {
  }

  /** The last of two members with the same key wins. */
  lemma RepeatedKey()
    ensures Document("{\"a\":1,\"a\":2}") == Ok(Dict(map["a" := Double("2")]))
  {
    RepeatedKeyParts();
    RepeatedKeyValue();
    DocumentRoundTrip(RepeatedKeyTerm(), "");
    assert Text(RepeatedKeyTerm()) + "" == Text(RepeatedKeyTerm());
  }

  /* ---------- Documents that fail ---------- */

  /** A sign without digits. */
  lemma LoneMinus()
    ensures Document("-") == Err(NumberError)
  {
    var s := "-";
    assert StripTrailingSpace(s) == s;
    NextTokenHere(s, 0);
    assert Dispatch(s, 0) == NumberAt(s, 0);
  }

  /** A '.' without digits after it. */
  lemma MissingFraction()
    ensures Document("1.x") == Err(FractionError)
  {
    var s := "1.x";
    assert StripTrailingSpace(s) == s;
    NextTokenHere(s, 0);
    assert Dispatch(s, 0) == NumberAt(s, 0);
    SkipDigitsStops(s, 0, 1);
  }

  /** List elements need a ',' between them. */
  lemma MissingSeparator()
    ensures Document("[1 2]") == Err(ListSeparator)
  {
    var s := "[1 2]";
    assert StripTrailingSpace(s) == s;
    NextTokenHere(s, 0);
    NextTokenHere(s, 1);
    assert Dispatch(s, 1) == NumberAt(s, 1);
    NumberAtWhole(s, 1, 2);
    assert s[1..2] == "1";
    assert NextToken(s, 2) == Ok(3) by { NextTokenHere(s, 3); }
    assert ListStep(s, 1, []) == Stopped(Err(ListSeparator));
    assert Dispatch(s, 0) == ListAt(s, 0);
  }

  /** A key must be a string. */
  lemma NumberKey()
    ensures Document("{1:2}") == Err(TypeError(TStr))
  {
    var s := "{1:2}";
    assert StripTrailingSpace(s) == s;
    NextTokenHere(s, 0);
    NextTokenHere(s, 1);
    assert Dispatch(s, 1) == NumberAt(s, 1);
    NumberAtWhole(s, 1, 2);
    KeyMustBeString(s, 1);
    assert DictTail(s, 1, map[]) == Err(TypeError(TStr));
    assert Dispatch(s, 0) == DictAt(s, 0);
  }

  /** A `//` comment needs a newline after it; a final one is trimmed away
      with the trailing whitespace, so the last comment line fails. */
  lemma UnclosedComment()
    ensures Document("// c\n") == Err(InvalidComment)
  {
    var s := "// c\n";
    var t := s[..4];
    assert t == "// c";
    assert StripTrailingSpace(s) == t;
    FindFromNone(t, 0, '\n');
    assert CommentAt(t, 0);
  }

  /** Nothing but whitespace. */
  lemma OnlyWhitespace()
    ensures Document(" \n ") == Err(UnexpectedEnd)
  {
    var s := " \n ";
    assert s[..2] == " \n" && s[..2][..1] == " " && s[..2][..1][..0] == [];
    assert StripTrailingSpace(s) == [];
  }

  /** `{"a":1,}` */
  const TrailingCommaText := "{\"a\":1,}"

  /** Its first round reads the key "a" and its ':'. */
  lemma TrailingCommaKey()
    ensures DictKeyAt(TrailingCommaText, 1) == Ok(("a", 5))
  {
    var s := TrailingCommaText;
    NextTokenHere(s, 1);
    assert s[2..3] == "a" && IsStringBody("a");
    StringAtComplete(s, 1, 3);
    NextTokenHere(s, 4);
  }

  /** ... then the value 1 and the ','. */
  lemma TrailingCommaEntry()
    ensures EntryStep(TrailingCommaText, 5, "a", map[]) == Continues(7, map["a" := Double("1")])
  {
    var s := TrailingCommaText;
    NextTokenHere(s, 5);
    assert Dispatch(s, 5) == NumberAt(s, 5);
    NumberAtWhole(s, 5, 6);
    assert s[5..6] == "1";
    NextTokenHere(s, 6);
  }

  /** The second round finds '}' where a key must start. */
  lemma TrailingCommaEnd()
    ensures DictKeyAt(TrailingCommaText, 7) == Err(UnexpectedChar)
  {
    NextTokenHere(TrailingCommaText, 7);
  }

  /** So the loop of `parse_dict` throws. */
  lemma TrailingCommaLoop()
    ensures DictTail(TrailingCommaText, 1, map[]) == Err(UnexpectedChar)
  {
    var s := TrailingCommaText;
    TrailingCommaKey();
    TrailingCommaEntry();
    TrailingCommaEnd();
    DictStepContinues(s, 1, map[], 7, map["a" := Double("1")]);
    DictStepStops(s, 7, map["a" := Double("1")], Err(UnexpectedChar));
  }

  /** So does `parse_dict`. */
  lemma TrailingCommaDict()
    ensures DictAt(TrailingCommaText, 0) == Err(UnexpectedChar)
  {
    NextTokenHere(TrailingCommaText, 1);
    TrailingCommaLoop();
  }

  /** So does `parse`. */
  lemma TrailingCommaValue()
    ensures ValueAt(TrailingCommaText, 0) == Err(UnexpectedChar)
  {
    var s := TrailingCommaText;
    NextTokenHere(s, 0);
    TrailingCommaDict();
    assert Dispatch(s, 0) == DictAt(s, 0);
  }

  /** A ',' before the '}' is an error. */
  lemma TrailingComma()
    ensures Document("{\"a\":1,}") == Err(UnexpectedChar)
  {
    assert StripTrailingSpace(TrailingCommaText) == TrailingCommaText;
    TrailingCommaValue();
  }

  /* ---------- JObject in use ---------- */

  /** A default-constructed object is Null, and typed access to it fails. */
  method DefaultObject() returns (t: Type, s: Result<string>)
    ensures t == TNull && s == Err(TypeError(TStr))
  {
    var o := new JObject();
    t := o.Type();
    s := o.GetStr();
  }

  /** `pop_back` undoes `push_back`. */
  method PushThenPop(items: seq<JValue>, x: JValue) returns (v: JValue)
    ensures v == List(items)
  {
    var o := new JObject.FromList(items);
    var pushed := o.PushBack(x);
    var popped := o.PopBack();
    v := o.value;
  }

  /** Assigning twice to the same key keeps the second value; other keys are
      untouched. */
  method AssignTwice(entries: map<string, JValue>, key: string, a: JValue, b: JValue) returns (v: JValue)
    ensures v == Dict(entries[key := b])
  {
    var o := new JObject.FromDict(entries);
    var first := o.SetEntry(key, a);
    var second := o.SetEntry(key, b);
    v := o.value;
  }

  /** Reading a missing key inserts Null under it. */
  method ReadMissingKey(entries: map<string, JValue>, key: string) returns (r: Result<JValue>, v: JValue)
    requires key !in entries
    ensures r == Ok(Null) && v == Dict(entries[key := Null])
  {
    var o := new JObject.FromDict(entries);
    r := o.Index(key);
    v := o.value;
  }

  /** A list is not a dictionary: `operator[]` on it throws and changes
      nothing. */
  method IndexOnList(items: seq<JValue>, key: string) returns (r: Result<JValue>, v: JValue)
    ensures r == Err(NotADict) && v == List(items)
  {
    var o := new JObject.FromList(items);
    r := o.Index(key);
    v := o.value;
  }
}
