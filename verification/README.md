# JSONParser in Dafny

A model of the core of the C++ JSON library JSONParser, with proofs about
it. The core has two parts:

- `json::JObject` is a tagged value: a `TYPE` tag paired with a
  `std::variant` payload. Its constructors and setters replace the tag and
  the payload together, `Value<V>()` checks the tag, and `push_back`,
  `pop_back` and `operator[]` change lists and dictionaries in place.
- `json::Parser` is a hand-written recursive-descent parser over a trimmed
  text buffer `m_str` and a cursor `m_idx`. It skips whitespace and `//`
  comment lines, chooses a routine from the lookahead character, and reads
  `null`, `true`/`false`, numbers, strings with backslash-escaped quotes,
  lists and dictionaries.

The project has these modules:

| file | module | what it holds |
|---|---|---|
| `values.dfy` | `Values` | the `TYPE` enum, the payload as a value (`JValue`), `int32_t`, one error per kind of failure the library throws |
| `jobject.dfy` | `JObjects` | `class JObject`, with fields `tag` (`m_type`) and `value` (`m_value`), plus `is_basic_type` |
| `chars.dfy` | `Chars` | `isspace`, `isdigit`, `operator[]` (which reads `'\0'` at `size()`), `compare`, `find`, trailing-whitespace trimming, runs of backslashes |
| `grammar.dfy` | `Grammar` | what each routine of `Parser.cpp` computes, as a function of the text and the cursor; the loops of `parse_list` and `parse_dict` are one-round step functions iterated by a tail function |
| `parser.dfy` | `Parsers` | `class Parser`, whose methods follow the source step by step, loops included; each is proved to compute its `Grammar` function |
| `grammar_facts.dfy` | `GrammarFacts` | what the parser accepts and rejects, and how: scans, tokens, dispatch, numbers, strings, loops, and the fact that numbers are never `int_t` |
| `documents.dfy` | `Documents` | a syntax of well-formed documents (`Term`), the text each is written as, and the value it stands for; the main theorem is that `FromString` reads the text of every well-formed term back as its value |
| `examples.dfy` | `Examples` | short texts and what `FromString` makes of them, and typical sequences of `JObject` calls |

The parser methods are specified against functions, not against each
other. Take `ParseList` as an example:

- Each round of its loop, `ListRound`, is proved to do what `ListStep`
  says.
- The loop keeps `ListTail(str, idx, items) == ListAt(str, start)` as an
  invariant.
- `Parse` returns what `ValueAt` says and leaves the cursor where
  `ValueAt` says.
- `FromString` returns `Document(content)`.

The properties are then proved about those functions:

- the lemmas of `GrammarFacts`;
- the round trip `Documents.DocumentRoundTrip`;
- the repeated-key lemmas `Documents.LastMemberWins` and
  `Documents.OtherKeysKept`.

Three behaviours of the code are worth knowing, and the model keeps them:

- **`Value<int_t>()` does not check the tag.** `Value<V>()` checks the
  tag only for string, bool, double, list and dict (`JObject.h:154-174`).
  So `GetInt` demands the `int_t` tag from its caller rather than
  inventing a failure.
- **`FromString` ignores what follows the first value.** It does not
  reject it (`Parser.cpp:8-14`). `Document` models this.
- **The errors follow the source's own `throw`s.** There is one error per
  kind of failure. For example, the end of the input inside
  `get_next_token` is `UnexpectedEnd`, while a token that starts no value
  is `UnexpectedChar`.

## Model

| member | source | states |
|---|---|---|
| JObjects.IsBasicType | JObject.h:54-64 | true exactly for the four types whose converting constructor gives a scalar tag (string, bool, double, int); false for list, dict and anything else |
| JObjects.JObject.constructor | JObject.h:71-75 | a default-constructed object is Null, and its tag agrees with its payload |
| JObjects.JObject.FromInt | JObject.h:76-79 | `JObject(int_t)` tags the object T_INT and holds the integer |
| JObjects.JObject.FromBool | JObject.h:81-84 | `JObject(bool_t)` tags the object T_BOOL and holds the boolean |
| JObjects.JObject.FromDouble | JObject.h:86-89 | `JObject(double_t)` tags the object T_DOUBLE and holds the number |
| JObjects.JObject.FromStr | JObject.h:91-94 | `JObject(str_t)` tags the object T_STR and holds the string |
| JObjects.JObject.FromList | JObject.h:96-99 | `JObject(list_t)` tags the object T_LIST and holds the elements |
| JObjects.JObject.FromDict | JObject.h:101-104 | `JObject(dict_t)` tags the object T_DICT and holds the entries |
| JObjects.JObject.Of | JObject.h:226-227 | the implicit copy constructor over these two fields gives an object with the same payload and the tag that matches it |
| JObjects.JObject.SetNull | JObject.h:107-111 | `Null()` makes the object Null, tag and payload together |
| JObjects.JObject.SetInt | JObject.h:113-117 | `Int(v)` sets tag T_INT and payload v together |
| JObjects.JObject.SetBool | JObject.h:119-123 | `Bool(v)` sets tag T_BOOL and payload v together |
| JObjects.JObject.SetDouble | JObject.h:125-129 | `Double(v)` sets tag T_DOUBLE and payload v together |
| JObjects.JObject.SetStr | JObject.h:131-135 | `Str(v)` sets tag T_STR and payload v together |
| JObjects.JObject.SetList | JObject.h:137-141 | `List(v)` sets tag T_LIST and payload v together |
| JObjects.JObject.SetDict | JObject.h:143-147 | `Dict(v)` sets tag T_DICT and payload v together |
| JObjects.JObject.Type | JObject.h:182-185 | `Type()` is the kind of the payload the object holds |
| JObjects.JObject.GetStr | JObject.h:154-157 | `Value<str_t>()` succeeds exactly when the object holds a string and returns it; otherwise it throws the string type error |
| JObjects.JObject.GetBool | JObject.h:158-161 | `Value<bool_t>()` succeeds exactly on a bool and returns it; otherwise it throws the bool type error |
| JObjects.JObject.GetDouble | JObject.h:162-165 | `Value<double_t>()` succeeds exactly on a double and returns it; otherwise it throws the double type error |
| JObjects.JObject.GetList | JObject.h:166-169 | `Value<list_t>()` succeeds exactly on a list and returns its elements; otherwise it throws the list type error |
| JObjects.JObject.GetDict | JObject.h:170-173 | `Value<dict_t>()` succeeds exactly on a dict and returns its entries; otherwise it throws the dict type error |
| JObjects.JObject.GetInt | JObject.h:150-180 | `Value<int_t>()` on an int object returns its integer |
| JObjects.JObject.PushBack | JObject.h:189-198 | on a list, appends the item at the end and keeps the tag; on anything else, throws NotAList and changes nothing |
| JObjects.JObject.PopBack | JObject.h:200-209 | on a non-empty list, removes exactly the last element; on anything else, throws NotAList and changes nothing |
| JObjects.JObject.Index | JObject.h:211-219 | on a dict, returns the entry under the key and leaves an existing entry untouched; a missing key is inserted with Null (auto-vivify); the key set grows by exactly that key; on anything else, throws NotADict and changes nothing |
| JObjects.JObject.SetEntry | JObject.h:211-219 | `obj[key] = v` on a dict overwrites or inserts the entry under the key and keeps every other entry; keys stay unique because the payload is a map; on anything else, throws NotADict |
| Chars.FindFrom | Parser.cpp:39 | `find` returns a position at or after the start that holds the character |
| Chars.FindFromFirst | Parser.cpp:39 | `find` returns the first such position |
| Chars.FindFromNone | Parser.cpp:40 | `find` returns `npos` exactly when no later position holds the character |
| Chars.SkipSpaces | Parser.cpp:64 | the whitespace scan stops at or after its start, on a character that is not whitespace |
| Chars.SkipDigits | Parser.cpp:139-142 | the digit scan stops at or after its start, on a character that is not a digit |
| Chars.StripTrailingSpace | Parser.cpp:23-30 | `trim_right` leaves a prefix of the text that does not end in whitespace |
| Chars.RunBefore | Parser.cpp:78-80 | the backslash count of `is_esc_consume` fits before its position and stops at a character that is not a backslash |
| GrammarFacts.StripTrailingSpaceDrops | Parser.cpp:23-30 | `trim_right` drops only whitespace |
| GrammarFacts.SkipSpacesPasses | Parser.cpp:64 | the whitespace scan passes only whitespace |
| GrammarFacts.SkipDigitsPasses | Parser.cpp:139-142 | the digit scan passes only digits |
| GrammarFacts.SkipDigitsStops | Parser.cpp:139-142 | the digit scan passes a whole run of digits and stops at its end |
| GrammarFacts.RunBeforeBackslashes | Parser.cpp:79 | every character in the counted run is a backslash |
| Grammar.CommentRun | Parser.cpp:37-57 | the loop of `skip_comment` moves forward or throws InvalidComment and nothing else |
| Grammar.AfterComments | Parser.cpp:32-59 | `skip_comment` never moves back and only throws InvalidComment |
| GrammarFacts.CommentRunStops | Parser.cpp:37-57 | the loop of `skip_comment` stops on a character that is neither whitespace nor the start of another `//` |
| Grammar.NextToken | Parser.cpp:61-71 | `get_next_token` never moves back and throws only UnexpectedEnd or InvalidComment |
| Grammar.NextTokenSkips | Parser.cpp:61-71 | `get_next_token` skips all whitespace, fails at the end of the text, and otherwise skips comments from there |
| GrammarFacts.NextTokenLands | Parser.cpp:61-71 | a successful `get_next_token` lands on a character that is neither whitespace nor the start of `//` |
| GrammarFacts.NextTokenEnd | Parser.cpp:64-66 | `get_next_token` throws UnexpectedEnd exactly when only whitespace is left |
| GrammarFacts.NextTokenHere | Parser.cpp:61-71 | on a character that is neither whitespace nor '/', the next token is that character |
| Grammar.NullAt | Parser.cpp:116-125 | `parse_null` moves the cursor forward or throws NullError |
| Grammar.BoolAt | Parser.cpp:167-180 | `parse_bool` moves the cursor forward or throws BoolError |
| Grammar.NumberAt | Parser.cpp:127-165 | `parse_number` moves the cursor forward or throws NumberError / FractionError |
| GrammarFacts.NumberAtSound | Parser.cpp:127-165 | an accepted number matches `-?[0-9]+(\.[0-9]+)?`, is taken as far as it goes, and is stored as a Double of exactly the scanned text |
| GrammarFacts.NumberAtComplete | Parser.cpp:127-165 | every numeral followed by a character that cannot continue it is accepted, as exactly that text |
| GrammarFacts.NumberAtWhole | Parser.cpp:129-146 | a sign and a run of digits not followed by '.' is a number without a fraction |
| GrammarFacts.NumberAtFraction | Parser.cpp:147-159 | digits, '.', digits is a number with a fraction |
| Grammar.ClosingQuote | Parser.cpp:192-209 | the quote the loop of `parse_string` stops at has an even run of backslashes before it |
| Grammar.ClosingQuoteFirst | Parser.cpp:192-209 | that quote is the first one with an even run, and when there is none, no quote after the opening one has an even run |
| Grammar.FirstClosingQuote | Parser.cpp:192-209 | a quote with an even run, and none before it, is where the loop stops |
| Grammar.NoClosingQuote | Parser.cpp:204-208 | when every quote up to some point is escaped and no quote follows, the string is unterminated |
| Grammar.StringAt | Parser.cpp:182-214 | `parse_string` moves past the closing quote or throws StringError / UnterminatedString |
| GrammarFacts.StringAtSound | Parser.cpp:182-214 | an accepted string ends at an unescaped quote and returns the text between the quotes verbatim; every quote in it is escaped |
| GrammarFacts.StringAtComplete | Parser.cpp:182-214 | every string body between quotes is read back verbatim, with the cursor after the closing quote |
| GrammarFacts.BodyHasNoClosingQuote | Parser.cpp:194-203 | inside a string body no quote closes the string early |
| Grammar.ValueAt | Parser.cpp:85-114 | `parse` moves the cursor forward when it succeeds |
| Grammar.Dispatch | Parser.cpp:88-113 | the routine chosen by the lookahead moves the cursor forward when it succeeds |
| GrammarFacts.DispatchByStarter | Parser.cpp:88-113 | a lookahead that starts no value throws UnexpectedChar, and a parsed value is of the kind its first character announces |
| GrammarFacts.ValueHasNoInt | Parser.cpp:164 | parsing never yields an `int_t`: numbers are always doubles, also inside lists and dictionaries |
| Grammar.ListAt | Parser.cpp:216-245 | `parse_list` moves past the '[' and returns a list |
| Grammar.ListTail | Parser.cpp:227-243 | the loop of `parse_list` moves forward and returns a list |
| Grammar.ListStep | Parser.cpp:229-242 | one round of that loop returns a list or goes round again further on |
| GrammarFacts.ListTailExtends | Parser.cpp:227-243 | that loop only appends: the items gathered so far are a strict prefix of the list it returns |
| Grammar.DictAt | Parser.cpp:247-286 | `parse_dict` moves past the '{' and returns a dict |
| Grammar.DictTail | Parser.cpp:258-284 | the loop of `parse_dict` moves forward and returns a dict |
| Grammar.DictKeyAt | Parser.cpp:261-268 | the key part of a round moves forward |
| Grammar.DictStep | Parser.cpp:258-284 | one round of that loop returns a dict or goes round again further on |
| Grammar.EntryStep | Parser.cpp:271-283 | the value part of a round returns a dict or goes round again further on |
| GrammarFacts.DictTailKeeps | Parser.cpp:258-284 | that loop never drops a key gathered so far |
| GrammarFacts.KeyMustBeString | Parser.cpp:261 | a key that parses to something other than a string throws the string type error |
| Parsers.Parser.FromString | Parser.cpp:8-14 | `FromString` returns exactly `Document(content)`: trim, then one value from the start |
| Parsers.Parser.Init | Parser.cpp:16-21 | `init` stores the trimmed text and puts the cursor at 0 |
| Parsers.Parser.TrimRight | Parser.cpp:23-30 | the backward loop over trailing whitespace computes `StripTrailingSpace` |
| Parsers.Parser.SkipWhitespace | Parser.cpp:64 | the loop leaves the cursor at `SkipSpaces` of where it started |
| Parsers.Parser.SkipComment | Parser.cpp:32-59 | the loop ends where `AfterComments` says, or throws its error |
| Parsers.Parser.GetNextToken | Parser.cpp:61-71 | returns the character at `NextToken` and leaves the cursor there, or throws its error |
| Parsers.Parser.IsEscConsume | Parser.cpp:73-83 | true exactly when the position is not 0, holds a backslash, and ends a backslash run of even length |
| Parsers.Parser.QuoteCloses | Parser.cpp:194-203 | the test in the loop of `parse_string` is true exactly when the quote closes the string |
| Parsers.Parser.Parse | Parser.cpp:85-114 | `parse` returns what `ValueAt` says and leaves the cursor where it says |
| Parsers.Parser.ParseNull | Parser.cpp:116-125 | follows `NullAt` |
| Parsers.Parser.ParseBool | Parser.cpp:167-180 | follows `BoolAt` |
| Parsers.Parser.ScanDigits | Parser.cpp:139-142 | the digit loop leaves the cursor at `SkipDigits` of where it started |
| Parsers.Parser.ParseNumber | Parser.cpp:127-165 | follows `NumberAt` |
| Parsers.Parser.ParseString | Parser.cpp:182-214 | follows `StringAt`: returns the text up to the first unescaped quote and moves past it |
| Parsers.Parser.ParseList | Parser.cpp:216-245 | follows `ListAt`, with `arr` built in place by `push_back` |
| Parsers.Parser.ListRound | Parser.cpp:229-242 | one round of the loop follows `ListStep`: the list gains the parsed value, then ']' ends and ',' continues |
| Parsers.Parser.ParseDict | Parser.cpp:247-286 | follows `DictAt`, with `dict` built in place through `operator[]` |
| Parsers.Parser.DictRound | Parser.cpp:260-283 | one round of the loop follows `DictStep` |
| Parsers.Parser.DictKey | Parser.cpp:261-268 | the key part of a round follows `DictKeyAt` |
| Parsers.Parser.DictEntry | Parser.cpp:271-283 | the value part of a round follows `EntryStep`: the entry under the key is overwritten, then '}' ends and ',' continues |
| Parsers.ListOpens | Parser.cpp:218-225 | after '[' the first token decides: an error, an empty list on ']', or the loop |
| Parsers.DictOpens | Parser.cpp:249-256 | after '{' the first token decides: an error, an empty dict on '}', or the loop |
| Parsers.BackslashRunStops | Parser.cpp:79 | inside a string the backward scan of `is_esc_consume` stops at the opening quote, so it never runs below index 0 |
| Documents.DocumentRoundTrip | Parser.cpp:8-14 | `FromString` of the text of any well-formed term yields its value, whatever follows the text when that cannot continue it |
| Documents.ValueRoundTrip | Parser.cpp:85-114 | `parse` reads the text of a well-formed term back as its value and leaves the cursor right after it |
| Documents.StringRoundTrip | Parser.cpp:182-214 | a quoted string body is read back verbatim |
| Documents.NumberRoundTrip | Parser.cpp:127-165 | a numeral is read back as a Double of that numeral |
| Documents.NullRoundTrip | Parser.cpp:116-125 | `null` is read back as Null |
| Documents.BoolRoundTrip | Parser.cpp:167-180 | `true` and `false` are read back as their boolean |
| Documents.ListRoundTrip | Parser.cpp:227-243 | the loop of `parse_list` reads the elements back in order |
| Documents.DictRoundTrip | Parser.cpp:258-284 | the loop of `parse_dict` stores each member's value under its key, in order |
| Documents.KeyRoundTrip | Parser.cpp:261-268 | a quoted key followed by ':' reads back as that key |
| Documents.LastMemberWins | Parser.cpp:271 | for a repeated key, the dictionary keeps the value of the last member with that key |
| Documents.OtherKeysKept | Parser.cpp:271 | a key no later member mentions keeps its earlier entry |
| Examples.NullThenText | Parser.cpp:8-14 | `null x` parses to Null: the text after the value is not looked at |
| Examples.CommentLine | Parser.cpp:32-59 | a comment line before `7` is skipped, and the number is Double("7") |
| Examples.EscapedQuote | Parser.cpp:182-214 | a string with an escaped quote is one string, backslash kept |
| Examples.RepeatedKey | Parser.cpp:271 | `{"a":1,"a":2}` parses to a dict whose entry for "a" is 2 |
| Examples.LoneMinus | Parser.cpp:143-145 | `-` throws NumberError |
| Examples.MissingFraction | Parser.cpp:151-154 | `1.x` throws FractionError |
| Examples.MissingSeparator | Parser.cpp:237-240 | `[1 2]` throws ListSeparator |
| Examples.NumberKey | Parser.cpp:261 | `{1:2}` throws the string type error |
| Examples.UnclosedComment | Parser.cpp:39-43 | `// c` followed by a newline throws InvalidComment: `trim_right` removes that newline, so `find` returns `npos` |
| Examples.OnlyWhitespace | Parser.cpp:64-66 | whitespace only throws UnexpectedEnd |
| Examples.TrailingComma | Parser.cpp:258-286 | `{"a":1,}` throws UnexpectedChar: after the ',' the loop reads '}' as a key |
| Examples.DefaultObject | JObject.h:71-75 | a default object has type T_NULL, and reading it as a string throws |
| Examples.PushThenPop | JObject.h:189-209 | `pop_back` after `push_back` restores the list |
| Examples.AssignTwice | JObject.h:211-219 | assigning twice to one key keeps the second value |
| Examples.ReadMissingKey | JObject.h:211-219 | reading a missing key returns Null and inserts it |
| Examples.IndexOnList | JObject.h:211-219 | `operator[]` on a list throws NotADict and leaves the list as it was |

## Left out

- `to_string`, the serializer of `JObject`, is not part of this model. Its body is not in the core files. So is the private `value()`, to which `Value<V>()` hands the typed read after its tag check.
- `strtod` is not modelled. A Double holds the decimal text `parse_number` scanned. The conversion to a binary `double` is floating point and is left out.
- `strtod` also reads on past that text: for `1e5` as a whole document the C++ returns 100000 while the cursor stops after `1`. The model keeps the scanned text only.
- The static singleton in `FromString` is modelled as a fresh parser per call. `init` resets both of its fields, so nothing carries over between calls.
- `Parser.h`'s macros and the templates `ToJSON`/`FromJSON` are left out, as is `main.cpp`. They are user-side glue around the core.
- References are modelled as copies. `operator[]` returns a reference; `Index` returns a copy of the entry, and assignment through the reference is `SetEntry`. Nested lists and dictionaries are values, which matches the library's deep copies.
- Stack depth and locale-dependent `isspace`/`isdigit` are left out. The scans use the ASCII "C" locale.
- The `throw` for an unknown type in `Value<V>()` (`JObject.h:178`) is left out. The typed reads here exist only for the six payload types, so no other `V` can be asked for.
- A Null object's payload is `JValue.Null`. The C++ stores a placeholder in the variant, which the API never exposes.
- Text that follows the first value is not checked: `FromString` returns after one value, as the code does.
- JObjects.JObject.GetInt: requires the `int_t` tag. The source performs no tag check for `int_t` and defers to `value()`, which is not part of this model.
- JObjects.JObject.PopBack: requires a non-empty list. `pop_back` on an empty vector is undefined behaviour in C++.
- Parsers.Parser.ParseString: requires the cursor on the opening quote, as `parse` guarantees. Entered anywhere else, the backslash scan could run below index 0.
- Parsers.Parser.IsEscConsume: requires that the backslash run does not reach index 0. Below it `size_t` would wrap. `BackslashRunStops` shows that `parse_string` always meets this.
- Parsers.Parser.ListRound: the body of the `while (true)` loop of `parse_list` is a method of its own. Parsers.Parser.DictRound, DictKey and DictEntry do the same for `parse_dict`. The statements are those of the source.
