/**
 * The structured-data encoding used for stash payloads: a JSON value tree
 * (the "unstructured" form of an object), a compact printer and a parser.
 * The parser reads back everything the printer writes, which is the one
 * law the conversion-data stash relies on.
 */
module Json {
  import opened Wrappers

  datatype Json =
    | JNull
    | JBool(b: bool)
    | JInt(i: int)
    | JNonFinite            // a NaN or infinite float: it has no JSON text
    | JString(s: string)
    | JArray(items: seq<Json>)
    | JObject(members: seq<Member>)

  datatype Member = Member(key: string, value: Json)

  /** A parse result: the value read and the input left after it. */
  datatype Parsed<T> = Parsed(value: T, rest: string)

  /** True when no non-finite number occurs anywhere in the tree. */
  predicate Encodable(j: Json) {
    match j
    case JNonFinite => false
    case JArray(items) => forall i | 0 <= i < |items| :: Encodable(items[i])
    case JObject(ms) => forall i | 0 <= i < |ms| :: Encodable(ms[i].value)
    case _ => true
  }

  // ---------------------------------------------------------------- numbers

  predicate IsDigit(c: char) {
    '0' <= c <= '9'
  }

  predicate AllDigits(s: string) {
    forall i | 0 <= i < |s| :: IsDigit(s[i])
  }

  /** Nothing a number could continue with comes next. */
  predicate NoDigitAhead(s: string) {
    s == [] || !IsDigit(s[0])
  }

  function DigitChar(d: nat): (c: char)
    requires d < 10
    ensures IsDigit(c)
  {
    ('0' as int + d) as char
  }

  /** Decimal notation of n, most significant digit first. */
  function NatDigits(n: nat): (r: string)
    ensures |r| > 0 && AllDigits(r)
  {
    if n < 10 then [DigitChar(n)] else NatDigits(n / 10) + [DigitChar(n % 10)]
  }

  /** The number a run of decimal digits denotes. */
  function DigitsValue(ds: string): nat
    requires AllDigits(ds)
  {
    if ds == [] then 0
    else DigitsValue(ds[..|ds| - 1]) * 10 + (ds[|ds| - 1] as int - '0' as int)
  }

  lemma {:induction false} DigitsValueOfNatDigits(n: nat)
    ensures DigitsValue(NatDigits(n)) == n
  {
    if n >= 10 {
      var ds := NatDigits(n);
      assert ds[..|ds| - 1] == NatDigits(n / 10);
      DigitsValueOfNatDigits(n / 10);
    }
  }

  /** Length of the longest run of digits at the front of s. */
  function DigitSpan(s: string): (k: nat)
    ensures k <= |s| && AllDigits(s[..k]) && NoDigitAhead(s[k..])
  {
    if s == [] || !IsDigit(s[0]) then 0
    else
      var k := 1 + DigitSpan(s[1..]);
      assert s[..k] == [s[0]] + s[1..][..k - 1];
      k
  }

  lemma {:induction false} DigitSpanOfDigits(ds: string, rest: string)
    requires AllDigits(ds) && NoDigitAhead(rest)
    ensures DigitSpan(ds + rest) == |ds|
  {
    if ds != [] {
      assert (ds + rest)[1..] == ds[1..] + rest;
      DigitSpanOfDigits(ds[1..], rest);
    }
  }

  function PrintInt(i: int): (r: string)
    ensures |r| > 0 && (r[0] == '-' || IsDigit(r[0]))
  {
    if i < 0 then "-" + NatDigits(-i) else NatDigits(i)
  }

  /** An optional minus sign and a run of digits. */
  function ParseInt(s: string): (r: Result<Parsed<Json>>)
    requires s != []
    ensures r.Success? ==> |r.value.rest| < |s|
  {
    var negative := s[0] == '-';
    var body := if negative then s[1..] else s;
    var k := DigitSpan(body);
    if k == 0 then Failure("invalid character in numeric literal")
    else
      var v: int := DigitsValue(body[..k]);
      Success(Parsed(JInt(if negative then -v else v), body[k..]))
  }

  lemma ParseIntPrinted(i: int, rest: string)
    requires NoDigitAhead(rest)
    ensures ParseInt(PrintInt(i) + rest) == Success(Parsed(JInt(i), rest))
  {
    var n: nat := if i < 0 then -i else i;
    var ds := NatDigits(n);
    var s := PrintInt(i) + rest;
    DigitsValueOfNatDigits(n);
    if i < 0 {
      assert s == "-" + (ds + rest);
      assert s[1..] == ds + rest;
      ParseIntSteps(s, true, ds, rest, n);
    } else {
      assert s == ds + rest;
      assert s[0] == ds[0];
      ParseIntSteps(s, false, ds, rest, n);
    }
  }

  /** ParseInt on a sign, the digits of n and a rest that does not continue them. */
  lemma ParseIntSteps(s: string, negative: bool, ds: string, rest: string, n: nat)
    requires s != [] && (s[0] == '-') == negative
    requires (if negative then s[1..] else s) == ds + rest
    requires ds != [] && AllDigits(ds) && NoDigitAhead(rest) && DigitsValue(ds) == n
    ensures ParseInt(s) == Success(Parsed(JInt(if negative then -(n as int) else n), rest))
  {
    var body := ds + rest;
    DigitSpanOfDigits(ds, rest);
    assert body[..|ds|] == ds && body[|ds|..] == rest;
  }

  // ---------------------------------------------------------------- strings

  /** The escape sequence or literal character standing for c inside quotes. */
  function EscapeChar(c: char): string {
    if c == '"' then "\\\""
    else if c == '\\' then "\\\\"
    else if c == '\n' then "\\n"
    else if c == '\r' then "\\r"
    else if c == '\t' then "\\t"
    else [c]
  }

  function Escape(s: string): string {
    if s == [] then "" else EscapeChar(s[0]) + Escape(s[1..])
  }

  function Quote(s: string): (r: string)
    ensures |r| > 0 && r[0] == '"'
  {
    "\"" + Escape(s) + "\""
  }

  /** The character an escape sequence `\c` denotes. */
  function Unescape(c: char): Option<char> {
    if c == '"' || c == '\\' || c == '/' then Some(c)
    else if c == 'n' then Some('\n')
    else if c == 'r' then Some('\r')
    else if c == 't' then Some('\t')
    else None
  }

  /** The body of a string literal whose opening quote has been read. */
  function ParseString(s: string): (r: Result<Parsed<string>>)
    ensures r.Success? ==> |r.value.rest| < |s|
  {
    if s == [] then Failure("unexpected end of JSON input")
    else if s[0] == '"' then Success(Parsed("", s[1..]))
    else if s[0] == '\\' then
      if |s| < 2 then Failure("unexpected end of JSON input")
      else match Unescape(s[1])
        case None => Failure("invalid character in string escape code")
        case Some(c) =>
          var t :- ParseString(s[2..]);
          Success(Parsed([c] + t.value, t.rest))
    else
      var t :- ParseString(s[1..]);
      Success(Parsed([s[0]] + t.value, t.rest))
  }

  lemma {:induction false} ParseStringEscaped(s: string, rest: string)
    ensures ParseString(Escape(s) + "\"" + rest) == Success(Parsed(s, rest))
  {
    var input := Escape(s) + "\"" + rest;
    if s == [] {
      assert input == "\"" + rest;
    } else {
      var tail := Escape(s[1..]) + "\"" + rest;
      assert input == EscapeChar(s[0]) + tail;
      ParseStringEscaped(s[1..], rest);
      var c := s[0];
      if c == '"' || c == '\\' || c == '\n' || c == '\r' || c == '\t' {
        assert input[0] == '\\' && input[2..] == tail;
      } else {
        assert input[0] == c && input[1..] == tail;
      }
      assert [c] + s[1..] == s;
    }
  }

  // ---------------------------------------------------------------- printer

  /** The compact JSON text of an encodable tree. */
  function Print(j: Json): (r: string)
    requires Encodable(j)
    ensures |r| > 0 && r[0] != ']' && r[0] != '}' && r[0] != ','
  {
    match j
    case JNull => "null"
    case JBool(b) => if b then "true" else "false"
    case JInt(i) => PrintInt(i)
    case JString(s) => Quote(s)
    case JArray(items) => "[" + PrintItems(items) + "]"
    case JObject(ms) => "{" + PrintMembers(ms) + "}"
  }

  function PrintItems(items: seq<Json>): string
    requires forall i | 0 <= i < |items| :: Encodable(items[i])
  {
    if items == [] then ""
    else Print(items[0]) + (if |items| == 1 then "" else "," + PrintItems(items[1..]))
  }

  function PrintMember(m: Member): (r: string)
    requires Encodable(m.value)
    ensures |r| > 0 && r[0] == '"'
  {
    Quote(m.key) + ":" + Print(m.value)
  }

  function PrintMembers(ms: seq<Member>): string
    requires forall i | 0 <= i < |ms| :: Encodable(ms[i].value)
  {
    if ms == [] then ""
    else PrintMember(ms[0]) + (if |ms| == 1 then "" else "," + PrintMembers(ms[1..]))
  }

  // ---------------------------------------------------------------- parser

  /** The keyword `word` at the front of s, standing for v. */
  function Keyword(s: string, word: string, v: Json): (r: Result<Parsed<Json>>)
    requires |word| > 0
    ensures r.Success? ==> |r.value.rest| < |s|
  {
    if |word| <= |s| && s[..|word|] == word then Success(Parsed(v, s[|word|..]))
    else Failure("invalid character in literal")
  }

  /** One JSON value at the front of s. */
  function ParseValue(s: string): (r: Result<Parsed<Json>>)
    ensures r.Success? ==> |r.value.rest| < |s|
    decreases |s|, 1
  {
    if s == [] then Failure("unexpected end of JSON input")
    else if s[0] == 'n' then Keyword(s, "null", JNull)
    else if s[0] == 't' then Keyword(s, "true", JBool(true))
    else if s[0] == 'f' then Keyword(s, "false", JBool(false))
    else if s[0] == '-' || IsDigit(s[0]) then ParseInt(s)
    else if s[0] == '"' then
      var p :- ParseString(s[1..]);
      Success(Parsed(JString(p.value), p.rest))
    else if s[0] == '[' then ParseArray(s[1..])
    else if s[0] == '{' then ParseObject(s[1..])
    else Failure("invalid character looking for beginning of value")
  }

  /** The elements and closing bracket of an array whose `[` has been read. */
  function ParseArray(s: string): (r: Result<Parsed<Json>>)
    ensures r.Success? ==> |r.value.rest| < |s|
    decreases |s|, 3
  {
    if s != [] && s[0] == ']' then Success(Parsed(JArray([]), s[1..]))
    else
      var p :- ParseItems(s);
      Success(Parsed(JArray(p.value), p.rest))
  }

  /** One or more comma-separated values and the closing `]`. */
  function ParseItems(s: string): (r: Result<Parsed<seq<Json>>>)
    ensures r.Success? ==> |r.value.rest| < |s|
    decreases |s|, 2
  {
    var v :- ParseValue(s);
    if v.rest != [] && v.rest[0] == ',' then
      var more :- ParseItems(v.rest[1..]);
      Success(Parsed([v.value] + more.value, more.rest))
    else if v.rest != [] && v.rest[0] == ']' then
      Success(Parsed([v.value], v.rest[1..]))
    else Failure("invalid character after array element")
  }

  /** The members and closing brace of an object whose `{` has been read. */
  function ParseObject(s: string): (r: Result<Parsed<Json>>)
    ensures r.Success? ==> |r.value.rest| < |s|
    decreases |s|, 4
  {
    if s != [] && s[0] == '}' then Success(Parsed(JObject([]), s[1..]))
    else
      var p :- ParseMembers(s);
      Success(Parsed(JObject(p.value), p.rest))
  }

  /** One or more comma-separated `"key":value` pairs and the closing `}`. */
  function ParseMembers(s: string): (r: Result<Parsed<seq<Member>>>)
    ensures r.Success? ==> |r.value.rest| < |s|
    decreases |s|, 3
  {
    var m :- ParseMember(s);
    if m.rest != [] && m.rest[0] == ',' then
      var more :- ParseMembers(m.rest[1..]);
      Success(Parsed([m.value] + more.value, more.rest))
    else if m.rest != [] && m.rest[0] == '}' then
      Success(Parsed([m.value], m.rest[1..]))
    else Failure("invalid character after object key:value pair")
  }

  function ParseMember(s: string): (r: Result<Parsed<Member>>)
    ensures r.Success? ==> |r.value.rest| < |s|
    decreases |s|, 2
  {
    if s == [] || s[0] != '"' then Failure("invalid character looking for beginning of object key string")
    else
      var k :- ParseString(s[1..]);
      if k.rest == [] || k.rest[0] != ':' then Failure("invalid character after object key")
      else
        var v :- ParseValue(k.rest[1..]);
        Success(Parsed(Member(k.value, v.value), v.rest))
  }

  // ---------------------------------------------------------------- round trip

  lemma {:induction false} ParsePrinted(j: Json, rest: string)
    requires Encodable(j) && NoDigitAhead(rest)
    ensures ParseValue(Print(j) + rest) == Success(Parsed(j, rest))
    decreases j, 3
  {
    match j
    case JNull =>
      ParseKeywordPrinted("null", JNull, rest);
    case JBool(b) =>
      if b { ParseKeywordPrinted("true", j, rest); }
      else { ParseKeywordPrinted("false", j, rest); }
    case JInt(i) =>
      ParseIntPrinted(i, rest);
    case JString(str) =>
      ParseQuotedPrinted(str, rest);
    case JArray(items) =>
      ParseArrayPrinted(items, rest);
    case JObject(ms) =>
      ParseObjectPrinted(ms, rest);
  }

  lemma ParseQuotedPrinted(str: string, rest: string)
    ensures ParseValue(Quote(str) + rest) == Success(Parsed(JString(str), rest))
  {
    var s := Quote(str) + rest;
    var e := Escape(str);
    assert s == "\"" + (e + "\"" + rest) by {
      assert Quote(str) + rest == ("\"" + e + "\"") + rest;
    }
    assert s[1..] == e + "\"" + rest;
    ParseStringEscaped(str, rest);
    ParseQuotedStep(s, str, rest);
  }

  lemma ParseQuotedStep(s: string, str: string, rest: string)
    requires s != [] && s[0] == '"' && ParseString(s[1..]) == Success(Parsed(str, rest))
    ensures ParseValue(s) == Success(Parsed(JString(str), rest))
  {
  }

  lemma {:induction false} ParseArrayPrinted(items: seq<Json>, rest: string)
    requires forall i | 0 <= i < |items| :: Encodable(items[i])
    ensures ParseValue("[" + PrintItems(items) + "]" + rest) == Success(Parsed(JArray(items), rest))
    decreases items, 2
  {
    var body := PrintItems(items) + "]" + rest;
    var s := "[" + PrintItems(items) + "]" + rest;
    assert s == "[" + body && s[1..] == body;
    if items != [] {
      ParseItemsPrinted(items, rest);
      assert PrintItems(items) == Print(items[0]) + (if |items| == 1 then "" else "," + PrintItems(items[1..]));
      assert body[0] == Print(items[0])[0];
      ParseArrayStep(body, items, rest);
    } else {
      assert body == "]" + rest;
      ParseArrayStep(body, items, rest);
    }
  }

  /** The array parser after `[`, at the closing `]` or at the first element. */
  lemma ParseArrayStep(body: string, items: seq<Json>, rest: string)
    requires items == [] ==> body == "]" + rest
    requires items != [] ==> body != [] && body[0] != ']' && ParseItems(body) == Success(Parsed(items, rest))
    ensures ParseValue("[" + body) == Success(Parsed(JArray(items), rest))
  {
    var s := "[" + body;
    assert s[0] == '[' && s[1..] == body;
    ParseValueAtArray(s);
    if items == [] {
      assert body[0] == ']' && body[1..] == rest;
    }
  }

  lemma ParseValueAtArray(s: string)
    requires s != [] && s[0] == '['
    ensures ParseValue(s) == ParseArray(s[1..])
  {
  }

  lemma {:induction false} ParseObjectPrinted(ms: seq<Member>, rest: string)
    requires forall i | 0 <= i < |ms| :: Encodable(ms[i].value)
    ensures ParseValue("{" + PrintMembers(ms) + "}" + rest) == Success(Parsed(JObject(ms), rest))
    decreases ms, 2
  {
    var body := PrintMembers(ms) + "}" + rest;
    var s := "{" + PrintMembers(ms) + "}" + rest;
    assert s == "{" + body && s[1..] == body;
    if ms != [] {
      ParseMembersPrinted(ms, rest);
      assert PrintMembers(ms) == PrintMember(ms[0]) + (if |ms| == 1 then "" else "," + PrintMembers(ms[1..]));
      assert body[0] == PrintMember(ms[0])[0];
      ParseObjectStep(body, ms, rest);
    } else {
      assert body == "}" + rest;
      ParseObjectStep(body, ms, rest);
    }
  }

  /** The object parser after `{`, at the closing `}` or at the first element. */
  lemma ParseObjectStep(body: string, ms: seq<Member>, rest: string)
    requires ms == [] ==> body == "}" + rest
    requires ms != [] ==> body != [] && body[0] != '}' && ParseMembers(body) == Success(Parsed(ms, rest))
    ensures ParseValue("{" + body) == Success(Parsed(JObject(ms), rest))
  {
    var s := "{" + body;
    assert s[0] == '{' && s[1..] == body;
    ParseValueAtObject(s);
    if ms == [] {
      assert body[0] == '}' && body[1..] == rest;
    }
  }

  lemma ParseValueAtObject(s: string)
    requires s != [] && s[0] == '{'
    ensures ParseValue(s) == ParseObject(s[1..])
  {
  }

  lemma ParseKeywordPrinted(word: string, v: Json, rest: string)
    requires word in {"null", "true", "false"}
    requires v == (if word == "null" then JNull else JBool(word == "true"))
    ensures ParseValue(word + rest) == Success(Parsed(v, rest))
  {
    var s := word + rest;
    assert s[..|word|] == word && s[|word|..] == rest;
    assert s[0] == word[0];
  }

  lemma {:induction false} ParseItemsPrinted(items: seq<Json>, rest: string)
    requires items != [] && forall i | 0 <= i < |items| :: Encodable(items[i])
    ensures ParseItems(PrintItems(items) + "]" + rest) == Success(Parsed(items, rest))
    decreases items, 1
  {
    if |items| == 1 {
      ParseLastItemPrinted(items, rest);
    } else {
      ParseNextItemPrinted(items, rest);
    }
  }

  lemma {:induction false} ParseLastItemPrinted(items: seq<Json>, rest: string)
    requires |items| == 1 && Encodable(items[0])
    ensures ParseItems(PrintItems(items) + "]" + rest) == Success(Parsed(items, rest))
    decreases items, 0
  {
    var s := PrintItems(items) + "]" + rest;
    PrintLastItemSplit(items, rest);
    ParsePrinted(items[0], "]" + rest);
    ParseLastItemStep(s, items[0], rest);
    assert [items[0]] == items;
  }

  lemma {:induction false} ParseNextItemPrinted(items: seq<Json>, rest: string)
    requires |items| > 1 && forall i | 0 <= i < |items| :: Encodable(items[i])
    ensures ParseItems(PrintItems(items) + "]" + rest) == Success(Parsed(items, rest))
    decreases items, 0
  {
    var s := PrintItems(items) + "]" + rest;
    var tail := PrintItems(items[1..]) + "]" + rest;
    PrintNextItemSplit(items, rest);
    ParsePrinted(items[0], "," + tail);
    ParseItemsPrinted(items[1..], rest);
    ParseNextItemStep(s, items[0], tail, items[1..], rest);
    assert [items[0]] + items[1..] == items;
  }

  lemma PrintLastItemSplit(items: seq<Json>, rest: string)
    requires |items| == 1 && Encodable(items[0])
    ensures PrintItems(items) == Print(items[0])
    ensures PrintItems(items) + "]" + rest == Print(items[0]) + ("]" + rest)
  {
  }

  lemma PrintNextItemSplit(items: seq<Json>, rest: string)
    requires |items| > 1 && forall i | 0 <= i < |items| :: Encodable(items[i])
    ensures forall i | 0 <= i < |items[1..]| :: Encodable(items[1..][i])
    ensures PrintItems(items) == Print(items[0]) + ("," + PrintItems(items[1..]))
    ensures PrintItems(items) + "]" + rest == Print(items[0]) + ("," + (PrintItems(items[1..]) + "]" + rest))
  {
    var head, tail := Print(items[0]), PrintItems(items[1..]);
    assert head + ("," + tail) + "]" + rest == head + ("," + (tail + "]" + rest));
  }

  lemma ParseLastItemStep(s: string, v: Json, rest: string)
    requires ParseValue(s) == Success(Parsed(v, "]" + rest))
    ensures ParseItems(s) == Success(Parsed([v], rest))
  {
    assert ("]" + rest)[1..] == rest;
  }

  lemma ParseNextItemStep(s: string, v: Json, tail: string, more: seq<Json>, rest: string)
    requires ParseValue(s) == Success(Parsed(v, "," + tail))
    requires ParseItems(tail) == Success(Parsed(more, rest))
    ensures ParseItems(s) == Success(Parsed([v] + more, rest))
  {
    assert ("," + tail)[1..] == tail;
  }

  lemma {:induction false} ParseMemberPrinted(m: Member, rest: string)
    requires Encodable(m.value) && NoDigitAhead(rest)
    ensures ParseMember(PrintMember(m) + rest) == Success(Parsed(m, rest))
    decreases m, 0
  {
    var afterKey := ":" + (Print(m.value) + rest);
    var s := PrintMember(m) + rest;
    PrintMemberSplit(m, rest);
    ParseStringEscaped(m.key, afterKey);
    ParsePrinted(m.value, rest);
    assert afterKey[1..] == Print(m.value) + rest;
    ParseMemberSteps(s, m, afterKey, rest);
  }

  /** A printed member and what follows it, split at the parser's steps. */
  lemma PrintMemberSplit(m: Member, rest: string)
    requires Encodable(m.value)
    ensures var s := PrintMember(m) + rest;
      s[0] == '"' && s[1..] == Escape(m.key) + "\"" + (":" + (Print(m.value) + rest))
  {
    var q, e, c, p := "\"", Escape(m.key), ":", Print(m.value);
    assert PrintMember(m) == (((q + e) + q) + c) + p;
    Assoc(((q + e) + q) + c, p, rest);
    Assoc((q + e) + q, c, p + rest);
    Assoc(q + e, q, c + (p + rest));
    Assoc(q, e, q + (c + (p + rest)));
    Assoc(e, q, c + (p + rest));
    FirstAndTail(q, e + (q + (c + (p + rest))));
  }

  lemma Assoc(a: string, b: string, c: string)
    ensures (a + b) + c == a + (b + c)
  {
  }

  lemma FirstAndTail(a: string, b: string)
    requires |a| == 1
    ensures (a + b)[0] == a[0] && (a + b)[1..] == b
  {
  }

  lemma ParseMemberSteps(s: string, m: Member, afterKey: string, rest: string)
    requires s != [] && s[0] == '"' && ParseString(s[1..]) == Success(Parsed(m.key, afterKey))
    requires afterKey != [] && afterKey[0] == ':'
    requires ParseValue(afterKey[1..]) == Success(Parsed(m.value, rest))
    ensures ParseMember(s) == Success(Parsed(m, rest))
  {
  }

  lemma {:induction false} ParseMembersPrinted(ms: seq<Member>, rest: string)
    requires ms != [] && forall i | 0 <= i < |ms| :: Encodable(ms[i].value)
    ensures ParseMembers(PrintMembers(ms) + "}" + rest) == Success(Parsed(ms, rest))
    decreases ms, 1
  {
    if |ms| == 1 {
      ParseLastMemberPrinted(ms, rest);
    } else {
      ParseNextMemberPrinted(ms, rest);
    }
  }

  lemma {:induction false} ParseLastMemberPrinted(ms: seq<Member>, rest: string)
    requires |ms| == 1 && Encodable(ms[0].value)
    ensures ParseMembers(PrintMembers(ms) + "}" + rest) == Success(Parsed(ms, rest))
    decreases ms, 0
  {
    var s := PrintMembers(ms) + "}" + rest;
    PrintLastMemberSplit(ms, rest);
    ParseMemberPrinted(ms[0], "}" + rest);
    ParseLastMemberStep(s, ms[0], rest);
    assert [ms[0]] == ms;
  }

  lemma {:induction false} ParseNextMemberPrinted(ms: seq<Member>, rest: string)
    requires |ms| > 1 && forall i | 0 <= i < |ms| :: Encodable(ms[i].value)
    ensures ParseMembers(PrintMembers(ms) + "}" + rest) == Success(Parsed(ms, rest))
    decreases ms, 0
  {
    var s := PrintMembers(ms) + "}" + rest;
    var tail := PrintMembers(ms[1..]) + "}" + rest;
    PrintNextMemberSplit(ms, rest);
    ParseMemberPrinted(ms[0], "," + tail);
    ParseMembersPrinted(ms[1..], rest);
    ParseNextMemberStep(s, ms[0], tail, ms[1..], rest);
    assert [ms[0]] + ms[1..] == ms;
  }

  lemma PrintLastMemberSplit(ms: seq<Member>, rest: string)
    requires |ms| == 1 && Encodable(ms[0].value)
    ensures PrintMembers(ms) + "}" + rest == PrintMember(ms[0]) + ("}" + rest)
  {
    assert PrintMembers(ms) == PrintMember(ms[0]);
  }

  lemma PrintNextMemberSplit(ms: seq<Member>, rest: string)
    requires |ms| > 1 && forall i | 0 <= i < |ms| :: Encodable(ms[i].value)
    ensures forall i | 0 <= i < |ms[1..]| :: Encodable(ms[1..][i].value)
    ensures PrintMembers(ms) + "}" + rest == PrintMember(ms[0]) + ("," + (PrintMembers(ms[1..]) + "}" + rest))
  {
    var head, tail := PrintMember(ms[0]), PrintMembers(ms[1..]);
    assert PrintMembers(ms) == head + ("," + tail);
    assert head + ("," + tail) + "}" + rest == head + ("," + (tail + "}" + rest));
  }

  lemma ParseLastMemberStep(s: string, m: Member, rest: string)
    requires ParseMember(s) == Success(Parsed(m, "}" + rest))
    ensures ParseMembers(s) == Success(Parsed([m], rest))
  {
    assert ("}" + rest)[1..] == rest;
  }

  lemma ParseNextMemberStep(s: string, m: Member, tail: string, more: seq<Member>, rest: string)
    requires ParseMember(s) == Success(Parsed(m, "," + tail))
    requires ParseMembers(tail) == Success(Parsed(more, rest))
    ensures ParseMembers(s) == Success(Parsed([m] + more, rest))
  {
    assert ("," + tail)[1..] == tail;
  }

  // ---------------------------------------------------------------- Marshal / Unmarshal

  /** json.Marshal: the text of the tree, or an error for a value JSON cannot represent. */
  function Marshal(j: Json): (r: Result<string>)
    ensures r.Success? <==> Encodable(j)
    ensures r.Success? ==> Decode(r.value) == Success(j)
  {
    if Encodable(j) then
      ParsePrinted(j, "");
      assert Print(j) + "" == Print(j);
      Success(Print(j))
    else Failure("json: unsupported value: NaN")
  }

  /** json.Unmarshal into a generic tree: one value and nothing after it. */
  function Decode(data: string): (r: Result<Json>) {
    var p :- ParseValue(data);
    if p.rest == [] then Success(p.value)
    else Failure("invalid character after top-level value")
  }

  /** The payload of a stash entry that was tampered with is rejected. */
  lemma DecodeRejectsBareWord()
    ensures Decode("invalid-json").Failure?
  {
    assert "invalid-json"[0] == 'i';
  }
}
