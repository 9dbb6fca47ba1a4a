/** JSON text (RFC 8259) for values whose numbers are integers: how `JSON.stringify` prints a scalar,
    a plain printer, and a reader. The two undo each other. */
module JsonText {
  import opened Texts

  datatype Field<+V> = Field(key: Text, value: V)

  /** Object members keep the order in which they were inserted. */
  datatype Json =
    | Null
    | Bool(truth: bool)
    | Number(n: int)
    | Str(text: Text)
    | Arr(items: seq<Json>)
    | Obj(fields: seq<Field<Json>>)

  const QUOTE: CodeUnit := 34
  const COMMA: CodeUnit := 44
  const MINUS: CodeUnit := 45
  const COLON: CodeUnit := 58
  const LBRACKET: CodeUnit := 91
  const BACKSLASH: CodeUnit := 92
  const RBRACKET: CodeUnit := 93
  const LBRACE: CodeUnit := 123
  const RBRACE: CodeUnit := 125
  const NULL: Text := [110, 117, 108, 108]
  const TRUE: Text := [116, 114, 117, 101]
  const FALSE: Text := [102, 97, 108, 115, 101]

  // ---- strings ----

  function HexDigit(d: nat): CodeUnit
    requires d < 16
  {
    if d < 10 then 48 + d else 87 + d
  }

  /** One code unit as it is printed between the quotes. */
  function Escape(c: CodeUnit): Text {
    if c == QUOTE || c == BACKSLASH then [BACKSLASH, c]
    else if c == 8 then [BACKSLASH, 98]
    else if c == 9 then [BACKSLASH, 116]
    else if c == 10 then [BACKSLASH, 110]
    else if c == 12 then [BACKSLASH, 102]
    else if c == 13 then [BACKSLASH, 114]
    else if c < 32 then [BACKSLASH, 117, 48, 48, HexDigit(c / 16), HexDigit(c % 16)]
    else [c]
  }

  /** The escapes that `JSON.stringify` writes, and no others: two-character ones for quote, backslash
      and five control characters, `\u00` and two lower-case digits for the other control characters. */
  lemma EscapeExactly(c: CodeUnit)
    ensures c == 34 ==> Escape(c) == Ascii("\\\"")
    ensures c == 92 ==> Escape(c) == Ascii("\\\\")
    ensures c == 8 ==> Escape(c) == Ascii("\\b")
    ensures c == 9 ==> Escape(c) == Ascii("\\t")
    ensures c == 10 ==> Escape(c) == Ascii("\\n")
    ensures c == 12 ==> Escape(c) == Ascii("\\f")
    ensures c == 13 ==> Escape(c) == Ascii("\\r")
    ensures c >= 32 && c != 34 && c != 92 ==> Escape(c) == [c]
  {
  }

  lemma ControlEscapeExactly(c: CodeUnit)
    requires c < 32 && c !in {8, 9, 10, 12, 13}
    ensures Escape(c) == Ascii("\\u00") + [Ascii("01")[c / 16], Ascii("0123456789abcdef")[c % 16]]
  {
  }

  function EscapeAll(t: Text): Text {
    if t == [] then [] else Escape(t[0]) + EscapeAll(t[1..])
  }

  function Quote(t: Text): Text {
    [QUOTE] + EscapeAll(t) + [QUOTE]
  }

  function HexValue(c: CodeUnit): Option<nat> {
    if 48 <= c <= 57 then Some(c - 48)
    else if 97 <= c <= 102 then Some(c - 87)
    else if 65 <= c <= 70 then Some(c - 55)
    else None
  }

  function ReadHex4(t: Text): (r: Option<CodeUnit>) {
    if |t| < 4 then None
    else
      var (a, b, c, d) := (HexValue(t[0]), HexValue(t[1]), HexValue(t[2]), HexValue(t[3]));
      if a.Some? && b.Some? && c.Some? && d.Some? && a.value < 16 && b.value < 16 && c.value < 16 && d.value < 16
      then Some(a.value * 4096 + b.value * 256 + c.value * 16 + d.value) else None
  }

  /** The escape after a backslash: its code unit and its length. */
  function ReadEscape(t: Text): (r: Option<(CodeUnit, nat)>)
    ensures r.Some? ==> 1 <= r.value.1 <= |t|
  {
    if t == [] then None
    else if t[0] == QUOTE || t[0] == BACKSLASH || t[0] == 47 then Some((t[0], 1))
    else if t[0] == 98 then Some((8, 1))
    else if t[0] == 102 then Some((12, 1))
    else if t[0] == 110 then Some((10, 1))
    else if t[0] == 114 then Some((13, 1))
    else if t[0] == 116 then Some((9, 1))
    else if t[0] == 117 then
      match ReadHex4(t[1..])
      case None => None
      case Some(c) => Some((c, 5))
    else None
  }

  datatype Parsed<+V> = Parsed(value: V, rest: Text)

  /** The characters up to the closing quote. */
  function ReadString(t: Text): (r: Option<Parsed<Text>>)
    ensures r.Some? ==> |r.value.rest| < |t|
    decreases |t|
  {
    if t == [] || (t[0] < 32) then None
    else if t[0] == QUOTE then Some(Parsed([], t[1..]))
    else
      var (c, used) := if t[0] != BACKSLASH then (Some(t[0]), 1)
                       else match ReadEscape(t[1..])
                            case None => (None, 1)
                            case Some((e, n)) => (Some(e), 1 + n);
      if c.None? then None
      else
        match ReadString(t[used..])
        case None => None
        case Some(more) => Some(Parsed([c.value] + more.value, more.rest))
  }

  // ---- numbers ----

  function Digits(n: nat): Text {
    if n < 10 then [48 + n] else Digits(n / 10) + [48 + n % 10]
  }

  function Decimal(n: int): Text {
    if n < 0 then [MINUS] + Digits(-n) else Digits(n)
  }

  predicate IsDigit(c: CodeUnit) {
    48 <= c <= 57
  }

  function DigitCount(t: Text): (k: nat)
    ensures k <= |t| && (forall i | 0 <= i < k :: IsDigit(t[i])) && (k < |t| ==> !IsDigit(t[k]))
  {
    if t == [] || !IsDigit(t[0]) then 0 else 1 + DigitCount(t[1..])
  }

  function Value(digits: Text): nat
    requires forall i | 0 <= i < |digits| :: IsDigit(digits[i])
  {
    if digits == [] then 0
    else
      var last := digits[|digits| - 1];
      assert IsDigit(last);
      Value(digits[..|digits| - 1]) * 10 + (last - 48)
  }

  /** The decimal digits of a number, most significant first, and a minus sign before a negative one. */
  lemma DecimalExactly(n: int, d: nat)
    requires d < 10
    ensures Decimal(d) == [Ascii("0123456789")[d]]
    ensures n > 0 ==> Decimal(10 * n + d) == Decimal(n) + Decimal(d)
    ensures n > 0 ==> Decimal(-n) == Ascii("-") + Decimal(n)
  {
  }

  /** Digits without a leading zero. */
  function ReadNatural(t: Text): (r: Option<Parsed<nat>>)
    ensures r.Some? ==> |r.value.rest| < |t|
  {
    var k := DigitCount(t);
    if k == 0 || (k > 1 && t[0] == 48) then None else Some(Parsed(Value(t[..k]), t[k..]))
  }

  function ReadNumber(t: Text): (r: Option<Parsed<int>>)
    ensures r.Some? ==> |r.value.rest| < |t|
  {
    if t != [] && t[0] == MINUS then
      match ReadNatural(t[1..])
      case None => None
      case Some(p) => Some(Parsed(0 - p.value as int, p.rest))
    else
      match ReadNatural(t)
      case None => None
      case Some(p) => Some(Parsed(p.value, p.rest))
  }

  // ---- values ----

  function Write(v: Json): Text
    decreases v
  {
    match v
    case Null => NULL
    case Bool(b) => if b then TRUE else FALSE
    case Number(n) => Decimal(n)
    case Str(t) => Quote(t)
    case Arr(items) => [LBRACKET] + Join(WriteItems(items)) + [RBRACKET]
    case Obj(fields) => [LBRACE] + Join(WriteFields(fields)) + [RBRACE]
  }

  function WriteItems(items: seq<Json>): (r: seq<Text>)
    ensures |r| == |items|
    decreases items
  {
    if items == [] then [] else [Write(items[0])] + WriteItems(items[1..])
  }

  function WriteFields(fields: seq<Field<Json>>): (r: seq<Text>)
    ensures |r| == |fields|
    decreases fields
  {
    if fields == [] then [] else [Quote(fields[0].key) + [COLON] + Write(fields[0].value)] + WriteFields(fields[1..])
  }

  /** The entries with a comma between each two. */
  function Join(entries: seq<Text>): Text {
    if entries == [] then [] else if |entries| == 1 then entries[0] else entries[0] + [COMMA] + Join(entries[1..])
  }

  /** The words and the punctuation of JSON: an array or object is its first entry in front of the text of
      the rest, a string its first code unit escaped. */
  lemma WriteExactly(v: Json, items: seq<Json>, f: Field<Json>, fields: seq<Field<Json>>, c: CodeUnit, t: Text)
    ensures Write(Null) == Ascii("null") && Write(Bool(true)) == Ascii("true") && Write(Bool(false)) == Ascii("false")
    ensures Write(Arr([])) == Ascii("[]") && Write(Arr([v])) == Ascii("[") + Write(v) + Ascii("]")
    ensures items != [] ==> Write(Arr([v] + items)) == Ascii("[") + Write(v) + Ascii(",") + Write(Arr(items))[1..]
    ensures Write(Obj([])) == Ascii("{}") && Write(Obj([f])) == Ascii("{") + Write(Str(f.key)) + Ascii(":") + Write(f.value) + Ascii("}")
    ensures fields != [] ==>
              Write(Obj([f] + fields)) == Ascii("{") + Write(Str(f.key)) + Ascii(":") + Write(f.value) + Ascii(",") + Write(Obj(fields))[1..]
    ensures Write(Str([])) == Ascii("\"\"") && Write(Str([c] + t)) == Ascii("\"") + Escape(c) + Write(Str(t))[1..]
  {
    WriteWords();
    WriteArrays(v, items);
    WriteObjects(f, fields);
    WriteStrings(c, t);
  }

  lemma WriteWords()
    ensures Write(Null) == Ascii("null") && Write(Bool(true)) == Ascii("true") && Write(Bool(false)) == Ascii("false")
    ensures Write(Arr([])) == Ascii("[]") && Write(Obj([])) == Ascii("{}") && Write(Str([])) == Ascii("\"\"")
  {
  }

  lemma WriteArrays(v: Json, items: seq<Json>)
    ensures Write(Arr([v])) == Ascii("[") + Write(v) + Ascii("]")
    ensures items != [] ==> Write(Arr([v] + items)) == Ascii("[") + Write(v) + Ascii(",") + Write(Arr(items))[1..]
  {
    ItemsInFront(v, items);
    JoinExactly(Write(v), WriteItems(items));
    InFront(LBRACKET, Write(v), Join(WriteItems(items)), RBRACKET);
    hide WriteItems, Join;
  }

  lemma ItemsInFront(v: Json, items: seq<Json>)
    ensures WriteItems([v]) == [Write(v)] && WriteItems([v] + items) == [Write(v)] + WriteItems(items)
  {
    hide Write;
    assert [v][1..] == [] && ([v] + items)[1..] == items;
  }

  lemma WriteObjects(f: Field<Json>, fields: seq<Field<Json>>)
    ensures Write(Obj([f])) == Ascii("{") + Write(Str(f.key)) + Ascii(":") + Write(f.value) + Ascii("}")
    ensures fields != [] ==>
              Write(Obj([f] + fields)) == Ascii("{") + Write(Str(f.key)) + Ascii(":") + Write(f.value) + Ascii(",") + Write(Obj(fields))[1..]
  {
    var entry := Quote(f.key) + [COLON] + Write(f.value);
    FieldsInFront(f, fields);
    JoinExactly(entry, WriteFields(fields));
    InFront(LBRACE, entry, Join(WriteFields(fields)), RBRACE);
    hide WriteFields, Join, Quote;
    assert Write(Obj([f])) == [LBRACE] + entry + [RBRACE];
    assert fields != [] ==> Write(Obj([f] + fields)) == [LBRACE] + entry + [COMMA] + Write(Obj(fields))[1..];
    hide Write;
    assert [LBRACE] + entry == Ascii("{") + Quote(f.key) + Ascii(":") + Write(f.value);
  }

  lemma FieldsInFront(f: Field<Json>, fields: seq<Field<Json>>)
    ensures var entry := Quote(f.key) + [COLON] + Write(f.value);
            WriteFields([f]) == [entry] && WriteFields([f] + fields) == [entry] + WriteFields(fields)
  {
    hide Write, Quote;
    assert [f][1..] == [] && ([f] + fields)[1..] == fields;
  }

  lemma InFront(open: CodeUnit, entry: Text, rest: Text, close: CodeUnit)
    ensures [open] + (entry + [COMMA] + rest) + [close] == [open] + entry + [COMMA] + ([open] + rest + [close])[1..]
  {
  }

  lemma WriteStrings(c: CodeUnit, t: Text)
    ensures Write(Str([c] + t)) == Ascii("\"") + Escape(c) + Write(Str(t))[1..]
  {
    assert ([c] + t)[1..] == t;
    hide Escape;
  }

  lemma JoinExactly(entry: Text, entries: seq<Text>)
    ensures Join([entry]) == entry && (entries != [] ==> Join([entry] + entries) == entry + [COMMA] + Join(entries))
  {
    assert ([entry] + entries)[1..] == entries;
  }

  predicate IsSpace(c: CodeUnit) {
    c == 32 || c == 9 || c == 10 || c == 13
  }

  function SkipSpace(t: Text): (r: Text)
    ensures |r| <= |t|
  {
    if t != [] && IsSpace(t[0]) then SkipSpace(t[1..]) else t
  }

  function Keyword(t: Text, word: Text, v: Json): (r: Option<Parsed<Json>>)
    ensures r.Some? && word != [] ==> |r.value.rest| < |t|
  {
    if word <= t then Some(Parsed(v, t[|word|..])) else None
  }

  function ReadValue(text: Text): (r: Option<Parsed<Json>>)
    ensures r.Some? ==> |r.value.rest| < |text|
    decreases |text|, 1
  {
    var t := SkipSpace(text);
    if t == [] then None
    else if t[0] == NULL[0] then Keyword(t, NULL, Null)
    else if t[0] == TRUE[0] then Keyword(t, TRUE, Bool(true))
    else if t[0] == FALSE[0] then Keyword(t, FALSE, Bool(false))
    else if t[0] == QUOTE then
      match ReadString(t[1..])
      case None => None
      case Some(p) => Some(Parsed(Str(p.value), p.rest))
    else if t[0] == LBRACKET then
      var inside := SkipSpace(t[1..]);
      if inside != [] && inside[0] == RBRACKET then Some(Parsed(Arr([]), inside[1..]))
      else
        match ReadItems(inside)
        case None => None
        case Some(p) => Some(Parsed(Arr(p.value), p.rest))
    else if t[0] == LBRACE then
      var inside := SkipSpace(t[1..]);
      if inside != [] && inside[0] == RBRACE then Some(Parsed(Obj([]), inside[1..]))
      else
        match ReadFields(inside)
        case None => None
        case Some(p) => Some(Parsed(Obj(p.value), p.rest))
    else
      match ReadNumber(t)
      case None => None
      case Some(p) => Some(Parsed(Number(p.value), p.rest))
  }

  function ReadItems(text: Text): (r: Option<Parsed<seq<Json>>>)
    ensures r.Some? ==> |r.value.rest| < |text|
    decreases |text|, 2
  {
    match ReadValue(text)
    case None => None
    case Some(first) =>
      var t := SkipSpace(first.rest);
      if t != [] && t[0] == RBRACKET then Some(Parsed([first.value], t[1..]))
      else if t != [] && t[0] == COMMA then
        match ReadItems(t[1..])
        case None => None
        case Some(more) => Some(Parsed([first.value] + more.value, more.rest))
      else None
  }

  /** A key, a colon and a value. */
  function ReadField(text: Text): (r: Option<Parsed<Field<Json>>>)
    ensures r.Some? ==> |r.value.rest| < |text|
    decreases |text|, 2
  {
    var t := SkipSpace(text);
    if t == [] || t[0] != QUOTE then None
    else
      match ReadString(t[1..])
      case None => None
      case Some(key) =>
        var u := SkipSpace(key.rest);
        if u == [] || u[0] != COLON then None
        else
          match ReadValue(u[1..])
          case None => None
          case Some(p) => Some(Parsed(Field(key.value, p.value), p.rest))
  }

  /** As in `JSON.parse`, a repeated key keeps its first place and takes its last value. */
  function Define(field: Field<Json>, later: seq<Field<Json>>): seq<Field<Json>> {
    if exists f | f in later :: f.key == field.key
    then [Field(field.key, LastValue(later, field.key))] + Without(later, field.key)
    else [field] + later
  }

  function LastValue(fields: seq<Field<Json>>, key: Text): Json
    requires exists f | f in fields :: f.key == key
  {
    if fields[|fields| - 1].key == key then fields[|fields| - 1].value else LastValue(fields[..|fields| - 1], key)
  }

  function Without(fields: seq<Field<Json>>, key: Text): seq<Field<Json>> {
    if fields == [] then []
    else (if fields[0].key == key then [] else [fields[0]]) + Without(fields[1..], key)
  }

  function ReadFields(text: Text): (r: Option<Parsed<seq<Field<Json>>>>)
    ensures r.Some? ==> |r.value.rest| < |text|
    decreases |text|, 3
  {
    match ReadField(text)
    case None => None
    case Some(first) =>
      var t := SkipSpace(first.rest);
      if t != [] && t[0] == RBRACE then Some(Parsed([first.value], t[1..]))
      else if t != [] && t[0] == COMMA then
        match ReadFields(t[1..])
        case None => None
        case Some(more) => Some(Parsed(Define(first.value, more.value), more.rest))
      else None
  }

  /** The whole text as one value. */
  function Read(text: Text): Option<Json> {
    match ReadValue(text)
    case None => None
    case Some(p) => if SkipSpace(p.rest) == [] then Some(p.value) else None
  }

  // ---- round trip ----

  predicate DistinctKeys<V>(fields: seq<Field<V>>) {
    forall i, j | 0 <= i < j < |fields| :: fields[i].key != fields[j].key
  }

  /** An object never has two members with one key. */
  predicate Wellformed(v: Json)
    decreases v
  {
    match v
    case Arr(items) => forall i | 0 <= i < |items| :: Wellformed(items[i])
    case Obj(fields) => DistinctKeys(fields) && forall i | 0 <= i < |fields| :: Wellformed(fields[i].value)
    case _ => true
  }

  lemma UnescapeOne(c: CodeUnit, t: Text)
    requires ReadString(t).Some?
    ensures ReadString(Escape(c) + t) == Some(Parsed([c] + ReadString(t).value.value, ReadString(t).value.rest))
  {
    var e := Escape(c);
    var s := e + t;
    assert s[|e|..] == t;
    if c < 32 && |e| == 6 {
      assert s[1..][1..] == s[2..];
      assert ReadHex4(s[2..]) == Some(c);
      assert ReadEscape(s[1..]) == Some((c, 5));
    } else if |e| == 2 {
      assert ReadEscape(s[1..]) == Some((c, 1));
    }
  }

  lemma ClosingQuote(rest: Text)
    ensures ReadString([QUOTE] + rest) == Some(Parsed([], rest))
  {
    assert ([QUOTE] + rest)[1..] == rest;
  }

  lemma {:induction false} Unquotes(text: Text, rest: Text)
    ensures ReadString(EscapeAll(text) + [QUOTE] + rest) == Some(Parsed(text, rest))
  {
    hide ReadString, Escape;
    if text == [] {
      ClosingQuote(rest);
      assert [QUOTE] + rest == EscapeAll(text) + [QUOTE] + rest;
    } else {
      var tail := EscapeAll(text[1..]) + [QUOTE] + rest;
      Unquotes(text[1..], rest);
      UnescapeOne(text[0], tail);
      assert EscapeAll(text) + [QUOTE] + rest == Escape(text[0]) + tail;
      assert text == [text[0]] + text[1..];
    }
  }

  /** What may follow a number without being read as part of it. */
  predicate Stops(rest: Text) {
    rest == [] || !IsDigit(rest[0])
  }

  lemma {:induction false} DigitsRead(n: nat)
    ensures Digits(n) != [] && (forall i | 0 <= i < |Digits(n)| :: IsDigit(Digits(n)[i]))
    ensures Value(Digits(n)) == n && (|Digits(n)| > 1 ==> Digits(n)[0] != 48)
  {
    if n < 10 {
      assert Digits(n)[..0] == [];
    } else {
      DigitsRead(n / 10);
      var d := Digits(n / 10);
      assert Digits(n)[..|d|] == d;
    }
  }

  lemma {:induction false} CountStops(digits: Text, rest: Text)
    requires (forall i | 0 <= i < |digits| :: IsDigit(digits[i])) && Stops(rest)
    ensures DigitCount(digits + rest) == |digits|
  {
    if digits == [] {
      assert digits + rest == rest;
    } else {
      assert (digits + rest)[1..] == digits[1..] + rest;
      CountStops(digits[1..], rest);
    }
  }

  lemma NaturalReads(n: nat, rest: Text)
    requires Stops(rest)
    ensures ReadNatural(Digits(n) + rest) == Some(Parsed(n, rest))
  {
    DigitsRead(n);
    CountStops(Digits(n), rest);
    assert (Digits(n) + rest)[..|Digits(n)|] == Digits(n) && (Digits(n) + rest)[|Digits(n)|..] == rest;
  }

  lemma NumberReads(n: int, rest: Text)
    requires Stops(rest)
    ensures ReadNumber(Decimal(n) + rest) == Some(Parsed(n, rest))
  {
    var m := if n < 0 then -n else n;
    NaturalReads(m, rest);
    DigitStarts(m);
    hide ReadNatural, Digits, Stops;
    var digits := Digits(m) + rest;
    assert digits[0] == Digits(m)[0];
    if n < 0 {
      assert Decimal(n) + rest == [MINUS] + digits;
      assert ([MINUS] + digits)[1..] == digits;
    } else {
      assert Decimal(n) + rest == digits;
    }
  }

  lemma DigitStarts(n: nat)
    ensures Digits(n) != [] && IsDigit(Digits(n)[0])
  {
    DigitsRead(n);
  }

  /** No printed value starts with a space or a closing bracket. */
  lemma WriteStarts(v: Json)
    ensures Write(v) != [] && !IsSpace(Write(v)[0]) && Write(v)[0] != RBRACKET && Write(v)[0] != RBRACE
  {
    if v.Number? {
      DigitsRead(if v.n < 0 then -v.n else v.n);
    }
  }

  lemma KeywordReads(v: Json, rest: Text)
    requires v.Null? || v.Bool?
    ensures ReadValue(Write(v) + rest) == Some(Parsed(v, rest))
  {
    var word := Write(v);
    var t := word + rest;
    assert SkipSpace(t) == t;
    assert word <= t && t[|word|..] == rest;
  }

  /** Reading a printed value gives it back and stops right after it. */
  lemma {:induction false} ValueReads(v: Json, rest: Text)
    requires Wellformed(v) && Stops(rest)
    ensures ReadValue(Write(v) + rest) == Some(Parsed(v, rest))
    decreases v
  {
    match v
    case Null => KeywordReads(v, rest);
    case Bool(b) => KeywordReads(v, rest);
    case Number(n) => NumberValueReads(n, rest);
    case Str(text) => StringValueReads(text, rest);
    case Arr(items) => ArrayReads(items, rest);
    case Obj(fields) => ObjectReads(fields, rest);
  }

  lemma NumberValueReads(n: int, rest: Text)
    requires Stops(rest)
    ensures ReadValue(Write(Number(n)) + rest) == Some(Parsed(Number(n), rest))
  {
    var t := Decimal(n) + rest;
    NumberReads(n, rest);
    DigitStarts(if n < 0 then -n else n);
    hide ReadNumber, Digits;
    assert t[0] == Decimal(n)[0];
    assert SkipSpace(t) == t;
  }

  lemma StringValueReads(text: Text, rest: Text)
    ensures ReadValue(Write(Str(text)) + rest) == Some(Parsed(Str(text), rest))
  {
    var t := Quote(text) + rest;
    Unquotes(text, rest);
    hide ReadString, EscapeAll;
    assert SkipSpace(t) == t;
    assert t[1..] == EscapeAll(text) + [QUOTE] + rest;
  }

  lemma {:induction false} ArrayReads(items: seq<Json>, rest: Text)
    requires Wellformed(Arr(items))
    ensures ReadValue(Write(Arr(items)) + rest) == Some(Parsed(Arr(items), rest))
    decreases items, 1
  {
    var inside := Join(WriteItems(items)) + [RBRACKET] + rest;
    var t := [LBRACKET] + inside;
    assert Write(Arr(items)) + rest == t;
    if items == [] {
      assert inside == [RBRACKET] + rest;
    } else {
      JoinStarts(items);
      assert inside[0] == Join(WriteItems(items))[0];
      ItemsRead(items, rest);
    }
    hide ReadItems, Write, WriteItems, Join, Wellformed;
    assert SkipSpace(t) == t && t[1..] == inside;
    assert SkipSpace(inside) == inside;
  }

  lemma JoinStarts(items: seq<Json>)
    requires items != []
    ensures Join(WriteItems(items)) != [] && !IsSpace(Join(WriteItems(items))[0]) && Join(WriteItems(items))[0] != RBRACKET
  {
    WriteStarts(items[0]);
  }

  lemma {:induction false} ItemsRead(items: seq<Json>, rest: Text)
    requires items != [] && Wellformed(Arr(items))
    ensures ReadItems(Join(WriteItems(items)) + [RBRACKET] + rest) == Some(Parsed(items, rest))
    decreases items, 0
  {
    hide ReadValue, Write;
    var entries := WriteItems(items);
    var text := Join(entries) + [RBRACKET] + rest;
    if |items| == 1 {
      ValueReads(items[0], [RBRACKET] + rest);
      assert text == Write(items[0]) + ([RBRACKET] + rest);
      assert ([RBRACKET] + rest)[1..] == rest;
      assert items == [items[0]];
    } else {
      var tail := Join(entries[1..]) + [RBRACKET] + rest;
      ValueReads(items[0], [COMMA] + tail);
      assert entries[1..] == WriteItems(items[1..]);
      assert text == Write(items[0]) + ([COMMA] + tail);
      assert ([COMMA] + tail)[1..] == tail;
      ItemsRead(items[1..], rest);
      assert items == [items[0]] + items[1..];
    }
  }

  lemma FieldsStart(fields: seq<Field<Json>>)
    requires fields != []
    ensures Join(WriteFields(fields)) != [] && Join(WriteFields(fields))[0] == QUOTE
  {
  }

  /** A brace, then either its closing brace or fields. */
  lemma BracesRead(inside: Text, fields: seq<Field<Json>>, rest: Text)
    requires if fields == [] then inside == [RBRACE] + rest
             else inside != [] && inside[0] == QUOTE && ReadFields(inside) == Some(Parsed(fields, rest))
    ensures ReadValue([LBRACE] + inside) == Some(Parsed(Obj(fields), rest))
  {
    hide ReadFields;
    var t := [LBRACE] + inside;
    assert SkipSpace(t) == t && t[1..] == inside;
    assert SkipSpace(inside) == inside;
  }

  lemma {:induction false} ObjectReads(fields: seq<Field<Json>>, rest: Text)
    requires Wellformed(Obj(fields))
    ensures ReadValue(Write(Obj(fields)) + rest) == Some(Parsed(Obj(fields), rest))
    decreases fields, 2
  {
    var inside := Join(WriteFields(fields)) + [RBRACE] + rest;
    assert Write(Obj(fields)) + rest == [LBRACE] + inside;
    if fields == [] {
      assert inside == [RBRACE] + rest;
    } else {
      FieldsStart(fields);
      assert inside[0] == QUOTE;
      FieldsRead(fields, rest);
    }
    hide ReadFields, ReadValue, Write, WriteFields, Join, Wellformed, Quote;
    BracesRead(inside, fields, rest);
  }

  lemma {:induction false} FieldReads(field: Field<Json>, rest: Text)
    requires Wellformed(field.value) && Stops(rest)
    ensures ReadField(Quote(field.key) + [COLON] + Write(field.value) + rest) == Some(Parsed(field, rest))
    decreases field
  {
    hide ReadString, ReadValue, EscapeAll, Write;
    var after := [COLON] + Write(field.value) + rest;
    var text := Quote(field.key) + [COLON] + Write(field.value) + rest;
    assert text == Quote(field.key) + after;
    assert SkipSpace(text) == text;
    assert text[1..] == EscapeAll(field.key) + [QUOTE] + after;
    Unquotes(field.key, after);
    assert SkipSpace(after) == after && after[1..] == Write(field.value) + rest;
    ValueReads(field.value, rest);
  }

  lemma LastField(text: Text, field: Field<Json>, rest: Text)
    requires ReadField(text) == Some(Parsed(field, [RBRACE] + rest))
    ensures ReadFields(text) == Some(Parsed([field], rest))
  {
    hide ReadField;
    assert ([RBRACE] + rest)[1..] == rest;
  }

  lemma NextField(text: Text, first: Field<Json>, tail: Text, more: seq<Field<Json>>, rest: Text)
    requires ReadField(text) == Some(Parsed(first, [COMMA] + tail))
    requires ReadFields(tail) == Some(Parsed(more, rest)) && forall f | f in more :: f.key != first.key
    ensures ReadFields(text) == Some(Parsed([first] + more, rest))
  {
    hide ReadField;
    assert ([COMMA] + tail)[1..] == tail;
  }

  lemma {:induction false} FieldsRead(fields: seq<Field<Json>>, rest: Text)
    requires fields != [] && Wellformed(Obj(fields))
    ensures ReadFields(Join(WriteFields(fields)) + [RBRACE] + rest) == Some(Parsed(fields, rest))
    decreases fields, 1
  {
    hide ReadField, ReadFields, Write, Quote;
    var entries := WriteFields(fields);
    var text := Join(entries) + [RBRACE] + rest;
    if |fields| == 1 {
      FieldReads(fields[0], [RBRACE] + rest);
      assert text == Quote(fields[0].key) + [COLON] + Write(fields[0].value) + ([RBRACE] + rest);
      LastField(text, fields[0], rest);
      assert fields == [fields[0]];
    } else {
      var tail := Join(entries[1..]) + [RBRACE] + rest;
      FieldReads(fields[0], [COMMA] + tail);
      assert entries[1..] == WriteFields(fields[1..]);
      assert text == Quote(fields[0].key) + [COLON] + Write(fields[0].value) + ([COMMA] + tail);
      FieldsRead(fields[1..], rest);
      NextField(text, fields[0], tail, fields[1..], rest);
      assert fields == [fields[0]] + fields[1..];
    }
  }

  /** The reader undoes the printer on every value. */
  lemma ReadUndoesWrite(v: Json)
    requires Wellformed(v)
    ensures Read(Write(v)) == Some(v)
  {
    ValueReads(v, []);
    assert Write(v) + [] == Write(v);
  }

  lemma {:induction false} WithoutMembers(fields: seq<Field<Json>>, key: Text)
    ensures forall f | f in Without(fields, key) :: f in fields && f.key != key
  {
    if fields != [] {
      WithoutMembers(fields[1..], key);
    }
  }

  lemma {:induction false} WithoutStaysDistinct(fields: seq<Field<Json>>, key: Text)
    requires DistinctKeys(fields)
    ensures DistinctKeys(Without(fields, key))
  {
    if fields != [] {
      var rest := Without(fields[1..], key);
      WithoutStaysDistinct(fields[1..], key);
      WithoutMembers(fields[1..], key);
      forall i | 0 <= i < |rest|
        ensures rest[i].key != fields[0].key
      {
        assert rest[i] in fields[1..];
      }
    }
  }

  lemma {:induction false} LastValueMember(fields: seq<Field<Json>>, key: Text)
    requires exists f | f in fields :: f.key == key
    ensures Field(key, LastValue(fields, key)) in fields
  {
    if fields[|fields| - 1].key != key {
      LastValueMember(fields[..|fields| - 1], key);
    } else {
      assert fields[|fields| - 1] == Field(key, LastValue(fields, key));
    }
  }

  lemma DefineWellformed(field: Field<Json>, later: seq<Field<Json>>)
    requires Wellformed(field.value) && Wellformed(Obj(later))
    ensures Wellformed(Obj(Define(field, later)))
  {
    var r := Define(field, later);
    if exists f | f in later :: f.key == field.key {
      WithoutMembers(later, field.key);
      WithoutStaysDistinct(later, field.key);
      LastValueMember(later, field.key);
      forall i | 0 <= i < |r| ensures Wellformed(r[i].value) {
        if i > 0 {
          assert r[i] in Without(later, field.key);
        }
      }
      forall j | 0 < j < |r| ensures r[j].key != r[0].key {
        assert r[j] in Without(later, field.key);
      }
    }
  }

  /** Whatever text is read, every object comes out with one member per key. */
  lemma {:induction false} ReadWellformed(text: Text)
    ensures ReadValue(text).Some? ==> Wellformed(ReadValue(text).value.value)
    decreases |text|, 1
  {
    var t := SkipSpace(text);
    if t != [] && (t[0] == LBRACKET || t[0] == LBRACE) {
      var inside := SkipSpace(t[1..]);
      if t[0] == LBRACKET {
        ReadItemsWellformed(inside);
      } else {
        ReadFieldsWellformed(inside);
      }
    }
  }

  lemma {:induction false} ReadItemsWellformed(text: Text)
    ensures ReadItems(text).Some? ==> Wellformed(Arr(ReadItems(text).value.value))
    decreases |text|, 2
  {
    ReadWellformed(text);
    if ReadValue(text).Some? {
      var t := SkipSpace(ReadValue(text).value.rest);
      if t != [] {
        ReadItemsWellformed(t[1..]);
      }
    }
  }

  lemma {:induction false} ReadFieldWellformed(text: Text)
    ensures ReadField(text).Some? ==> Wellformed(ReadField(text).value.value.value)
    decreases |text|, 2
  {
    var t := SkipSpace(text);
    if t != [] && ReadString(t[1..]).Some? {
      var u := SkipSpace(ReadString(t[1..]).value.rest);
      if u != [] {
        ReadWellformed(u[1..]);
      }
    }
  }

  lemma {:induction false} ReadFieldsWellformed(text: Text)
    ensures ReadFields(text).Some? ==> Wellformed(Obj(ReadFields(text).value.value))
    decreases |text|, 3
  {
    ReadFieldWellformed(text);
    if ReadField(text).Some? {
      var first := ReadField(text).value;
      var t := SkipSpace(first.rest);
      if t != [] {
        ReadFieldsWellformed(t[1..]);
        if ReadFields(t[1..]).Some? {
          DefineWellformed(first.value, ReadFields(t[1..]).value.value);
        }
      }
    }
  }
}
