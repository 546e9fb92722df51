/**
 * The canonical text of a JSON value: keys sorted, array order kept. It decides whether two
 * facts are the same one, so it must be injective up to the order of object keys. A reader that
 * inverts it proves that.
 */
module CanonicalJson {
  import opened Wrappers
  import opened NumberText

  const QUOTE: CodeUnit := 0x22
  const COMMA: CodeUnit := 0x2C
  const COLON: CodeUnit := 0x3A
  const OPEN_ARRAY: CodeUnit := 0x5B
  const BACKSLASH: CodeUnit := 0x5C
  const CLOSE_ARRAY: CodeUnit := 0x5D
  const OPEN_OBJECT: CodeUnit := 0x7B
  const CLOSE_OBJECT: CodeUnit := 0x7D
  const NULL_TEXT: Text := [0x6E, 0x75, 0x6C, 0x6C]
  const TRUE_TEXT: Text := [0x74, 0x72, 0x75, 0x65]
  const FALSE_TEXT: Text := [0x66, 0x61, 0x6C, 0x73, 0x65]

  /** NaN and the infinities print as null; a negative zero prints as zero. */
  datatype Number = NotFinite | NegativeZero | Finite(decimal: Decimal)

  /** A value as the program holds it: an object enumerates its distinct keys in some order. */
  datatype Json =
    | Null
    | Bool(flag: bool)
    | Num(number: Number)
    | Str(text: Text)
    | Arr(items: seq<Json>)
    | Obj(fields: seq<Field>)

  datatype Field = Field(key: Text, value: Json)

  /** The value as a fact: objects are maps, so the order of their keys is gone. */
  datatype Fact =
    | FNull
    | FBool(flag: bool)
    | FNum(decimal: Decimal)
    | FStr(text: Text)
    | FArr(items: seq<Fact>)
    | FObj(fields: map<Text, Fact>)

  // ---------- strings ----------

  predicate IsHigh(u: CodeUnit) { 0xD800 <= u <= 0xDBFF }

  predicate IsLow(u: CodeUnit) { 0xDC00 <= u <= 0xDFFF }

  /** A surrogate that is not half of a pair is escaped. */
  predicate Lone(s: Text, i: nat)
    requires i < |s|
  {
    || (IsHigh(s[i]) && !(i + 1 < |s| && IsLow(s[i + 1])))
    || (IsLow(s[i]) && !(0 < i && IsHigh(s[i - 1])))
  }

  function HexDigit(d: int): CodeUnit
    requires 0 <= d < 16
  {
    if d < 10 then ZERO + d else 0x61 + d - 10
  }

  function HexValue(c: CodeUnit): int {
    if c < 0x61 then c - ZERO else c - 0x61 + 10
  }

  function FromHex(a: CodeUnit, b: CodeUnit, c: CodeUnit, d: CodeUnit): int {
    4096 * HexValue(a) + 256 * HexValue(b) + 16 * HexValue(c) + HexValue(d)
  }

  function UnicodeEscape(u: CodeUnit): Text {
    [BACKSLASH, 0x75, HexDigit(u / 4096), HexDigit(u / 256 % 16), HexDigit(u / 16 % 16), HexDigit(u % 16)]
  }

  /** The letter of a two-character escape; 0 when there is none. */
  function ShortEscape(u: CodeUnit): CodeUnit {
    if u == 0x08 then 0x62
    else if u == 0x09 then 0x74
    else if u == 0x0A then 0x6E
    else if u == 0x0C then 0x66
    else if u == 0x0D then 0x72
    else if u == QUOTE then QUOTE
    else if u == BACKSLASH then BACKSLASH
    else 0
  }

  function UnitText(u: CodeUnit, lone: bool): Text {
    if ShortEscape(u) != 0 then [BACKSLASH, ShortEscape(u)]
    else if u < 0x20 || lone then UnicodeEscape(u)
    else [u]
  }

  function Escaped(s: Text, i: nat): Text
    requires i <= |s|
    decreases |s| - i
  {
    if i == |s| then [QUOTE] else UnitText(s[i], Lone(s, i)) + Escaped(s, i + 1)
  }

  function Quoted(s: Text): Text {
    [QUOTE] + Escaped(s, 0)
  }

  // ---------- sorted keys ----------

  predicate KeyLess(a: Text, b: Text) {
    b != [] && (a == [] || a[0] < b[0] || (a[0] == b[0] && KeyLess(a[1..], b[1..])))
  }

  function Insert(key: Text, sorted: seq<Text>): seq<Text> {
    if sorted == [] || !KeyLess(sorted[0], key) then [key] + sorted else [sorted[0]] + Insert(key, sorted[1..])
  }

  function Sorted(keys: seq<Text>): seq<Text> {
    if keys == [] then [] else Insert(keys[0], Sorted(keys[1..]))
  }

  function Keys(fields: seq<Field>): (keys: seq<Text>)
    ensures |keys| == |fields| && forall i :: 0 <= i < |keys| ==> keys[i] == fields[i].key
  {
    seq(|fields|, i requires 0 <= i < |fields| => fields[i].key)
  }

  function Place(fields: seq<Field>, key: Text): (i: nat)
    requires key in Keys(fields)
    ensures i < |fields| && fields[i].key == key
  {
    var last := |fields| - 1;
    if fields[last].key == key then last
    else
      assert Keys(fields) == Keys(fields[..last]) + [fields[last].key];
      Place(fields[..last], key)
  }

  // ---------- the canonical text ----------

  function NumberJson(n: Number): Text {
    match n
    case NotFinite => NULL_TEXT
    case NegativeZero => [ZERO]
    case Finite(d) => Printed(d)
  }

  function Canonical(v: Json): Text
    decreases v, 1, 0
  {
    match v
    case Null => NULL_TEXT
    case Bool(flag) => if flag then TRUE_TEXT else FALSE_TEXT
    case Num(number) => NumberJson(number)
    case Str(text) => Quoted(text)
    case Arr(items) => [OPEN_ARRAY] + if items == [] then [CLOSE_ARRAY] else ItemsText(v, 0)
    case Obj(fields) =>
      var keys := Sorted(Keys(fields));
      SortedKeepsKeys(Keys(fields));
      [OPEN_OBJECT] + if keys == [] then [CLOSE_OBJECT] else EntriesText(v, keys)
  }

  /** The items from `i` on, separated by commas, and the closing bracket. */
  function ItemsText(v: Json, i: nat): Text
    requires v.Arr? && i < |v.items|
    decreases v, 0, |v.items| - i, 1
  {
    Canonical(v.items[i]) + ItemsTail(v, i)
  }

  function ItemsTail(v: Json, i: nat): Text
    requires v.Arr? && i < |v.items|
    decreases v, 0, |v.items| - i, 0
  {
    if i + 1 == |v.items| then [CLOSE_ARRAY] else [COMMA] + ItemsText(v, i + 1)
  }

  /** One entry for each key, in this order, separated by commas, and the closing brace. */
  function EntriesText(v: Json, keys: seq<Text>): Text
    requires v.Obj? && keys != [] && forall k :: k in keys ==> k in Keys(v.fields)
    decreases v, 0, |keys|
  {
    Quoted(keys[0]) + [COLON] + Canonical(v.fields[Place(v.fields, keys[0])].value)
      + if |keys| == 1 then [CLOSE_OBJECT] else [COMMA] + EntriesText(v, keys[1..])
  }

  lemma {:induction false} InsertKeepsKeys(key: Text, sorted: seq<Text>)
    ensures |Insert(key, sorted)| == |sorted| + 1
    ensures forall k :: k in Insert(key, sorted) <==> k == key || k in sorted
  {
    if sorted != [] && KeyLess(sorted[0], key) {
      InsertKeepsKeys(key, sorted[1..]);
    }
  }

  lemma {:induction false} SortedKeepsKeys(keys: seq<Text>)
    ensures |Sorted(keys)| == |keys|
    ensures forall k :: k in Sorted(keys) <==> k in keys
  {
    if keys != [] {
      SortedKeepsKeys(keys[1..]);
      InsertKeepsKeys(keys[0], Sorted(keys[1..]));
    }
  }

  // ---------- the fact a value stands for ----------

  /** An object has each key once, and a finite number is written with its shortest digits. */
  predicate Proper(v: Json)
    decreases v
  {
    match v
    case Num(number) => number.Finite? ==> Shortest(number.decimal)
    case Arr(items) => forall i :: 0 <= i < |items| ==> Proper(items[i])
    case Obj(fields) =>
      && (forall i :: 0 <= i < |fields| ==> Proper(fields[i].value))
      && (forall i, j :: 0 <= i < j < |fields| ==> fields[i].key != fields[j].key)
    case _ => true
  }

  function NumberFact(n: Number): Fact {
    match n
    case NotFinite => FNull
    case NegativeZero => FNum(Decimal(false, [], 0))
    case Finite(d) => FNum(d)
  }

  function FactOf(v: Json): Fact
    decreases v
  {
    match v
    case Null => FNull
    case Bool(flag) => FBool(flag)
    case Num(number) => NumberFact(number)
    case Str(text) => FStr(text)
    case Arr(items) => FArr(seq(|items|, i requires 0 <= i < |items| => FactOf(items[i])))
    case Obj(fields) =>
      FObj(map k | k in Keys(fields) :: FactOf(fields[Place(fields, k)].value))
  }

  // ---------- a reader ----------

  /** The escape after a backslash: the unit and what follows. */
  function ReadEscape(t: Text): Option<(CodeUnit, Text)> {
    if t == [] then None
    else if t[0] == 0x75 then
      if |t| < 5 then None
      else
        var u := FromHex(t[1], t[2], t[3], t[4]);
        if 0 <= u < 0x1_0000 then Some((u, t[5..])) else None
    else if t[0] == 0x62 then Some((0x08, t[1..]))
    else if t[0] == 0x74 then Some((0x09, t[1..]))
    else if t[0] == 0x6E then Some((0x0A, t[1..]))
    else if t[0] == 0x66 then Some((0x0C, t[1..]))
    else if t[0] == 0x72 then Some((0x0D, t[1..]))
    else Some((t[0], t[1..]))
  }

  /** A string up to its closing quote, and what follows. */
  function ReadString(t: Text): (r: Option<(Text, Text)>)
    ensures r.Some? ==> |r.value.1| < |t|
    decreases |t|
  {
    if t == [] then None
    else if t[0] == QUOTE then Some(([], t[1..]))
    else if t[0] == BACKSLASH then
      match ReadEscape(t[1..])
      case None => None
      case Some((u, rest)) =>
        match ReadString(rest)
        case None => None
        case Some((s, after)) => Some(([u] + s, after))
    else
      match ReadString(t[1..])
      case None => None
      case Some((s, after)) => Some(([t[0]] + s, after))
  }

  /** How many number characters lead the text. */
  function NumberRun(t: Text): (n: nat)
    ensures n <= |t|
  {
    if t == [] || !IsNumberChar(t[0]) then 0 else 1 + NumberRun(t[1..])
  }

  function ReadValue(t: Text): (r: Option<(Fact, Text)>)
    ensures r.Some? ==> |r.value.1| < |t|
    decreases |t|, 1
  {
    if t == [] then None
    else if NULL_TEXT <= t then Some((FNull, t[4..]))
    else if TRUE_TEXT <= t then Some((FBool(true), t[4..]))
    else if FALSE_TEXT <= t then Some((FBool(false), t[5..]))
    else if t[0] == QUOTE then
      match ReadString(t[1..])
      case None => None
      case Some((s, rest)) => Some((FStr(s), rest))
    else if t[0] == OPEN_ARRAY then
      if |t| > 1 && t[1] == CLOSE_ARRAY then Some((FArr([]), t[2..]))
      else
        match ReadItems(t[1..])
        case None => None
        case Some((items, rest)) => Some((FArr(items), rest))
    else if t[0] == OPEN_OBJECT then
      if |t| > 1 && t[1] == CLOSE_OBJECT then Some((FObj(map[]), t[2..]))
      else
        match ReadEntries(t[1..])
        case None => None
        case Some((fields, rest)) => Some((FObj(fields), rest))
    else
      var n := NumberRun(t);
      if n == 0 then None else Some((FNum(ReadNumber(t[..n])), t[n..]))
  }

  function ReadItems(t: Text): (r: Option<(seq<Fact>, Text)>)
    ensures r.Some? ==> |r.value.1| < |t|
    decreases |t|, 2
  {
    match ReadValue(t)
    case None => None
    case Some((item, rest)) =>
      if rest == [] then None
      else if rest[0] == CLOSE_ARRAY then Some(([item], rest[1..]))
      else if rest[0] == COMMA then
        match ReadItems(rest[1..])
        case None => None
        case Some((items, after)) => Some(([item] + items, after))
      else None
  }

  function ReadEntries(t: Text): (r: Option<(map<Text, Fact>, Text)>)
    ensures r.Some? ==> |r.value.1| < |t|
    decreases |t|, 2
  {
    if t == [] || t[0] != QUOTE then None
    else
      match ReadString(t[1..])
      case None => None
      case Some((key, colon)) =>
        if colon == [] || colon[0] != COLON then None
        else
          match ReadValue(colon[1..])
          case None => None
          case Some((value, rest)) =>
            if rest == [] then None
            else if rest[0] == CLOSE_OBJECT then Some((map[key := value], rest[1..]))
            else if rest[0] == COMMA then
              match ReadEntries(rest[1..])
              case None => None
              case Some((fields, after)) => Some((fields[key := value], after))
            else None
  }

  // ---------- the reader inverts the printer ----------

  lemma Nibbles(u: int)
    ensures u == 4096 * (u / 4096) + 256 * (u / 256 % 16) + 16 * (u / 16 % 16) + u % 16
  {
  }

  lemma HexDigitRoundTrip(d: int)
    requires 0 <= d < 16
    ensures HexValue(HexDigit(d)) == d
  {
  }

  lemma FromHexInverts(u: CodeUnit)
    ensures FromHex(HexDigit(u / 4096), HexDigit(u / 256 % 16), HexDigit(u / 16 % 16), HexDigit(u % 16)) == u
  {
    HexDigitRoundTrip(u / 4096);
    HexDigitRoundTrip(u / 256 % 16);
    HexDigitRoundTrip(u / 16 % 16);
    HexDigitRoundTrip(u % 16);
    Nibbles(u);
  }

  lemma HexRoundTrip(u: CodeUnit, rest: Text)
    ensures ReadEscape(UnicodeEscape(u)[1..] + rest) == Some((u, rest))
  {
    FromHexInverts(u);
    assert (UnicodeEscape(u)[1..] + rest)[5..] == rest;
  }

  lemma UnitRoundTrip(u: CodeUnit, lone: bool, t: Text, s: Text, rest: Text)
    requires ReadString(t) == Some((s, rest))
    ensures ReadString(UnitText(u, lone) + t) == Some(([u] + s, rest))
  {
    var whole := UnitText(u, lone) + t;
    if ShortEscape(u) != 0 {
      assert whole[1..][1..] == t;
    } else if u < 0x20 || lone {
      HexRoundTrip(u, t);
      assert whole[1..] == UnicodeEscape(u)[1..] + t;
    } else {
      assert whole[1..] == t;
    }
  }

  lemma {:induction false} StringRoundTrip(s: Text, i: nat, rest: Text)
    requires i <= |s|
    ensures ReadString(Escaped(s, i) + rest) == Some((s[i..], rest))
    decreases |s| - i
  {
    if i == |s| {
      assert ([QUOTE] + rest)[1..] == rest;
    } else {
      var unit, tail := UnitText(s[i], Lone(s, i)), Escaped(s, i + 1);
      StringRoundTrip(s, i + 1, rest);
      UnitRoundTrip(s[i], Lone(s, i), tail + rest, s[i + 1..], rest);
      Associative(unit, tail, rest);
      assert s[i..] == [s[i]] + s[i + 1..];
    }
  }

  lemma Associative(a: Text, b: Text, c: Text)
    ensures (a + b) + c == a + (b + c)
  {
  }

  /** Where a value may end: at the end of the text, or before a separator. */
  predicate Ends(rest: Text) {
    rest == [] || rest[0] in {COMMA, CLOSE_ARRAY, CLOSE_OBJECT}
  }

  lemma {:induction false} RunIs(number: Text, rest: Text)
    requires AllNumberChars(number) && Ends(rest)
    ensures NumberRun(number + rest) == |number|
  {
    if number == [] {
      assert number + rest == rest;
    } else {
      assert (number + rest)[1..] == number[1..] + rest;
      RunIs(number[1..], rest);
    }
  }

  lemma WordReads(word: Text, rest: Text)
    ensures word <= word + rest && (word + rest)[|word|..] == rest
  {
  }

  lemma NumberReads(d: Decimal, rest: Text)
    requires Shortest(d) && Ends(rest)
    ensures ReadValue(Printed(d) + rest) == Some((FNum(d), rest))
  {
    var text := Printed(d);
    NumberRoundTrip(d);
    PrintedChars(d);
    RunReads(text, rest);
  }

  /** A text that starts as no word, string, array or object does is read as its run of number characters. */
  lemma RunReads(number: Text, rest: Text)
    requires number != [] && AllNumberChars(number) && Ends(rest)
    ensures ReadValue(number + rest) == Some((FNum(ReadNumber(number)), rest))
  {
    var t := number + rest;
    RunIs(number, rest);
    WordReads(number, rest);
    assert t[..|number|] == number && t[0] == number[0] && IsNumberChar(t[0]);
  }

  lemma FirstUnit(v: Json)
    requires Proper(v)
    ensures Canonical(v) != [] && Canonical(v)[0] !in {CLOSE_ARRAY, CLOSE_OBJECT}
  {
  }

  lemma ScalarReads(v: Json, rest: Text)
    requires Proper(v) && Ends(rest) && !v.Arr? && !v.Obj?
    ensures ReadValue(Canonical(v) + rest) == Some((FactOf(v), rest))
  {
    WordReads(Canonical(v), rest);
    match v
    case Num(number) =>
      if number.Finite? {
        NumberReads(number.decimal, rest);
      } else if number.NegativeZero? {
        NumberReads(Decimal(false, [], 0), rest);
      }
    case Str(s) =>
      StringRoundTrip(s, 0, rest);
      assert (Canonical(v) + rest)[1..] == Escaped(s, 0) + rest;
    case Bool(flag) =>
      assert (Canonical(v) + rest)[0] == if flag then TRUE_TEXT[0] else FALSE_TEXT[0];
      assert |TRUE_TEXT| == 4 && |FALSE_TEXT| == 5;
    case Null =>
      assert |NULL_TEXT| == 4;
  }

  // One step of the reader on an array, an object, an item or an entry.

  lemma ArrayReads(body: Text, items: seq<Fact>, rest: Text)
    requires ReadItems(body) == Some((items, rest)) && body != [] && body[0] != CLOSE_ARRAY
    ensures ReadValue([OPEN_ARRAY] + body) == Some((FArr(items), rest))
  {
    assert ([OPEN_ARRAY] + body)[1..] == body;
  }

  lemma ObjectReads(body: Text, fields: map<Text, Fact>, rest: Text)
    requires ReadEntries(body) == Some((fields, rest)) && body != [] && body[0] == QUOTE
    ensures ReadValue([OPEN_OBJECT] + body) == Some((FObj(fields), rest))
  {
    assert ([OPEN_OBJECT] + body)[1..] == body;
  }

  lemma ItemReads(t: Text, item: Fact, tail: Text, rest: Text)
    requires ReadValue(t) == Some((item, tail)) && tail == [CLOSE_ARRAY] + rest
    ensures ReadItems(t) == Some(([item], rest))
  {
  }

  lemma MoreItemsRead(t: Text, item: Fact, tail: Text, more: Text, items: seq<Fact>, rest: Text)
    requires ReadValue(t) == Some((item, tail)) && tail == [COMMA] + more && ReadItems(more) == Some((items, rest))
    ensures ReadItems(t) == Some(([item] + items, rest))
  {
  }

  lemma KeyReads(key: Text, after: Text)
    ensures
      var t := Quoted(key) + after;
      t[0] == QUOTE && ReadString(t[1..]) == Some((key, after))
  {
    StringRoundTrip(key, 0, after);
    assert (Quoted(key) + after)[1..] == Escaped(key, 0) + after;
  }

  lemma EntryReads(key: Text, t: Text, value: Fact, tail: Text, rest: Text)
    requires ReadValue(t) == Some((value, tail)) && tail == [CLOSE_OBJECT] + rest
    ensures ReadEntries(Quoted(key) + ([COLON] + t)) == Some((map[key := value], rest))
  {
    KeyReads(key, [COLON] + t);
    assert ([COLON] + t)[1..] == t;
    assert tail[1..] == rest;
  }

  lemma MoreEntriesRead(key: Text, t: Text, value: Fact, tail: Text, more: Text, fields: map<Text, Fact>, rest: Text)
    requires ReadValue(t) == Some((value, tail)) && tail == [COMMA] + more && ReadEntries(more) == Some((fields, rest))
    ensures ReadEntries(Quoted(key) + ([COLON] + t)) == Some((fields[key := value], rest))
  {
    KeyReads(key, [COLON] + t);
    assert ([COLON] + t)[1..] == t;
    assert tail[1..] == more;
  }

  lemma EntrySplits(quoted: Text, value: Text, tail: Text, rest: Text)
    ensures (quoted + [COLON] + value + tail) + rest == quoted + ([COLON] + (value + (tail + rest)))
  {
  }

  lemma EmptyReads(v: Json, rest: Text)
    requires v == Arr([]) || v == Obj([])
    ensures ReadValue(Canonical(v) + rest) == Some((FactOf(v), rest))
  {
    var t := Canonical(v) + rest;
    assert t[2..] == rest;
    if v.Obj? {
      assert Keys(v.fields) == [];
      assert t[0] == OPEN_OBJECT && t[1] == CLOSE_OBJECT;
      assert FactOf(v).fields == map[];
    } else {
      assert t[0] == OPEN_ARRAY && t[1] == CLOSE_ARRAY;
      assert FactOf(v).items == [];
    }
  }

  /** The reader gets back from the canonical text exactly the fact the value stands for. */
  lemma {:induction false} ReadsBack(v: Json, rest: Text)
    requires Proper(v) && Ends(rest)
    ensures ReadValue(Canonical(v) + rest) == Some((FactOf(v), rest))
    decreases v, 1, 0
  {
    if v.Arr? && v.items != [] {
      ItemsReadBack(v, 0, rest);
      FirstUnit(v.items[0]);
      ArrayReads(ItemsText(v, 0) + rest, FactOf(v).items, rest);
      Associative([OPEN_ARRAY], ItemsText(v, 0), rest);
    } else if v.Obj? && v.fields != [] {
      var keys := Sorted(Keys(v.fields));
      SortedKeepsKeys(Keys(v.fields));
      EntriesReadBack(v, keys, rest);
      FactsAtAllKeys(v, keys);
      ObjectReads(EntriesText(v, keys) + rest, FactOf(v).fields, rest);
      Associative([OPEN_OBJECT], EntriesText(v, keys), rest);
    } else if v.Arr? || v.Obj? {
      EmptyReads(v, rest);
    } else {
      ScalarReads(v, rest);
    }
  }

  lemma {:induction false} ItemsReadBack(v: Json, i: nat, rest: Text)
    requires v.Arr? && Proper(v) && Ends(rest) && i < |v.items|
    ensures ReadItems(ItemsText(v, i) + rest) == Some((FactOf(v).items[i..], rest))
    decreases v, 0, |v.items| - i
  {
    var item, tail := Canonical(v.items[i]), ItemsTail(v, i);
    ReadsBack(v.items[i], tail + rest);
    Associative(item, tail, rest);
    if i + 1 == |v.items| {
      ItemReads(item + (tail + rest), FactOf(v.items[i]), tail + rest, rest);
    } else {
      ItemsReadBack(v, i + 1, rest);
      Associative([COMMA], ItemsText(v, i + 1), rest);
      MoreItemsRead(item + (tail + rest), FactOf(v.items[i]), tail + rest, ItemsText(v, i + 1) + rest,
                    FactOf(v).items[i + 1..], rest);
    }
    FactsFrom(v, i);
  }

  lemma FactsFrom(v: Json, i: nat)
    requires v.Arr? && i < |v.items|
    ensures FactOf(v).items[i..]
      == if i + 1 == |v.items| then [FactOf(v.items[i])] else [FactOf(v.items[i])] + FactOf(v).items[i + 1..]
  {
    var facts := FactOf(v).items;
    assert |facts| == |v.items| && facts[i] == FactOf(v.items[i]);
    assert facts[i..] == [facts[i]] + facts[i + 1..];
  }

  /** The part of an object's fact that a list of its keys covers. */
  function FactsAt(v: Json, keys: seq<Text>): map<Text, Fact>
    requires v.Obj? && forall k :: k in keys ==> k in Keys(v.fields)
  {
    map k | k in keys :: FactOf(v.fields[Place(v.fields, k)].value)
  }

  lemma FactsAtAllKeys(v: Json, keys: seq<Text>)
    requires v.Obj? && forall k :: k in keys <==> k in Keys(v.fields)
    ensures FactsAt(v, keys) == FactOf(v).fields
  {
  }

  lemma FactsAtOneMore(v: Json, keys: seq<Text>)
    requires v.Obj? && keys != [] && forall k :: k in keys ==> k in Keys(v.fields)
    ensures FactsAt(v, keys) == FactsAt(v, keys[1..])[keys[0] := FactOf(v.fields[Place(v.fields, keys[0])].value)]
  {
  }

  lemma {:induction false} EntriesReadBack(v: Json, keys: seq<Text>, rest: Text)
    requires v.Obj? && Proper(v) && Ends(rest) && keys != [] && forall k :: k in keys ==> k in Keys(v.fields)
    ensures ReadEntries(EntriesText(v, keys) + rest) == Some((FactsAt(v, keys), rest))
    decreases v, 0, |keys|
  {
    var value := v.fields[Place(v.fields, keys[0])].value;
    var text := Canonical(value);
    var tail := if |keys| == 1 then [CLOSE_OBJECT] else [COMMA] + EntriesText(v, keys[1..]);
    ReadsBack(value, tail + rest);
    EntrySplits(Quoted(keys[0]), text, tail, rest);
    FactsAtOneMore(v, keys);
    if |keys| == 1 {
      EntryReads(keys[0], text + (tail + rest), FactOf(value), tail + rest, rest);
      assert FactsAt(v, keys[1..]) == map[];
    } else {
      EntriesReadBack(v, keys[1..], rest);
      Associative([COMMA], EntriesText(v, keys[1..]), rest);
      MoreEntriesRead(keys[0], text + (tail + rest), FactOf(value), tail + rest, EntriesText(v, keys[1..]) + rest,
                      FactsAt(v, keys[1..]), rest);
    }
  }

  // ---------- sorting is canonical ----------

  lemma {:induction false} KeyOrder(a: Text, b: Text)
    ensures KeyLess(a, b) ==> !KeyLess(b, a)
    ensures a == b || KeyLess(a, b) || KeyLess(b, a)
    ensures !KeyLess(a, a)
  {
    if a != [] {
      KeyOrder(a[1..], if b == [] then [] else b[1..]);
      assert b != [] && a[0] == b[0] && a[1..] == b[1..] ==> a == [a[0]] + a[1..] == b;
    }
  }

  lemma {:induction false} KeyTransitive(a: Text, b: Text, c: Text)
    requires KeyLess(a, b) && KeyLess(b, c)
    ensures KeyLess(a, c)
  {
    if a != [] && a[0] == b[0] == c[0] {
      KeyTransitive(a[1..], b[1..], c[1..]);
    }
  }

  ghost predicate InOrder(keys: seq<Text>) {
    forall i, j :: 0 <= i < j < |keys| ==> KeyLess(keys[i], keys[j])
  }

  lemma {:induction false} InsertInOrder(key: Text, sorted: seq<Text>)
    requires InOrder(sorted) && key !in sorted
    ensures InOrder(Insert(key, sorted))
  {
    var r := Insert(key, sorted);
    if sorted != [] && KeyLess(sorted[0], key) {
      InsertInOrder(key, sorted[1..]);
      InsertKeepsKeys(key, sorted[1..]);
      forall j | 0 < j < |r|
        ensures KeyLess(r[0], r[j])
      {
        assert r[j] in Insert(key, sorted[1..]);
      }
    } else if sorted != [] {
      KeyOrder(key, sorted[0]);
      forall j | 0 < j < |r|
        ensures KeyLess(r[0], r[j])
      {
        if j > 1 {
          KeyTransitive(key, sorted[0], sorted[j - 1]);
        }
      }
    }
  }

  lemma {:induction false} SortedInOrder(keys: seq<Text>)
    requires forall i, j :: 0 <= i < j < |keys| ==> keys[i] != keys[j]
    ensures InOrder(Sorted(keys))
  {
    if keys != [] {
      SortedInOrder(keys[1..]);
      SortedKeepsKeys(keys[1..]);
      InsertInOrder(keys[0], Sorted(keys[1..]));
    }
  }

  lemma HasKey(keys: seq<Text>)
    ensures keys == [] || exists k :: k in keys
  {
    assert keys == [] || keys[0] in keys;
  }

  lemma {:induction false} OneArrangement(a: seq<Text>, b: seq<Text>)
    requires InOrder(a) && InOrder(b) && forall k :: k in a <==> k in b
    ensures a == b
  {
    if a == [] || b == [] {
      HasKey(a);
      HasKey(b);
    } else {
      assert a[0] in b && b[0] in a;
      KeyOrder(a[0], b[0]);
      forall k
        ensures k in a[1..] <==> k in b[1..]
      {
        KeyOrder(k, k);
        assert k in a <==> k == a[0] || k in a[1..];
        assert k in b <==> k == b[0] || k in b[1..];
      }
      OneArrangement(a[1..], b[1..]);
    }
  }

  // ---------- one fact, one text ----------

  lemma SameKeys(a: Json, b: Json)
    requires a.Obj? && b.Obj? && Proper(a) && Proper(b) && FactOf(a) == FactOf(b)
    ensures Sorted(Keys(a.fields)) == Sorted(Keys(b.fields))
  {
    var x, y := Keys(a.fields), Keys(b.fields);
    assert forall k :: (k in x <==> k in FactOf(a).fields) && (k in y <==> k in FactOf(b).fields);
    SortedInOrder(x);
    SortedInOrder(y);
    SortedKeepsKeys(x);
    SortedKeepsKeys(y);
    OneArrangement(Sorted(x), Sorted(y));
  }

  lemma {:induction false} SameFactSameText(a: Json, b: Json)
    requires Proper(a) && Proper(b) && FactOf(a) == FactOf(b)
    ensures Canonical(a) == Canonical(b)
    decreases a, 1, 0
  {
    if a.Arr? {
      assert |a.items| == |FactOf(a).items| == |b.items|;
      if a.items != [] {
        SameItems(a, b, 0);
      }
    } else if a.Obj? {
      var keys := Sorted(Keys(a.fields));
      SortedKeepsKeys(Keys(a.fields));
      SortedKeepsKeys(Keys(b.fields));
      SameKeys(a, b);
      if keys != [] {
        SameEntries(a, b, keys);
      }
    }
  }

  lemma {:induction false} SameItems(a: Json, b: Json, i: nat)
    requires a.Arr? && b.Arr? && Proper(a) && Proper(b) && FactOf(a) == FactOf(b) && i < |a.items| == |b.items|
    ensures ItemsText(a, i) == ItemsText(b, i)
    decreases a, 0, |a.items| - i
  {
    assert FactOf(a.items[i]) == FactOf(a).items[i] == FactOf(b).items[i] == FactOf(b.items[i]);
    SameFactSameText(a.items[i], b.items[i]);
    if i + 1 < |a.items| {
      SameItems(a, b, i + 1);
    }
  }

  lemma {:induction false} SameEntries(a: Json, b: Json, keys: seq<Text>)
    requires a.Obj? && b.Obj? && Proper(a) && Proper(b) && FactOf(a) == FactOf(b) && keys != []
    requires forall k :: k in keys ==> k in Keys(a.fields) && k in Keys(b.fields)
    ensures EntriesText(a, keys) == EntriesText(b, keys)
    decreases a, 0, |keys|
  {
    var x, y := a.fields[Place(a.fields, keys[0])].value, b.fields[Place(b.fields, keys[0])].value;
    assert FactOf(x) == FactOf(a).fields[keys[0]] == FactOf(b).fields[keys[0]] == FactOf(y);
    SameFactSameText(x, y);
    if |keys| > 1 {
      SameEntries(a, b, keys[1..]);
    }
  }

  /** Two values have one canonical text exactly when they stand for the same fact. */
  lemma CanonicalDecidesFacts(a: Json, b: Json)
    requires Proper(a) && Proper(b)
    ensures Canonical(a) == Canonical(b) <==> FactOf(a) == FactOf(b)
  {
    if Canonical(a) == Canonical(b) {
      ReadsBack(a, []);
      ReadsBack(b, []);
    } else if FactOf(a) == FactOf(b) {
      SameFactSameText(a, b);
    }
  }

  // ---------- what the text is ----------

  /** The order of keys: a proper prefix comes first, and otherwise the lower of the first units that differ. */
  ghost predicate ComesFirst(a: Text, b: Text) {
    exists n :: 0 <= n <= |a| && n <= |b| && a[..n] == b[..n]
                && if n == |a| then n < |b| else n < |b| && a[n] < b[n]
  }

  lemma {:induction false} KeyLessIff(a: Text, b: Text)
    ensures KeyLess(a, b) <==> ComesFirst(a, b)
  {
    if KeyLess(a, b) && a != [] && a[0] == b[0] {
      KeyLessIff(a[1..], b[1..]);
      var n :| 0 <= n <= |a[1..]| && n <= |b[1..]| && a[1..][..n] == b[1..][..n]
               && if n == |a[1..]| then n < |b[1..]| else n < |b[1..]| && a[1..][n] < b[1..][n];
      assert a[..n + 1] == [a[0]] + a[1..][..n] && b[..n + 1] == [b[0]] + b[1..][..n];
    } else if KeyLess(a, b) {
      assert a[..0] == b[..0];
    }
    if ComesFirst(a, b) {
      var n :| 0 <= n <= |a| && n <= |b| && a[..n] == b[..n]
               && if n == |a| then n < |b| else n < |b| && a[n] < b[n];
      if n > 0 {
        assert a[0] == a[..n][0] == b[..n][0] == b[0];
        assert a[1..][..n - 1] == a[..n][1..] == b[..n][1..] == b[1..][..n - 1];
        assert ComesFirst(a[1..], b[1..]);
        KeyLessIff(a[1..], b[1..]);
      }
    }
  }

  predicate IsHex(c: CodeUnit) {
    0x30 <= c <= 0x39 || 0x61 <= c <= 0x66
  }

  lemma DigitsAreHex(u: CodeUnit)
    ensures
      var t := UnicodeEscape(u);
      && |t| == 6 && t[0] == 0x5C && t[1] == 0x75 && IsHex(t[2]) && IsHex(t[3]) && IsHex(t[4]) && IsHex(t[5])
      && FromHex(t[2], t[3], t[4], t[5]) == u
  {
    FromHexInverts(u);
    HexIs(u / 4096);
    HexIs(u / 256 % 16);
    HexIs(u / 16 % 16);
    HexIs(u % 16);
  }

  lemma HexIs(d: int)
    requires 0 <= d < 16
    ensures IsHex(HexDigit(d)) && HexDigit(d) == if d < 10 then 0x30 + d else 0x57 + d
  {
  }

  /** Backspace, tab, line feed, form feed, return, the quote and the backslash are written by a letter of their own. */
  lemma ShortUnitsAre(lone: bool)
    ensures UnitText(8, lone) == [0x5C, 0x62] && UnitText(9, lone) == [0x5C, 0x74]
    ensures UnitText(10, lone) == [0x5C, 0x6E] && UnitText(12, lone) == [0x5C, 0x66]
    ensures UnitText(13, lone) == [0x5C, 0x72]
    ensures UnitText(0x22, lone) == [0x5C, 0x22] && UnitText(0x5C, lone) == [0x5C, 0x5C]
  {
  }

  /** Other control characters and lone surrogates are written by their four digits, and the rest as it is. */
  lemma OtherUnitsAre(u: CodeUnit, lone: bool)
    requires u != 8 && u != 9 && u != 10 && u != 12 && u != 13 && u != 0x22 && u != 0x5C
    ensures
      var t := UnitText(u, lone);
      if u < 0x20 || lone
      then |t| == 6 && t[0] == 0x5C && t[1] == 0x75 && FromHex(t[2], t[3], t[4], t[5]) == u
           && IsHex(t[2]) && IsHex(t[3]) && IsHex(t[4]) && IsHex(t[5])
      else t == [u]
  {
    DigitsAreHex(u);
  }

  /** A high surrogate without a low one after it, or a low one without a high one before it. */
  ghost predicate Half(t: Text, i: nat)
    requires i < |t|
  {
    || (0xD800 <= t[i] < 0xDC00 && (i + 1 == |t| || t[i + 1] < 0xDC00 || 0xE000 <= t[i + 1]))
    || (0xDC00 <= t[i] < 0xE000 && (i == 0 || t[i - 1] < 0xD800 || 0xDC00 <= t[i - 1]))
  }

  lemma LoneIff(s: Text, i: nat)
    requires i < |s|
    ensures Lone(s, i) <==> Half(s, i)
  {
  }

  /** The unit at `i` is the second half of a pair. */
  ghost predicate Second(s: Text, i: nat)
    requires i <= |s|
  {
    0 < i < |s| && 0xD800 <= s[i - 1] < 0xDC00 <= s[i] < 0xE000
  }

  lemma EscapesAreWhole(u: CodeUnit, lone: bool)
    ensures
      var t := UnitText(u, lone);
      t != [] && (t == [u] || forall k :: 0 <= k < |t| ==> t[k] < 0x80)
    ensures lone ==> forall k :: 0 <= k < |UnitText(u, lone)| ==> UnitText(u, lone)[k] < 0x80
    ensures !lone && 0xD800 <= u ==> UnitText(u, lone) == [u]
  {
    DigitsAreHex(u);
  }

  /** Written from the middle of a string on, only the second half of a pair can miss its other half. */
  ghost predicate WholeFrom(s: Text, i: nat, t: Text)
    requires i <= |s|
  {
    && t != []
    && (forall k :: 0 < k < |t| ==> !Half(t, k))
    && (Half(t, 0) ==> Second(s, i))
    && (Second(s, i) ==> t[0] == s[i])
  }

  lemma OneMoreUnit(s: Text, i: nat, t: Text)
    requires i < |s| && WholeFrom(s, i + 1, t)
    ensures WholeFrom(s, i, UnitText(s[i], Lone(s, i)) + t)
  {
    var unit := UnitText(s[i], Lone(s, i));
    var r := unit + t;
    LoneIff(s, i);
    EscapesAreWhole(s[i], Lone(s, i));
    forall k | 0 < k < |r|
      ensures !Half(r, k)
    {
      if k >= |unit| {
        assert r[k] == t[k - |unit|] && r[k - 1] == (if k == |unit| then unit[k - 1] else t[k - |unit| - 1]);
        assert k + 1 < |r| ==> r[k + 1] == t[k + 1 - |unit|];
        assert Half(t, k - |unit|) || !Half(r, k);
      }
    }
  }

  lemma {:induction false} EscapedIsWhole(s: Text, i: nat)
    requires i <= |s|
    ensures WholeFrom(s, i, Escaped(s, i))
    decreases |s| - i
  {
    if i < |s| {
      EscapedIsWhole(s, i + 1);
      OneMoreUnit(s, i, Escaped(s, i + 1));
    }
  }

  /** A written string has no half of a pair, whatever halves the text has. */
  lemma QuotedIsWhole(s: Text, k: nat)
    requires k < |Quoted(s)|
    ensures !Half(Quoted(s), k)
  {
    EscapedIsWhole(s, 0);
    if k > 0 {
      var t := Escaped(s, 0);
      assert Quoted(s)[k] == t[k - 1];
      assert k + 1 < |Quoted(s)| ==> Quoted(s)[k + 1] == t[k];
      assert !Half(t, k - 1);
    }
  }

  const SAMPLE_LIST := Arr([Null, Bool(true)])
  const SAMPLE := Obj([Field([0x62], SAMPLE_LIST), Field([0x61], Str([0x31]))])

  lemma ListText()
    ensures Canonical(SAMPLE_LIST) == [OPEN_ARRAY] + NULL_TEXT + [COMMA] + TRUE_TEXT + [CLOSE_ARRAY]
  {
    assert ItemsText(SAMPLE_LIST, 1) == TRUE_TEXT + [CLOSE_ARRAY];
    assert ItemsText(SAMPLE_LIST, 0) == NULL_TEXT + [COMMA] + ItemsText(SAMPLE_LIST, 1);
    assert Canonical(SAMPLE_LIST) == [OPEN_ARRAY] + ItemsText(SAMPLE_LIST, 0);
  }

  lemma OneUnitText(u: CodeUnit)
    requires u in {0x31, 0x61, 0x62}
    ensures Quoted([u]) == [QUOTE, u, QUOTE]
  {
    assert Escaped([u], 1) == [QUOTE];
  }

  lemma SampleKeys()
    ensures Sorted(Keys(SAMPLE.fields)) == [[0x61], [0x62]]
    ensures Keys(SAMPLE.fields) == [[0x62], [0x61]]
    ensures Place(SAMPLE.fields, [0x61]) == 1 && Place(SAMPLE.fields, [0x62]) == 0
  {
    assert Keys(SAMPLE.fields) == [[0x62], [0x61]] && Keys(SAMPLE.fields)[1..] == [[0x61]];
    assert Sorted([[0x61]]) == [[0x61]] && KeyLess([0x61], [0x62]);
  }

  lemma SampleEntries()
    ensures [0x61] in Keys(SAMPLE.fields) && [0x62] in Keys(SAMPLE.fields)
    ensures EntriesText(SAMPLE, [[0x61], [0x62]])
      == Quoted([0x61]) + [COLON] + Quoted([0x31]) + [COMMA]
         + (Quoted([0x62]) + [COLON] + Canonical(SAMPLE_LIST) + [CLOSE_OBJECT])
  {
    SampleKeys();
    assert [0x61] == Keys(SAMPLE.fields)[1] && [0x62] == Keys(SAMPLE.fields)[0];
    assert [[0x61], [0x62]][1..] == [[0x62]];
    assert EntriesText(SAMPLE, [[0x62]]) == Quoted([0x62]) + [COLON] + Canonical(SAMPLE_LIST) + [CLOSE_OBJECT];
  }

  /** The text of {"b": [null, true], "a": "1"}: the keys in order, and no space. */
  lemma TextIs()
    ensures
      var list := [0x5B] + [0x6E, 0x75, 0x6C, 0x6C] + [0x2C] + [0x74, 0x72, 0x75, 0x65] + [0x5D];
      Canonical(SAMPLE) == [0x7B] + ([0x22, 0x61, 0x22] + [0x3A] + [0x22, 0x31, 0x22] + [0x2C]
                                     + ([0x22, 0x62, 0x22] + [0x3A] + list + [0x7D]))
  {
    ListText();
    OneUnitText(0x31);
    OneUnitText(0x61);
    OneUnitText(0x62);
    SampleKeys();
    SampleEntries();
  }
}
