/** The canonical printer of `models/canonical_json.go` and a JSON parser for its output: RFC 8259
    without insignificant whitespace. */
module CanonicalJson {
  import opened Wrappers
  import opened SortedStrings

  /** A decoded JSON document; numbers keep their text, objects are unordered. */
  datatype Value =
    | Null
    | Bool(b: bool)
    | Number(text: string)
    | Str(s: string)
    | Arr(items: seq<Value>)
    | Obj(fields: map<string, Value>)

  // ---- Numbers, section 6 of RFC 8259 ----

  predicate Digit(c: char) {
    '0' <= c <= '9'
  }

  predicate NumberChar(c: char) {
    Digit(c) || c == '-' || c == '+' || c == '.' || c == 'e' || c == 'E'
  }

  /** The end of the run of digits that starts at i. */
  function DigitsEnd(t: string, i: nat): (end: nat)
    requires i <= |t|
    ensures i <= end <= |t| && forall h | i <= h < end :: Digit(t[h])
    decreases |t| - i
  {
    if i < |t| && Digit(t[i]) then DigitsEnd(t, i + 1) else i
  }

  function FractionEnd(t: string, j: nat): (end: nat)
    requires j <= |t|
    ensures j <= end <= |t| && forall h | j <= h < end :: NumberChar(t[h])
  {
    if j < |t| && t[j] == '.' && DigitsEnd(t, j + 1) > j + 1 then DigitsEnd(t, j + 1) else j
  }

  function ExponentEnd(t: string, k: nat): (end: nat)
    requires k <= |t|
    ensures k <= end <= |t| && forall h | k <= h < end :: NumberChar(t[h])
  {
    if k < |t| && (t[k] == 'e' || t[k] == 'E') then
      var d := if k + 1 < |t| && (t[k + 1] == '+' || t[k + 1] == '-') then k + 2 else k + 1;
      if DigitsEnd(t, d) > d then DigitsEnd(t, d) else k
    else k
  }

  predicate ValidNumber(t: string) {
    var i := if t != "" && t[0] == '-' then 1 else 0;
    && i < |t| && Digit(t[i])
    && var j := if t[i] == '0' then i + 1 else DigitsEnd(t, i);
       ExponentEnd(t, FractionEnd(t, j)) == |t|
  }

  lemma ValidNumberChars(t: string)
    requires ValidNumber(t)
    ensures t != "" && (t[0] == '-' || Digit(t[0])) && forall h | 0 <= h < |t| :: NumberChar(t[h])
  {
    var i := if t[0] == '-' then 1 else 0;
    var j := if t[i] == '0' then i + 1 else DigitsEnd(t, i);
    var k := FractionEnd(t, j);
    assert ExponentEnd(t, k) == |t|;
  }

  function NumberSpan(s: string): (n: nat)
    ensures n <= |s|
  {
    if s == "" || !NumberChar(s[0]) then 0 else 1 + NumberSpan(s[1..])
  }

  predicate NoNumber(rest: string) {
    rest == "" || !NumberChar(rest[0])
  }

  lemma {:induction false} SpanOfNumber(text: string, rest: string)
    requires NoNumber(rest) && forall h | 0 <= h < |text| :: NumberChar(text[h])
    ensures NumberSpan(text + rest) == |text|
  {
    if text == "" {
      assert text + rest == rest;
    } else {
      assert (text + rest)[1..] == text[1..] + rest;
      SpanOfNumber(text[1..], rest);
    }
  }

  // ---- Strings, section 7 of RFC 8259 ----

  const BACKSPACE: char := 8 as char
  const FORM_FEED: char := 12 as char

  function HexDigit(n: nat): char
    requires n < 16
  {
    "0123456789abcdef"[n]
  }

  function HexValue(c: char): (n: nat)
    ensures n <= 16
  {
    if '0' <= c <= '9' then (c as int) - ('0' as int)
    else if 'a' <= c <= 'f' then (c as int) - ('a' as int) + 10
    else if 'A' <= c <= 'F' then (c as int) - ('A' as int) + 10
    else 16
  }

  function Hex4(n: nat): string
    requires n < 0x1_0000
  {
    [HexDigit(n / 4096), HexDigit(n / 256 % 16), HexDigit(n / 16 % 16), HexDigit(n % 16)]
  }

  function Escape(c: char): (e: string)
    ensures e != ""
  {
    if c == '"' then "\\\""
    else if c == '\\' then "\\\\"
    else if c == '\n' then "\\n"
    else if c == '\r' then "\\r"
    else if c == '\t' then "\\t"
    else if c == BACKSPACE then "\\b"
    else if c == FORM_FEED then "\\f"
    else if c < ' ' then "\\u" + Hex4(c as int)
    else [c]
  }

  function EscapeAll(s: string): string {
    if s == "" then "" else Escape(s[0]) + EscapeAll(s[1..])
  }

  function PrintString(s: string): string {
    "\"" + EscapeAll(s) + "\""
  }

  /** One escape sequence, after its backslash: the character and what follows. */
  function ParseEscape(s: string): (r: Option<(char, string)>)
    ensures r.Some? ==> |r.value.1| < |s|
  {
    if s == "" then None
    else if s[0] == '"' || s[0] == '\\' || s[0] == '/' then Some((s[0], s[1..]))
    else if s[0] == 'b' then Some((BACKSPACE, s[1..]))
    else if s[0] == 'f' then Some((FORM_FEED, s[1..]))
    else if s[0] == 'n' then Some(('\n', s[1..]))
    else if s[0] == 'r' then Some(('\r', s[1..]))
    else if s[0] == 't' then Some(('\t', s[1..]))
    else if s[0] == 'u' && |s| >= 5 then
      var a, b, c, d := HexValue(s[1]), HexValue(s[2]), HexValue(s[3]), HexValue(s[4]);
      var n := a * 4096 + b * 256 + c * 16 + d;
      if a < 16 && b < 16 && c < 16 && d < 16 && (n < 0xD800 || 0xE000 <= n) then Some((n as char, s[5..])) else None
    else None
  }

  /** The characters up to the closing quotation mark; control characters must be escaped. */
  function ParseChars(s: string): (r: Option<(string, string)>)
    ensures r.Some? ==> |r.value.1| < |s|
    decreases |s|
  {
    if s == "" || s[0] < ' ' then None
    else if s[0] == '"' then Some(("", s[1..]))
    else
      var first := if s[0] == '\\' then ParseEscape(s[1..]) else Some((s[0], s[1..]));
      if first.None? then None
      else
        var more := ParseChars(first.value.1);
        if more.None? then None else Some(([first.value.0] + more.value.0, more.value.1))
  }

  lemma HexDigitValue(n: nat)
    requires n < 16
    ensures HexValue(HexDigit(n)) == n
  {
    var digits := "0123456789abcdef";
    assert digits[0] == '0' && digits[1] == '1' && digits[2] == '2' && digits[3] == '3' && digits[4] == '4';
    assert digits[5] == '5' && digits[6] == '6' && digits[7] == '7' && digits[8] == '8' && digits[9] == '9';
    assert digits[10] == 'a' && digits[11] == 'b' && digits[12] == 'c' && digits[13] == 'd' && digits[14] == 'e' && digits[15] == 'f';
  }

  lemma ControlEscapes(c: char, t: string)
    requires c < ' '
    ensures ParseEscape("u" + Hex4(c as int) + t) == Some((c, t))
  {
    var n := c as int;
    var s := "u" + Hex4(n) + t;
    HexDigitValue(n / 4096);
    HexDigitValue(n / 256 % 16);
    HexDigitValue(n / 16 % 16);
    HexDigitValue(n % 16);
    assert s[1] == HexDigit(n / 4096) && s[2] == HexDigit(n / 256 % 16) && s[3] == HexDigit(n / 16 % 16) && s[4] == HexDigit(n % 16);
    assert s[5..] == t;
    assert n / 16 % 16 * 16 + n % 16 == n;
  }

  lemma PlainParses(c: char, t: string)
    requires ' ' <= c && c != '"' && c != '\\' && ParseChars(t).Some?
    ensures ParseChars([c] + t) == Some(([c] + ParseChars(t).value.0, ParseChars(t).value.1))
  {
    assert ([c] + t)[1..] == t;
  }

  lemma EscapedParses(e: string, c: char, t: string)
    requires ParseEscape(e + t) == Some((c, t)) && ParseChars(t).Some?
    ensures ParseChars("\\" + e + t) == Some(([c] + ParseChars(t).value.0, ParseChars(t).value.1))
  {
    hide ParseEscape;
    assert ("\\" + e + t)[1..] == e + t;
  }

  lemma ShortEscape(x: char, t: string)
    ensures ([x] + t)[1..] == t && ([x] + t)[0] == x
  {
  }

  lemma EscapeParses(c: char, t: string)
    requires ParseChars(t).Some?
    ensures ParseChars(Escape(c) + t) == Some(([c] + ParseChars(t).value.0, ParseChars(t).value.1))
  {
    hide ParseChars, HexDigit;
    var e := Escape(c);
    if e == [c] {
      PlainParses(c, t);
    } else if |e| == 2 {
      ShortEscape(e[1], t);
      assert e == "\\" + [e[1]];
      EscapedParses([e[1]], c, t);
    } else {
      ControlEscapes(c, t);
      EscapedParses("u" + Hex4(c as int), c, t);
      assert e == "\\" + ("u" + Hex4(c as int));
    }
  }

  lemma {:induction false} StringRoundTrip(s: string, rest: string)
    ensures ParseChars(EscapeAll(s) + "\"" + rest) == Some((s, rest))
  {
    if s == "" {
      assert EscapeAll(s) + "\"" + rest == "\"" + rest;
      assert ("\"" + rest)[1..] == rest;
    } else {
      StringRoundTrip(s[1..], rest);
      var t := EscapeAll(s[1..]) + "\"" + rest;
      EscapeParses(s[0], t);
      assert EscapeAll(s) + "\"" + rest == Escape(s[0]) + t;
      assert s == [s[0]] + s[1..];
    }
  }

  // ---- Strings, character by character ----

  /** The seven short escapes; four lower-case hexadecimal digits for every other control character; and
      any other character as itself. */
  predicate Spells(e: string, c: char) {
    if c == '"' then e == "\\\""
    else if c == '\\' then e == "\\\\"
    else if c as int == 10 then e == "\\n"
    else if c as int == 13 then e == "\\r"
    else if c as int == 9 then e == "\\t"
    else if c as int == 8 then e == "\\b"
    else if c as int == 12 then e == "\\f"
    else if c as int < 16 then e == "\\u000" + ["0123456789abcdef"[c as int]]
    else if c as int < 32 then e == "\\u001" + ["0123456789abcdef"[c as int - 16]]
    else e == [c]
  }

  /** The text is quoted and spells the characters one after the other. */
  ghost predicate SpellsAll(body: string, s: string)
    decreases |s|
  {
    if s == "" then body == ""
    else exists n | 0 < n <= |body| :: Spells(body[..n], s[0]) && SpellsAll(body[n..], s[1..])
  }

  lemma EscapeSpells(c: char)
    ensures Spells(Escape(c), c)
  {
    if c < ' ' {
      var n := c as int;
      assert Hex4(n) == ['0', '0', HexDigit(n / 16), HexDigit(n % 16)];
      assert HexDigit(n / 16) == if n < 16 then '0' else '1';
    }
  }

  lemma {:induction false} EscapesSpell(s: string)
    ensures SpellsAll(EscapeAll(s), s)
  {
    if s != "" {
      var body, n := EscapeAll(s), |Escape(s[0])|;
      EscapesSpell(s[1..]);
      EscapeSpells(s[0]);
      hide Escape, Spells;
      assert body[..n] == Escape(s[0]) && body[n..] == EscapeAll(s[1..]);
    }
  }

  /** A printed string is its characters, spelled one by one between quotation marks. */
  lemma StringIsSpelled(s: string)
    ensures |PrintString(s)| >= 2 && PrintString(s)[0] == '"' == PrintString(s)[|PrintString(s)| - 1]
    ensures SpellsAll(PrintString(s)[1..|PrintString(s)| - 1], s)
  {
    EscapesSpell(s);
    assert PrintString(s)[1..|PrintString(s)| - 1] == EscapeAll(s);
  }

  // ---- The printed form ----

  lemma {:induction false} HasLeast(keys: set<string>) returns (least: string)
    requires keys != {}
    ensures least in keys && forall k | k in keys :: Le(least, k)
  {
    var x :| x in keys;
    LeTotal(x, x);
    if keys == {x} {
      least := x;
    } else {
      var m := HasLeast(keys - {x});
      LeTotal(x, m);
      least := if Le(x, m) then x else m;
      forall k | k in keys
        ensures Le(least, k)
      {
        if k != x && least == x { LeTransitive(x, m, k); }
      }
    }
  }

  lemma LeastExists(keys: set<string>)
    requires keys != {}
    ensures exists least :: least in keys && forall k | k in keys :: Le(least, k)
  {
    var least := HasLeast(keys);
  }

  ghost function SortedKeys(keys: set<string>): (list: seq<string>)
    ensures forall k :: k in list <==> k in keys
  {
    if keys == {} then []
    else
      LeastExists(keys);
      var least :| least in keys && forall k | k in keys :: Le(least, k);
      [least] + SortedKeys(keys - {least})
  }

  lemma LeastFirst(keys: set<string>) returns (least: string, tail: seq<string>)
    requires keys != {}
    ensures least in keys && forall k | k in keys :: Le(least, k)
    ensures tail == SortedKeys(keys - {least}) && SortedKeys(keys) == [least] + tail
    ensures forall k :: k in tail <==> k in keys - {least}
  {
    LeastExists(keys);
    least :| least in keys && (forall k | k in keys :: Le(least, k)) && SortedKeys(keys) == [least] + SortedKeys(keys - {least});
    tail := SortedKeys(keys - {least});
  }

  /** Every key once, in order. */
  lemma {:induction false} KeysListed(keys: set<string>)
    ensures Sorted(SortedKeys(keys))
    ensures forall i, j | 0 <= i < j < |SortedKeys(keys)| :: SortedKeys(keys)[i] != SortedKeys(keys)[j]
  {
    if keys != {} {
      var least, tail := LeastFirst(keys);
      KeysListed(keys - {least});
      hide SortedKeys, Le;
      assert forall j | 0 <= j < |tail| :: tail[j] in tail;
    }
  }

  lemma {:induction false} KeysMultiset(keys: set<string>)
    ensures multiset(SortedKeys(keys)) == multiset(keys)
  {
    if keys != {} {
      var least, tail := LeastFirst(keys);
      KeysMultiset(keys - {least});
      hide SortedKeys, Le;
      assert keys == {least} + (keys - {least});
    }
  }

  ghost function Print(v: Value): string
    decreases v, 1, 0
  {
    match v
    case Null => "null"
    case Bool(b) => if b then "true" else "false"
    case Number(text) => text
    case Str(s) => PrintString(s)
    case Arr(items) => "[" + if items == [] then "]" else PrintItems(v, 0)
    case Obj(fields) =>
      "{" + if fields == map[] then "}" else PrintFields(v, SortedKeys(fields.Keys), 0)
  }

  ghost function PrintItems(v: Value, i: nat): string
    requires v.Arr? && i < |v.items|
    decreases v, 0, |v.items| - i
  {
    Print(v.items[i]) + if i + 1 == |v.items| then "]" else "," + PrintItems(v, i + 1)
  }

  ghost function PrintFields(v: Value, keys: seq<string>, i: nat): string
    requires v.Obj? && (i < |keys| || keys == []) && forall k | k in keys :: k in v.fields
    decreases v, 0, |keys| - i
  {
    if keys == [] then "}"
    else PrintString(keys[i]) + (":" + (Print(v.fields[keys[i]]) + if i + 1 == |keys| then "}" else "," + PrintFields(v, keys, i + 1)))
  }

  /** Number texts are what a JSON decoder keeps of a number. */
  predicate WellFormed(v: Value) {
    match v
    case Number(text) => ValidNumber(text)
    case Arr(items) => forall i | 0 <= i < |items| :: WellFormed(items[i])
    case Obj(fields) => forall k | k in fields :: WellFormed(fields[k])
    case _ => true
  }

  // ---- The parser ----

  function After(prefix: string, s: string): Option<string> {
    if prefix <= s then Some(s[|prefix|..]) else None
  }

  function ParseValue(s: string): (r: Option<(Value, string)>)
    ensures r.Some? ==> |r.value.1| < |s|
    decreases |s|, 0
  {
    if s == "" then None
    else if s[0] == 'n' then if "null" <= s then Some((Null, s[4..])) else None
    else if s[0] == 't' then if "true" <= s then Some((Bool(true), s[4..])) else None
    else if s[0] == 'f' then if "false" <= s then Some((Bool(false), s[5..])) else None
    else if s[0] == '"' then
      var r := ParseChars(s[1..]);
      if r.None? then None else Some((Str(r.value.0), r.value.1))
    else if s[0] == '[' then
      if "[]" <= s then Some((Arr([]), s[2..]))
      else
        var r := ParseItems(s[1..]);
        if r.None? then None else Some((Arr(r.value.0), r.value.1))
    else if s[0] == '{' then
      if "{}" <= s then Some((Obj(map[]), s[2..]))
      else
        var r := ParseFields(s[1..]);
        if r.None? then None else Some((Obj(r.value.0), r.value.1))
    else
      var n := NumberSpan(s);
      if ValidNumber(s[..n]) then ValidNumberChars(s[..n]); Some((Number(s[..n]), s[n..])) else None
  }

  function ParseItems(s: string): (r: Option<(seq<Value>, string)>)
    ensures r.Some? ==> |r.value.1| < |s|
    decreases |s|, 1
  {
    var first := ParseValue(s);
    if first.None? || first.value.1 == "" then None
    else
      var rest := first.value.1;
      if rest[0] == ']' then Some(([first.value.0], rest[1..]))
      else if rest[0] != ',' then None
      else
        var more := ParseItems(rest[1..]);
        if more.None? then None else Some(([first.value.0] + more.value.0, more.value.1))
  }

  /** A later field with the same name wins, as in a decoder that fills a map. */
  function ParseFields(s: string): (r: Option<(map<string, Value>, string)>)
    ensures r.Some? ==> |r.value.1| < |s|
    decreases |s|, 1
  {
    if s == "" || s[0] != '"' then None
    else
      var key := ParseChars(s[1..]);
      if key.None? || key.value.1 == "" || key.value.1[0] != ':' then None
      else
        var first := ParseValue(key.value.1[1..]);
        if first.None? || first.value.1 == "" then None
        else
          var rest := first.value.1;
          if rest[0] == '}' then Some((map[key.value.0 := first.value.0], rest[1..]))
          else if rest[0] != ',' then None
          else
            var more := ParseFields(rest[1..]);
            if more.None? then None else Some((map[key.value.0 := first.value.0] + more.value.0, more.value.1))
  }

  // ---- Round trip ----

  lemma Regroup(a: string, b: string, c: string, d: string, e: string)
    ensures a + b + c == a + (b + c)
    ensures a + (b + (c + d)) + e == a + (b + (c + (d + e)))
    ensures a + b + c + d + e == a + (b + (c + (d + e)))
  {
    assert a + b + c == a + (b + c);
    assert a + (b + (c + d)) + e == a + (b + (c + (d + e)));
    assert a + b + c + d + e == a + (b + (c + (d + e)));
  }

  function FieldsFrom(v: Value, keys: seq<string>, i: nat): map<string, Value>
    requires v.Obj? && i <= |keys| && forall k | k in keys :: k in v.fields
  {
    map k | k in keys[i..] :: v.fields[k]
  }

  lemma {:induction false} PrintedStart(v: Value)
    requires WellFormed(v)
    ensures Print(v) != "" && Print(v)[0] != ']' && Print(v)[0] != '}'
  {
    match v {
      case Number(text) => ValidNumberChars(text);
      case _ =>
    }
  }

  lemma NumberRoundTrip(text: string, rest: string)
    requires ValidNumber(text) && NoNumber(rest)
    ensures ParseValue(text + rest) == Some((Number(text), rest))
  {
    ValidNumberChars(text);
    SpanOfNumber(text, rest);
    var s := text + rest;
    assert s[0] == text[0] && s[..|text|] == text && s[|text|..] == rest;
  }

  lemma QuotedRoundTrip(t: string, rest: string)
    ensures ParseValue(PrintString(t) + rest) == Some((Str(t), rest))
    ensures (PrintString(t) + rest)[0] == '"' && ParseChars((PrintString(t) + rest)[1..]) == Some((t, rest))
  {
    StringRoundTrip(t, rest);
    assert (PrintString(t) + rest)[1..] == EscapeAll(t) + "\"" + rest;
  }

  /** A parser applied to the printed form of a value, followed by anything that cannot continue a
      number, returns that value and leaves the continuation. */
  lemma {:induction false} RoundTrip(v: Value, rest: string)
    requires WellFormed(v) && NoNumber(rest)
    ensures ParseValue(Print(v) + rest) == Some((v, rest))
    decreases v, 1, 0
  {
    var s := Print(v) + rest;
    match v {
      case Null => assert s[4..] == rest;
      case Bool(b) => assert if b then s[4..] == rest else s[5..] == rest;
      case Number(text) => NumberRoundTrip(text, rest);
      case Str(t) => QuotedRoundTrip(t, rest);
      case Arr(items) => ArrayRoundTrip(v, rest);
      case Obj(fields) => ObjectRoundTrip(v, rest);
    }
  }

  lemma {:induction false} ArrayRoundTrip(v: Value, rest: string)
    requires v.Arr? && WellFormed(v) && NoNumber(rest)
    ensures ParseValue(Print(v) + rest) == Some((v, rest))
    decreases v, 0, |v.items| + 1
  {
    hide ParseItems, ParseFields, ParseChars, PrintString, PrintFields, SortedKeys;
    var s := Print(v) + rest;
    if v.items == [] {
      assert s == "[]" + rest && s[2..] == rest;
    } else {
      ItemsRoundTrip(v, 0, rest);
      assert s[1..] == PrintItems(v, 0) + rest;
      PrintedStart(v.items[0]);
      assert s[1] == Print(v.items[0])[0];
      assert v.items[0..] == v.items;
    }
  }

  lemma LastItem(x: string, value: Value, rest: string)
    requires ParseValue(x + ("]" + rest)) == Some((value, "]" + rest))
    ensures ParseItems(x + ("]" + rest)) == Some(([value], rest))
  {
    assert ("]" + rest)[1..] == rest;
  }

  lemma NextItem(x: string, value: Value, tail: string, more: seq<Value>, rest: string)
    requires ParseValue(x + ("," + tail)) == Some((value, "," + tail))
    requires ParseItems(tail) == Some((more, rest))
    ensures ParseItems(x + ("," + tail)) == Some(([value] + more, rest))
  {
    assert ("," + tail)[1..] == tail;
  }

  lemma {:induction false} ItemsRoundTrip(v: Value, i: nat, rest: string)
    requires v.Arr? && i < |v.items| && WellFormed(v)
    ensures ParseItems(PrintItems(v, i) + rest) == Some((v.items[i..], rest))
    decreases v, 0, |v.items| - i
  {
    hide ParseValue, ParseItems, ParseFields, ParseChars, PrintString;
    var x := Print(v.items[i]);
    if i + 1 == |v.items| {
      RoundTrip(v.items[i], "]" + rest);
      LastItem(x, v.items[i], rest);
      assert PrintItems(v, i) + rest == x + ("]" + rest);
      assert v.items[i..] == [v.items[i]];
    } else {
      var tail := PrintItems(v, i + 1) + rest;
      RoundTrip(v.items[i], "," + tail);
      ItemsRoundTrip(v, i + 1, rest);
      NextItem(x, v.items[i], tail, v.items[i + 1..], rest);
      assert PrintItems(v, i) + rest == x + ("," + tail);
      assert v.items[i..] == [v.items[i]] + v.items[i + 1..];
    }
  }

  lemma {:induction false} ObjectRoundTrip(v: Value, rest: string)
    requires v.Obj? && WellFormed(v) && NoNumber(rest)
    ensures ParseValue(Print(v) + rest) == Some((v, rest))
    decreases v, 0, |SortedKeys(v.fields.Keys)| + 1
  {
    hide ParseFields, ParseChars, EscapeAll, ParseItems, WellFormed;
    if v.fields == map[] {
      var s := Print(v) + rest;
      assert s == "{}" + rest && s[2..] == rest;
    } else {
      hide ParseValue;
      var keys := SortedKeys(v.fields.Keys);
      var k :| k in v.fields;
      assert k in keys;
      KeysListed(v.fields.Keys);
      FieldsRoundTrip(v, keys, 0, rest);
      assert FieldsFrom(v, keys, 0) == v.fields;
      assert PrintFields(v, keys, 0)[0] == '"';
      assert Print(v) == "{" + PrintFields(v, keys, 0);
      hide Print, PrintFields, SortedKeys, FieldsFrom;
      Regroup("{", PrintFields(v, keys, 0), rest, "", "");
      BracedFields(PrintFields(v, keys, 0) + rest, v.fields, rest);
    }
  }

  lemma BracedFields(s: string, fields: map<string, Value>, rest: string)
    requires s != "" && s[0] == '"' && ParseFields(s) == Some((fields, rest))
    ensures ParseValue("{" + s) == Some((Obj(fields), rest))
  {
    assert ("{" + s)[1..] == s && ("{" + s)[1] == '"';
  }

  lemma LastField(s: string, k: string, body: string, value: Value, rest: string)
    requires s != "" && s[0] == '"' && ParseChars(s[1..]) == Some((k, ":" + body))
    requires ParseValue(body) == Some((value, "}" + rest))
    ensures ParseFields(s) == Some((map[k := value], rest))
  {
    assert (":" + body)[1..] == body && ("}" + rest)[1..] == rest;
  }

  lemma NextField(s: string, k: string, body: string, value: Value, tail: string, more: map<string, Value>, rest: string)
    requires s != "" && s[0] == '"' && ParseChars(s[1..]) == Some((k, ":" + body))
    requires ParseValue(body) == Some((value, "," + tail)) && ParseFields(tail) == Some((more, rest))
    ensures ParseFields(s) == Some((map[k := value] + more, rest))
  {
    assert (":" + body)[1..] == body && ("," + tail)[1..] == tail;
  }

  lemma PrintedFields(v: Value, keys: seq<string>, i: nat)
    requires v.Obj? && i < |keys| && forall k | k in keys :: k in v.fields
    ensures PrintFields(v, keys, i) ==
            PrintString(keys[i]) + (":" + (Print(v.fields[keys[i]]) + if i + 1 == |keys| then "}" else "," + PrintFields(v, keys, i + 1)))
  {
  }

  lemma NoFieldsLeft(v: Value, keys: seq<string>)
    requires v.Obj? && forall k | k in keys :: k in v.fields
    ensures FieldsFrom(v, keys, |keys|) == map[]
  {
  }

  lemma FieldsSplit(v: Value, keys: seq<string>, i: nat)
    requires v.Obj? && i < |keys| && forall k | k in keys :: k in v.fields
    requires forall a, b | 0 <= a < b < |keys| :: keys[a] != keys[b]
    ensures FieldsFrom(v, keys, i) == map[keys[i] := v.fields[keys[i]]] + FieldsFrom(v, keys, i + 1)
  {
    assert keys[i..] == [keys[i]] + keys[i + 1..];
  }

  lemma {:induction false} FieldsRoundTrip(v: Value, keys: seq<string>, i: nat, rest: string)
    requires v.Obj? && WellFormed(v) && i < |keys| && forall k | k in keys :: k in v.fields
    requires forall a, b | 0 <= a < b < |keys| :: keys[a] != keys[b]
    ensures ParseFields(PrintFields(v, keys, i) + rest) == Some((FieldsFrom(v, keys, i), rest))
    decreases v, 0, |keys| - i
  {
    var k := keys[i];
    var value := v.fields[k];
    var tail := FieldsTail(v, keys, i, rest);
    var s := PrintString(k) + (":" + (Print(value) + tail));
    FieldsShape(v, keys, i, rest);
    FieldsSplit(v, keys, i);
    assert WellFormed(value);
    hide ParseValue, ParseItems, ParseFields, ParseChars, PrintString, Print, PrintFields, WellFormed, FieldsFrom;
    QuotedRoundTrip(k, ":" + (Print(value) + tail));
    RoundTrip(value, tail);
    if i + 1 == |keys| {
      LastField(s, k, Print(value) + tail, value, rest);
      NoFieldsLeft(v, keys);
      assert map[k := value] + map[] == map[k := value];
    } else {
      FieldsRoundTrip(v, keys, i + 1, rest);
      NextField(s, k, Print(value) + tail, value, PrintFields(v, keys, i + 1) + rest, FieldsFrom(v, keys, i + 1), rest);
    }
  }

  /** What follows the value of field i. */
  ghost function FieldsTail(v: Value, keys: seq<string>, i: nat, rest: string): string
    requires v.Obj? && i < |keys| && forall k | k in keys :: k in v.fields
  {
    if i + 1 == |keys| then "}" + rest else "," + (PrintFields(v, keys, i + 1) + rest)
  }

  lemma FieldsShape(v: Value, keys: seq<string>, i: nat, rest: string)
    requires v.Obj? && i < |keys| && forall k | k in keys :: k in v.fields
    ensures PrintFields(v, keys, i) + rest ==
            PrintString(keys[i]) + (":" + (Print(v.fields[keys[i]]) + FieldsTail(v, keys, i, rest)))
  {
    PrintedFields(v, keys, i);
    var end := if i + 1 == |keys| then "}" else "," + PrintFields(v, keys, i + 1);
    TailShape(v, keys, i, rest);
    hide PrintFields, Print, PrintString, FieldsTail;
    Nest(PrintString(keys[i]), ":", Print(v.fields[keys[i]]), end, rest);
  }

  lemma Nest(a: string, b: string, c: string, d: string, e: string)
    ensures a + (b + (c + d)) + e == a + (b + (c + (d + e)))
  {
    Regroup(a, b, c, d, e);
  }

  lemma TailShape(v: Value, keys: seq<string>, i: nat, rest: string)
    requires v.Obj? && i < |keys| && forall k | k in keys :: k in v.fields
    ensures (if i + 1 == |keys| then "}" else "," + PrintFields(v, keys, i + 1)) + rest == FieldsTail(v, keys, i, rest)
  {
    if i + 1 < |keys| {
      var more := PrintFields(v, keys, i + 1);
      assert FieldsTail(v, keys, i, rest) == "," + (more + rest);
      hide PrintFields, FieldsTail;
      Regroup(",", more, rest, "", "");
    }
  }

  /** Different values print differently, even when other text follows. */
  lemma PrintIsInjective(a: Value, restA: string, b: Value, restB: string)
    requires WellFormed(a) && WellFormed(b) && NoNumber(restA) && NoNumber(restB)
    requires Print(a) + restA == Print(b) + restB
    ensures a == b && restA == restB
  {
    RoundTrip(a, restA);
    RoundTrip(b, restB);
  }

  // ---- The writer ----

  class Buffer {
    var text: string

    constructor ()
      ensures text == ""
    {
      text := "";
    }

    method Write(s: string)
      modifies this
      ensures text == old(text) + s
    {
      text := text + s;
    }
  }

  method WriteEscaped(buf: Buffer, c: char)
    modifies buf
    ensures buf.text == old(buf.text) + Escape(c)
  {
    match c {
      case '"' => buf.Write("\\\"");
      case '\\' => buf.Write("\\\\");
      case '\n' => buf.Write("\\n");
      case '\r' => buf.Write("\\r");
      case '\t' => buf.Write("\\t");
      case _ =>
        if c == BACKSPACE {
          buf.Write("\\b");
        } else if c == FORM_FEED {
          buf.Write("\\f");
        } else if c < ' ' {
          buf.Write("\\u" + Hex4(c as int));
        } else {
          buf.Write([c]);
        }
    }
  }

  method WriteCanonicalString(buf: Buffer, s: string)
    modifies buf
    ensures buf.text == old(buf.text) + PrintString(s)
    ensures exists body :: SpellsAll(body, s) && buf.text == old(buf.text) + ("\"" + body + "\"")
  {
    EscapesSpell(s);
    hide Escape, SpellsAll;
    assert s[0..] == s;
    buf.Write("\"");
    for i := 0 to |s|
      invariant buf.text + EscapeAll(s[i..]) == old(buf.text) + "\"" + EscapeAll(s)
    {
      assert s[i..][1..] == s[i + 1..] && s[i..][0] == s[i];
      Regroup(buf.text, Escape(s[i]), EscapeAll(s[i + 1..]), "", "");
      WriteEscaped(buf, s[i]);
    }
    assert EscapeAll(s[|s|..]) == "";
    assert buf.text + "" == buf.text;
    Regroup(old(buf.text), "\"", EscapeAll(s), "", "");
    Regroup(old(buf.text), "\"" + EscapeAll(s), "\"", "", "");
    buf.Write("\"");
  }

  /** Whatever order the keys are collected in, the text is the printed form. */
  method WriteCanonicalValue(buf: Buffer, v: Value)
    modifies buf
    ensures buf.text == old(buf.text) + Print(v)
    decreases v, 1, 0
  {
    match v {
      case Null => buf.Write("null");
      case Bool(b) => buf.Write(if b then "true" else "false");
      case Number(text) => buf.Write(text);
      case Str(s) => WriteCanonicalString(buf, s);
      case Arr(items) => WriteItems(buf, v);
      case Obj(fields) => WriteFields(buf, v);
    }
  }

  /** What is still to be written before item i. */
  ghost function ItemsLeft(v: Value, i: nat): string
    requires v.Arr? && i <= |v.items|
  {
    if i == |v.items| then "]" else (if i > 0 then "," else "") + PrintItems(v, i)
  }

  lemma ItemWritten(v: Value, i: nat)
    requires v.Arr? && i < |v.items|
    ensures ItemsLeft(v, i) == (if i > 0 then "," else "") + (Print(v.items[i]) + ItemsLeft(v, i + 1))
  {
  }

  method WriteItems(buf: Buffer, v: Value)
    requires v.Arr?
    modifies buf
    ensures buf.text == old(buf.text) + Print(v)
    decreases v, 0, 0
  {
    ghost var start := buf.text;
    assert Print(v) == "[" + ItemsLeft(v, 0);
    assert ItemsLeft(v, |v.items|) == "]";
    Regroup(start, "[", ItemsLeft(v, 0), "", "");
    hide Print, PrintItems, ItemsLeft;
    buf.Write("[");
    for i := 0 to |v.items|
      invariant buf.text + ItemsLeft(v, i) == start + Print(v)
    {
      ItemWritten(v, i);
      var comma := if i > 0 then "," else "";
      Regroup(buf.text, comma, Print(v.items[i]), ItemsLeft(v, i + 1), "");
      Regroup(buf.text, comma, Print(v.items[i]) + ItemsLeft(v, i + 1), "", "");
      Regroup(buf.text + comma, Print(v.items[i]), ItemsLeft(v, i + 1), "", "");
      if i > 0 { buf.Write(","); } else { assert buf.text + "" == buf.text; }
      WriteCanonicalValue(buf, v.items[i]);
    }
    buf.Write("]");
  }

  method CollectKeys(fields: map<string, Value>) returns (keys: seq<string>)
    ensures multiset(keys) == multiset(fields.Keys)
  {
    keys := [];
    var pending := fields.Keys;
    while pending != {}
      invariant pending <= fields.Keys && multiset(keys) + multiset(pending) == multiset(fields.Keys)
    {
      var k :| k in pending;
      keys := keys + [k];
      assert pending == (pending - {k}) + {k};
      pending := pending - {k};
    }
  }

  /** `sort.Strings` of the keys, in whatever order they were collected. */
  method OrderedKeys(fields: map<string, Value>) returns (keys: seq<string>)
    ensures keys == SortedKeys(fields.Keys)
  {
    var unsorted := CollectKeys(fields);
    keys := Sort(unsorted);
    KeysListed(fields.Keys);
    KeysMultiset(fields.Keys);
    SortedIsUnique(keys, SortedKeys(fields.Keys));
  }

  method WriteFields(buf: Buffer, v: Value)
    requires v.Obj?
    modifies buf
    ensures buf.text == old(buf.text) + Print(v)
    decreases v, 0, 1
  {
    var keys := OrderedKeys(v.fields);
    ghost var start := buf.text;
    NothingWrittenYet(v, keys);
    Regroup(start, "{", FieldsLeft(v, keys, 0), "", "");
    hide SortedKeys, PrintString, Print, PrintFields, FieldsLeft;
    buf.Write("{");
    for i := 0 to |keys|
      invariant buf.text + FieldsLeft(v, keys, i) == start + Print(v)
    {
      WriteField(buf, v, keys, i);
    }
    AllWritten(v, keys);
    buf.Write("}");
  }

  method WriteField(buf: Buffer, v: Value, keys: seq<string>, i: nat)
    requires v.Obj? && i < |keys| && forall k | k in keys :: k in v.fields
    modifies buf
    ensures buf.text + FieldsLeft(v, keys, i + 1) == old(buf.text) + FieldsLeft(v, keys, i)
    decreases v, 0, 0
  {
    FieldWritten(v, keys, i);
    FieldAppended(buf.text, if i > 0 then "," else "", PrintString(keys[i]), Print(v.fields[keys[i]]), FieldsLeft(v, keys, i + 1));
    hide PrintString, Print, PrintFields, FieldsLeft;
    if i > 0 { buf.Write(","); } else { assert buf.text + "" == buf.text; }
    WriteCanonicalString(buf, keys[i]);
    buf.Write(":");
    WriteCanonicalValue(buf, v.fields[keys[i]]);
  }

  lemma NothingWrittenYet(v: Value, keys: seq<string>)
    requires v.Obj? && keys == SortedKeys(v.fields.Keys)
    ensures Print(v) == "{" + FieldsLeft(v, keys, 0)
  {
    hide PrintString;
    if v.fields == map[] {
      assert keys == [];
    } else {
      var k :| k in v.fields;
      assert k in keys;
      assert Print(v) == "{" + PrintFields(v, keys, 0);
    }
    hide Print, PrintFields, SortedKeys;
    assert "" + FieldsLeft(v, keys, 0) == FieldsLeft(v, keys, 0);
  }

  lemma AllWritten(v: Value, keys: seq<string>)
    requires v.Obj? && forall k | k in keys :: k in v.fields
    ensures FieldsLeft(v, keys, |keys|) == "}"
  {
  }

  lemma FieldWritten(v: Value, keys: seq<string>, i: nat)
    requires v.Obj? && i < |keys| && forall k | k in keys :: k in v.fields
    ensures FieldsLeft(v, keys, i) ==
            (if i > 0 then "," else "") + (PrintString(keys[i]) + (":" + (Print(v.fields[keys[i]]) + FieldsLeft(v, keys, i + 1))))
  {
    PrintedFields(v, keys, i);
    hide Print, PrintFields, PrintString;
  }

  lemma FieldAppended(text: string, comma: string, key: string, value: string, left: string)
    ensures text + (comma + (key + (":" + (value + left)))) == text + comma + key + ":" + value + left
  {
    Regroup(text, comma, key, ":", value + left);
    Regroup(text + comma + key, ":", value, left, "");
  }

  /** What is still to be written before field i. */
  ghost function FieldsLeft(v: Value, keys: seq<string>, i: nat): string
    requires v.Obj? && i <= |keys| && forall k | k in keys :: k in v.fields
  {
    if i == |keys| then "}" else (if i > 0 then "," else "") + PrintFields(v, keys, i)
  }
}
