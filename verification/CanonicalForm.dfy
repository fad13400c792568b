/** What makes the printed form canonical: among all the texts a parser reads as a string the printed one is
    the shortest, and the only shortest one without capitals in its escapes; an object's fields stand in
    order; and nothing stands between the parts. */
module CanonicalForm {
  import opened Wrappers
  import opened SortedStrings
  import opened CanonicalJson

  // ---- Strings, among all the texts that are read back ----

  lemma SpelledOnce(a: string, b: string, c: char)
    requires Spells(a, c) && Spells(b, c)
    ensures a == b
  {
  }

  /** No capital among the digits of an escape. */
  predicate LowerEscapes(body: string)
    decreases |body|
  {
    if body == "" then true
    else if body[0] != '\\' then LowerEscapes(body[1..])
    else if |body| >= 6 && body[1] == 'u' then
      && (forall i | 2 <= i < 6 :: !('A' <= body[i] <= 'F'))
      && LowerEscapes(body[6..])
    else |body| >= 2 ==> LowerEscapes(body[2..])
  }

  /** How many characters the parser takes for the first character of a string. */
  function Taken(body: string): nat {
    if body == "" || body[0] != '\\' then 1 else if |body| >= 2 && body[1] == 'u' then 6 else 2
  }

  lemma ParsedStep(body: string)
    requires ParseChars(body).Some? && body != "" && body[0] != '"'
    ensures Taken(body) <= |body| && ParseChars(body[Taken(body)..]).Some?
    ensures ParseChars(body).value.0 != "" && ParseChars(body).value.0[1..] == ParseChars(body[Taken(body)..]).value.0
    ensures ParseChars(body).value.1 == ParseChars(body[Taken(body)..]).value.1
    ensures |Escape(ParseChars(body).value.0[0])| <= Taken(body)
    ensures body[0] == '\\' ==> ParseEscape(body[1..]) == Some((ParseChars(body).value.0[0], body[Taken(body)..]))
    ensures body[0] != '\\' ==> ParseChars(body).value.0[0] == body[0]
  {
    EscapeLength(ParseChars(body).value.0[0]);
    if body[0] == '\\' {
      EscapeStep(body[1..]);
      assert body[1..][1..] == body[2..];
      if |body| >= 6 { assert body[1..][5..] == body[6..]; }
    }
    hide Escape, ParseEscape;
  }

  lemma EscapeLength(c: char)
    ensures |Escape(c)| <= 6 && (' ' <= c && c != '"' && c != '\\' ==> |Escape(c)| == 1)
  {
    hide HexDigit;
  }

  lemma EscapeStep(s: string)
    requires ParseEscape(s).Some?
    ensures s != "" && if s[0] == 'u' then |s| >= 5 && ParseEscape(s).value.1 == s[5..]
                       else ParseEscape(s).value.1 == s[1..] && |Escape(ParseEscape(s).value.0)| <= 2
  {
    hide HexDigit;
  }

  lemma LowerDigit(x: char)
    requires HexValue(x) < 16 && !('A' <= x <= 'F')
    ensures x == "0123456789abcdef"[HexValue(x)]
  {
    var digits := "0123456789abcdef";
    assert digits[0] == '0' && digits[1] == '1' && digits[2] == '2' && digits[3] == '3' && digits[4] == '4';
    assert digits[5] == '5' && digits[6] == '6' && digits[7] == '7' && digits[8] == '8' && digits[9] == '9';
    assert digits[10] == 'a' && digits[11] == 'b' && digits[12] == 'c' && digits[13] == 'd' && digits[14] == 'e' && digits[15] == 'f';
  }

  /** A lower-case escape of six characters is the printer's, for a character that needs one. */
  lemma LongEscapeIsCanonical(e: string, c: char, t: string)
    requires |e| == 6 && e[0] == '\\' && e[1] == 'u' && forall i | 2 <= i < 6 :: !('A' <= e[i] <= 'F')
    requires ParseEscape(e[1..] + t) == Some((c, t)) && |Escape(c)| == 6
    ensures e == Escape(c)
  {
    var s := e[1..] + t;
    assert s[0] == 'u' && s[1] == e[2] && s[2] == e[3] && s[3] == e[4] && s[4] == e[5];
    hide Hex4, HexDigit;
    var n := c as int;
    assert n < 32 && n !in {8, 9, 10, 12, 13};
    HexParts(n, HexValue(e[2]), HexValue(e[3]), HexValue(e[4]), HexValue(e[5]));
    hide ParseEscape;
    LowerDigit(e[2]);
    LowerDigit(e[3]);
    LowerDigit(e[4]);
    LowerDigit(e[5]);
    hide HexValue;
    EscapeSpells(c);
    hide Escape;
    assert e == ['\\', 'u', e[2], e[3], e[4], e[5]];
    SpelledOnce(e, Escape(c), c);
  }

  lemma HexParts(n: nat, a: nat, b: nat, c: nat, d: nat)
    requires n < 32 && a < 16 && b < 16 && c < 16 && d < 16 && n == a * 4096 + b * 256 + c * 16 + d
    ensures a == 0 && b == 0 && c == (if n < 16 then 0 else 1) && d == if n < 16 then n else n - 16
  {
  }

  /** Whatever text is read back as the string, the printed one is no longer. */
  lemma {:induction false} PrintedIsShortest(body: string)
    requires ParseChars(body).Some?
    ensures |PrintString(ParseChars(body).value.0)| <= 1 + |body| - |ParseChars(body).value.1|
    decreases |body|
  {
    if body[0] != '"' {
      ParsedStep(body);
      hide ParseChars, Escape, ParseEscape;
      PrintedIsShortest(body[Taken(body)..]);
    }
  }

  /** The printed text itself is read back, and has no capital in its escapes. */
  lemma PrintedIsRead(s: string)
    ensures ParseChars(PrintString(s)[1..]) == Some((s, "")) && LowerEscapes(PrintString(s)[1..])
  {
    StringRoundTrip(s, "");
    PrintedIsLower(s);
    assert PrintString(s)[1..] == EscapeAll(s) + "\"" == EscapeAll(s) + "\"" + "";
  }

  lemma {:induction false} PrintedIsLower(s: string)
    ensures LowerEscapes(EscapeAll(s) + "\"")
  {
    if s == "" {
      assert ("\"")[1..] == "";
    } else {
      PrintedIsLower(s[1..]);
      var t := EscapeAll(s[1..]) + "\"";
      EscapeSpells(s[0]);
      assert EscapeAll(s) + "\"" == Escape(s[0]) + t;
      hide Escape, EscapeAll;
      SpelledIsLower(Escape(s[0]), s[0], t);
    }
  }

  lemma SpelledIsLower(e: string, c: char, t: string)
    requires Spells(e, c) && LowerEscapes(t)
    ensures LowerEscapes(e + t)
  {
    var body := e + t;
    if |e| == 1 {
      assert body[1..] == t;
    } else if |e| == 2 {
      assert body[2..] == t;
    } else {
      assert body[6..] == t && body[0] == '\\' && body[1] == 'u';
      assert forall i | 0 <= i < 6 :: body[i] == e[i];
    }
  }

  /** And it is the only such text: any other text that is read back as the string is longer, or has a
      capital in an escape. */
  lemma {:induction false} PrintedIsOnly(body: string)
    requires ParseChars(body).Some? && LowerEscapes(body)
    requires 1 + |body| - |ParseChars(body).value.1| <= |PrintString(ParseChars(body).value.0)|
    ensures "\"" + body == PrintString(ParseChars(body).value.0) + ParseChars(body).value.1
    decreases |body|
  {
    var s, rest := ParseChars(body).value.0, ParseChars(body).value.1;
    if body[0] == '"' {
      assert body == "\"" + rest;
    } else {
      var n := Taken(body);
      ParsedStep(body);
      PrintedIsShortest(body[n..]);
      assert LowerEscapes(body[n..]);
      PrintedIsOnly(body[n..]);
      PieceIsCanonical(body, n, s[0]);
      hide ParseChars, Escape, ParseEscape, LowerEscapes;
      assert body == body[..n] + body[n..];
      Prepended(s, body[n..], rest);
    }
  }

  lemma Prepended(s: string, t: string, rest: string)
    requires s != "" && "\"" + t == PrintString(s[1..]) + rest
    ensures "\"" + (Escape(s[0]) + t) == PrintString(s) + rest
  {
    hide Escape;
    assert t == ("\"" + t)[1..] == (PrintString(s[1..]) + rest)[1..] == EscapeAll(s[1..]) + "\"" + rest;
  }

  lemma PieceIsCanonical(body: string, n: nat, c: char)
    requires n == Taken(body) <= |body| && n == |Escape(c)| && LowerEscapes(body)
    requires body[0] == '\\' ==> ParseEscape(body[1..]) == Some((c, body[n..]))
    requires body[0] != '\\' ==> body[0] == c
    ensures body[..n] == Escape(c)
  {
    if n == 6 {
      assert body[1..] == body[..6][1..] + body[6..];
      LongEscapeIsCanonical(body[..6], c, body[6..]);
    }
  }

  // ---- Objects and arrays ----

  /** The parts, with commas between them. */
  function Commas(parts: seq<string>): string {
    if parts == [] then "" else if |parts| == 1 then parts[0] else parts[0] + "," + Commas(parts[1..])
  }

  /** Up to some place the names agree, and there the first one ends or has the smaller character. */
  ghost predicate Precedes(a: string, b: string) {
    exists n | 0 <= n <= |a| && n <= |b| :: a[..n] == b[..n] && n < |b| && (n == |a| || a[n] < b[n])
  }

  lemma {:induction false} PrecedesIsLess(a: string, b: string)
    requires Precedes(a, b)
    ensures Le(a, b) && a != b
    decreases |a|
  {
    var n :| 0 <= n <= |a| && n <= |b| && a[..n] == b[..n] && n < |b| && (n == |a| || a[n] < b[n]);
    if n > 0 {
      assert a[0] == a[..n][0] == b[..n][0] == b[0];
      assert a[1..][..n - 1] == a[..n][1..] == b[..n][1..] == b[1..][..n - 1];
      PrecedesIsLess(a[1..], b[1..]);
    }
  }

  /** The literals; and an array's items in their order, with nothing between them but commas. */
  lemma ArrayIsItsItems(items: seq<Value>, parts: seq<string>, b: bool, text: string)
    requires |parts| == |items| && forall i | 0 <= i < |items| :: parts[i] == Print(items[i])
    ensures Print(Null) == "null" && Print(Bool(b)) == (if b then "true" else "false") && Print(Number(text)) == text
    ensures Print(Arr(items)) == "[" + Commas(parts) + "]"
  {
    if items != [] { ItemsAreJoined(Arr(items), 0, parts); }
  }

  lemma {:induction false} ItemsAreJoined(v: Value, i: nat, parts: seq<string>)
    requires v.Arr? && i < |v.items| && |parts| == |v.items| - i && forall j | 0 <= j < |parts| :: parts[j] == Print(v.items[i + j])
    ensures PrintItems(v, i) == Commas(parts) + "]"
    decreases |v.items| - i
  {
    if i + 1 < |v.items| { ItemsAreJoined(v, i + 1, parts[1..]); }
  }

  /** An object's fields, each name once and in order, with nothing between them but colons and commas.
      There is only one such list of names. */
  lemma ObjectIsItsFields(fields: map<string, Value>, keys: seq<string>, parts: seq<string>)
    requires (forall k :: k in keys <==> k in fields) && forall i, j | 0 <= i < j < |keys| :: Precedes(keys[i], keys[j])
    requires |parts| == |keys| && forall i | 0 <= i < |keys| :: parts[i] == PrintString(keys[i]) + ":" + Print(fields[keys[i]])
    ensures Print(Obj(fields)) == "{" + Commas(parts) + "}"
  {
    hide *;
    KeysInOrder(fields.Keys, keys);
    ObjectOfKeys(fields, keys);
    if keys == [] {
      NoParts();
    } else {
      FieldsAreJoined(Obj(fields), keys, 0, parts);
    }
  }

  lemma NoParts()
    ensures Commas([]) == ""
  {
  }

  lemma KeysInOrder(names: set<string>, keys: seq<string>)
    requires (forall k :: k in keys <==> k in names) && forall i, j | 0 <= i < j < |keys| :: Precedes(keys[i], keys[j])
    ensures keys == SortedKeys(names)
  {
    forall i, j | 0 <= i < j < |keys|
      ensures Le(keys[i], keys[j]) && keys[i] != keys[j]
    {
      PrecedesIsLess(keys[i], keys[j]);
    }
    hide *;
    KeysAreSorted(names, keys);
  }

  lemma ObjectOfKeys(fields: map<string, Value>, keys: seq<string>)
    requires keys == SortedKeys(fields.Keys)
    ensures Print(Obj(fields)) == "{" + if keys == [] then "}" else PrintFields(Obj(fields), keys, 0)
  {
    if keys == [] { assert forall k :: k !in fields; }
  }

  lemma {:induction false} DistinctMultiset(keys: seq<string>, names: set<string>)
    requires (forall k :: k in keys <==> k in names) && forall i, j | 0 <= i < j < |keys| :: keys[i] != keys[j]
    ensures multiset(keys) == multiset(names)
  {
    if keys == [] {
      assert names == {};
    } else {
      var last := |keys| - 1;
      assert keys == keys[..last] + [keys[last]] && names == (names - {keys[last]}) + {keys[last]};
      forall k
        ensures k in keys[..last] <==> k in names - {keys[last]}
      {
      }
      DistinctMultiset(keys[..last], names - {keys[last]});
    }
  }

  lemma KeysAreSorted(names: set<string>, keys: seq<string>)
    requires (forall k :: k in keys <==> k in names) && forall i, j | 0 <= i < j < |keys| :: Le(keys[i], keys[j]) && keys[i] != keys[j]
    ensures keys == SortedKeys(names)
  {
    DistinctMultiset(keys, names);
    KeysListed(names);
    KeysMultiset(names);
    hide SortedKeys;
    SortedIsUnique(keys, SortedKeys(names));
  }

  lemma {:induction false} FieldsAreJoined(v: Value, keys: seq<string>, i: nat, parts: seq<string>)
    requires v.Obj? && i < |keys| && forall k | k in keys :: k in v.fields
    requires |parts| == |keys| - i
    requires forall j | 0 <= j < |parts| :: parts[j] == PrintString(keys[i + j]) + ":" + Print(v.fields[keys[i + j]])
    ensures PrintFields(v, keys, i) == Commas(parts) + "}"
    decreases |keys| - i
  {
    hide Print, PrintString, SortedKeys;
    PrintedFields(v, keys, i);
    var name, value := PrintString(keys[i]), Print(v.fields[keys[i]]);
    if i + 1 < |keys| {
      FieldsAreJoined(v, keys, i + 1, parts[1..]);
      hide PrintFields;
      Joined(name, value, "," + Commas(parts[1..]) + "}");
      assert parts[0] == name + ":" + value;
      assert name + ":" + value + ("," + Commas(parts[1..]) + "}") == parts[0] + "," + Commas(parts[1..]) + "}";
    } else {
      hide PrintFields;
      Joined(name, value, "}");
      assert parts[0] == name + ":" + value;
    }
  }

  lemma Joined(name: string, value: string, rest: string)
    ensures name + (":" + (value + rest)) == name + ":" + value + rest
  {
  }
}
