/** The canonical JSON printer: sorted keys, fixed escapes, number text kept. A parser for
    it (grammar of sections 4, 5, 6 and 7 of RFC 8259, without insignificant whitespace)
    recovers the tree, so equal bytes mean equal trees. */
module Canon {
  import opened Options
  import opened Order
  import opened Digests

  /** A decoded tree: strings as sequences of code points, numbers as written. */
  datatype Json =
    | Null
    | Bool(value: bool)
    | Number(text: string)
    | String(s: string)
    | Array(items: seq<Json>)
    | Object(fields: map<string, Json>)

  predicate NumberChar(c: char) {
    '0' <= c <= '9' || c in {'-', '+', '.', 'e', 'E'}
  }

  /** Every number text of the grammar starts with a digit or a minus sign and goes on
      with number characters only. */
  predicate NumberText(t: string) {
    t != "" && ('0' <= t[0] <= '9' || t[0] == '-') && forall i :: 0 <= i < |t| ==> NumberChar(t[i])
  }

  ghost predicate WellFormed(v: Json) {
    match v
    case Number(t) => NumberText(t)
    case Array(items) => forall i :: 0 <= i < |items| ==> WellFormed(items[i])
    case Object(fields) => forall k :: k in fields ==> WellFormed(fields[k])
    case _ => true
  }

  // ---- The encoding -------------------------------------------------------------------

  function HexDigit(n: int): char
    requires 0 <= n < 16
  {
    "0123456789abcdef"[n]
  }

  function EscapeOf(c: char): string {
    if c == '\"' then "\\\""
    else if c == '\\' then "\\\\"
    else if c == 8 as char then "\\b"
    else if c == 12 as char then "\\f"
    else if c == '\n' then "\\n"
    else if c == '\r' then "\\r"
    else if c == '\t' then "\\t"
    else if c < 32 as char then "\\u00" + [HexDigit(c as int / 16), HexDigit(c as int % 16)]
    else if c == 0x2028 as char then "\\u2028"
    else if c == 0x2029 as char then "\\u2029"
    else [c]
  }

  function Escaped(s: string): string {
    if s == "" then "" else EscapeOf(s[0]) + Escaped(s[1..])
  }

  function EncodeString(s: string): string {
    "\"" + Escaped(s) + "\""
  }

  ghost function Encode(v: Json): string
    decreases v, 1
  {
    match v
    case Null => "null"
    case Bool(b) => if b then "true" else "false"
    case Number(t) => t
    case String(s) => EncodeString(s)
    case Array(items) => "[" + EncodeItems(v, items) + "]"
    case Object(fields) =>
      SortedSetMeaning(fields.Keys);
      "{" + EncodeMembers(v, SortedSet(fields.Keys)) + "}"
  }

  /** A suffix of an array's items, separated by commas. */
  ghost function EncodeItems(v: Json, items: seq<Json>): string
    requires v.Array? && forall i :: 0 <= i < |items| ==> items[i] in v.items
    decreases v, 0, |items|
  {
    if items == [] then ""
    else if |items| == 1 then Encode(items[0])
    else Encode(items[0]) + "," + EncodeItems(v, items[1..])
  }

  ghost function EncodeMember(v: Json, k: string): string
    requires v.Object? && k in v.fields
    decreases v, 0, 0
  {
    EncodeString(k) + ":" + Encode(v.fields[k])
  }

  /** Members in the given key order, separated by commas. */
  ghost function EncodeMembers(v: Json, keys: seq<string>): string
    requires v.Object? && forall i :: 0 <= i < |keys| ==> keys[i] in v.fields
    decreases v, 0, |keys| + 1
  {
    if keys == [] then ""
    else if |keys| == 1 then EncodeMember(v, keys[0])
    else EncodeMember(v, keys[0]) + "," + EncodeMembers(v, keys[1..])
  }

  // ---- The parser ---------------------------------------------------------------------

  function HexValue(c: char): Option<int> {
    if '0' <= c <= '9' then Some(c as int - '0' as int)
    else if 'a' <= c <= 'f' then Some(c as int - 'a' as int + 10)
    else if 'A' <= c <= 'F' then Some(c as int - 'A' as int + 10)
    else None
  }

  function FourHex(s: string): Option<int>
    requires |s| >= 4
  {
    var a, b, c, d := HexValue(s[0]), HexValue(s[1]), HexValue(s[2]), HexValue(s[3]);
    if a.None? || b.None? || c.None? || d.None? then None
    else Some(4096 * a.value + 256 * b.value + 16 * c.value + d.value)
  }

  /** One character of a string literal, and what follows it. */
  function ParseChar(s: string): (r: Option<(char, string)>)
    ensures r.Some? ==> |r.value.1| < |s|
  {
    if s == "" || s[0] == '\"' then None
    else if s[0] != '\\' then Some((s[0], s[1..]))
    else if |s| < 2 then None
    else if s[1] == '\"' || s[1] == '\\' || s[1] == '/' then Some((s[1], s[2..]))
    else if s[1] == 'b' then Some((8 as char, s[2..]))
    else if s[1] == 'f' then Some((12 as char, s[2..]))
    else if s[1] == 'n' then Some(('\n', s[2..]))
    else if s[1] == 'r' then Some(('\r', s[2..]))
    else if s[1] == 't' then Some(('\t', s[2..]))
    else if s[1] == 'u' && |s| >= 6 then
      var code := FourHex(s[2..]);
      if code.None? || !(0 <= code.value < 0xD800) then None else Some((code.value as char, s[6..]))
    else None
  }

  /** The rest of a string literal after its opening quote. */
  function ParseString(s: string): (r: Option<(string, string)>)
    ensures r.Some? ==> |r.value.1| < |s|
    decreases |s|
  {
    if s == "" then None
    else if s[0] == '\"' then Some(("", s[1..]))
    else match ParseChar(s)
      case None => None
      case Some((c, rest)) =>
        match ParseString(rest)
        case None => None
        case Some((t, rest')) => Some(([c] + t, rest'))
  }

  function NumberPrefix(s: string): (n: nat)
    ensures n <= |s|
  {
    if s == "" || !NumberChar(s[0]) then 0 else 1 + NumberPrefix(s[1..])
  }

  function Parse(s: string): (r: Option<(Json, string)>)
    ensures r.Some? ==> |r.value.1| < |s|
    decreases |s|, 0
  {
    if s == "" then None
    else if "null" <= s then Some((Null, s[4..]))
    else if "true" <= s then Some((Bool(true), s[4..]))
    else if "false" <= s then Some((Bool(false), s[5..]))
    else if s[0] == '\"' then
      match ParseString(s[1..]) case None => None case Some((t, rest)) => Some((String(t), rest))
    else if s[0] == '[' then
      if |s| > 1 && s[1] == ']' then Some((Array([]), s[2..]))
      else match ParseItems(s[1..]) case None => None case Some((items, rest)) => Some((Array(items), rest))
    else if s[0] == '{' then
      if |s| > 1 && s[1] == '}' then Some((Object(map[]), s[2..]))
      else match ParseMembers(s[1..]) case None => None case Some((fields, rest)) => Some((Object(fields), rest))
    else if '0' <= s[0] <= '9' || s[0] == '-' then
      var n := NumberPrefix(s);
      Some((Number(s[..n]), s[n..]))
    else None
  }

  function ParseItems(s: string): (r: Option<(seq<Json>, string)>)
    ensures r.Some? ==> |r.value.1| < |s|
    decreases |s|, 1
  {
    match Parse(s)
    case None => None
    case Some((v, rest)) =>
      if rest == "" then None
      else if rest[0] == ']' then Some(([v], rest[1..]))
      else if rest[0] != ',' then None
      else match ParseItems(rest[1..]) case None => None case Some((items, rest')) => Some(([v] + items, rest'))
  }

  function ParseMember(s: string): (r: Option<(string, Json, string)>)
    ensures r.Some? ==> |r.value.2| < |s|
    decreases |s|, 1
  {
    if s == "" || s[0] != '\"' then None
    else match ParseString(s[1..])
      case None => None
      case Some((k, rest)) =>
        if rest == "" || rest[0] != ':' then None
        else match Parse(rest[1..]) case None => None case Some((v, rest')) => Some((k, v, rest'))
  }

  function ParseMembers(s: string): (r: Option<(map<string, Json>, string)>)
    ensures r.Some? ==> |r.value.1| < |s|
    decreases |s|, 2
  {
    match ParseMember(s)
    case None => None
    case Some((k, v, rest)) =>
      if rest == "" then None
      else if rest[0] == '}' then Some((map[k := v], rest[1..]))
      else if rest[0] != ',' then None
      else match ParseMembers(rest[1..]) case None => None case Some((m, rest')) => Some((m + map[k := v], rest'))
  }

  // ---- Strings ------------------------------------------------------------------------

  lemma EscapeReads(c: char, rest: string)
    ensures EscapeOf(c) != "" && EscapeOf(c)[0] != '\"'
    ensures ParseChar(EscapeOf(c) + rest) == Some((c, rest))
  {
    hide HexDigit, FourHex;
    var e := EscapeOf(c);
    var s := e + rest;
    if |e| == 6 {
      LongEscapeReads(c, rest);
    } else if |e| == 2 {
      assert s[2..] == rest && s[1] == e[1];
    } else {
      assert s[1..] == rest;
    }
  }

  /** The six-character escapes: the other control characters, and the two separators. */
  lemma LongEscapeReads(c: char, rest: string)
    requires |EscapeOf(c)| == 6
    ensures ParseChar(EscapeOf(c) + rest) == Some((c, rest))
  {
    hide HexDigit, FourHex;
    var e := EscapeOf(c);
    var s := e + rest;
    var n := c as int;
    assert s[..2] == "\\u" && s[2..][..4] == e[2..] && s[6..] == rest;
    if n < 32 {
      assert e[2..] == "00" + [HexDigit(n / 16), HexDigit(n % 16)];
    } else {
      assert e[2..] == "202" + [HexDigit(n % 16)] by { SeparatorDigits(); }
    }
    FourHexReads(n, s[2..]);
  }

  /** Which of the escapes that read back alike is written: two characters for seven of them,
      six with lower-case digits for the other controls and the two separators, and every
      other character as it is. */
  lemma EscapeShape(c: char)
    ensures |EscapeOf(c)| == 2 <==> c in {'\"', '\\', 8 as char, 12 as char, '\n', '\r', '\t'}
    ensures |EscapeOf(c)| == 6 <==>
      c in {0x2028 as char, 0x2029 as char} || (c < ' ' && c !in {8 as char, 12 as char, '\n', '\r', '\t'})
    ensures |EscapeOf(c)| == 6 ==> EscapeOf(c)[..2] == "\\u" && FourHex(EscapeOf(c)[2..]) == Some(c as int)
    ensures |EscapeOf(c)| == 6 ==> forall i :: 2 <= i < 6 ==>
      '0' <= EscapeOf(c)[i] <= '9' || 'a' <= EscapeOf(c)[i] <= 'f'
    ensures |EscapeOf(c)| !in {2, 6} ==> EscapeOf(c) == [c]
  {
    hide FourHex;
    if |EscapeOf(c)| == 6 {
      var e, n := EscapeOf(c), c as int;
      SeparatorDigits();
      assert e[2..] == (if n < 32 then "00" + [HexDigit(n / 16), HexDigit(n % 16)] else "202" + [HexDigit(n % 16)]);
      FourHexReads(n, e[2..]);
    }
  }

  lemma SeparatorDigits()
    ensures HexDigit(8) == '8' && HexDigit(9) == '9'
  {
  }

  lemma FourHexReads(n: int, s: string)
    requires |s| >= 4
    requires 0 <= n < 32 || 0x2020 <= n < 0x2030
    requires s[..4] == if n < 32 then "00" + [HexDigit(n / 16), HexDigit(n % 16)] else "202" + [HexDigit(n % 16)]
    ensures FourHex(s) == Some(n)
  {
    hide HexDigit;
    HexReads(n % 16);
    assert s[0] == s[..4][0] && s[1] == s[..4][1] && s[2] == s[..4][2] && s[3] == s[..4][3];
    if n < 32 {
      HexReads(n / 16);
    }
  }

  lemma HexReads(n: int)
    requires 0 <= n < 16
    ensures HexValue(HexDigit(n)) == Some(n)
  {
  }

  lemma {:induction false} StringReads(s: string, rest: string)
    ensures ParseString(Escaped(s) + "\"" + rest) == Some((s, rest))
    decreases |s|
  {
    hide EscapeOf, ParseChar;
    if s == "" {
      assert Escaped(s) + "\"" + rest == "\"" + rest;
      assert ("\"" + rest)[1..] == rest;
    } else {
      var tail := Escaped(s[1..]) + "\"" + rest;
      var all := Escaped(s) + "\"" + rest;
      assert all == EscapeOf(s[0]) + tail;
      EscapeReads(s[0], tail);
      assert all[0] == EscapeOf(s[0])[0];
      StringReads(s[1..], rest);
      assert s == [s[0]] + s[1..];
    }
  }

  // ---- Round trip ---------------------------------------------------------------------

  /** What may follow a value: nothing that could continue a number. */
  predicate Delimited(rest: string) {
    rest == "" || !NumberChar(rest[0])
  }

  lemma {:induction false} NumberReads(t: string, rest: string)
    requires (forall i :: 0 <= i < |t| ==> NumberChar(t[i])) && Delimited(rest)
    ensures NumberPrefix(t + rest) == |t|
  {
    if t != "" {
      assert (t + rest)[1..] == t[1..] + rest;
      NumberReads(t[1..], rest);
    } else {
      assert t + rest == rest;
    }
  }

  /** No value's encoding is empty or starts like the end of a collection. */
  lemma EncodingStarts(v: Json)
    requires WellFormed(v)
    ensures Encode(v) != "" && Encode(v)[0] != ']' && Encode(v)[0] != '}'
  {
  }

  lemma LiteralsRead(rest: string)
    ensures Parse("null" + rest) == Some((Null, rest))
    ensures Parse("true" + rest) == Some((Bool(true), rest))
    ensures Parse("false" + rest) == Some((Bool(false), rest))
  {
    hide ParseItems, ParseMembers, ParseString, NumberPrefix;
    assert ("null" + rest)[..4] == "null" && ("null" + rest)[4..] == rest;
    assert ("true" + rest)[..4] == "true" && ("true" + rest)[4..] == rest && ("true" + rest)[0] == 't';
    assert ("false" + rest)[..5] == "false" && ("false" + rest)[5..] == rest && ("false" + rest)[0] == 'f';
  }

  lemma NoLiteral(s: string)
    requires s != "" && s[0] !in {'n', 't', 'f'}
    ensures !("null" <= s) && !("true" <= s) && !("false" <= s)
  {
  }

  lemma StringValueReads(t: string, rest: string)
    ensures Parse(EncodeString(t) + rest) == Some((String(t), rest))
  {
    hide ParseItems, ParseMembers, ParseString, NumberPrefix, Escaped;
    var s := EncodeString(t) + rest;
    NoLiteral(s);
    assert s[1..] == Escaped(t) + "\"" + rest;
    StringReads(t, rest);
  }

  lemma NumberValueReads(t: string, rest: string)
    requires NumberText(t) && Delimited(rest)
    ensures Parse(t + rest) == Some((Number(t), rest))
  {
    hide ParseItems, ParseMembers, ParseString, NumberPrefix;
    var s := t + rest;
    assert s[0] == t[0];
    NoLiteral(s);
    NumberReads(t, rest);
    assert s[..|t|] == t && s[|t|..] == rest;
  }

  lemma EmptyCollectionsRead(rest: string)
    ensures Parse("[]" + rest) == Some((Array([]), rest))
    ensures Parse("{}" + rest) == Some((Object(map[]), rest))
  {
    hide ParseItems, ParseMembers, ParseString, NumberPrefix;
    NoLiteral("[]" + rest);
    NoLiteral("{}" + rest);
    assert ("[]" + rest)[2..] == rest && ("{}" + rest)[2..] == rest;
  }

  lemma CollectionsRead(body: string, items: seq<Json>, fields: map<string, Json>, rest: string)
    requires body != ""
    ensures body[0] != ']' && ParseItems(body) == Some((items, rest)) ==>
      Parse("[" + body) == Some((Array(items), rest))
    ensures body[0] != '}' && ParseMembers(body) == Some((fields, rest)) ==>
      Parse("{" + body) == Some((Object(fields), rest))
  {
    hide ParseItems, ParseMembers, ParseString, NumberPrefix;
    NoLiteral("[" + body);
    NoLiteral("{" + body);
    assert ("[" + body)[1..] == body && ("{" + body)[1..] == body;
  }

  /** The parser recovers the tree and stops right behind it. */
  lemma {:induction false} RoundTrip(v: Json, rest: string)
    requires WellFormed(v) && Delimited(rest)
    ensures Parse(Encode(v) + rest) == Some((v, rest))
    decreases v, 2
  {
    match v {
      case Array(items) => ArrayRoundTrip(v, rest);
      case Object(fields) => ObjectRoundTrip(v, rest);
      case _ => ScalarRoundTrip(v, rest);
    }
  }

  lemma ScalarRoundTrip(v: Json, rest: string)
    requires WellFormed(v) && Delimited(rest) && !v.Array? && !v.Object?
    ensures Parse(Encode(v) + rest) == Some((v, rest))
  {
    hide Parse, EncodeString;
    match v {
      case Null => LiteralsRead(rest);
      case Bool(b) => LiteralsRead(rest);
      case Number(t) => NumberValueReads(t, rest);
      case String(s) => StringValueReads(s, rest);
    }
  }

  lemma {:induction false} ArrayRoundTrip(v: Json, rest: string)
    requires v.Array? && WellFormed(v)
    ensures Parse(Encode(v) + rest) == Some((v, rest))
    decreases v, 1
  {
    hide Parse, ParseItems, Encode, EncodeItems, WellFormed;
    var items := v.items;
    ArrayEncoding(v);
    if items == [] {
      EmptyCollectionsRead(rest);
      NoItems(v);
      assert Encode(v) + rest == "[]" + rest;
    } else {
      var body := EncodeItems(v, items) + "]" + rest;
      ItemsRoundTrip(v, items, rest);
      ItemsStart(v, items);
      assert body[0] == EncodeItems(v, items)[0];
      CollectionsRead(body, items, map[], rest);
      assert Encode(v) + rest == "[" + body;
    }
  }

  lemma {:induction false} ObjectRoundTrip(v: Json, rest: string)
    requires v.Object? && WellFormed(v)
    ensures Parse(Encode(v) + rest) == Some((v, rest))
    decreases v, 1
  {
    hide Parse, ParseMembers, Encode, EncodeMembers, WellFormed, SortedSet;
    var fields := v.fields;
    ObjectEncoding(v);
    SortedSetMeaning(fields.Keys);
    var keys := SortedSet(fields.Keys);
    if keys == [] {
      EmptyCollectionsRead(rest);
      NoKeys(fields, keys);
      NoMembers(v);
      assert Encode(v) + rest == "{}" + rest;
    } else {
      var body := EncodeMembers(v, keys) + "}" + rest;
      MembersRoundTrip(v, keys, rest);
      MembersStart(v, keys);
      AllMembers(fields, keys);
      assert body[0] == EncodeMembers(v, keys)[0];
      CollectionsRead(body, [], fields, rest);
      assert Encode(v) + rest == "{" + body;
    }
  }

  lemma NoItems(v: Json)
    requires v.Array?
    ensures EncodeItems(v, []) == ""
  {
  }

  lemma NoMembers(v: Json)
    requires v.Object?
    ensures EncodeMembers(v, []) == ""
  {
  }

  lemma NoKeys(fields: map<string, Json>, keys: seq<string>)
    requires (forall k :: k in keys <==> k in fields) && keys == []
    ensures fields == map[]
  {
    forall k ensures k !in fields { assert k !in keys; }
  }

  lemma AllMembers(fields: map<string, Json>, keys: seq<string>)
    requires forall k :: k in keys <==> k in fields
    ensures Restricted(fields, keys) == fields
  {
  }

  lemma ItemsStart(v: Json, items: seq<Json>)
    requires v.Array? && WellFormed(v) && items != [] && forall i :: 0 <= i < |items| ==> items[i] in v.items
    ensures EncodeItems(v, items) != "" && EncodeItems(v, items)[0] != ']'
  {
    hide Encode, WellFormed;
    ItemWellFormed(v, items[0]);
    EncodingStarts(items[0]);
    if |items| > 1 {
      assert EncodeItems(v, items) == Encode(items[0]) + ("," + EncodeItems(v, items[1..]));
    }
  }

  lemma MembersStart(v: Json, keys: seq<string>)
    requires v.Object? && keys != [] && forall i :: 0 <= i < |keys| ==> keys[i] in v.fields
    ensures EncodeMembers(v, keys) != "" && EncodeMembers(v, keys)[0] != '}'
  {
    assert EncodeMember(v, keys[0])[0] == '\"';
  }

  lemma {:induction false} ItemsRoundTrip(v: Json, items: seq<Json>, rest: string)
    requires v.Array? && WellFormed(v) && items != [] && forall i :: 0 <= i < |items| ==> items[i] in v.items
    ensures ParseItems(EncodeItems(v, items) + "]" + rest) == Some((items, rest))
    decreases v, 0, |items|
  {
    hide Parse, Encode, WellFormed;
    var e := Encode(items[0]);
    ItemWellFormed(v, items[0]);
    if |items| == 1 {
      var after := "]" + rest;
      RoundTrip(items[0], after);
      assert EncodeItems(v, items) + "]" + rest == e + after;
      assert after[1..] == rest && items == [items[0]];
    } else {
      var tail := EncodeItems(v, items[1..]) + "]" + rest;
      var after := "," + tail;
      RoundTrip(items[0], after);
      ItemsRoundTrip(v, items[1..], rest);
      assert EncodeItems(v, items) + "]" + rest == e + after;
      assert after[1..] == tail;
      assert items == [items[0]] + items[1..];
    }
  }

  lemma ItemWellFormed(v: Json, item: Json)
    requires v.Array? && WellFormed(v) && item in v.items
    ensures WellFormed(item)
  {
  }

  lemma {:induction false} MemberRoundTrip(v: Json, k: string, after: string)
    requires v.Object? && WellFormed(v) && k in v.fields && Delimited(after)
    ensures ParseMember(EncodeMember(v, k) + after) == Some((k, v.fields[k], after))
    decreases v, 0, 0
  {
    hide Parse, Encode, ParseString, Escaped;
    var s := EncodeMember(v, k) + after;
    var value := Encode(v.fields[k]) + after;
    RoundTrip(v.fields[k], after);
    StringReads(k, ":" + value);
    assert s[1..] == Escaped(k) + "\"" + (":" + value);
    assert (":" + value)[1..] == value;
  }

  /** The members at some of an object's keys. */
  ghost function Restricted(fields: map<string, Json>, keys: seq<string>): map<string, Json>
    requires forall i :: 0 <= i < |keys| ==> keys[i] in fields
  {
    map k | k in keys :: fields[k]
  }

  lemma RestrictedCons(fields: map<string, Json>, keys: seq<string>)
    requires keys != [] && forall i :: 0 <= i < |keys| ==> keys[i] in fields
    ensures Restricted(fields, keys) == Restricted(fields, keys[1..]) + map[keys[0] := fields[keys[0]]]
  {
    assert keys == [keys[0]] + keys[1..];
  }

  lemma MembersStep(k: string, x: Json, e: string, m: map<string, Json>, tail: string, rest: string)
    ensures ParseMember(e + "}" + rest) == Some((k, x, "}" + rest)) ==>
      ParseMembers(e + "}" + rest) == Some((map[k := x], rest))
    ensures (ParseMember(e + ("," + tail)) == Some((k, x, "," + tail)) && ParseMembers(tail) == Some((m, rest))
             ==> ParseMembers(e + ("," + tail)) == Some((m + map[k := x], rest)))
  {
    hide ParseMember;
    assert ("}" + rest)[1..] == rest && ("," + tail)[1..] == tail;
  }

  lemma {:induction false} MembersRoundTrip(v: Json, keys: seq<string>, rest: string)
    requires v.Object? && WellFormed(v) && keys != []
    requires forall i :: 0 <= i < |keys| ==> keys[i] in v.fields
    ensures ParseMembers(EncodeMembers(v, keys) + "}" + rest) == Some((Restricted(v.fields, keys), rest))
    decreases v, 0, |keys| + 1
  {
    hide ParseMember, ParseMembers, EncodeMember, WellFormed, Restricted;
    var k := keys[0];
    var e := EncodeMember(v, k);
    RestrictedCons(v.fields, keys);
    if |keys| == 1 {
      MemberRoundTrip(v, k, "}" + rest);
      assert e + "}" + rest == e + ("}" + rest);
      MembersStep(k, v.fields[k], e, map[], "", rest);
      RestrictedNil(v.fields, keys[1..]);
      assert map[] + map[k := v.fields[k]] == map[k := v.fields[k]];
    } else {
      var tail := EncodeMembers(v, keys[1..]) + "}" + rest;
      MemberRoundTrip(v, k, "," + tail);
      MembersRoundTrip(v, keys[1..], rest);
      MembersStep(k, v.fields[k], e, Restricted(v.fields, keys[1..]), tail, rest);
      assert EncodeMembers(v, keys) + "}" + rest == e + ("," + tail);
    }
  }

  lemma RestrictedNil(fields: map<string, Json>, keys: seq<string>)
    requires keys == []
    ensures Restricted(fields, keys) == map[]
  {
  }

  /** Prefix-free up to what follows: two encodings with delimited continuations that are
      equal as a whole are equal part by part. */
  lemma EncodingIsPrefixFree(u: Json, v: Json, r: string, r': string)
    requires WellFormed(u) && WellFormed(v) && Delimited(r) && Delimited(r')
    requires Encode(u) + r == Encode(v) + r'
    ensures u == v && r == r'
  {
    hide Parse, Encode, WellFormed;
    RoundTrip(u, r);
    RoundTrip(v, r');
  }

  /** Equal bytes, equal digests and equal trees are the same thing. */
  lemma DigestDecidesTree(u: Json, v: Json)
    requires WellFormed(u) && WellFormed(v)
    ensures Encode(u) == Encode(v) <==> u == v
    ensures Digest(Encode(u)) == Digest(Encode(v)) <==> u == v
  {
    hide Parse, Encode, WellFormed, Digest;
    DigestInjective(Encode(u), Encode(v));
    if Encode(u) == Encode(v) {
      assert Encode(u) + "" == Encode(v) + "";
      EncodingIsPrefixFree(u, v, "", "");
    }
  }

  // ---- The printer --------------------------------------------------------------------

  class Buffer {
    var bytes: string

    constructor ()
      ensures bytes == ""
    {
      bytes := "";
    }
  }

  /** Appends a tree's encoding. The keys of an object are visited in no particular order
      and then sorted: the bytes do not depend on that order. */
  method Write(buf: Buffer, v: Json)
    modifies buf
    ensures buf.bytes == old(buf.bytes) + Encode(v)
    decreases v
  {
    match v {
      case Null => buf.bytes := buf.bytes + "null";
      case Bool(b) => buf.bytes := buf.bytes + (if b then "true" else "false");
      case Number(t) => buf.bytes := buf.bytes + t;
      case String(s) => buf.bytes := buf.bytes + EncodeString(s);
      case Array(items) => WriteArray(buf, v);
      case Object(fields) => WriteObject(buf, v);
    }
  }

  method WriteArray(buf: Buffer, v: Json)
    requires v.Array?
    modifies buf
    ensures buf.bytes == old(buf.bytes) + Encode(v)
    decreases v, 0
  {
    hide Encode, WellFormed;
    var items := v.items;
    buf.bytes := buf.bytes + "[";
    ghost var prefix := "";
    for i := 0 to |items|
      invariant buf.bytes == old(buf.bytes) + "[" + prefix
      invariant i == 0 ==> prefix == ""
      invariant 0 < i < |items| ==> prefix + "," + EncodeItems(v, items[i..]) == EncodeItems(v, items)
      invariant 0 < i == |items| ==> prefix == EncodeItems(v, items)
    {
      if i > 0 {
        buf.bytes := buf.bytes + ",";
      }
      assert items[i..][0] == items[i] && items[i..][1..] == items[i + 1..] && items[0..] == items;
      Write(buf, items[i]);
      prefix := (if i > 0 then prefix + "," else "") + Encode(items[i]);
    }
    buf.bytes := buf.bytes + "]";
    ArrayEncoding(v);
  }

  lemma ArrayEncoding(v: Json)
    requires v.Array?
    ensures Encode(v) == "[" + EncodeItems(v, v.items) + "]"
  {
  }

  lemma ObjectEncoding(v: Json)
    requires v.Object?
    ensures forall k :: k in SortedSet(v.fields.Keys) <==> k in v.fields
    ensures Encode(v) == "{" + EncodeMembers(v, SortedSet(v.fields.Keys)) + "}"
  {
    SortedSetMeaning(v.fields.Keys);
  }

  /** The members are written by ascending key: the ascending enumeration of the keys is the
      one order they are written in. */
  lemma KeysAscend(v: Json, keys: seq<string>)
    requires v.Object? && forall k :: k in keys <==> k in v.fields
    requires forall i, j :: 0 <= i < j < |keys| ==> StringLe(keys[i], keys[j]) && keys[i] != keys[j]
    ensures Encode(v) == "{" + EncodeMembers(v, keys) + "}"
  {
    hide Encode, EncodeMembers, SortedSet;
    StringOrder();
    ObjectEncoding(v);
    SortedSetMeaning(v.fields.Keys);
    SameMembersCanonical(keys, SortedSet(v.fields.Keys), Identity, StringLe);
  }

  method WriteObject(buf: Buffer, v: Json)
    requires v.Object?
    modifies buf
    ensures buf.bytes == old(buf.bytes) + Encode(v)
    decreases v, 1
  {
    hide Encode, WellFormed, EncodeMember, SortedSet;
    ObjectEncoding(v);
    var keys := SortedKeys(v.fields.Keys);
    buf.bytes := buf.bytes + "{";
    ghost var prefix := "";
    for i := 0 to |keys|
      invariant buf.bytes == old(buf.bytes) + "{" + prefix
      invariant i == 0 ==> prefix == ""
      invariant 0 < i < |keys| ==> prefix + "," + EncodeMembers(v, keys[i..]) == EncodeMembers(v, keys)
      invariant 0 < i == |keys| ==> prefix == EncodeMembers(v, keys)
    {
      if i > 0 {
        buf.bytes := buf.bytes + ",";
      }
      assert keys[i..][0] == keys[i] && keys[i..][1..] == keys[i + 1..] && keys[0..] == keys;
      WriteMember(buf, v, keys[i]);
      prefix := (if i > 0 then prefix + "," else "") + EncodeMember(v, keys[i]);
    }
    buf.bytes := buf.bytes + "}";
  }

  method WriteMember(buf: Buffer, v: Json, k: string)
    requires v.Object? && k in v.fields
    modifies buf
    ensures buf.bytes == old(buf.bytes) + EncodeMember(v, k)
    decreases v, 0
  {
    hide Encode, WellFormed, EncodeString;
    buf.bytes := buf.bytes + EncodeString(k);
    buf.bytes := buf.bytes + ":";
    Write(buf, v.fields[k]);
  }

  method DigestOf(v: Json) returns (d: string)
    ensures d == Digest(Encode(v))
  {
    var out := new Buffer();
    Write(out, v);
    assert "" + Encode(v) == Encode(v);
    d := Digest(out.bytes);
  }
}
