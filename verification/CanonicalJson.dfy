/**
 The canonical JSON behind every drift hash: objects with their keys in bytewise order, arrays
 in order, leaves as encoding/json writes them. `Emit` is the printer in front of a tail, `Read`
 the parser that inverts it, and from the round trip follows that equal bytes mean equal values.
 */
module CanonicalJson {
  import opened Wrappers
  import opened Text

  /** A decoded JSON value. A number is kept as the token that denotes it. */
  datatype Json =
    | Obj(fields: map<string, Json>)
    | Arr(items: seq<Json>)
    | Str(text: string)
    | Num(token: string)
    | Bool(value: bool)
    | Null

  // ----- Leaves -----

  predicate NumberChar(c: char) {
    '0' <= c <= '9' || c in "+-.eE"
  }

  predicate NumberToken(t: string) {
    t != "" && forall i :: 0 <= i < |t| ==> NumberChar(t[i])
  }

  ghost predicate WellFormed(v: Json) {
    match v
    case Obj(fields) => forall k :: k in fields ==> WellFormed(fields[k])
    case Arr(items) => forall i :: 0 <= i < |items| ==> WellFormed(items[i])
    case Num(t) => NumberToken(t)
    case _ => true
  }

  function Hex(d: nat): char
    requires d < 16
  {
    if d < 10 then (d as char) + '0' else ((d - 10) as char) + 'a'
  }

  function Unhex(c: char): Option<nat> {
    if '0' <= c <= '9' then Some(c as nat - '0' as nat)
    else if 'a' <= c <= 'f' then Some(c as nat - 'a' as nat + 10)
    else None
  }

  /** The characters encoding/json writes as a \u escape: controls, the HTML set, U+2028 and U+2029. */
  predicate NeedsUnicodeEscape(c: char) {
    c < ' ' || c in "<>&" || c as int == 0x2028 || c as int == 0x2029
  }

  function UnicodeEscape(c: char): string
    requires c as int < 0x10000
  {
    var n := c as int;
    ['\\', 'u', Hex(n / 4096), Hex(n / 256 % 16), Hex(n / 16 % 16), Hex(n % 16)]
  }

  function Escape(c: char): string {
    if c == '\"' then "\\\""
    else if c == '\\' then "\\\\"
    else if c as int == 8 then "\\b"
    else if c as int == 12 then "\\f"
    else if c == '\n' then "\\n"
    else if c == '\r' then "\\r"
    else if c == '\t' then "\\t"
    else if NeedsUnicodeEscape(c) then UnicodeEscape(c)
    else [c]
  }

  /** The rest of a string literal after its opening quote, in front of `tail`. */
  function EmitText(text: string, tail: string): string {
    if text == "" then ['\"'] + tail else Escape(text[0]) + EmitText(text[1..], tail)
  }

  function EmitString(text: string, tail: string): string {
    ['\"'] + EmitText(text, tail)
  }

  // ----- The printer -----

  ghost function Emit(v: Json, tail: string): string
    decreases v, 1, 0
  {
    match v
    case Obj(fields) => ['{'] + EmitMembers(v, Ordered(fields.Keys), true, ['}'] + tail)
    case Arr(items) => ['['] + EmitItems(v, 0, [']'] + tail)
    case Str(text) => EmitString(text, tail)
    case Num(token) => token + tail
    case Bool(b) => (if b then "true" else "false") + tail
    case Null => "null" + tail
  }

  ghost function EmitMembers(v: Json, keys: seq<string>, first: bool, tail: string): string
    requires v.Obj? && forall k :: k in keys ==> k in v.fields
    decreases v, 0, |keys|
  {
    if keys == [] then tail
    else
      (if first then "" else ",") +
      EmitString(keys[0], [':'] + Emit(v.fields[keys[0]], EmitMembers(v, keys[1..], false, tail)))
  }

  ghost function EmitItems(v: Json, i: nat, tail: string): string
    requires v.Arr? && i <= |v.items|
    decreases v, 0, |v.items| - i
  {
    if i == |v.items| then tail
    else (if i == 0 then "" else ",") + Emit(v.items[i], EmitItems(v, i + 1, tail))
  }

  /** The canonical bytes of a value. */
  ghost function Canonical(v: Json): string {
    Emit(v, "")
  }

  // ----- The parser -----

  datatype Parsed<+T> = Parsed(value: T, rest: string)

  function ReadHex4(s: string): Option<nat>
    requires |s| >= 4
  {
    var a, b, c, d := Unhex(s[0]), Unhex(s[1]), Unhex(s[2]), Unhex(s[3]);
    if a.Some? && b.Some? && c.Some? && d.Some?
    then Some(4096 * a.value + 256 * b.value + 16 * c.value + d.value)
    else None
  }

  /** One character of a string literal, which may be an escape. */
  function ReadChar(s: string): (r: Option<Parsed<char>>)
    ensures r.Some? ==> |r.value.rest| < |s|
  {
    if s == "" then None
    else if s[0] != '\\' then Some(Parsed(s[0], s[1..]))
    else if |s| < 2 then None
    else if s[1] == '\"' || s[1] == '\\' then Some(Parsed(s[1], s[2..]))
    else if s[1] == 'b' then Some(Parsed(8 as char, s[2..]))
    else if s[1] == 'f' then Some(Parsed(12 as char, s[2..]))
    else if s[1] == 'n' then Some(Parsed('\n', s[2..]))
    else if s[1] == 'r' then Some(Parsed('\r', s[2..]))
    else if s[1] == 't' then Some(Parsed('\t', s[2..]))
    else if s[1] != 'u' || |s| < 6 then None
    else
      var code := ReadHex4(s[2..]);
      if code.Some? && (code.value < 0xD800 || 0xE000 <= code.value < 0x10000)
      then Some(Parsed(code.value as char, s[6..])) else None
  }

  function ReadText(s: string): (r: Option<Parsed<string>>)
    ensures r.Some? ==> |r.value.rest| < |s|
    decreases |s|
  {
    if s == "" then None
    else if s[0] == '\"' then Some(Parsed("", s[1..]))
    else
      var c := ReadChar(s);
      if c.None? then None else
      var more := ReadText(c.value.rest);
      if more.None? then None else Some(Parsed([c.value.value] + more.value.value, more.value.rest))
  }

  function NumberLength(s: string): (n: nat)
    ensures n <= |s|
  {
    if s != "" && NumberChar(s[0]) then 1 + NumberLength(s[1..]) else 0
  }

  function Read(s: string): (r: Option<Parsed<Json>>)
    ensures r.Some? ==> |r.value.rest| < |s|
    decreases |s|, 1
  {
    if s == "" then None
    else if s[0] == '{' then
      if |s| > 1 && s[1] == '}' then Some(Parsed(Obj(map[]), s[2..])) else ReadMembers(s[1..], map[])
    else if s[0] == '[' then
      if |s| > 1 && s[1] == ']' then Some(Parsed(Arr([]), s[2..])) else ReadItems(s[1..], [])
    else if s[0] == '\"' then
      var t := ReadText(s[1..]);
      if t.None? then None else Some(Parsed(Str(t.value.value), t.value.rest))
    else if "true" <= s then Some(Parsed(Bool(true), s[4..]))
    else if "false" <= s then Some(Parsed(Bool(false), s[5..]))
    else if "null" <= s then Some(Parsed(Null, s[4..]))
    else if NumberChar(s[0]) then Some(Parsed(Num(s[..NumberLength(s)]), s[NumberLength(s)..]))
    else None
  }

  function ReadMembers(s: string, read: map<string, Json>): (r: Option<Parsed<Json>>)
    ensures r.Some? ==> |r.value.rest| < |s|
    decreases |s|, 0
  {
    if s == "" || s[0] != '\"' then None else
    var k := ReadText(s[1..]);
    if k.None? || k.value.rest == "" || k.value.rest[0] != ':' then None else
    var v := Read(k.value.rest[1..]);
    if v.None? || v.value.rest == "" then None else
    var more := read[k.value.value := v.value.value];
    if v.value.rest[0] == '}' then Some(Parsed(Obj(more), v.value.rest[1..]))
    else if v.value.rest[0] == ',' then ReadMembers(v.value.rest[1..], more)
    else None
  }

  function ReadItems(s: string, read: seq<Json>): (r: Option<Parsed<Json>>)
    ensures r.Some? ==> |r.value.rest| < |s|
    decreases |s|, 2
  {
    if s == "" then None else
    var v := Read(s);
    if v.None? || v.value.rest == "" then None else
    var more := read + [v.value.value];
    if v.value.rest[0] == ']' then Some(Parsed(Arr(more), v.value.rest[1..]))
    else if v.value.rest[0] == ',' then ReadItems(v.value.rest[1..], more)
    else None
  }

  // ----- The round trip -----

  lemma HexRoundTrip(d: nat)
    requires d < 16
    ensures Unhex(Hex(d)) == Some(d)
  {
  }

  lemma UnicodeEscapeRoundTrip(c: char, tail: string)
    requires NeedsUnicodeEscape(c)
    ensures ReadChar(UnicodeEscape(c) + tail) == Some(Parsed(c, tail))
  {
    var n := c as int;
    var s := UnicodeEscape(c) + tail;
    assert s[2..] == [Hex(n / 4096), Hex(n / 256 % 16), Hex(n / 16 % 16), Hex(n % 16)] + tail;
    Hex4RoundTrip(n, s[2..]);
    assert s[6..] == tail;
  }

  lemma Hex4RoundTrip(n: nat, s: string)
    requires n < 0x10000 && |s| >= 4
    requires s[0] == Hex(n / 4096) && s[1] == Hex(n / 256 % 16) && s[2] == Hex(n / 16 % 16) && s[3] == Hex(n % 16)
    ensures ReadHex4(s) == Some(n)
  {
    HexRoundTrip(n / 4096);
    HexRoundTrip(n / 256 % 16);
    HexRoundTrip(n / 16 % 16);
    HexRoundTrip(n % 16);
    Nibbles(n);
  }

  lemma Nibbles(n: nat)
    ensures 4096 * (n / 4096) + 256 * (n / 256 % 16) + 16 * (n / 16 % 16) + n % 16 == n
  {
    var a, b, c := n / 16, n / 256, n / 4096;
    assert b == a / 16 && c == b / 16;
    assert n == 16 * a + n % 16 && a == 16 * b + a % 16 && b == 16 * c + b % 16;
  }

  lemma EscapeRoundTrip(c: char, tail: string)
    ensures ReadChar(Escape(c) + tail) == Some(Parsed(c, tail))
    ensures (Escape(c) + tail)[0] != '\"'
  {
    if Escape(c) == [c] {
      assert ([c] + tail)[1..] == tail;
    } else if |Escape(c)| == 2 {
      assert (Escape(c) + tail)[2..] == tail;
    } else {
      UnicodeEscapeRoundTrip(c, tail);
    }
  }

  lemma {:induction false} TextRoundTrip(text: string, tail: string)
    ensures ReadText(EmitText(text, tail)) == Some(Parsed(text, tail))
  {
    if text == "" {
      assert EmitText(text, tail)[1..] == tail;
    } else {
      EscapeRoundTrip(text[0], EmitText(text[1..], tail));
      TextRoundTrip(text[1..], tail);
      assert [text[0]] + text[1..] == text;
    }
  }

  /** What may follow a value: the end, a comma or a closing bracket. */
  predicate Delimited(tail: string) {
    tail == "" || tail[0] in ",]}"
  }

  lemma {:induction false} NumberRoundTrip(token: string, tail: string)
    requires Delimited(tail) && forall i :: 0 <= i < |token| ==> NumberChar(token[i])
    ensures NumberLength(token + tail) == |token|
  {
    if token == "" {
      assert token + tail == tail;
    } else {
      assert (token + tail)[1..] == token[1..] + tail;
      NumberRoundTrip(token[1..], tail);
    }
  }

  lemma LeafRoundTrip(v: Json, tail: string)
    requires WellFormed(v) && Delimited(tail) && !v.Obj? && !v.Arr?
    ensures Read(Emit(v, tail)) == Some(Parsed(v, tail))
  {
    match v
    case Str(text) =>
      TextRoundTrip(text, tail);
      assert Emit(v, tail)[1..] == EmitText(text, tail);
    case Num(token) => NumRoundTrip(token, tail);
    case Bool(b) => WordRoundTrip(v, tail);
    case Null => WordRoundTrip(v, tail);
  }

  lemma NumRoundTrip(token: string, tail: string)
    requires NumberToken(token) && Delimited(tail)
    ensures Read(Emit(Num(token), tail)) == Some(Parsed(Num(token), tail))
  {
    var s := Emit(Num(token), tail);
    NumberRoundTrip(token, tail);
    assert s == token + tail && s[0] == token[0] && NumberChar(s[0]);
    assert s[..|token|] == token && s[|token|..] == tail;
  }

  lemma WordRoundTrip(v: Json, tail: string)
    requires v.Bool? || v.Null?
    ensures Read(Emit(v, tail)) == Some(Parsed(v, tail))
  {
    var s := Emit(v, tail);
    if v == Bool(true) {
      assert s[0] == 't' && s[4..] == tail;
    } else if v == Bool(false) {
      assert s[0] == 'f' && s[5..] == tail;
    } else {
      assert s[0] == 'n' && s[4..] == tail;
    }
  }

  /** Parsing what was printed gives back the value and leaves the tail. */
  lemma {:induction false} RoundTrip(v: Json, tail: string)
    requires WellFormed(v) && Delimited(tail)
    ensures Read(Emit(v, tail)) == Some(Parsed(v, tail))
    decreases v, 1, 0
  {
    match v
    case Obj(_) => ObjRoundTrip(v, tail);
    case Arr(_) => ArrRoundTrip(v, tail);
    case _ => LeafRoundTrip(v, tail);
  }

  lemma {:induction false} ObjRoundTrip(v: Json, tail: string)
    requires v.Obj? && WellFormed(v) && Delimited(tail)
    ensures Read(Emit(v, tail)) == Some(Parsed(v, tail))
    decreases v, 0, |Ordered(v.fields.Keys)| + 1
  {
    var keys := Ordered(v.fields.Keys);
    RestrictedAll(v.fields, keys);
    if keys == [] {
      assert Emit(v, tail) == "{" + ("}" + tail);
      assert Emit(v, tail)[2..] == tail;
    } else {
      MembersRoundTrip(v, keys, map[], tail);
      MembersOpen(EmitMembers(v, keys, true, "}" + tail));
    }
  }

  lemma MembersOpen(inner: string)
    requires inner != "" && inner[0] != '}'
    ensures Read("{" + inner) == ReadMembers(inner, map[])
  {
    assert ("{" + inner)[1..] == inner;
  }

  lemma RestrictedAll(fields: map<string, Json>, keys: seq<string>)
    requires Elements(keys) == fields.Keys
    ensures Restricted(fields, keys) == fields && map[] + Restricted(fields, keys) == fields
    ensures keys == [] ==> fields == map[]
  {
    assert forall k :: k in keys <==> k in Elements(keys);
    assert keys == [] ==> fields.Keys == {};
  }

  lemma RestrictedStep(fields: map<string, Json>, keys: seq<string>, read: map<string, Json>)
    requires keys != [] && keys[0] in fields
    ensures read[keys[0] := fields[keys[0]]] + Restricted(fields, keys[1..]) == read + Restricted(fields, keys)
  {
    assert keys == [keys[0]] + keys[1..];
  }

  lemma {:induction false} ArrRoundTrip(v: Json, tail: string)
    requires v.Arr? && WellFormed(v) && Delimited(tail)
    ensures Read(Emit(v, tail)) == Some(Parsed(v, tail))
    decreases v, 0, |v.items| + 1
  {
    var inner := EmitItems(v, 0, "]" + tail);
    var s := Emit(v, tail);
    assert s == "[" + inner && s[1..] == inner;
    if v.items == [] {
      assert s[2..] == tail;
    } else {
      ItemsRoundTrip(v, 0, tail);
      assert inner == Emit(v.items[0], EmitItems(v, 1, "]" + tail));
      FirstChar(v.items[0], EmitItems(v, 1, "]" + tail));
      assert v.items[..0] == [];
    }
  }

  /** A printed value never starts with a closing bracket. */
  lemma FirstChar(v: Json, tail: string)
    requires WellFormed(v)
    ensures Emit(v, tail) != "" && Emit(v, tail)[0] != ']'
  {
  }

  ghost function Restricted(fields: map<string, Json>, keys: seq<string>): map<string, Json> {
    map k | k in fields && k in keys :: fields[k]
  }

  lemma {:induction false} MembersRoundTrip(v: Json, keys: seq<string>, read: map<string, Json>, tail: string)
    requires v.Obj? && WellFormed(v) && keys != [] && forall k :: k in keys ==> k in v.fields
    ensures ReadMembers(EmitMembers(v, keys, true, "}" + tail), read)
            == Some(Parsed(Obj(read + Restricted(v.fields, keys)), tail))
    decreases v, 0, |keys|
  {
    var after := EmitMembers(v, keys[1..], false, "}" + tail);
    var value := v.fields[keys[0]];
    AfterMember(v, keys[1..], tail);
    RoundTrip(value, after);
    assert EmitMembers(v, keys, true, "}" + tail) == EmitString(keys[0], ":" + Emit(value, after));
    MemberRead(keys[0], value, after, read);
    RestrictedStep(v.fields, keys, read);
    if keys[1..] == [] {
      assert Restricted(v.fields, keys[1..]) == map[];
      assert read[keys[0] := value] + map[] == read[keys[0] := value];
    } else {
      MembersRoundTrip(v, keys[1..], read[keys[0] := value], tail);
    }
  }

  /** What follows a member: the closing brace, or a comma and the remaining members. */
  lemma AfterMember(v: Json, keys: seq<string>, tail: string)
    requires v.Obj? && forall k :: k in keys ==> k in v.fields
    ensures var after := EmitMembers(v, keys, false, "}" + tail);
            && after != "" && Delimited(after)
            && (keys == [] ==> after[0] == '}' && after[1..] == tail)
            && (keys != [] ==> after[0] == ',' && after[1..] == EmitMembers(v, keys, true, "}" + tail))
  {
  }

  /** One printed member is read back, whatever comes after it. */
  lemma MemberRead(key: string, value: Json, after: string, read: map<string, Json>)
    requires after != "" && Read(Emit(value, after)) == Some(Parsed(value, after))
    ensures var s := EmitString(key, ":" + Emit(value, after));
            var more := read[key := value];
            && (after[0] == '}' ==> ReadMembers(s, read) == Some(Parsed(Obj(more), after[1..])))
            && (after[0] == ',' ==> ReadMembers(s, read) == ReadMembers(after[1..], more))
  {
    var s := EmitString(key, ":" + Emit(value, after));
    TextRoundTrip(key, ":" + Emit(value, after));
    assert s[1..] == EmitText(key, ":" + Emit(value, after));
    assert (":" + Emit(value, after))[1..] == Emit(value, after);
  }

  lemma {:induction false} ItemsRoundTrip(v: Json, i: nat, tail: string)
    requires v.Arr? && WellFormed(v) && i < |v.items|
    ensures ReadItems(Emit(v.items[i], EmitItems(v, i + 1, "]" + tail)), v.items[..i])
            == Some(Parsed(v, tail))
    decreases v, 0, |v.items| - i
  {
    var after := EmitItems(v, i + 1, "]" + tail);
    assert Delimited(after);
    RoundTrip(v.items[i], after);
    FirstChar(v.items[i], after);
    assert v.items[..i] + [v.items[i]] == v.items[..i + 1];
    if i + 1 == |v.items| {
      assert after[1..] == tail;
      assert v.items[..i + 1] == v.items;
    } else {
      ItemsRoundTrip(v, i + 1, tail);
      assert after[1..] == Emit(v.items[i + 1], EmitItems(v, i + 2, "]" + tail));
    }
  }

  /** Equal bytes, equal values: the canonical form is injective on every nesting. */
  lemma Injective(v: Json, u: Json)
    requires WellFormed(v) && WellFormed(u)
    ensures Canonical(v) == Canonical(u) <==> v == u
  {
    RoundTrip(v, "");
    RoundTrip(u, "");
  }

  // ----- canonicalMarshal itself -----

  lemma {:induction false} TextTail(text: string, tail: string)
    ensures EmitText(text, tail) == EmitText(text, "") + tail
  {
    if text != "" { TextTail(text[1..], tail); }
  }

  lemma Assoc(a: string, b: string, c: string)
    ensures (a + b) + c == a + (b + c)
  {
  }

  /** Printing in front of a tail is printing, then the tail. */
  lemma {:induction false} EmitTail(v: Json, tail: string)
    ensures Emit(v, tail) == Canonical(v) + tail
    decreases v, 1, 0
  {
    match v
    case Obj(_) => ObjTail(v, tail);
    case Arr(_) => ArrTail(v, tail);
    case Str(text) =>
      TextTail(text, tail);
      Assoc("\"", EmitText(text, ""), tail);
    case Num(token) => assert token + "" == token;
    case Bool(b) => assert (if b then "true" else "false") + "" == if b then "true" else "false";
    case Null => assert "null" + "" == "null";
  }

  lemma {:induction false} ObjTail(v: Json, tail: string)
    requires v.Obj?
    ensures Emit(v, tail) == Canonical(v) + tail
    decreases v, 0, |Ordered(v.fields.Keys)| + 1
  {
    var keys := Ordered(v.fields.Keys);
    assert forall k :: k in keys <==> k in Elements(keys);
    MembersTail(v, keys, true, "}" + tail);
    MembersTail(v, keys, true, "}" + "");
    Wrapped("{", EmitMembers(v, keys, true, ""), "}", tail);
  }

  lemma Wrapped(left: string, inner: string, right: string, tail: string)
    ensures (left + (inner + (right + ""))) + tail == left + (inner + (right + tail))
  {
    assert right + "" == right;
    Assoc(left, inner + right, tail);
    Assoc(inner, right, tail);
  }

  lemma {:induction false} ArrTail(v: Json, tail: string)
    requires v.Arr?
    ensures Emit(v, tail) == Canonical(v) + tail
    decreases v, 0, |v.items| + 1
  {
    ItemsTail(v, 0, "]" + tail);
    ItemsTail(v, 0, "]" + "");
    Wrapped("[", EmitItems(v, 0, ""), "]", tail);
  }

  ghost function Member(v: Json, key: string, first: bool): string
    requires v.Obj? && key in v.fields
  {
    (if first then "" else ",") + (EmitString(key, "") + (":" + Canonical(v.fields[key])))
  }

  lemma {:induction false} MemberStep(v: Json, keys: seq<string>, first: bool, tail: string)
    requires v.Obj? && keys != [] && forall k :: k in keys ==> k in v.fields
    ensures EmitMembers(v, keys, first, tail) ==
            Member(v, keys[0], first) + EmitMembers(v, keys[1..], false, tail)
    decreases v, 0, 0
  {
    var rest := EmitMembers(v, keys[1..], false, tail);
    var key := keys[0];
    var value := Canonical(v.fields[key]);
    EmitTail(v.fields[key], rest);
    TextTail(key, ":" + (value + rest));
    Assoc(":", value, rest);
    Assoc("\"", EmitText(key, ""), (":" + value) + rest);
    Assoc(EmitString(key, ""), ":" + value, rest);
    Assoc(if first then "" else ",", EmitString(key, "") + (":" + value), rest);
  }

  lemma {:induction false} MembersTail(v: Json, keys: seq<string>, first: bool, tail: string)
    requires v.Obj? && forall k :: k in keys ==> k in v.fields
    ensures EmitMembers(v, keys, first, tail) == EmitMembers(v, keys, first, "") + tail
    decreases v, 0, |keys|
  {
    if keys != [] {
      MemberStep(v, keys, first, tail);
      MemberStep(v, keys, first, "");
      MembersTail(v, keys[1..], false, tail);
      Assoc(Member(v, keys[0], first), EmitMembers(v, keys[1..], false, ""), tail);
    }
  }

  lemma {:induction false} ItemStep(v: Json, i: nat, tail: string)
    requires v.Arr? && i < |v.items|
    ensures EmitItems(v, i, tail) ==
            ((if i == 0 then "" else ",") + Canonical(v.items[i])) + EmitItems(v, i + 1, tail)
    decreases v, 0, 0
  {
    EmitTail(v.items[i], EmitItems(v, i + 1, tail));
    Assoc(if i == 0 then "" else ",", Canonical(v.items[i]), EmitItems(v, i + 1, tail));
  }

  lemma {:induction false} ItemsTail(v: Json, i: nat, tail: string)
    requires v.Arr? && i <= |v.items|
    ensures EmitItems(v, i, tail) == EmitItems(v, i, "") + tail
    decreases v, 0, |v.items| - i
  {
    if i < |v.items| {
      ItemStep(v, i, tail);
      ItemStep(v, i, "");
      ItemsTail(v, i + 1, tail);
      Assoc((if i == 0 then "" else ",") + Canonical(v.items[i]), EmitItems(v, i + 1, ""), tail);
    }
  }

  method CanonicalMarshal(v: Json) returns (result: string)
    ensures result == Canonical(v)
    decreases v
  {
    match v
    case Obj(fields) => result := MarshalObject(v);
    case Arr(items) => result := MarshalArray(v);
    case Str(text) => result := EmitString(text, "");
    case Num(token) => result := token;
    case Bool(b) => result := if b then "true" else "false";
    case Null => result := "null";
  }

  method MarshalObject(v: Json) returns (result: string)
    requires v.Obj?
    ensures result == Canonical(v)
    decreases v, 0
  {
    var keys := SortedKeys(v.fields);
    assert forall k :: k in keys <==> k in Elements(keys);
    result := "{";
    var i := 0;
    assert keys[0..] == keys && "}" + "" == "}";
    while i < |keys|
      invariant 0 <= i <= |keys|
      invariant result + EmitMembers(v, keys[i..], i == 0, "}") == Canonical(v)
    {
      MemberStep(v, keys[i..], i == 0, "}");
      assert keys[i..][1..] == keys[i + 1..] && keys[i..][0] == keys[i];
      var value := CanonicalMarshal(v.fields[keys[i]]);
      var member := EmitString(keys[i], "") + (":" + value);
      if i > 0 { member := "," + member; }
      assert member == Member(v, keys[i], i == 0);
      Assoc(result, member, EmitMembers(v, keys[i + 1..], false, "}"));
      result := result + member;
      i := i + 1;
    }
    result := result + "}";
  }

  method MarshalArray(v: Json) returns (result: string)
    requires v.Arr?
    ensures result == Canonical(v)
    decreases v, 0
  {
    result := "[";
    var i := 0;
    assert "]" + "" == "]";
    while i < |v.items|
      invariant 0 <= i <= |v.items|
      invariant result + EmitItems(v, i, "]") == Canonical(v)
    {
      ItemStep(v, i, "]");
      var item := CanonicalMarshal(v.items[i]);
      if i > 0 { item := "," + item; }
      Assoc(result, item, EmitItems(v, i + 1, "]"));
      result := result + item;
      i := i + 1;
    }
    result := result + "]";
  }

  // ----- What the drift hashes detect -----

  /** The bytes behind infoHash: model_info without the operator's own id. */
  method InfoBytes(info: map<string, Json>) returns (bytes: string)
    ensures bytes == Canonical(Obj(info - {"id"}))
  {
    var kept: map<string, Json>, left := map[], info.Keys;
    while left != {}
      invariant left <= info.Keys
      invariant kept.Keys == info.Keys - left - {"id"}
      invariant forall k :: k in kept ==> kept[k] == info[k]
    {
      var k :| k in left;
      left := left - {k};
      if k != "id" { kept := kept[k := info[k]]; }
    }
    assert kept == info - {"id"};
    bytes := CanonicalMarshal(Obj(kept));
  }

  /** The info hash moves exactly when model_info changes outside its id. */
  lemma InfoHashDetects(a: map<string, Json>, b: map<string, Json>)
    requires WellFormed(Obj(a)) && WellFormed(Obj(b))
    ensures Canonical(Obj(a - {"id"})) == Canonical(Obj(b - {"id"})) <==> a - {"id"} == b - {"id"}
  {
    assert WellFormed(Obj(a - {"id"})) && WellFormed(Obj(b - {"id"}));
    Injective(Obj(a - {"id"}), Obj(b - {"id"}));
  }

  function Rendered(params: map<string, Json>, info: map<string, Json>): Json {
    Obj(map["litellm_params" := Obj(params), "model_info" := Obj(info)])
  }

  /** The rendered hash moves exactly when the parameters or the info change. */
  lemma RenderedHashDetects(p: map<string, Json>, i: map<string, Json>, q: map<string, Json>, j: map<string, Json>)
    requires WellFormed(Obj(p)) && WellFormed(Obj(i)) && WellFormed(Obj(q)) && WellFormed(Obj(j))
    ensures Canonical(Rendered(p, i)) == Canonical(Rendered(q, j)) <==> p == q && i == j
  {
    assert |"litellm_params"| != |"model_info"|;
    Injective(Rendered(p, i), Rendered(q, j));
    var m, n := Rendered(p, i).fields, Rendered(q, j).fields;
    if m == n {
      assert m["litellm_params"] == n["litellm_params"] && m["model_info"] == n["model_info"];
    }
  }
}
