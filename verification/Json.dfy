/**
 * The textual JSON form of a value, and a reader for sections 4 to 7 of RFC 8259 that undoes it.
 */
module Json {
  import opened Common

  // ---- keys in order ----

  /** Strings compared character by character, as bytes compare in UTF-8. */
  predicate AtMost(a: string, b: string) {
    a == "" || (b != "" && (a[0] < b[0] || (a[0] == b[0] && AtMost(a[1..], b[1..]))))
  }

  lemma {:induction false} OrderIsTotal(a: string, b: string, c: string)
    ensures AtMost(a, b) || AtMost(b, a)
    ensures AtMost(a, b) && AtMost(b, a) ==> a == b
    ensures AtMost(a, b) && AtMost(b, c) ==> AtMost(a, c)
  {
    if a != "" && b != "" {
      OrderIsTotal(a[1..], b[1..], if c == "" then "" else c[1..]);
      assert a == [a[0]] + a[1..] && b == [b[0]] + b[1..];
    }
  }

  /** Strictly ascending, so that each key appears once. */
  ghost predicate Ascending(keys: seq<string>) {
    forall i, j :: 0 <= i < j < |keys| ==> AtMost(keys[i], keys[j]) && keys[i] != keys[j]
  }

  /** There is only one way to list a set of keys in order. */
  lemma {:induction false} OrderIsUnique(a: seq<string>, b: seq<string>)
    requires Ascending(a) && Ascending(b) && forall k :: k in a <==> k in b
    ensures a == b
  {
    hide AtMost;
    if b != [] {
      assert b[0] in b;
    }
    if a != [] {
      assert a[0] in a;
      var i :| 0 <= i < |b| && b[i] == a[0];
      var j :| 0 <= j < |a| && a[j] == b[0];
      OrderIsTotal(a[0], b[0], "");
      assert a[0] == b[0];
      forall k ensures k in a[1..] <==> k in b[1..] {
        InTail(a, k);
        InTail(b, k);
      }
      OrderIsUnique(a[1..], b[1..]);
      assert a == [a[0]] + a[1..] && b == [b[0]] + b[1..];
    }
  }

  lemma InTail(keys: seq<string>, k: string)
    requires keys != [] && Ascending(keys)
    ensures k in keys[1..] <==> k in keys && k != keys[0]
  {
    hide AtMost;
    assert keys == [keys[0]] + keys[1..];
    if k in keys[1..] {
      var i :| 0 <= i < |keys[1..]| && keys[1..][i] == k;
      assert keys[i + 1] == k;
    }
  }

  /** A key set's keys in order. */
  ghost function Ordered(keys: set<string>): (order: seq<string>)
    ensures Ascending(order) && forall k :: k in order <==> k in keys
  {
    if keys == {} then []
    else
      var m := Least(keys);
      var rest := Ordered(keys - {m});
      OneMoreFirst(m, rest);
      [m] + rest
  }

  lemma OneMoreFirst(m: string, rest: seq<string>)
    requires Ascending(rest) && forall k :: k in rest ==> AtMost(m, k) && k != m
    ensures Ascending([m] + rest)
  {
    hide AtMost;
    var all := [m] + rest;
    forall i, j | 0 <= i < j < |all| ensures AtMost(all[i], all[j]) && all[i] != all[j] {
      assert all[j] == rest[j - 1];
    }
  }

  ghost function Least(keys: set<string>): (m: string)
    requires keys != {}
    ensures m in keys && forall k :: k in keys ==> AtMost(m, k)
  {
    LeastExists(keys);
    var m :| m in keys && forall k :: k in keys ==> AtMost(m, k);
    m
  }

  lemma {:induction false} LeastExists(keys: set<string>)
    requires keys != {}
    ensures exists m :: m in keys && forall k :: k in keys ==> AtMost(m, k)
  {
    hide AtMost;
    var x :| x in keys;
    OrderIsTotal(x, x, x);
    if keys == {x} {
      assert forall k :: k in keys ==> AtMost(x, k);
    } else {
      LeastExists(keys - {x});
      var m :| m in keys - {x} && forall k :: k in keys - {x} ==> AtMost(m, k);
      OrderIsTotal(x, m, m);
      if AtMost(x, m) {
        forall k | k in keys ensures AtMost(x, k) {
          OrderIsTotal(x, m, k);
        }
      } else {
        assert forall k :: k in keys ==> AtMost(m, k);
      }
    }
  }

  // ---- what the encoding is ----

  function HexDigit(n: nat): char
    requires n < 16
  {
    if n < 10 then ('0' as int + n) as char else ('a' as int + n - 10) as char
  }

  /** One character of a string literal. */
  function RuneText(c: char): string {
    match c
    case '"' => "\\\""
    case '\\' => "\\\\"
    case '\n' => "\\n"
    case '\r' => "\\r"
    case '\t' => "\\t"
    case _ =>
      if c == 8 as char then "\\b"
      else if c == 12 as char then "\\f"
      else if c as int >= 0x20 then [c]
      else "\\u00" + [HexDigit(c as int / 16), HexDigit(c as int % 16)]
  }

  function RunesText(text: string): string {
    if text == "" then "" else RuneText(text[0]) + RunesText(text[1..])
  }

  function StringText(text: string): string {
    "\"" + RunesText(text) + "\""
  }

  function DigitsText(n: nat): string {
    (if n < 10 then "" else DigitsText(n / 10)) + [('0' as int + n % 10) as char]
  }

  function IntText(i: int): string {
    if i < 0 then "-" + DigitsText(-i) else DigitsText(i)
  }

  /** The textual JSON form: no choice is left open, not even the order of an object's keys. */
  ghost function Encode(v: Value): string
    decreases v, 0
  {
    match v
    case Null => "null"
    case Bool(b) => if b then "true" else "false"
    case Int(i) => IntText(i)
    case Str(text) => StringText(text)
    case List(items) => "[" + ItemsText(items) + "]"
    case Object(fields) => "{" + MembersText(v, Ordered(fields.Keys)) + "}"
  }

  ghost function ItemsText(items: seq<Value>): string
    decreases items, 0
  {
    if items == [] then ""
    else if |items| == 1 then Encode(items[0])
    else Encode(items[0]) + ", " + ItemsText(items[1..])
  }

  ghost function MemberText(v: Value, key: string): string
    requires v.Object? && key in v.fields
    decreases v, 0, 0
  {
    StringText(key) + ": " + Encode(v.fields[key])
  }

  ghost function MembersText(v: Value, keys: seq<string>): string
    requires v.Object? && forall k :: k in keys ==> k in v.fields
    decreases v, 0, |keys| + 1
  {
    if keys == [] then ""
    else if |keys| == 1 then MemberText(v, keys[0])
    else MemberText(v, keys[0]) + ", " + MembersText(v, keys[1..])
  }

  // ---- appending it ----

  lemma {:induction false} ItemsGrow(items: seq<Value>, i: nat)
    requires 0 < i < |items|
    ensures ItemsText(items[..i + 1]) == ItemsText(items[..i]) + ", " + Encode(items[i])
  {
    hide Encode;
    assert items[..i + 1][1..] == items[1..][..i] && items[..i][1..] == items[1..][..i - 1];
    if i > 1 {
      ItemsGrow(items[1..], i - 1);
    }
  }

  lemma {:induction false} MembersGrow(v: Value, keys: seq<string>, i: nat)
    requires v.Object? && (forall k :: k in keys ==> k in v.fields) && 0 < i < |keys|
    ensures MembersText(v, keys[..i + 1]) == MembersText(v, keys[..i]) + ", " + MemberText(v, keys[i])
  {
    hide MemberText;
    assert keys[..i + 1][1..] == keys[1..][..i] && keys[..i][1..] == keys[1..][..i - 1];
    if i > 1 {
      MembersGrow(v, keys[1..], i - 1);
    }
  }

  method AppendRune(dst: string, c: char) returns (out: string)
    ensures out == dst + RuneText(c)
  {
    hide HexDigit;
    if c == '"' { return dst + "\\\""; }
    if c == '\\' { return dst + "\\\\"; }
    if c == '\n' { return dst + "\\n"; }
    if c == '\r' { return dst + "\\r"; }
    if c == '\t' { return dst + "\\t"; }
    if c == 8 as char { return dst + "\\b"; }
    if c == 12 as char { return dst + "\\f"; }
    if c as int >= 0x20 { return dst + [c]; }
    out := dst + "\\u00";
    out := out + [HexDigit(c as int / 16)];
    out := out + [HexDigit(c as int % 16)];
    assert "\\u00" + [HexDigit(c as int / 16), HexDigit(c as int % 16)]
        == "\\u00" + [HexDigit(c as int / 16)] + [HexDigit(c as int % 16)];
  }

  lemma {:induction false} RunesGrow(text: string, i: nat)
    requires i < |text|
    ensures RunesText(text[..i + 1]) == RunesText(text[..i]) + RuneText(text[i])
  {
    hide RuneText;
    if i > 0 {
      assert text[..i + 1][1..] == text[1..][..i] && text[..i][1..] == text[1..][..i - 1];
      RunesGrow(text[1..], i - 1);
    } else {
      assert text[..1][1..] == "";
    }
  }

  method AppendString(dst: string, text: string) returns (out: string)
    ensures out == dst + StringText(text)
  {
    hide RuneText, RunesText;
    out := dst + "\"";
    assert RunesText(text[..0]) == "" by { NoRunes(); }
    for i := 0 to |text|
      invariant out == dst + "\"" + RunesText(text[..i])
    {
      RunesGrow(text, i);
      out := AppendRune(out, text[i]);
    }
    assert text[..|text|] == text;
    out := out + "\"";
  }

  lemma NoRunes()
    ensures RunesText("") == ""
  {}

  method AppendJSON(dst: string, v: Value) returns (out: string)
    ensures out == dst + Encode(v)
    decreases v, 1
  {
    hide ItemsText, MembersText, Ordered, StringText, DigitsText;
    match v
    case Null => return dst + "null";
    case Bool(b) => return dst + if b then "true" else "false";
    case Int(i) => return dst + IntText(i);
    case Str(text) => out := AppendString(dst, text);
    case List(items) => out := AppendArray(dst, items);
    case Object(_) => out := AppendObject(dst, v);
  }

  method AppendArray(dst: string, items: seq<Value>) returns (out: string)
    ensures out == dst + "[" + ItemsText(items) + "]"
    decreases items, 1
  {
    hide Encode, ItemsText;
    out := dst + "[";
    NoItems(items);
    for i := 0 to |items|
      invariant out == dst + "[" + ItemsText(items[..i])
    {
      if i > 0 {
        ItemsGrow(items, i);
        out := out + ", ";
      }
      out := AppendJSON(out, items[i]);
    }
    assert items[..|items|] == items;
    out := out + "]";
  }

  lemma NoItems(items: seq<Value>)
    ensures ItemsText([]) == ""
    ensures items != [] ==> ItemsText(items[..1]) == Encode(items[0])
    ensures items[..0] == []
  {
    hide Encode;
  }

  lemma NoMembers(v: Value, keys: seq<string>)
    requires v.Object? && forall k :: k in keys ==> k in v.fields
    ensures MembersText(v, []) == "" && keys[..0] == []
    ensures keys != [] ==> MembersText(v, keys[..1]) == MemberText(v, keys[0])
  {
    hide MemberText;
  }

  method AppendObject(dst: string, v: Value) returns (out: string)
    requires v.Object?
    ensures out == dst + "{" + MembersText(v, Ordered(v.fields.Keys)) + "}"
    decreases v, 0
  {
    hide Encode, MembersText, AtMost, Ordered, Ascending, StringText;
    var keys := KeysOf(v.fields);
    keys := Sort(keys);
    OrderIsUnique(keys, Ordered(v.fields.Keys));
    out := dst + "{";
    NoMembers(v, keys);
    for i := 0 to |keys|
      invariant out == dst + "{" + MembersText(v, keys[..i])
    {
      if i > 0 {
        MembersGrow(v, keys, i);
        out := out + ", ";
      }
      out := AppendString(out, keys[i]);
      out := out + ": ";
      out := AppendJSON(out, v.fields[keys[i]]);
    }
    assert keys[..|keys|] == keys;
    out := out + "}";
  }

  /** An object's keys, in whatever order the map is walked. */
  method KeysOf(fields: Obj) returns (keys: seq<string>)
    ensures (forall k :: k in keys <==> k in fields) && forall i, j :: 0 <= i < j < |keys| ==> keys[i] != keys[j]
  {
    keys := [];
    var rest := fields.Keys;
    while rest != {}
      invariant rest <= fields.Keys
      invariant forall k :: k in keys <==> k in fields && k !in rest
      invariant forall i, j :: 0 <= i < j < |keys| ==> keys[i] != keys[j]
      decreases rest
    {
      var key :| key in rest;
      rest := rest - {key};
      keys := keys + [key];
    }
  }

  /** The library's sort, on keys that differ. */
  method Sort(keys: seq<string>) returns (sorted: seq<string>)
    requires forall i, j :: 0 <= i < j < |keys| ==> keys[i] != keys[j]
    ensures Ascending(sorted) && forall k :: k in sorted <==> k in keys
  {
    hide AtMost;
    sorted := [];
    for i := 0 to |keys|
      invariant Ascending(sorted) && forall k :: k in sorted <==> k in keys[..i]
    {
      assert keys[..i + 1] == keys[..i] + [keys[i]];
      sorted := Insert(sorted, keys[i]);
    }
    assert keys[..|keys|] == keys;
  }

  method Insert(sorted: seq<string>, key: string) returns (out: seq<string>)
    requires Ascending(sorted) && key !in sorted
    ensures Ascending(out) && forall k :: k in out <==> k in sorted || k == key
  {
    hide AtMost;
    var i := 0;
    while i < |sorted| && AtMost(sorted[i], key)
      invariant i <= |sorted| && forall j :: 0 <= j < i ==> AtMost(sorted[j], key)
    {
      i := i + 1;
    }
    if i < |sorted| {
      OrderIsTotal(sorted[i], key, key);
    }
    forall j | i <= j < |sorted| ensures AtMost(key, sorted[j]) {
      OrderIsTotal(key, sorted[i], sorted[j]);
    }
    Inserted(sorted, key, i);
    out := sorted[..i] + [key] + sorted[i..];
  }

  lemma Inserted(sorted: seq<string>, key: string, i: nat)
    requires Ascending(sorted) && key !in sorted && i <= |sorted|
    requires forall j :: 0 <= j < i ==> AtMost(sorted[j], key)
    requires forall j :: i <= j < |sorted| ==> AtMost(key, sorted[j])
    ensures Ascending(sorted[..i] + [key] + sorted[i..])
    ensures forall k :: k in sorted[..i] + [key] + sorted[i..] <==> k in sorted || k == key
  {
    hide AtMost;
    var out := sorted[..i] + [key] + sorted[i..];
    assert forall j :: 0 <= j < |out| ==> out[j] == if j < i then sorted[j] else if j == i then key else sorted[j - 1];
    assert sorted == sorted[..i] + sorted[i..];
  }

  // ---- reading it ----

  datatype Read<T> = Bad | Got(value: T, rest: string)

  function SkipSpace(s: string): (rest: string)
    ensures |rest| <= |s|
  {
    if s != "" && s[0] in " \t\n\r" then SkipSpace(s[1..]) else s
  }

  function HexValue(c: char): Option<nat> {
    if '0' <= c <= '9' then Some(c as int - '0' as int)
    else if 'a' <= c <= 'f' then Some(c as int - 'a' as int + 10)
    else if 'A' <= c <= 'F' then Some(c as int - 'A' as int + 10)
    else None
  }

  /** Four hexadecimal digits. */
  function ReadHex(s: string): Option<nat> {
    if |s| < 4 then None
    else match (HexValue(s[0]), HexValue(s[1]), HexValue(s[2]), HexValue(s[3]))
      case (Some(a), Some(b), Some(c), Some(d)) => Some(((a * 16 + b) * 16 + c) * 16 + d)
      case _ => None
  }

  /** A character given by its code, or by a surrogate pair. */
  function ReadUnicode(s: string): (r: Read<char>)
    ensures r.Got? ==> |r.rest| < |s|
  {
    match ReadHex(s)
    case None => Bad
    case Some(high) =>
      if high < 0xD800 || 0xDFFF < high <= 0xFFFF then Got(high as char, s[4..])
      else if high > 0xDBFF || |s| < 10 || s[4] != '\\' || s[5] != 'u' then Bad
      else match ReadHex(s[6..])
        case Some(low) =>
          if 0xDC00 <= low <= 0xDFFF then Got((0x10000 + (high - 0xD800) * 0x400 + (low - 0xDC00)) as char, s[10..])
          else Bad
        case None => Bad
  }

  /** One character of a string literal, escaped or not. */
  function ReadRune(s: string): (r: Read<char>)
    ensures r.Got? ==> |r.rest| < |s|
  {
    if s == "" || s[0] as int < 0x20 then Bad
    else if s[0] != '\\' then Got(s[0], s[1..])
    else if |s| == 1 then Bad
    else match s[1]
      case '"' => Got('"', s[2..])
      case '\\' => Got('\\', s[2..])
      case '/' => Got('/', s[2..])
      case 'b' => Got(8 as char, s[2..])
      case 'f' => Got(12 as char, s[2..])
      case 'n' => Got('\n', s[2..])
      case 'r' => Got('\r', s[2..])
      case 't' => Got('\t', s[2..])
      case 'u' => ReadUnicode(s[2..])
      case _ => Bad
  }

  /** A string literal, after its opening quote. */
  function ReadString(s: string): (r: Read<string>)
    ensures r.Got? ==> |r.rest| < |s|
    decreases |s|
  {
    if s != "" && s[0] == '"' then Got("", s[1..])
    else match ReadRune(s)
      case Bad => Bad
      case Got(c, more) =>
        match ReadString(more)
        case Bad => Bad
        case Got(text, rest) => Got([c] + text, rest)
  }

  predicate IsDigit(c: char) {
    '0' <= c <= '9'
  }

  function ReadDigits(s: string, sofar: nat): (r: (nat, string))
    ensures |r.1| <= |s|
  {
    if s != "" && IsDigit(s[0]) then ReadDigits(s[1..], sofar * 10 + (s[0] as int - '0' as int)) else (sofar, s)
  }

  /** An integer. A number with a fraction or an exponent is no integer of the data model. */
  function ReadInt(s: string): (r: Read<Value>)
    ensures r.Got? ==> |r.rest| < |s|
  {
    var neg := s != "" && s[0] == '-';
    var body := if neg then s[1..] else s;
    if body == "" || !IsDigit(body[0]) then Bad
    else if body[0] == '0' && |body| > 1 && IsDigit(body[1]) then Bad
    else
      var (n, rest) := ReadDigits(body[1..], body[0] as int - '0' as int);
      if rest != "" && rest[0] in ".eE" then Bad else Got(Int(if neg then 0 - n else n), rest)
  }

  function ReadValue(s: string): (r: Read<Value>)
    ensures r.Got? ==> |r.rest| < |s|
    decreases |s|, 1
  {
    if s == "" then Bad
    else if s[0] == '"' then
      match ReadString(s[1..])
      case Bad => Bad
      case Got(text, rest) => Got(Str(text), rest)
    else if s[0] == '[' then
      var inner := SkipSpace(s[1..]);
      if inner != "" && inner[0] == ']' then Got(List([]), inner[1..])
      else match ReadItems(inner)
        case Bad => Bad
        case Got(items, rest) => Got(List(items), rest)
    else if s[0] == '{' then
      var inner := SkipSpace(s[1..]);
      if inner != "" && inner[0] == '}' then Got(Object(map[]), inner[1..])
      else match ReadMembers(inner)
        case Bad => Bad
        case Got(members, rest) => Got(Object(ObjectOf(members)), rest)
    else if "null" <= s then Got(Null, s[4..])
    else if "true" <= s then Got(Bool(true), s[4..])
    else if "false" <= s then Got(Bool(false), s[5..])
    else ReadInt(s)
  }

  /** An array's elements, up to its closing bracket. */
  function ReadItems(s: string): (r: Read<seq<Value>>)
    ensures r.Got? ==> |r.rest| < |s|
    decreases |s|, 2
  {
    match ReadValue(s)
    case Bad => Bad
    case Got(first, more) =>
      var next := SkipSpace(more);
      if next != "" && next[0] == ']' then Got([first], next[1..])
      else if next != "" && next[0] == ',' then
        match ReadItems(SkipSpace(next[1..]))
        case Bad => Bad
        case Got(items, rest) => Got([first] + items, rest)
      else Bad
  }

  datatype Member = Member(key: string, value: Value)

  /** A key and its value. */
  function ReadMember(s: string): (r: Read<Member>)
    ensures r.Got? ==> |r.rest| < |s|
    decreases |s|, 2
  {
    if s == "" || s[0] != '"' then Bad
    else match ReadString(s[1..])
      case Bad => Bad
      case Got(key, more) =>
        var next := SkipSpace(more);
        if next == "" || next[0] != ':' then Bad
        else match ReadValue(SkipSpace(next[1..]))
          case Bad => Bad
          case Got(value, rest) => Got(Member(key, value), rest)
  }

  /** An object's members, up to its closing brace. */
  function ReadMembers(s: string): (r: Read<seq<Member>>)
    ensures r.Got? ==> |r.rest| < |s|
    decreases |s|, 3
  {
    match ReadMember(s)
    case Bad => Bad
    case Got(first, more) =>
      var next := SkipSpace(more);
      if next != "" && next[0] == '}' then Got([first], next[1..])
      else if next != "" && next[0] == ',' then
        match ReadMembers(SkipSpace(next[1..]))
        case Bad => Bad
        case Got(members, rest) => Got([first] + members, rest)
      else Bad
  }

  /** Of two members with one key, the later stands. */
  function ObjectOf(members: seq<Member>): Obj {
    if members == [] then map[]
    else ObjectOf(members[..|members| - 1])[members[|members| - 1].key := members[|members| - 1].value]
  }

  // ---- reading undoes encoding ----

  /** A tail that cannot be taken for more of a number. */
  predicate SafeAfter(tail: string) {
    tail == "" || !(IsDigit(tail[0]) || tail[0] in ".eE")
  }

  lemma RuneBack(c: char, tail: string)
    ensures ReadRune(RuneText(c) + tail) == Got(c, tail)
    ensures RuneText(c) != "" && RuneText(c)[0] != '"'
  {
    hide ReadUnicode;
    var text := RuneText(c);
    var s := text + tail;
    assert s[|text|..] == tail && forall i :: 0 <= i < |text| ==> s[i] == text[i];
    if |text| == 6 {
      assert text[2..] == ['0', '0', HexDigit(c as int / 16), HexDigit(c as int % 16)];
      assert s[2..] == text[2..] + tail;
      CodeBack(c, tail);
      assert s[0] == '\\' && s[1] == 'u';
    }
  }

  lemma CodeBack(c: char, tail: string)
    requires c as int < 0x20
    ensures ReadUnicode(['0', '0', HexDigit(c as int / 16), HexDigit(c as int % 16)] + tail) == Got(c, tail)
  {
    var s := ['0', '0', HexDigit(c as int / 16), HexDigit(c as int % 16)] + tail;
    HexBack(c as int / 16);
    HexBack(c as int % 16);
    assert ReadHex(s) == Some(c as int);
    assert s[4..] == tail;
  }

  lemma HexBack(n: nat)
    requires n < 16
    ensures HexValue(HexDigit(n)) == Some(n)
  {}

  lemma {:induction false} RunesBack(text: string, tail: string)
    ensures ReadString(RunesText(text) + "\"" + tail) == Got(text, tail)
  {
    hide ReadRune, RuneText;
    if text == "" {
      assert RunesText(text) + "\"" + tail == "\"" + tail;
    } else {
      var more := RunesText(text[1..]) + "\"" + tail;
      assert RunesText(text) + "\"" + tail == RuneText(text[0]) + more;
      RuneBack(text[0], more);
      assert (RuneText(text[0]) + more)[0] == RuneText(text[0])[0];
      RunesBack(text[1..], tail);
      assert text == [text[0]] + text[1..];
    }
  }

  lemma StringBack(text: string, tail: string)
    ensures var s := StringText(text) + tail; s != "" && s[0] == '"' && ReadString(s[1..]) == Got(text, tail)
  {
    hide ReadString, RunesText;
    RunesBack(text, tail);
    assert (StringText(text) + tail)[1..] == RunesText(text) + "\"" + tail;
  }

  lemma {:induction false} DigitsBack(n: nat, tail: string)
    ensures ReadDigits(DigitsText(n) + tail, 0) == ReadDigits(tail, n)
    ensures DigitsText(n) != "" && forall i :: 0 <= i < |DigitsText(n)| ==> IsDigit(DigitsText(n)[i])
    ensures n > 0 ==> DigitsText(n)[0] != '0'
    ensures n == 0 ==> DigitsText(n) == "0"
  {
    var last := ('0' as int + n % 10) as char;
    assert ([last] + tail)[1..] == tail;
    if n >= 10 {
      DigitsBack(n / 10, [last] + tail);
      assert DigitsText(n) + tail == DigitsText(n / 10) + ([last] + tail);
    } else {
      assert DigitsText(n) + tail == [last] + tail;
    }
  }

  lemma IntBack(i: int, tail: string)
    requires SafeAfter(tail)
    ensures ReadInt(IntText(i) + tail) == Got(Int(i), tail)
    ensures IntText(i) != "" && (IntText(i)[0] == '-' || IsDigit(IntText(i)[0]))
  {
    hide DigitsText, ReadDigits;
    var n := if i < 0 then -i else i;
    var digits := DigitsText(n);
    DigitsBack(n, tail);
    var body := digits + tail;
    assert i < 0 ==> (IntText(i) + tail)[1..] == body;
    DigitsStop(tail, n);
    FirstDigit(body);
    assert body[0] == digits[0];
    assert n == 0 ==> body[1..] == tail;
  }

  lemma DigitsStop(tail: string, n: nat)
    requires SafeAfter(tail)
    ensures ReadDigits(tail, n) == (n, tail)
  {}

  lemma FirstDigit(body: string)
    ensures body != "" && IsDigit(body[0]) ==> ReadDigits(body, 0) == ReadDigits(body[1..], body[0] as int - '0' as int)
  {}

  /** How an encoded value begins. */
  lemma Begins(v: Value)
    ensures Encode(v) != "" && Encode(v)[0] !in " \t\n\r]}"
  {
    hide ItemsText, MembersText, Ordered, DigitsText, RunesText;
    if v.Int? {
      IntBack(v.i, "");
    }
  }

  lemma NoSpace(s: string)
    requires s != "" && s[0] !in " \t\n\r"
    ensures SkipSpace(s) == s
  {}

  lemma OneSpace(s: string)
    requires s != "" && s[0] !in " \t\n\r"
    ensures SkipSpace(" " + s) == s
  {
    assert (" " + s)[1..] == s;
  }

  /** Reading an encoded value gives the value, and leaves what follows it untouched. */
  lemma {:induction false} ReadsBack(v: Value, tail: string)
    requires SafeAfter(tail)
    ensures ReadValue(Encode(v) + tail) == Got(v, tail)
    decreases v, 1
  {
    match v
    case Null => WordBack(v, tail);
    case Bool(_) => WordBack(v, tail);
    case Int(i) => IntValueBack(i, tail);
    case Str(text) => StringValueBack(text, tail);
    case List(items) => ListBack(items, tail);
    case Object(_) => ObjectBack(v, tail);
  }

  lemma WordBack(v: Value, tail: string)
    requires v.Null? || v.Bool?
    ensures ReadValue(Encode(v) + tail) == Got(v, tail)
  {
    var text := Encode(v);
    var s := text + tail;
    assert text <= s && s[|text|..] == tail && s[0] == text[0];
  }

  lemma IntValueBack(i: int, tail: string)
    requires SafeAfter(tail)
    ensures ReadValue(Encode(Int(i)) + tail) == Got(Int(i), tail)
  {
    hide ReadInt, IntText;
    IntBack(i, tail);
    assert (IntText(i) + tail)[0] == IntText(i)[0];
  }

  lemma StringValueBack(text: string, tail: string)
    ensures ReadValue(Encode(Str(text)) + tail) == Got(Str(text), tail)
  {
    hide ReadString, StringText;
    StringBack(text, tail);
  }

  lemma {:induction false} ListBack(items: seq<Value>, tail: string)
    ensures ReadValue(Encode(List(items)) + tail) == Got(List(items), tail)
    decreases items, 2
  {
    hide ItemsText, ReadItems, Ordered;
    var inner := ItemsText(items) + ("]" + tail);
    var s := "[" + inner;
    assert Encode(List(items)) + tail == s && s[1..] == inner;
    if items == [] {
      NoItems(items);
      assert inner == "]" + tail && ("]" + tail)[1..] == tail;
      NoSpace(inner);
    } else {
      ItemsBack(items, tail);
      ItemsBegin(items);
      assert inner[0] == ItemsText(items)[0];
      NoSpace(inner);
    }
  }

  lemma ItemsBegin(items: seq<Value>)
    requires items != []
    ensures ItemsText(items) != "" && ItemsText(items)[0] !in " \t\n\r]}"
  {
    hide Encode;
    Begins(items[0]);
  }

  lemma {:induction false} ItemsBack(items: seq<Value>, tail: string)
    requires items != []
    ensures ReadItems(ItemsText(items) + ("]" + tail)) == Got(items, tail)
    decreases items, 1
  {
    hide Encode, ReadValue;
    if |items| == 1 {
      var close := "]" + tail;
      ReadsBack(items[0], close);
      NoSpace(close);
      assert close[1..] == tail && items == [items[0]];
    } else {
      var more := ItemsText(items[1..]) + ("]" + tail);
      var next := "," + (" " + more);
      assert ItemsText(items) + ("]" + tail) == Encode(items[0]) + next;
      ReadsBack(items[0], next);
      NoSpace(next);
      ItemsBegin(items[1..]);
      assert more[0] == ItemsText(items[1..])[0] && next[1..] == " " + more;
      OneSpace(more);
      ItemsBack(items[1..], tail);
      assert items == [items[0]] + items[1..];
    }
  }

  ghost function MembersOf(v: Value, keys: seq<string>): seq<Member>
    requires v.Object? && forall k :: k in keys ==> k in v.fields
  {
    seq(|keys|, i requires 0 <= i < |keys| => Member(keys[i], v.fields[keys[i]]))
  }

  lemma {:induction false} ObjectOfMembers(v: Value, keys: seq<string>)
    requires v.Object? && forall k :: k in keys ==> k in v.fields
    ensures ObjectOf(MembersOf(v, keys)) == map k | k in v.fields && k in keys :: v.fields[k]
  {
    if keys != [] {
      var n := |keys| - 1;
      ObjectOfMembers(v, keys[..n]);
      assert MembersOf(v, keys)[..n] == MembersOf(v, keys[..n]);
      assert keys == keys[..n] + [keys[n]];
    }
  }

  lemma {:induction false} ObjectBack(v: Value, tail: string)
    requires v.Object?
    ensures ReadValue(Encode(v) + tail) == Got(v, tail)
    decreases v, 0, 2
  {
    hide MembersText, ReadMembers, Ordered, ObjectOf;
    var keys := Ordered(v.fields.Keys);
    var inner := MembersText(v, keys) + ("}" + tail);
    var s := "{" + inner;
    assert Encode(v) + tail == s && s[1..] == inner;
    ObjectOfMembers(v, keys);
    assert v.fields == map k | k in v.fields && k in keys :: v.fields[k];
    if keys == [] {
      NoMembers(v, keys);
      assert inner == "}" + tail && ("}" + tail)[1..] == tail;
      NoSpace(inner);
      assert v.fields == map[];
    } else {
      MembersBack(v, keys, tail);
      MembersBegin(v, keys);
      assert inner[0] == '"';
      NoSpace(inner);
    }
  }

  lemma MembersBegin(v: Value, keys: seq<string>)
    requires v.Object? && (forall k :: k in keys ==> k in v.fields) && keys != []
    ensures MembersText(v, keys) != "" && MembersText(v, keys)[0] == '"'
  {
    hide Encode, RunesText;
  }

  lemma {:induction false} MemberBack(v: Value, key: string, tail: string)
    requires v.Object? && key in v.fields && SafeAfter(tail)
    ensures ReadMember(MemberText(v, key) + tail) == Got(Member(key, v.fields[key]), tail)
    decreases v, 0, 0
  {
    hide Encode, ReadValue, StringText, ReadString;
    var value := v.fields[key];
    var text := Encode(value) + tail;
    var next := ":" + (" " + text);
    assert MemberText(v, key) + tail == StringText(key) + next;
    StringBack(key, next);
    NoSpace(next);
    Begins(value);
    assert text[0] == Encode(value)[0] && next[1..] == " " + text;
    OneSpace(text);
    ReadsBack(value, tail);
  }

  lemma {:induction false} MembersBack(v: Value, keys: seq<string>, tail: string)
    requires v.Object? && (forall k :: k in keys ==> k in v.fields) && keys != []
    ensures ReadMembers(MembersText(v, keys) + ("}" + tail)) == Got(MembersOf(v, keys), tail)
    decreases v, 0, 1, |keys|
  {
    hide MemberText, ReadMember;
    if |keys| == 1 {
      var close := "}" + tail;
      MemberBack(v, keys[0], close);
      NoSpace(close);
      assert close[1..] == tail && MembersOf(v, keys) == [Member(keys[0], v.fields[keys[0]])];
    } else {
      var more := MembersText(v, keys[1..]) + ("}" + tail);
      var next := "," + (" " + more);
      assert MembersText(v, keys) + ("}" + tail) == MemberText(v, keys[0]) + next;
      MemberBack(v, keys[0], next);
      NoSpace(next);
      MembersBegin(v, keys[1..]);
      assert more[0] == '"' && next[1..] == " " + more;
      OneSpace(more);
      MembersBack(v, keys[1..], tail);
      assert MembersOf(v, keys) == [Member(keys[0], v.fields[keys[0]])] + MembersOf(v, keys[1..]);
    }
  }

  /** Different values never have the same text, nor one a text that begins another's before a safe tail. */
  lemma EncodeIsInjective(a: Value, b: Value, tail: string, tail': string)
    requires SafeAfter(tail) && SafeAfter(tail') && Encode(a) + tail == Encode(b) + tail'
    ensures a == b && tail == tail'
  {
    hide Encode, ReadValue;
    ReadsBack(a, tail);
    ReadsBack(b, tail');
  }

  /** The textual form of a value: reading it gives the value back. */
  method EncodeJSON(v: Value) returns (text: string)
    ensures text == Encode(v) && ReadValue(text) == Got(v, "")
  {
    hide Encode, ReadValue;
    text := AppendJSON("", v);
    ReadsBack(v, "");
    assert Encode(v) + "" == Encode(v) == "" + Encode(v);
  }

  /** A string goes in verbatim exactly if it has no quote, no backslash and no control character. */
  lemma {:induction false} VerbatimExactly(text: string)
    ensures RunesText(text) == text <==>
        forall i :: 0 <= i < |text| ==> text[i] != '"' && text[i] != '\\' && text[i] as int >= 0x20
    ensures |RunesText(text)| >= |text|
  {
    if text != "" {
      VerbatimExactly(text[1..]);
      assert text == [text[0]] + text[1..];
      var head := RuneText(text[0]);
      assert |head| == 1 <==> head == [text[0]];
      if |head| == 1 {
        assert (head + RunesText(text[1..]))[1..] == RunesText(text[1..]);
      }
    }
  }
}
