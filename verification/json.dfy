/**
 * The JSON value type the workflow passes between nodes (serde_json's
 * `Value`), and its compact text form (`serde_json::to_string`).
 * Numbers are integers; objects iterate in key order, as serde_json's
 * default `BTreeMap`-backed map does.
 */
module Json {
  import opened Wrappers
  import opened Strings

  datatype Json =
    | Null
    | Bool(b: bool)
    | Num(n: int)
    | Str(s: string)
    | Arr(items: seq<Json>)
    | Obj(fields: map<string, Json>)

  /** Compact JSON text, as `serde_json::to_string` / `Value::to_string` print it. */
  function ToText(j: Json): string
  {
    match j
    case Null => "null"
    case Bool(b) => if b then "true" else "false"
    case Num(n) => IntToDecimal(n)
    case Str(s) => Quote(s)
    case Arr(items) =>
      "[" + Join(seq(|items|, i requires 0 <= i < |items| => ToText(items[i])), ",") + "]"
    case Obj(m) =>
      var ks := SortedKeys(m.Keys);
      "{" + Join(seq(|ks|, i requires 0 <= i < |ks| => Quote(ks[i]) + ":" + ToText(m[ks[i]])), ",") + "}"
  }

  /** A JSON string literal: the escaped text between double quotes. */
  function Quote(s: string): string
  {
    "\"" + Escape(s) + "\""
  }

  function Escape(s: string): string
  {
    if s == [] then "" else EscapeChar(s[0]) + Escape(s[1..])
  }

  function HexDigit(d: nat): char
    requires d < 16
  {
    if d < 10 then DigitChar(d) else ('a' as int + (d - 10)) as char
  }

  /** serde_json's escape table: quote, backslash and the control characters. */
  function EscapeChar(c: char): string
  {
    if c == '"' then "\\\""
    else if c == '\\' then "\\\\"
    else if c == '\n' then "\\n"
    else if c == '\r' then "\\r"
    else if c == '\t' then "\\t"
    else if c == '\U{0008}' then "\\b"
    else if c == '\U{000C}' then "\\f"
    else if (c as int) < 0x20 then "\\u00" + [HexDigit((c as int) / 16), HexDigit((c as int) % 16)]
    else [c]
  }

  // ---- decoding a string literal body, the partner of Escape ----

  function HexValue(c: char): Option<nat>
  {
    if '0' <= c <= '9' then Some((c as int) - ('0' as int))
    else if 'a' <= c <= 'f' then Some((c as int) - ('a' as int) + 10)
    else if 'A' <= c <= 'F' then Some((c as int) - ('A' as int) + 10)
    else None
  }

  /** Decodes the body of a JSON string literal (the JSON grammar's escapes, BMP only). */
  function Unescape(t: string): Option<string>
    decreases |t|
  {
    if t == [] then Some([])
    else if t[0] == '"' then None
    else if t[0] != '\\' then
      match Unescape(t[1..])
      case None => None
      case Some(rest) => Some([t[0]] + rest)
    else if |t| < 2 then None
    else
      var e := t[1];
      var simple :=
        if e == '"' then Some('"') else if e == '\\' then Some('\\') else if e == '/' then Some('/')
        else if e == 'b' then Some('\U{0008}') else if e == 'f' then Some('\U{000C}')
        else if e == 'n' then Some('\n') else if e == 'r' then Some('\r') else if e == 't' then Some('\t')
        else None;
      if simple.Some? then
        match Unescape(t[2..])
        case None => None
        case Some(rest) => Some([simple.value] + rest)
      else if e == 'u' && |t| >= 6 then
        var h0, h1, h2, h3 := HexValue(t[2]), HexValue(t[3]), HexValue(t[4]), HexValue(t[5]);
        if h0.None? || h1.None? || h2.None? || h3.None? then None
        else
          var code := ((h0.value * 16 + h1.value) * 16 + h2.value) * 16 + h3.value;
          if 0xD800 <= code < 0xE000 then None
          else
            match Unescape(t[6..])
            case None => None
            case Some(rest) => Some([code as char] + rest)
      else None
  }

  lemma HexDigitValue(d: nat)
    requires d < 16
    ensures HexValue(HexDigit(d)) == Some(d)
  {
  }

  lemma {:induction false} UnescapeChar(c: char, rest: string)
    ensures Unescape(EscapeChar(c) + rest) ==
      match Unescape(rest) case None => None case Some(r) => Some([c] + r)
  {
    var t := EscapeChar(c) + rest;
    if (c as int) < 0x20 && c != '\n' && c != '\r' && c != '\t' && c != '\U{0008}' && c != '\U{000C}' {
      var hi, lo := (c as int) / 16, (c as int) % 16;
      HexDigitValue(hi);
      HexDigitValue(lo);
      assert t[0] == '\\' && t[1] == 'u' && t[2] == '0' && t[3] == '0';
      assert t[4] == HexDigit(hi) && t[5] == HexDigit(lo);
      assert t[6..] == rest;
    } else if c == '"' || c == '\\' || c == '\n' || c == '\r' || c == '\t' || c == '\U{0008}' || c == '\U{000C}' {
      assert t[2..] == rest;
    } else {
      assert t[1..] == rest;
    }
  }

  /** Decoding the escaped text of any string gives the string back. */
  lemma {:induction false} UnescapeEscape(s: string)
    ensures Unescape(Escape(s)) == Some(s)
  {
    if s != [] {
      UnescapeEscape(s[1..]);
      UnescapeChar(s[0], Escape(s[1..]));
      assert [s[0]] + s[1..] == s;
    }
  }

  // ---- small accessors used across the model ----

  predicate IsObject(j: Json) { j.Obj? }

  predicate IsArray(j: Json) { j.Arr? }

  /** `Value::get(key)`: a field of an object; nothing for any other value. */
  function GetField(j: Json, key: string): Option<Json>
  {
    if j.Obj? && key in j.fields then Some(j.fields[key]) else None
  }
}
