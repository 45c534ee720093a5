/**
 * JavaScript values as the source manipulates them, with the parts of the JavaScript
 * runtime the source calls: `JSON.stringify` (section 25.5.2 of ECMA-262, restricted to
 * integral numbers), `String()` and `Array.prototype.join` conversion, property access
 * `v[p]` and Ramda's `R.path`.  `JSON.parse`, `js-string-escape` and `Number()` are taken
 * as given functions, bundled in a `Runtime` value.
 */
module Js {
  import opened Wrappers
  import opened Strings

  /** A JavaScript value; object fields keep their enumeration order. */
  datatype JsValue =
    | Undefined
    | Null
    | Bool(b: bool)
    | Num(n: int)
    | Str(s: string)
    | Arr(items: seq<JsValue>)
    | Obj(fields: seq<(string, JsValue)>)

  /** `R.isNil`. */
  predicate IsNil(v: JsValue)
  {
    v.Undefined? || v.Null?
  }

  /** JavaScript truthiness. */
  predicate Truthy(v: JsValue)
  {
    match v
    case Undefined => false
    case Null => false
    case Bool(b) => b
    case Num(n) => n != 0
    case Str(s) => s != ""
    case _ => true
  }

  /**
   * The foreign functions: `parse` is `JSON.parse` (None when it throws), `escape` is the
   * `js-string-escape` package, `number` is `Number(s)` when `isNaN(s)` is false.
   */
  datatype Runtime = Runtime(
    parse: string -> Option<JsValue>,
    escape: string -> string,
    number: string -> Option<int>)

  function HexDigit(d: nat): char
    requires d < 16
  {
    if d < 10 then DigitChar(d) else ('a' as int + d - 10) as char
  }

  /** The escape `JSON.stringify` writes for one character of a string. */
  function QuoteChar(ch: char): string
  {
    if ch == '"' then "\\\""
    else if ch == '\\' then "\\\\"
    else if ch == '\U{0008}' then "\\b"
    else if ch == '\U{000C}' then "\\f"
    else if ch == '\n' then "\\n"
    else if ch == '\r' then "\\r"
    else if ch == '\t' then "\\t"
    else if (ch as int) < 0x20 then "\\u00" + [HexDigit(ch as int / 16), HexDigit(ch as int % 16)]
    else [ch]
  }

  /** A character `JSON.stringify` copies as it is. */
  predicate Plain(ch: char)
  {
    ch != '"' && ch != '\\' && (ch as int) >= 0x20
  }

  function QuoteBody(s: string): string
  {
    if |s| == 0 then "" else QuoteChar(s[0]) + QuoteBody(s[1..])
  }

  /** QuoteJSONString: the string in double quotes, with `"`, `\` and control characters escaped. */
  function Quote(s: string): string
  {
    "\"" + QuoteBody(s) + "\""
  }

  /** A string of plain characters is quoted as it is, e.g. `abc` becomes `"abc"`. */
  lemma {:induction false} QuotePlain(s: string)
    requires forall i :: 0 <= i < |s| ==> Plain(s[i])
    ensures Quote(s) == "\"" + s + "\""
  {
    QuoteBodyPlain(s);
  }

  lemma {:induction false} QuoteBodyPlain(s: string)
    requires forall i :: 0 <= i < |s| ==> Plain(s[i])
    ensures QuoteBody(s) == s
  {
    if |s| > 0 {
      QuoteBodyPlain(s[1..]);
      assert [s[0]] + s[1..] == s;
    }
  }

  /** The fields `JSON.stringify` writes: those whose value is not undefined. */
  function Serialisable(fields: seq<(string, JsValue)>): (kept: seq<(string, JsValue)>)
    ensures forall i :: 0 <= i < |kept| ==> kept[i] in fields && !kept[i].1.Undefined?
  {
    if |fields| == 0 then []
    else if fields[0].1.Undefined? then Serialisable(fields[1..])
    else [fields[0]] + Serialisable(fields[1..])
  }

  /**
   * `JSON.stringify(v)`: None for undefined (it returns undefined), otherwise JSON text;
   * undefined array elements are written `null`, undefined fields are skipped.
   */
  function JsonStringify(v: JsValue): (r: Option<string>)
    ensures r.None? <==> v.Undefined?
    decreases v
  {
    match v
    case Undefined => None
    case Null => Some("null")
    case Bool(b) => Some(if b then "true" else "false")
    case Num(n) => Some(IntToString(n))
    case Str(s) => Some(Quote(s))
    case Arr(xs) =>
      Some("[" + Join(seq(|xs|, i requires 0 <= i < |xs| =>
                        var t := JsonStringify(xs[i]); if t.None? then "null" else t.value), ",") + "]")
    case Obj(fs) =>
      var kept := Serialisable(fs);
      Some("{" + Join(seq(|kept|, i requires 0 <= i < |kept| =>
                        Quote(kept[i].0) + ":" + JsonStringify(kept[i].1).value), ",") + "}")
  }

  /** How `Array.prototype.join` writes one element: null and undefined become empty. */
  function JoinElement(v: JsValue): string
    decreases v, 1
  {
    if IsNil(v) then "" else ToString(v)
  }

  /** `String(v)`. */
  function ToString(v: JsValue): string
    decreases v, 0
  {
    match v
    case Undefined => "undefined"
    case Null => "null"
    case Bool(b) => if b then "true" else "false"
    case Num(n) => IntToString(n)
    case Str(s) => s
    case Arr(xs) => Join(seq(|xs|, i requires 0 <= i < |xs| => JoinElement(xs[i])), ",")
    case Obj(_) => "[object Object]"
  }

  /** The value of the first field named `p`, or undefined. */
  function Lookup(fields: seq<(string, JsValue)>, p: string): (r: JsValue)
    ensures r.Undefined? || exists i :: 0 <= i < |fields| && fields[i] == (p, r)
  {
    if |fields| == 0 then Undefined
    else if fields[0].0 == p then fields[0].1
    else Lookup(fields[1..], p)
  }

  /** The index a property name denotes on an array or string: canonical decimal digits. */
  function IndexOfName(p: string): Option<nat>
  {
    if |p| >= 1 && AllDigits(p) && (p == "0" || p[0] != '0') then Some(DigitsValue(p)) else None
  }

  /** `v[p]` for own properties: object fields, array and string indices and `length`. */
  function Prop(v: JsValue, p: string): JsValue
  {
    match v
    case Obj(fs) => Lookup(fs, p)
    case Arr(xs) =>
      if p == "length" then Num(|xs|)
      else (match IndexOfName(p)
            case Some(i) => if i < |xs| then xs[i] else Undefined
            case None => Undefined)
    case Str(s) =>
      if p == "length" then Num(|s|)
      else (match IndexOfName(p)
            case Some(i) => if i < |s| then Str([s[i]]) else Undefined
            case None => Undefined)
    case _ => Undefined
  }

  /** `R.path(props, v)`: follow the property names, stopping with undefined at null or undefined. */
  function Path(props: seq<string>, v: JsValue): JsValue
  {
    if |props| == 0 then v
    else if IsNil(v) then Undefined
    else Path(props[1..], Prop(v, props[0]))
  }

  /** Following a path through objects is field lookup after field lookup. */
  lemma {:induction false} PathThroughObject(p: string, rest: seq<string>, fs: seq<(string, JsValue)>)
    ensures Path([p] + rest, Obj(fs)) == Path(rest, Lookup(fs, p))
  {
    assert ([p] + rest)[1..] == rest;
  }

  /** A path that meets null or undefined before its end yields undefined. */
  lemma {:induction false} PathThroughNil(props: seq<string>, v: JsValue)
    requires |props| > 0 && IsNil(v)
    ensures Path(props, v).Undefined?
  {
  }
}
