/**
 * The serialiser `stringify(presentation)` of lib/stringify.js:6-23 (the same code is
 * sdk/lib/stringify.js:16-33): JSON-like text with ", " and ": " separators, in which an
 * object carrying a truthy `$ref` is replaced by that value, so that `{$ref: "${uri}"}`
 * becomes the reference `${uri}` the hydration engines resolve.  Fields holding null or
 * undefined are left out at every level.
 */
module Stringify {
  import opened Wrappers
  import opened Strings
  import opened Js

  /** `R.reject(pair => R.isNil(pair[1]), R.toPairs(o))`: the fields neither null nor undefined, in order. */
  function Present(fields: seq<(string, JsValue)>): (kept: seq<(string, JsValue)>)
    ensures forall i :: 0 <= i < |kept| ==> kept[i] in fields && !IsNil(kept[i].1)
    ensures forall f :: f in fields && !IsNil(f.1) ==> f in kept
  {
    if |fields| == 0 then []
    else
      assert fields == [fields[0]] + fields[1..];
      if IsNil(fields[0].1) then Present(fields[1..]) else [fields[0]] + Present(fields[1..])
  }

  /** The object's `$ref` property, which replaces the object when truthy (line 12). */
  function RefOf(fields: seq<(string, JsValue)>): JsValue
  {
    Lookup(fields, "$ref")
  }

  /**
   * stringify: an array is its elements' texts joined by ", " in brackets (an undefined
   * element joins as empty text); an object with a truthy `$ref` is that value; any other
   * object is its present fields as `"k": v` joined by ", " in braces; null is "null";
   * anything else is `JSON.stringify` of it, which leaves undefined undefined.
   */
  function Stringify(v: JsValue): (r: JsValue)
    ensures !r.Str? ==> v.Undefined? || (v.Obj? && Truthy(RefOf(v.fields)) && r == RefOf(v.fields))
    decreases v
  {
    match v
    case Arr(xs) =>
      Str("[" + Join(seq(|xs|, i requires 0 <= i < |xs| => JoinElement(Stringify(xs[i]))), ", ") + "]")
    case Obj(fs) =>
      if Truthy(RefOf(fs)) then RefOf(fs)
      else
        var kept := Present(fs);
        Str("{" + Join(seq(|kept|, i requires 0 <= i < |kept| =>
                          Quote(kept[i].0) + ": " + JoinElement(Stringify(kept[i].1))), ", ") + "}")
    case Null => Str("null")
    case _ =>
      match JsonStringify(v)
      case Some(t) => Str(t)
      case None => Undefined
  }

  /** The text `putObject` hands to the store: the serialised value as `String()` writes it. */
  function StringifyText(v: JsValue): (t: string)
    ensures Stringify(v).Str? ==> t == Stringify(v).s
  {
    ToString(Stringify(v))
  }

  // ----- properties -----

  /** Only undefined serialises to undefined (`JSON.stringify(undefined)`). */
  lemma {:induction false} UndefinedOnlyFromUndefined(v: JsValue)
    ensures Stringify(v).Undefined? <==> v.Undefined?
  {
  }

  /** Null and the scalars are written as `JSON.stringify` writes them, so `"abc"` becomes `"\"abc\""`. */
  lemma {:induction false} ScalarsAsJson(v: JsValue)
    requires !v.Arr? && !v.Obj? && !v.Undefined?
    ensures JsonStringify(v).Some? && Stringify(v) == Str(JsonStringify(v).value)
  {
  }

  lemma {:induction false} StringAsJson(s: string)
    ensures Stringify(Str(s)) == Str("\"" + QuoteBody(s) + "\"")
  {
  }

  /** `{$ref: "${uri}", ...}` is the reference text `${uri}` itself, whatever its other fields. */
  lemma {:induction false} RefRewritten(uri: string, others: seq<(string, JsValue)>)
    ensures Stringify(Obj([("$ref", Str("${" + uri + "}"))] + others)) == Str("${" + uri + "}")
  {
    var fs := [("$ref", Str("${" + uri + "}"))] + others;
    assert fs[0].0 == "$ref";
  }

  /** A truthy `$ref` wins over every field after it. */
  lemma {:induction false} RefIgnoresLaterFields(fs: seq<(string, JsValue)>, gs: seq<(string, JsValue)>)
    requires Truthy(RefOf(fs))
    ensures Stringify(Obj(fs + gs)) == RefOf(fs)
  {
    LookupPrefix(fs, gs, "$ref");
  }

  lemma {:induction false} LookupPrefix(fs: seq<(string, JsValue)>, gs: seq<(string, JsValue)>, p: string)
    requires !Lookup(fs, p).Undefined?
    ensures Lookup(fs + gs, p) == Lookup(fs, p)
  {
    assert |fs| > 0;
    if fs[0].0 != p {
      assert (fs + gs)[1..] == fs[1..] + gs;
      LookupPrefix(fs[1..], gs, p);
    }
  }

  /** A nil field changes no truthy lookup: named otherwise it is passed over, and a lone `p` is falsy either way. */
  lemma {:induction false} LookupSkipsNil(a: seq<(string, JsValue)>, k: string, nil: JsValue, b: seq<(string, JsValue)>, p: string)
    requires IsNil(nil) && (k != p || forall f :: f in a + b ==> f.0 != p)
    ensures Truthy(Lookup(a + [(k, nil)] + b, p)) == Truthy(Lookup(a + b, p))
    ensures Truthy(Lookup(a + b, p)) ==> Lookup(a + [(k, nil)] + b, p) == Lookup(a + b, p)
  {
    if |a| == 0 {
      assert a + [(k, nil)] + b == [(k, nil)] + b;
      assert a + b == b;
      assert ([(k, nil)] + b)[1..] == b;
      if k == p {
        LookupAbsent(b, p);
      }
    } else {
      assert (a + [(k, nil)] + b)[1..] == a[1..] + [(k, nil)] + b;
      assert (a + b)[1..] == a[1..] + b;
      if a[0].0 != p {
        assert forall f :: f in a[1..] + b ==> f in a + b;
        LookupSkipsNil(a[1..], k, nil, b, p);
      } else {
        assert a[0] in a + b;
      }
    }
  }

  lemma {:induction false} LookupAbsent(fs: seq<(string, JsValue)>, p: string)
    requires forall f :: f in fs ==> f.0 != p
    ensures Lookup(fs, p).Undefined?
  {
    if |fs| > 0 {
      assert fs[0] in fs;
      assert forall f :: f in fs[1..] ==> f in fs;
      LookupAbsent(fs[1..], p);
    }
  }

  lemma {:induction false} PresentSkipsNil(a: seq<(string, JsValue)>, k: string, nil: JsValue, b: seq<(string, JsValue)>)
    requires IsNil(nil)
    ensures Present(a + [(k, nil)] + b) == Present(a + b)
  {
    if |a| == 0 {
      assert a + [(k, nil)] + b == [(k, nil)] + b;
      assert ([(k, nil)] + b)[1..] == b;
      assert a + b == b;
    } else {
      assert (a + [(k, nil)] + b)[1..] == a[1..] + [(k, nil)] + b;
      assert (a + b)[1..] == a[1..] + b;
      PresentSkipsNil(a[1..], k, nil, b);
    }
  }

  /**
   * A field holding null or undefined is omitted wherever it stands: the object is written
   * as if it had no such field (a nil `$ref` included, the object's only one).
   */
  lemma {:induction false} NilFieldOmitted(a: seq<(string, JsValue)>, k: string, nil: JsValue, b: seq<(string, JsValue)>)
    requires IsNil(nil) && (k != "$ref" || forall f :: f in a + b ==> f.0 != "$ref")
    ensures Stringify(Obj(a + [(k, nil)] + b)) == Stringify(Obj(a + b))
  {
    LookupSkipsNil(a, k, nil, b, "$ref");
    PresentSkipsNil(a, k, nil, b);
  }

  /** One present field, not a truthy `$ref`: `{"k": v}`. */
  lemma {:induction false} OneField(k: string, v: JsValue)
    requires !IsNil(v) && (k != "$ref" || !Truthy(v))
    ensures Stringify(Obj([(k, v)])) == Str("{" + Quote(k) + ": " + ToString(Stringify(v)) + "}")
  {
    var fs := [(k, v)];
    assert fs[1..] == [];
    assert !Truthy(RefOf(fs)) by {
      if k != "$ref" {
        assert Lookup(fs[1..], "$ref") == Undefined;
      }
    }
    assert Present(fs) == fs;
    var sv := Stringify(v);
    assert JoinElement(sv) == ToString(sv);
    var e := Quote(k) + ": " + JoinElement(sv);
    ObjectOfTexts(fs, [e]);
    assert Join([e], ", ") == e;
    Braced(Quote(k), ToString(sv));
  }

  lemma {:induction false} Braced(q: string, t: string)
    ensures "{" + (q + ": " + t) + "}" == "{" + q + ": " + t + "}"
  {
  }

  /** An object without a truthy `$ref` is its present fields' `"k": v` texts, in order, joined by ", " in braces. */
  lemma {:induction false} ObjectOfTexts(fs: seq<(string, JsValue)>, ts: seq<string>)
    requires !Truthy(RefOf(fs)) && |ts| == |Present(fs)|
    requires forall i :: 0 <= i < |ts| ==>
      ts[i] == Quote(Present(fs)[i].0) + ": " + JoinElement(Stringify(Present(fs)[i].1))
    ensures Stringify(Obj(fs)) == Str("{" + Join(ts, ", ") + "}")
  {
    var kept := Present(fs);
    assert ts == seq(|kept|, i requires 0 <= i < |kept| => Quote(kept[i].0) + ": " + JoinElement(Stringify(kept[i].1)));
  }

  /** An array is its elements' texts, in order, joined by ", " between brackets. */
  lemma {:induction false} ArrayOfTexts(xs: seq<JsValue>, ts: seq<string>)
    requires |ts| == |xs| && forall i :: 0 <= i < |xs| ==> ts[i] == JoinElement(Stringify(xs[i]))
    ensures Stringify(Arr(xs)) == Str("[" + Join(ts, ", ") + "]")
  {
    assert ts == seq(|xs|, i requires 0 <= i < |xs| => JoinElement(Stringify(xs[i])));
  }

  lemma {:induction false} EmptyContainers()
    ensures Stringify(Arr([])) == Str("[]")
    ensures Stringify(Obj([])) == Str("{}")
  {
  }
}
