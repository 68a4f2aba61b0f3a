/** An encoder of JSON values that loses nothing: the injectivity assumed of the ledger's and the
    custodian's encoders is something an encoder can have. Each function writes its argument in
    front of what is already written. */
module Encoder {
  import opened Json
  import opened Texts

  function Unary(n: nat, rest: string): string {
    if n == 0 then ['.'] + rest else ['1'] + Unary(n - 1, rest)
  }

  lemma {:induction false} UnaryCuts(m: nat, n: nat, x: string, y: string)
    requires Unary(m, x) == Unary(n, y)
    ensures m == n && x == y
  {
    var a, b := Unary(m, x), Unary(n, y);
    assert a[0] == b[0] && a[1..] == b[1..];
    assert a[1..] == if m == 0 then x else Unary(m - 1, x);
    assert b[1..] == if n == 0 then y else Unary(n - 1, y);
    if m > 0 {
      UnaryCuts(m - 1, n - 1, x, y);
    }
  }

  // A text behind its length.
  function TextCode(s: string, rest: string): string {
    Unary(|s|, s + rest)
  }

  lemma TextCuts(s: string, t: string, x: string, y: string)
    requires TextCode(s, x) == TextCode(t, y)
    ensures s == t && x == y
  {
    UnaryCuts(|s|, |t|, s + x, t + y);
    assert (s + x)[..|s|] == s && (t + y)[..|t|] == t;
    assert (s + x)[|s|..] == x && (t + y)[|t|..] == y;
  }

  function Letter(v: Value): char {
    match v
    case Null => 'n'
    case Bool(b) => if b then 't' else 'f'
    case Int(i) => if i >= 0 then 'i' else 'j'
    case Float(_) => 'd'
    case Str(_) => 's'
    case Arr(_) => 'a'
    case Obj(_) => 'o'
  }

  // A value behind a letter for its kind; objects by their sorted keys.
  function Code(v: Value, rest: string): string
    decreases v, 2, 0
  {
    [Letter(v)] + Body(v, rest)
  }

  function Body(v: Value, rest: string): string
    decreases v, 1, 0
  {
    match v
    case Null => rest
    case Bool(_) => rest
    case Int(i) => Unary(if i >= 0 then i else -i, rest)
    case Float(bits) => Unary(bits, rest)
    case Str(s) => TextCode(s, rest)
    case Arr(items) => Unary(|items|, ItemsCode(v, 0, rest))
    case Obj(fields) => Unary(|fields.Keys|, FieldsCode(v, Sorted(fields.Keys), rest))
  }

  function ItemsCode(v: Value, i: nat, rest: string): string
    requires v.Arr? && i <= |v.items|
    decreases v, 0, |v.items| - i
  {
    if i == |v.items| then rest else Code(v.items[i], ItemsCode(v, i + 1, rest))
  }

  function FieldsCode(v: Value, keys: seq<string>, rest: string): string
    requires v.Obj? && forall k | k in keys :: k in v.fields
    decreases v, 0, |keys|
  {
    if keys == [] then rest
    else
      assert keys[0] in keys;
      TextCode(keys[0], Code(v.fields[keys[0]], FieldsCode(v, keys[1..], rest)))
  }

  lemma {:induction false} CodeCuts(v: Value, w: Value, x: string, y: string)
    requires Code(v, x) == Code(w, y)
    ensures v == w && x == y
    decreases v, 2, 0
  {
    hide Body;
    assert Code(v, x)[0] == Code(w, y)[0];
    assert Code(v, x)[1..] == Body(v, x) && Code(w, y)[1..] == Body(w, y);
    if v.Arr? {
      ItemsBodyCuts(v, w, x, y);
    } else if v.Obj? {
      FieldsBodyCuts(v, w, x, y);
    } else {
      LeafCuts(v, w, x, y);
    }
  }

  lemma LeafCuts(v: Value, w: Value, x: string, y: string)
    requires !v.Arr? && !v.Obj? && Letter(v) == Letter(w) && Body(v, x) == Body(w, y)
    ensures v == w && x == y
  {
    hide Unary, TextCode;
    match v
    case Int(i) => UnaryCuts(if i >= 0 then i else -i, if w.i >= 0 then w.i else -w.i, x, y);
    case Float(bits) => UnaryCuts(bits, w.bits, x, y);
    case Str(s) => TextCuts(s, w.s, x, y);
    case _ =>
  }

  lemma {:induction false} ItemsBodyCuts(v: Value, w: Value, x: string, y: string)
    requires v.Arr? && w.Arr? && Body(v, x) == Body(w, y)
    ensures v == w && x == y
    decreases v, 1, 0
  {
    hide Unary, ItemsCode;
    UnaryCuts(|v.items|, |w.items|, ItemsCode(v, 0, x), ItemsCode(w, 0, y));
    ItemsCut(v, w, 0, x, y);
  }

  lemma {:induction false} FieldsBodyCuts(v: Value, w: Value, x: string, y: string)
    requires v.Obj? && w.Obj? && Body(v, x) == Body(w, y)
    ensures v == w && x == y
    decreases v, 1, 0
  {
    hide Unary, FieldsCode, Sorted;
    var k, l := Sorted(v.fields.Keys), Sorted(w.fields.Keys);
    UnaryCuts(|k|, |l|, FieldsCode(v, k, x), FieldsCode(w, l, y));
    FieldsCut(v, w, k, l, x, y);
    assert v.fields.Keys == w.fields.Keys;
    assert v.fields == w.fields;
  }

  lemma {:induction false} ItemsCut(v: Value, w: Value, i: nat, x: string, y: string)
    requires v.Arr? && w.Arr? && |v.items| == |w.items| && i <= |v.items|
    requires ItemsCode(v, i, x) == ItemsCode(w, i, y)
    ensures v.items[i..] == w.items[i..] && x == y
    decreases v, 0, |v.items| - i
  {
    if i < |v.items| {
      hide Code;
      CodeCuts(v.items[i], w.items[i], ItemsCode(v, i + 1, x), ItemsCode(w, i + 1, y));
      ItemsCut(v, w, i + 1, x, y);
      assert v.items[i..] == [v.items[i]] + v.items[i + 1..] && w.items[i..] == [w.items[i]] + w.items[i + 1..];
    }
  }

  lemma {:induction false} FieldsCut(v: Value, w: Value, k: seq<string>, l: seq<string>, x: string, y: string)
    requires v.Obj? && w.Obj? && |k| == |l|
    requires (forall key | key in k :: key in v.fields) && forall key | key in l :: key in w.fields
    requires FieldsCode(v, k, x) == FieldsCode(w, l, y)
    ensures k == l && x == y && forall key | key in k :: v.fields[key] == w.fields[key]
    decreases v, 0, |k|
  {
    if k != [] {
      hide Code, TextCode;
      assert k[0] in k && l[0] in l;
      var p, q := v.fields[k[0]], w.fields[l[0]];
      var r, s := FieldsCode(v, k[1..], x), FieldsCode(w, l[1..], y);
      TextCuts(k[0], l[0], Code(p, r), Code(q, s));
      CodeCuts(p, q, r, s);
      FieldsCut(v, w, k[1..], l[1..], x, y);
      assert k == [k[0]] + k[1..] && l == [l[0]] + l[1..];
    }
  }

  function Encode(v: Value): string {
    Code(v, "")
  }

  /** Different values have different texts. */
  lemma EncodeIsInjective(v: Value, w: Value)
    requires Encode(v) == Encode(w)
    ensures v == w
  {
    CodeCuts(v, w, "", "");
  }
}
