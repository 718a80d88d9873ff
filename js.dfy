/**
 * The fragment of JavaScript's value semantics that the search pages rely on:
 * truthiness, `Number(x)`, `String(x)` / `x.toString()`, property lookup on
 * plain objects, object spread, and the string methods `trim`, `replaceAll`,
 * `split` and `endsWith`, plus `Array.prototype.filter`.
 */
module Js {
  import opened Wrappers

  /** A JavaScript value. Numbers are the integral ones (see `StringToNumber`). */
  datatype Value =
    | Undefined
    | Null
    | Bool(b: bool)
    | Num(n: int)
    | NaN
    | Str(s: string)
    | Arr(items: seq<Value>)
    | Obj(props: seq<Prop>)

  /** One own property of a plain object; an object lists them in insertion order. */
  datatype Prop = Prop(key: string, val: Value)

  type Object = seq<Prop>

  datatype JsError = TypeError(message: string)

  // ---------------------------------------------------------------------------
  // Truthiness and `||`

  /** `!!v`: the falsy values are undefined, null, false, 0, NaN and "". */
  predicate Truthy(v: Value) {
    match v
    case Undefined => false
    case Null => false
    case Bool(b) => b
    case Num(n) => n != 0
    case NaN => false
    case Str(s) => s != ""
    case Arr(_) => true
    case Obj(_) => true
  }

  /** `a || b` */
  function Or(a: Value, b: Value): Value {
    if Truthy(a) then a else b
  }

  // ---------------------------------------------------------------------------
  // Objects

  function Keys(o: Object): (r: seq<string>)
    ensures |r| == |o|
    ensures forall i :: 0 <= i < |o| ==> r[i] == o[i].key
  {
    if o == [] then [] else [o[0].key] + Keys(o[1..])
  }

  predicate HasKey(o: Object, k: string) {
    k in Keys(o)
  }

  /** `o[k]`: the value of the property named `k`, or undefined when there is none. */
  function Get(o: Object, k: string): (r: Value)
    ensures !HasKey(o, k) ==> r == Undefined
  {
    if o == [] then Undefined
    else if o[0].key == k then o[0].val
    else Get(o[1..], k)
  }

  /** A key the object has is found as one of its properties. */
  lemma {:induction false} GetFound(o: Object, k: string)
    requires HasKey(o, k)
    ensures Prop(k, Get(o, k)) in o
  {
    assert Keys(o) == [o[0].key] + Keys(o[1..]);
    if o[0].key != k {
      GetFound(o[1..], k);
      var i :| 0 <= i < |o[1..]| && o[1..][i] == Prop(k, Get(o, k));
      assert o[i + 1] == Prop(k, Get(o, k));
    }
  }

  /** `v?.k`: property lookup that yields undefined on anything but an object. */
  function Member(v: Value, k: string): Value {
    if v.Obj? then Get(v.props, k) else Undefined
  }

  /** `o[k] = v` on a plain object: an existing property keeps its place, a new one goes last. */
  function Assign(o: Object, k: string, v: Value): (r: Object)
    ensures Get(r, k) == v
    ensures forall k' :: k' != k ==> Get(r, k') == Get(o, k')
    ensures Keys(r) == if HasKey(o, k) then Keys(o) else Keys(o) + [k]
  {
    if o == [] then [Prop(k, v)]
    else if o[0].key == k then
      var r := [Prop(k, v)] + o[1..];
      assert r[1..] == o[1..];
      assert Keys(o)[0] == k;
      r
    else
      var rest := Assign(o[1..], k, v);
      ConsAssigned(o[0], o[1..], k, v, rest);
      assert o == [o[0]] + o[1..];
      [o[0]] + rest
  }

  /** Putting a property with another name in front of an object and of its assigned copy keeps them related. */
  lemma ConsAssigned(p: Prop, o: Object, k: string, v: Value, rest: Object)
    requires p.key != k
    requires Get(rest, k) == v
    requires forall k' :: k' != k ==> Get(rest, k') == Get(o, k')
    requires Keys(rest) == if HasKey(o, k) then Keys(o) else Keys(o) + [k]
    ensures Get([p] + rest, k) == v
    ensures forall k' :: k' != k ==> Get([p] + rest, k') == Get([p] + o, k')
    ensures Keys([p] + rest) == if HasKey([p] + o, k) then Keys([p] + o) else Keys([p] + o) + [k]
  {
    assert ([p] + rest)[1..] == rest;
    assert ([p] + o)[1..] == o;
    var ks := Keys([p] + o);
    assert Keys([p] + rest) == [p.key] + Keys(rest);
    assert ks == [p.key] + Keys(o);
    assert HasKey([p] + o, k) <==> HasKey(o, k) by {
      assert k in ks <==> k in Keys(o);
    }
    if !HasKey(o, k) {
      AppendAssoc([p.key], Keys(o), [k]);
    }
  }

  lemma AppendAssoc<T>(a: seq<T>, b: seq<T>, c: seq<T>)
    ensures (a + b) + c == a + (b + c)
  {
  }

  /** Assigning a property the object does not have yet appends it. */
  lemma {:induction false} AssignFresh(o: Object, k: string, v: Value)
    requires !HasKey(o, k)
    ensures Assign(o, k, v) == o + [Prop(k, v)]
  {
    if o != [] {
      assert o[0].key != k && !HasKey(o[1..], k) by {
        assert Keys(o) == [o[0].key] + Keys(o[1..]);
      }
      AssignFresh(o[1..], k, v);
      calc {
        Assign(o, k, v);
        [o[0]] + Assign(o[1..], k, v);
        [o[0]] + (o[1..] + [Prop(k, v)]);
        { AppendAssoc([o[0]], o[1..], [Prop(k, v)]); }
        ([o[0]] + o[1..]) + [Prop(k, v)];
        { assert [o[0]] + o[1..] == o; }
        o + [Prop(k, v)];
      }
    }
  }

  /** No two properties of `o` share a name, as in every JavaScript object. */
  predicate DistinctKeys(o: Object) {
    o == [] || (!HasKey(o[1..], o[0].key) && DistinctKeys(o[1..]))
  }

  /** The properties `{...v}` copies out of `v`: an object's own, a string's or array's indices. */
  function Spread(v: Value): Object {
    match v
    case Obj(ps) => ps
    case Str(s) => seq(|s|, i requires 0 <= i < |s| => Prop(NatText(i), Str([s[i]])))
    case Arr(items) => seq(|items|, i requires 0 <= i < |items| => Prop(NatText(i), items[i]))
    case _ => []
  }

  // ---------------------------------------------------------------------------
  // Decimal text of integers

  function DigitChar(d: nat): char
    requires d < 10
  {
    "0123456789"[d]
  }

  predicate IsDigit(c: char) {
    '0' <= c <= '9'
  }

  function DigitValue(c: char): nat
    requires IsDigit(c)
  {
    (c as int) - ('0' as int)
  }

  /** The shortest decimal text of `n`, as `String(n)` writes it. */
  function NatText(n: nat): (r: string)
    ensures r != [] && forall i :: 0 <= i < |r| ==> IsDigit(r[i])
  {
    if n < 10 then [DigitChar(n)] else NatText(n / 10) + [DigitChar(n % 10)]
  }

  function IntText(n: int): string {
    if n < 0 then "-" + NatText(-n) else NatText(n)
  }

  /** The value of a string of decimal digits, leading zeros allowed. */
  function DigitsValue(d: string): nat
    requires forall i :: 0 <= i < |d| ==> IsDigit(d[i])
  {
    if d == [] then 0 else 10 * DigitsValue(d[..|d| - 1]) + DigitValue(d[|d| - 1])
  }

  lemma {:induction false} DigitsValueOfNatText(n: nat)
    ensures DigitsValue(NatText(n)) == n
  {
    if n >= 10 {
      var t := NatText(n / 10) + [DigitChar(n % 10)];
      assert t[..|t| - 1] == NatText(n / 10);
      DigitsValueOfNatText(n / 10);
    }
  }

  // ---------------------------------------------------------------------------
  // Conversions

  /** `String(v)` (the ToString operation): total, never throws. */
  function ToText(v: Value): string
    decreases v
  {
    match v
    case Undefined => "undefined"
    case Null => "null"
    case Bool(b) => if b then "true" else "false"
    case Num(n) => IntText(n)
    case NaN => "NaN"
    case Str(s) => s
    case Arr(items) =>
      Join(seq(|items|, i requires 0 <= i < |items| =>
             if items[i].Undefined? || items[i].Null? then "" else ToText(items[i])), ",")
    case Obj(_) => "[object Object]"
  }

  /** `v.toString()`: like `String(v)`, except that it throws on undefined and null. */
  function CallToString(v: Value): (r: Result<string, JsError>)
    ensures r.Failure? <==> v == Undefined || v == Null
    ensures r.Success? ==> r.value == ToText(v)
  {
    if v.Undefined? || v.Null? then Failure(TypeError("Cannot read properties of " + ToText(v)))
    else Success(ToText(v))
  }

  /** A run of decimal digits read as a number, or NaN. */
  function UnsignedDecimal(d: string): (r: Value)
    ensures r.Num? || r == NaN
    ensures r.Num? ==> r.n >= 0
  {
    if d != [] && forall i :: 0 <= i < |d| ==> IsDigit(d[i]) then Num(DigitsValue(d)) else NaN
  }

  /** `Number(s)` for a string: surrounding white space is ignored, blank text is 0. */
  function StringToNumber(s: string): (r: Value)
    ensures r.Num? || r == NaN
  {
    var t := Trim(s);
    if t == [] then Num(0)
    else if t[0] == '+' then UnsignedDecimal(t[1..])
    else if t[0] == '-' then (var u := UnsignedDecimal(t[1..]); if u.Num? then Num(-u.n) else NaN)
    else UnsignedDecimal(t)
  }

  /** `Number(v)`. */
  function ToNumber(v: Value): (r: Value)
    ensures r.Num? || r == NaN
  {
    match v
    case Undefined => NaN
    case Null => Num(0)
    case Bool(b) => Num(if b then 1 else 0)
    case Num(n) => v
    case NaN => NaN
    case Str(s) => StringToNumber(s)
    case Arr(_) => StringToNumber(ToText(v))
    case Obj(_) => StringToNumber(ToText(v))
  }

  /** A non-empty run of digits has no white space to trim and reads as its value. */
  lemma DigitsRead(d: string)
    requires d != [] && forall i :: 0 <= i < |d| ==> IsDigit(d[i])
    ensures UnsignedDecimal(d) == Num(DigitsValue(d))
    ensures Trim(d) == d
  {
    assert IsDigit(d[0]) && IsDigit(d[|d| - 1]);
    TrimClean(d);
  }

  /** Reading back the text `String(n)` writes gives `n` again. */
  lemma IntTextRoundTrip(n: int)
    ensures StringToNumber(IntText(n)) == Num(n)
  {
    var m: nat := if n < 0 then -n else n;
    DigitsValueOfNatText(m);
    if n < 0 {
      SignedDigitsRead(NatText(m));
    } else {
      UnsignedDigitsRead(NatText(m));
    }
  }

  /** Digits without a sign read as their value. */
  lemma UnsignedDigitsRead(d: string)
    requires d != [] && forall i :: 0 <= i < |d| ==> IsDigit(d[i])
    ensures StringToNumber(d) == Num(DigitsValue(d))
  {
    DigitsRead(d);
    assert IsDigit(d[0]);
  }

  /** Digits after a minus sign read as their value negated. */
  lemma SignedDigitsRead(d: string)
    requires d != [] && forall i :: 0 <= i < |d| ==> IsDigit(d[i])
    ensures StringToNumber("-" + d) == Num(-(DigitsValue(d) as int))
  {
    var t := "-" + d;
    assert |t| == |d| + 1 && t[0] == '-' && t[1..] == d;
    DigitsRead(d);
    assert Trim(t) == t by {
      assert t[|d|] == d[|d| - 1];
      assert IsDigit(d[|d| - 1]);
      TrimClean(t);
    }
  }

  // ---------------------------------------------------------------------------
  // Strings

  /** The WhiteSpace and LineTerminator code points that `String.prototype.trim` removes. */
  predicate IsWhiteSpace(c: char) {
    || c == '\t' || c == '\n' || c == '\U{B}' || c == '\U{C}' || c == '\r' || c == ' '
    || c == '\U{A0}' || c == '\U{1680}' || ('\U{2000}' <= c <= '\U{200A}')
    || c == '\U{2028}' || c == '\U{2029}' || c == '\U{202F}' || c == '\U{205F}'
    || c == '\U{3000}' || c == '\U{FEFF}'
  }

  function TrimStart(s: string): (r: string)
    ensures |r| <= |s| && r == s[|s| - |r|..]
    ensures forall i :: 0 <= i < |s| - |r| ==> IsWhiteSpace(s[i])
    ensures r == [] || !IsWhiteSpace(r[0])
  {
    if s != [] && IsWhiteSpace(s[0]) then TrimStart(s[1..]) else s
  }

  function TrimEnd(s: string): (r: string)
    ensures |r| <= |s| && r == s[..|r|]
    ensures forall i :: |r| <= i < |s| ==> IsWhiteSpace(s[i])
    ensures r == [] || !IsWhiteSpace(r[|r| - 1])
  {
    if s != [] && IsWhiteSpace(s[|s| - 1]) then TrimEnd(s[..|s| - 1]) else s
  }

  /** `s.trim()`: the infix of `s` left after white space is removed from both ends. */
  function Trim(s: string): (r: string)
    ensures |r| <= |s|
    ensures r == [] || (!IsWhiteSpace(r[0]) && !IsWhiteSpace(r[|r| - 1]))
  {
    TrimEnd(TrimStart(s))
  }

  lemma TrimClean(s: string)
    requires s == [] || (!IsWhiteSpace(s[0]) && !IsWhiteSpace(s[|s| - 1]))
    ensures Trim(s) == s
  {
    if s != [] {
      assert TrimStart(s) == s;
    }
  }

  /** A string trims to nothing exactly when it is all white space. */
  lemma TrimBlank(s: string)
    ensures Trim(s) == [] <==> forall i :: 0 <= i < |s| ==> IsWhiteSpace(s[i])
  {
    var t := TrimStart(s);
    if t != [] {
      assert !IsWhiteSpace(s[|s| - |t|]);
    }
  }

  /** `s.replaceAll(from, to)` for one-character `from` and `to`. */
  function ReplaceAll(s: string, from: char, to: char): (r: string)
    ensures |r| == |s|
    ensures forall i :: 0 <= i < |s| ==> r[i] == if s[i] == from then to else s[i]
  {
    if s == [] then [] else [if s[0] == from then to else s[0]] + ReplaceAll(s[1..], from, to)
  }

  /** `parts.join(sep)` */
  function Join(parts: seq<string>, sep: string): string {
    if parts == [] then ""
    else if |parts| == 1 then parts[0]
    else parts[0] + sep + Join(parts[1..], sep)
  }

  /** `s.split(sep)` for a one-character separator: the pieces between separators. */
  function Split(s: string, sep: char): (r: seq<string>)
    ensures |r| >= 1
    ensures forall i :: 0 <= i < |r| ==> sep !in r[i]
    ensures Join(r, [sep]) == s
  {
    if s == [] then [""]
    else
      var rest := Split(s[1..], sep);
      if s[0] == sep then
        [""] + rest
      else
        var r := [[s[0]] + rest[0]] + rest[1..];
        assert r[1..] == rest[1..];
        r
  }

  /** The pieces `Split` gives are the only separator-free pieces that join back to `s`. */
  lemma {:induction false} SplitUnique(s: string, sep: char, parts: seq<string>)
    requires |parts| >= 1
    requires forall i :: 0 <= i < |parts| ==> sep !in parts[i]
    requires Join(parts, [sep]) == s
    ensures parts == Split(s, sep)
    decreases |s|
  {
    if s == [] {
    } else if parts[0] == [] {
      assert |parts| > 1;
      assert s == [sep] + Join(parts[1..], [sep]);
      assert s[1..] == Join(parts[1..], [sep]);
      SplitUnique(s[1..], sep, parts[1..]);
    } else {
      var q := [parts[0][1..]] + parts[1..];
      assert s[0] == parts[0][0] by {
        if |parts| > 1 {
          assert s == parts[0] + ([sep] + Join(parts[1..], [sep]));
        }
      }
      assert q[1..] == parts[1..];
      assert Join(q, [sep]) == s[1..] by {
        if |parts| > 1 {
          assert s == parts[0] + [sep] + Join(parts[1..], [sep]);
        }
      }
      assert sep !in q[0];
      SplitUnique(s[1..], sep, q);
      assert parts[0] == [s[0]] + q[0];
      assert parts == [[s[0]] + q[0]] + q[1..];
    }
  }

  /** Splitting text that starts with a separator-free piece `f` followed by a separator. */
  lemma SplitAfter(f: string, sep: char, rest: string)
    requires sep !in f
    ensures Split(f + [sep] + rest, sep) == [f] + Split(rest, sep)
  {
    var parts := [f] + Split(rest, sep);
    assert parts[1..] == Split(rest, sep);
    SplitUnique(f + [sep] + rest, sep, parts);
  }

  /** Text without the separator splits into itself. */
  lemma SplitWhole(f: string, sep: char)
    requires sep !in f
    ensures Split(f, sep) == [f]
  {
    SplitUnique(f, sep, [f]);
  }

  /** `s.endsWith(suffix)` */
  predicate EndsWith(s: string, suffix: string) {
    |suffix| <= |s| && s[|s| - |suffix|..] == suffix
  }

  // ---------------------------------------------------------------------------
  // Arrays

  /** `s.filter(p)`: the elements that pass, in their original order. */
  function Filter<T(!new)>(s: seq<T>, p: T -> bool): (r: seq<T>)
    ensures |r| <= |s|
  {
    if s == [] then []
    else
      var rest := Filter(s[1..], p);
      assert s == [s[0]] + s[1..];
      if p(s[0]) then [s[0]] + rest else rest
  }

  /** An element survives filtering exactly when it occurs in the input and passes. */
  lemma {:induction false} FilterMembers<T(!new)>(s: seq<T>, p: T -> bool)
    ensures forall x :: x in Filter(s, p) <==> x in s && p(x)
  {
    if s != [] {
      FilterMembers(s[1..], p);
      assert s == [s[0]] + s[1..];
    }
  }

  /** Filtering keeps order: filtering a concatenation concatenates the filtered parts. */
  lemma {:induction false} FilterAppend<T(!new)>(s: seq<T>, t: seq<T>, p: T -> bool)
    ensures Filter(s + t, p) == Filter(s, p) + Filter(t, p)
  {
    if s != [] {
      assert (s + t)[0] == s[0];
      assert (s + t)[1..] == s[1..] + t;
      FilterAppend(s[1..], t, p);
      var rest := if p(s[0]) then [s[0]] else [];
      assert Filter(s, p) == rest + Filter(s[1..], p);
      assert Filter(s + t, p) == rest + Filter(s[1..] + t, p);
      assert rest + (Filter(s[1..], p) + Filter(t, p)) == (rest + Filter(s[1..], p)) + Filter(t, p);
    } else {
      assert s + t == t;
    }
  }
}
