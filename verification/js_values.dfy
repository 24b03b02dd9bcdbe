/**
  The JavaScript values the store works with, and the handful of language
  operations the modelled code relies on: truthiness, `toLowerCase`, property
  reads, the `in` operator, `Object.keys(..).length` and `String(..)`.

  Stored documents travel through `JSON.stringify`/`JSON.parse`; the model
  treats that round trip as the identity on `Json` values. Numbers are
  integers. Inherited properties (`constructor`, `__proto__`, the methods of
  `Array.prototype`) are not modelled: a property read sees own fields, array
  indices and `length` only.
 */
module JsValues {

  datatype Option<+T> = None | Some(value: T)

  /** The errors the modelled code throws, one constructor per distinct message. */
  datatype Error =
    | EmptyKeyOrValue
    | CacheSizeExceeded
    | NoCacheId
    | KeyNotFound(key: string)
    | NotAnArray
    | NotOwner
    | SizeNotInteger
    | SizeNotPositive
    | SizeAboveMaximum
    | NotAnObject
    | UserCacheNotObject
    | MovieStoreNotObject
    | EmptyCacheName
    | CreateNewNotCalled
    | CategoryNotSet
    | TypeError
    | SyntaxError
    | Transport(reason: string)
    | Prefixed(prefix: string, cause: Error)

  /** A call that either returns a value or throws without changing anything. */
  datatype Result<+T> = Ok(value: T) | Err(error: Error)

  /** A call on a mutable object: the object's state afterwards, and whether it threw. */
  datatype Outcome<+S> = Done(state: S) | Threw(state: S, error: Error)

  datatype Json =
    | Null
    | Bool(b: bool)
    | Num(n: int)
    | Str(s: string)
    | Arr(elems: seq<Json>)
    | Obj(fields: map<string, Json>)

  /** JavaScript falsiness restricted to `Json` (`undefined` is modelled as absence). */
  predicate Falsy(v: Json) {
    v == Null || v == Bool(false) || v == Num(0) || v == Str("")
  }

  /** `v == null`, where `None` stands for `undefined`. */
  predicate Nullish(v: Option<Json>) {
    v == None || v == Some(Null)
  }

  predicate Truthy(v: Option<Json>) {
    v.Some? && !Falsy(v.value)
  }

  /** `typeof v == "object"`: objects, arrays and `null`. */
  predicate IsObjectType(v: Option<Json>) {
    v.Some? && (v.value.Null? || v.value.Obj? || v.value.Arr?)
  }

  // ---------------------------------------------------------------- strings

  predicate IsUpper(c: char) {
    'A' <= c <= 'Z'
  }

  /** `toLowerCase` on one character; only ASCII letters are folded. */
  function LowerChar(c: char): (r: char)
    ensures !IsUpper(r)
    ensures !IsUpper(c) ==> r == c
  {
    if IsUpper(c) then (c as int + 32) as char else c
  }

  predicate IsLowerCase(s: string) {
    forall i :: 0 <= i < |s| ==> !IsUpper(s[i])
  }

  function Lower(s: string): (r: string)
    ensures |r| == |s|
    ensures IsLowerCase(r)
  {
    if s == [] then [] else [LowerChar(s[0])] + Lower(s[1..])
  }

  /** `toLowerCase` works character by character. */
  lemma {:induction false} LowerAt(s: string)
    ensures forall i :: 0 <= i < |s| ==> Lower(s)[i] == LowerChar(s[i])
  {
    if s != [] {
      LowerAt(s[1..]);
      assert forall i :: 1 <= i < |s| ==> Lower(s)[i] == Lower(s[1..])[i - 1];
    }
  }

  /** Lower-casing an already lower-case string changes nothing. */
  lemma LowerOfLowerCase(s: string)
    requires IsLowerCase(s)
    ensures Lower(s) == s
  {
    LowerAt(s);
    assert forall i :: 0 <= i < |s| ==> Lower(s)[i] == s[i];
  }

  lemma LowerIdempotent(s: string)
    ensures Lower(Lower(s)) == Lower(s)
  {
    LowerOfLowerCase(Lower(s));
  }

  // ------------------------------------------------------- property access

  function DigitValue(c: char): nat
    requires '0' <= c <= '9'
  {
    c as int - '0' as int
  }

  predicate AllDigits(s: string) {
    forall i :: 0 <= i < |s| ==> '0' <= s[i] <= '9'
  }

  function DecimalValue(s: string): nat
    requires AllDigits(s)
  {
    if s == [] then 0 else DecimalValue(s[..|s| - 1]) * 10 + DigitValue(s[|s| - 1])
  }

  /** The array index a property name denotes: a canonical decimal numeral. */
  function IndexName(name: string): Option<nat> {
    if name != [] && AllDigits(name) && (name[0] != '0' || |name| == 1)
    then Some(DecimalValue(name))
    else None
  }

  /** The name "0" denotes the first element. */
  lemma ZeroIndex()
    ensures IndexName("0") == Some(0)
  {
    assert DecimalValue("0") == DecimalValue("") * 10 + DigitValue('0');
  }

  /** `v[name]` on a value that is not `null`. */
  function Get(v: Json, name: string): Option<Json> {
    match v
    case Obj(f) => if name in f then Some(f[name]) else None
    case Arr(e) =>
      if name == "length" then Some(Num(|e|))
      else if IndexName(name).Some? && IndexName(name).value < |e| then Some(e[IndexName(name).value])
      else None
    case Str(s) =>
      if name == "length" then Some(Num(|s|))
      else if IndexName(name).Some? && IndexName(name).value < |s| then Some(Str([s[IndexName(name).value]]))
      else None
    case _ => None
  }

  /** `v[name]` on any value: reading a property of `null`/`undefined` throws. */
  function Read(v: Option<Json>, name: string): (r: Result<Option<Json>>)
    ensures r.Err? <==> Nullish(v)
  {
    if Nullish(v) then Err(TypeError) else Ok(Get(v.value, name))
  }

  /** `name in v`: defined on objects and arrays, a `TypeError` on anything else. */
  function HasOwn(v: Json, name: string): (r: Result<bool>)
    ensures r.Ok? <==> v.Obj? || v.Arr?
    ensures r == Ok(true) ==> Get(v, name).Some?
  {
    match v
    case Obj(f) => Ok(name in f)
    case Arr(e) =>
      Ok(name == "length" || (IndexName(name).Some? && IndexName(name).value < |e|))
    case _ => Err(TypeError)
  }

  /** `Object.keys(v).length`; `null` has no keys and throws. */
  function KeyCount(v: Json): Result<nat> {
    match v
    case Null => Err(TypeError)
    case Obj(f) => Ok(|f.Keys|)
    case Arr(e) => Ok(|e|)
    case Str(s) => Ok(|s|)
    case _ => Ok(0)
  }

  /** An object field holding an array, i.e. a table of a namespace document. */
  predicate IsArrayField(doc: Json, t: string) {
    doc.Obj? && t in doc.fields && doc.fields[t].Arr?
  }

  // -------------------------------------------------------------- String(v)

  function DigitChar(d: nat): char
    requires d < 10
  {
    ('0' as int + d) as char
  }

  function NatText(n: nat): string
    decreases n
  {
    if n < 10 then [DigitChar(n)] else NatText(n / 10) + [DigitChar(n % 10)]
  }

  /** The decimal text of a natural number is its canonical numeral: reading it back as an index gives the number. */
  lemma {:induction false} NatTextIsCanonical(n: nat)
    ensures NatText(n) != [] && AllDigits(NatText(n)) && DecimalValue(NatText(n)) == n
    ensures IndexName(NatText(n)) == Some(n)
    decreases n
  {
    if n >= 10 {
      var p := NatText(n / 10);
      var c := DigitChar(n % 10);
      NatTextIsCanonical(n / 10);
      assert NatText(n) == p + [c];
      assert (p + [c])[..|p|] == p;
      assert DecimalValue(p + [c]) == DecimalValue(p) * 10 + DigitValue(c);
      assert (p + [c])[0] == p[0];
    }
  }

  function IntText(i: int): string {
    if i < 0 then "-" + NatText(-i) else NatText(i)
  }

  function JoinWithCommas(parts: seq<string>): string {
    if parts == [] then ""
    else if |parts| == 1 then parts[0]
    else parts[0] + "," + JoinWithCommas(parts[1..])
  }

  /**
    `String(v)` for a `Json` value (an array joins its elements, `null`
    elements as ""). A string is its own text, and a number's text reads back
    as the number: the digits of its magnitude, after a `-` when negative.
   */
  function JsonText(v: Json): (r: string)
    ensures v.Str? ==> r == v.s
    ensures v.Num? && v.n >= 0 ==> IndexName(r) == Some(v.n)
    ensures v.Num? && v.n < 0 ==> |r| > 1 && r[0] == '-' && IndexName(r[1..]) == Some(-v.n)
    decreases v
  {
    match v
    case Null => "null"
    case Bool(b) => if b then "true" else "false"
    case Num(n) =>
      NatTextIsCanonical(if n < 0 then -n else n);
      assert n < 0 ==> IntText(n)[1..] == NatText(-n);
      IntText(n)
    case Str(s) => s
    case Arr(e) =>
      JoinWithCommas(seq(|e|, i requires 0 <= i < |e| => if e[i] == Null then "" else JsonText(e[i])))
    case Obj(_) => "[object Object]"
  }

  /**
    `String(v)`, where `None` stands for `undefined`: the text "undefined",
    which the string "undefined" shares, so the two compare equal as text.
   */
  function Text(v: Option<Json>): (r: string)
    ensures v.None? ==> r == "undefined" && r == JsonText(Str("undefined"))
    ensures v == Some(Null) ==> r == "null" && r == JsonText(Str("null"))
    ensures v.Some? && v.value.Str? ==> r == v.value.s
  {
    match v
    case None => "undefined"
    case Some(j) => JsonText(j)
  }
}
