/** Redis replies as the client library hands them to JavaScript, and the
    handful of JavaScript coercions the reply parsers rely on. */
module Resp {
  import opened Wrappers
  import Decimal
  import Text

  /** A reply: nil, a bulk string, an integer or an array of replies. */
  datatype Reply = Nil | Bulk(text: string) | Integer(n: int) | Array(items: seq<Reply>)

  /** A JavaScript value read out of a reply: `None` is `undefined`. */
  type Slot = Option<Reply>

  /** Errors JavaScript raises while walking a reply. */
  datatype JsError =
    | ReadOfNull        // `x[i]` or `x.length` where x is null
    | NotAFunction      // `x.map(...)` where x has no such method

  /** `v[i]`: an array element, a one-character string, or `undefined`;
      indexing `null` throws. */
  function Index(v: Reply, i: nat): (r: Result<Slot, JsError>)
    ensures r.Failure? <==> v.Nil?
    ensures v.Array? && i < |v.items| ==> r == Success(Some(v.items[i]))
    ensures v.Array? && i >= |v.items| ==> r == Success(None)
  {
    match v
    case Nil => Failure(ReadOfNull)
    case Bulk(s) => Success(if i < |s| then Some(Bulk([s[i]])) else None)
    case Integer(_) => Success(None)
    case Array(items) => Success(if i < |items| then Some(items[i]) else None)
  }

  /** `v[i]` on a value already known not to be null. */
  function At(v: Reply, i: nat): (r: Slot)
    requires !v.Nil?
    ensures Success(r) == Index(v, i)
  {
    Index(v, i).value
  }

  /** JavaScript truthiness: `undefined`, `null`, `""` and `0` are falsy. */
  predicate Truthy(v: Slot) {
    match v
    case None => false
    case Some(Nil) => false
    case Some(Bulk(s)) => s != ""
    case Some(Integer(n)) => n != 0
    case Some(Array(_)) => true
  }

  /** `v.length` for the replies that have one. */
  function Length(v: Reply): Option<nat> {
    match v
    case Bulk(s) => Some(|s|)
    case Array(items) => Some(|items|)
    case _ => None
  }

  /** `String(r)`; arrays join their elements with ',', null elements
      becoming empty. */
  function ToText(r: Reply): string
    decreases r
  {
    match r
    case Nil => "null"
    case Bulk(s) => s
    case Integer(n) => Decimal.ShowInt(n)
    case Array(items) =>
      if |items| == 0 then ""
      else Text.Join(seq(|items|, i requires 0 <= i < |items| => if items[i].Nil? then "" else ToText(items[i])), ',')
  }

  /** `String(v)` for a value that may be `undefined`; this is also the
      property name an object assignment `o[v] = ...` uses. */
  function SlotText(v: Slot): string {
    if v.None? then "undefined" else ToText(v.value)
  }

  predicate IsSpace(c: char) {
    c == ' ' || c == '\t' || c == '\n' || c == '\r'
  }

  function TrimStart(s: string): (t: string)
    ensures |t| == 0 || !IsSpace(t[0])
    decreases |s|
  {
    if |s| > 0 && IsSpace(s[0]) then TrimStart(s[1..]) else s
  }

  /** The longest prefix of `s` made of digits. */
  function DigitPrefix(s: string): (d: string)
    ensures Decimal.AllDigits(d) && |d| <= |s| && d == s[..|d|]
    ensures |d| < |s| ==> !Decimal.IsDigit(s[|d|])
    decreases |s|
  {
    if |s| > 0 && Decimal.IsDigit(s[0]) then [s[0]] + DigitPrefix(s[1..]) else ""
  }

  /** `parseInt(s)` with the default radix on decimal text: leading white
      space, an optional sign, then the longest digit run; `None` is NaN. */
  function ParseIntText(s: string): Option<int> {
    var t := TrimStart(s);
    var negative := |t| > 0 && t[0] == '-';
    var body := if |t| > 0 && (t[0] == '-' || t[0] == '+') then t[1..] else t;
    var d := DigitPrefix(body);
    var magnitude: int := Decimal.Value(d);
    if d == "" then None else Some(if negative then -magnitude else magnitude)
  }

  /** `parseInt(v)`: the value is first turned into text. */
  function ParseInt(v: Slot): Option<int> {
    ParseIntText(SlotText(v))
  }

  lemma DigitPrefixOfDigits(s: string)
    requires Decimal.AllDigits(s)
    ensures DigitPrefix(s) == s
  {
  }

  /** `parseInt` reads an integer reply back as the same integer. */
  lemma ParseIntOfInteger(n: int)
    ensures ParseInt(Some(Integer(n))) == Some(n)
  {
    var text := Decimal.ShowInt(n);
    assert TrimStart(text) == text;
    var m: nat := if n < 0 then -n else n;
    Decimal.ValueOfShow(m);
    if n < 0 {
      assert text[1..] == Decimal.Show(m);
    }
    DigitPrefixOfDigits(Decimal.Show(m));
  }
}
