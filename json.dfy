/**
 * JavaScript values as ember-rest sees them: the JSON that comes back from
 * the server, the values stored in a record's properties (which may be
 * `undefined`), together with the three pieces of JavaScript semantics the
 * library relies on implicitly:
 *  - truthiness (`if (json)`, `if (error)`),
 *  - string conversion (`url += '/' + id`),
 *  - the own enumerable keys that `for (prop in json)` filtered by
 *    `hasOwnProperty` visits.
 * Numbers are modelled as integers.
 */
module Json {

  datatype Value =
    | Undefined
    | Null
    | Bool(b: bool)
    | Num(n: int)
    | Str(s: string)
    | Arr(items: seq<Value>)
    | Obj(props: map<string, Value>)

  /** JavaScript truthiness: `undefined`, `null`, `false`, `0` and `""` are falsy. */
  predicate Truthy(v: Value)
    ensures Truthy(v) <==> v !in {Undefined, Null, Bool(false), Num(0), Str("")}
  {
    match v
    case Undefined => false
    case Null => false
    case Bool(b) => b
    case Num(n) => n != 0
    case Str(s) => s != ""
    case Arr(_) => true
    case Obj(_) => true
  }

  predicate IsDigit(c: char) {
    '0' <= c <= '9'
  }

  function Digit(d: nat): (c: char)
    requires d < 10
    ensures IsDigit(c) && (c as int) - ('0' as int) == d
  {
    (('0' as int) + d) as char
  }

  function DigitValue(c: char): nat {
    if IsDigit(c) then (c as int) - ('0' as int) else 0
  }

  /** The decimal digits of a natural number, without leading zeros. */
  function NatToDecimal(n: nat): (s: string)
    ensures |s| >= 1
    ensures forall i :: 0 <= i < |s| ==> IsDigit(s[i])
    ensures s[0] == '0' ==> n == 0
  {
    if n < 10 then [Digit(n)] else NatToDecimal(n / 10) + [Digit(n % 10)]
  }

  /** Reads a string of decimal digits back as a natural number. */
  function ParseDecimal(s: string): nat {
    if s == [] then 0 else ParseDecimal(s[..|s| - 1]) * 10 + DigitValue(s[|s| - 1])
  }

  /** Printing a natural number and reading it back gives the number. */
  lemma {:induction false} ParseNatToDecimal(n: nat)
    ensures ParseDecimal(NatToDecimal(n)) == n
  {
    var s := NatToDecimal(n);
    if n >= 10 {
      ParseNatToDecimal(n / 10);
      assert s[..|s| - 1] == NatToDecimal(n / 10);
    }
  }

  /** Distinct numbers have distinct decimal spellings. */
  lemma NatToDecimalInjective(m: nat, n: nat)
    ensures NatToDecimal(m) == NatToDecimal(n) ==> m == n
  {
    ParseNatToDecimal(m);
    ParseNatToDecimal(n);
  }

  /** `String(n)` for an integer `n`. */
  function IntToDecimal(i: int): (s: string)
    ensures |s| >= 1
    ensures s[0] == '-' <==> i < 0
  {
    if i < 0 then "-" + NatToDecimal(-i) else NatToDecimal(i)
  }

  /** Distinct integers have distinct string forms. */
  lemma IntToDecimalInjective(i: int, j: int)
    ensures IntToDecimal(i) == IntToDecimal(j) ==> i == j
  {
    if IntToDecimal(i) == IntToDecimal(j) {
      if i < 0 && j < 0 {
        assert NatToDecimal(-i) == IntToDecimal(i)[1..];
        NatToDecimalInjective(-i, -j);
      } else if i >= 0 && j >= 0 {
        NatToDecimalInjective(i, j);
      }
    }
  }

  /**
   * `String(v)`: how JavaScript turns a value into text when it is
   * concatenated with a string.  An array is joined with commas, its
   * `null` and `undefined` elements becoming empty.
   */
  function ToJsString(v: Value): (s: string)
    ensures v.Undefined? ==> s == "undefined"
    ensures v.Null? ==> s == "null"
    ensures v.Bool? ==> s == if v.b then "true" else "false"
    ensures v.Num? ==> s == IntToDecimal(v.n)
    ensures v.Str? ==> s == v.s
    ensures v.Arr? && v.items == [] ==> s == ""
    ensures v.Obj? ==> s == "[object Object]"
    decreases v, 1
  {
    match v
    case Undefined => "undefined"
    case Null => "null"
    case Bool(b) => if b then "true" else "false"
    case Num(n) => IntToDecimal(n)
    case Str(s) => s
    case Arr(items) => JoinElements(v, items)
    case Obj(_) => "[object Object]"
  }

  /** The elements `items` of the array `whole`, joined with commas. */
  function JoinElements(ghost whole: Value, items: seq<Value>): string
    requires whole.Arr? && items <= whole.items
    decreases whole, 0, |items|
  {
    if items == [] then ""
    else
      var last := items[|items| - 1];
      var text := if last.Undefined? || last.Null? then "" else ToJsString(last);
      if |items| == 1 then text else JoinElements(whole, items[..|items| - 1]) + "," + text
  }

  /**
   * The entries of the own index properties "0", "1", ... of an array-like
   * value whose elements are `xs`.
   */
  function IndexEntries(xs: seq<Value>): map<string, Value> {
    if xs == [] then map[]
    else IndexEntries(xs[..|xs| - 1])[NatToDecimal(|xs| - 1) := xs[|xs| - 1]]
  }

  /** Index `i` of an array-like value is an own key holding element `i`. */
  lemma {:induction false} IndexEntriesAt(xs: seq<Value>, i: nat)
    requires i < |xs|
    ensures NatToDecimal(i) in IndexEntries(xs) && IndexEntries(xs)[NatToDecimal(i)] == xs[i]
  {
    var n := |xs| - 1;
    if i < n {
      NatToDecimalInjective(i, n);
      IndexEntriesAt(xs[..n], i);
    }
  }

  /** Every own key of an array-like value is the decimal spelling of an index. */
  lemma {:induction false} IndexEntriesKey(xs: seq<Value>, k: string)
    requires k in IndexEntries(xs)
    ensures exists i :: 0 <= i < |xs| && k == NatToDecimal(i)
  {
    var n := |xs| - 1;
    if k != NatToDecimal(n) {
      IndexEntriesKey(xs[..n], k);
    }
  }

  /** IndexEntriesAt and IndexEntriesKey for every index and key at once. */
  lemma IndexEntriesAll(xs: seq<Value>)
    ensures forall i :: 0 <= i < |xs| ==> NatToDecimal(i) in IndexEntries(xs) && IndexEntries(xs)[NatToDecimal(i)] == xs[i]
    ensures forall k :: k in IndexEntries(xs) ==> exists i :: 0 <= i < |xs| && k == NatToDecimal(i)
  {
    forall i | 0 <= i < |xs|
      ensures NatToDecimal(i) in IndexEntries(xs) && IndexEntries(xs)[NatToDecimal(i)] == xs[i]
    {
      IndexEntriesAt(xs, i);
    }
    forall k | k in IndexEntries(xs)
      ensures exists i :: 0 <= i < |xs| && k == NatToDecimal(i)
    {
      IndexEntriesKey(xs, k);
    }
  }

  /**
   * The pairs that `for (prop in v) if (v.hasOwnProperty(prop)) ...` visits:
   * an object's own keys, an array's or a string's indices, and nothing
   * for the other primitives, `null` and `undefined`.
   */
  function OwnEntries(v: Value): (r: map<string, Value>)
    ensures v.Obj? ==> r == v.props
    ensures v.Arr? ==> forall i :: 0 <= i < |v.items| ==> NatToDecimal(i) in r && r[NatToDecimal(i)] == v.items[i]
    ensures v.Arr? ==> forall k :: k in r ==> exists i :: 0 <= i < |v.items| && k == NatToDecimal(i)
    ensures v.Str? ==> forall i :: 0 <= i < |v.s| ==> NatToDecimal(i) in r && r[NatToDecimal(i)] == Str([v.s[i]])
    ensures v.Str? ==> forall k :: k in r ==> exists i :: 0 <= i < |v.s| && k == NatToDecimal(i)
    ensures v.Undefined? || v.Null? || v.Bool? || v.Num? ==> r == map[]
  {
    match v
    case Obj(props) => props
    case Arr(items) => IndexEntriesAll(items); IndexEntries(items)
    case Str(s) =>
      var chars := seq(|s|, i requires 0 <= i < |s| => Str([s[i]]));
      IndexEntriesAll(chars);
      IndexEntries(chars)
    case _ => map[]
  }

  /** How an element of an array is spelled inside the array's string form. */
  function ElementText(x: Value): (s: string)
    ensures x.Undefined? || x.Null? ==> s == ""
    ensures !(x.Undefined? || x.Null?) ==> s == ToJsString(x)
  {
    if x.Undefined? || x.Null? then "" else ToJsString(x)
  }

  /** The joined text depends only on the items, not on the array they belong to. */
  lemma {:induction false} JoinElementsOfItems(w1: Value, w2: Value, items: seq<Value>)
    requires w1.Arr? && items <= w1.items
    requires w2.Arr? && items <= w2.items
    ensures JoinElements(w1, items) == JoinElements(w2, items)
  {
    if |items| > 1 {
      var init := items[..|items| - 1];
      assert init <= items;
      JoinElementsOfItems(w1, w2, init);
    }
  }

  /**
   * `String(array)` is `array.join(",")`: a one-element array prints as its
   * element, and appending an element appends a comma and its text, with
   * `null` and `undefined` elements empty.
   */
  lemma ArrayToStringJoin(xs: seq<Value>, x: Value)
    ensures ToJsString(Arr([x])) == ElementText(x)
    ensures xs != [] ==> ToJsString(Arr(xs + [x])) == ToJsString(Arr(xs)) + "," + ElementText(x)
  {
    if xs != [] {
      var whole := Arr(xs + [x]);
      assert (xs + [x])[..|xs + [x]| - 1] == xs;
      JoinElementsOfItems(whole, Arr(xs), xs);
    }
  }

  /** A nested array with empty elements, printed through the join. */
  lemma ArrayToStringExample()
    ensures ToJsString(Arr([Undefined, Num(1), Arr([Num(2), Null])])) == ",1,2,"
  {
  }
}
