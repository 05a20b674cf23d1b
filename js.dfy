/**
 * The small part of JavaScript's runtime semantics that the application's
 * code relies on: JSON-like values, truthiness, property lookup on a parsed
 * request body, `String.prototype.trim`, `String(v)` and `Array.prototype.filter`.
 */
module Js {

  datatype Option<+T> = None | Some(value: T)

  /**
   * A JSON-like JavaScript value. Numbers are integers here: fractions,
   * NaN, infinities and negative zero are not modelled.
   */
  datatype Value =
    | Undefined
    | Null
    | Bool(b: bool)
    | Num(n: int)
    | Str(s: string)
    | Arr(items: seq<Value>)
    | Obj(fields: map<string, Value>)

  /** JavaScript's `!!v`. */
  predicate Truthy(v: Value) {
    match v
    case Undefined => false
    case Null => false
    case Bool(b) => b
    case Num(n) => n != 0
    case Str(s) => s != ""
    case Arr(_) => true
    case Obj(_) => true
  }

  /** A parsed request body: a JSON object. */
  type Payload = map<string, Value>

  /** `payload[key]`: a missing property reads as `undefined`. */
  function Get(p: Payload, key: string): (v: Value)
    ensures key !in p ==> v == Undefined
    ensures key in p ==> v == p[key]
  {
    if key in p then p[key] else Undefined
  }

  // ---------------------------------------------------------------------------
  // String.prototype.trim

  /** The characters `trim` removes: WhiteSpace and LineTerminator of ECMAScript. */
  predicate IsSpace(c: char) {
    c in {'\t', '\n', '\U{000B}', '\U{000C}', '\r', ' ', '\U{00A0}', '\U{1680}',
          '\U{2000}', '\U{2001}', '\U{2002}', '\U{2003}', '\U{2004}', '\U{2005}',
          '\U{2006}', '\U{2007}', '\U{2008}', '\U{2009}', '\U{200A}', '\U{2028}',
          '\U{2029}', '\U{202F}', '\U{205F}', '\U{3000}', '\U{FEFF}'}
  }

  predicate AllSpace(s: string) {
    forall k :: 0 <= k < |s| ==> IsSpace(s[k])
  }

  /**
   * `s.length`: the number of UTF-16 code units, where a character above
   * U+FFFF takes two.
   */
  function Utf16Length(s: string): (n: nat)
    ensures |s| <= n <= 2 * |s|
  {
    if s == [] then 0 else (if s[0] as int >= 0x1_0000 then 2 else 1) + Utf16Length(s[1..])
  }

  /** Removes the leading run of white space: what is left is a suffix of `s`. */
  function TrimStart(s: string): (r: string)
    ensures |r| <= |s| && r == s[|s| - |r|..]
  {
    if s != [] && IsSpace(s[0]) then TrimStart(s[1..]) else s
  }

  /** Removes the trailing run of white space: what is left is a prefix of `s`. */
  function TrimEnd(s: string): (r: string)
    ensures |r| <= |s| && r == s[..|r|]
  {
    if s != [] && IsSpace(s[|s| - 1]) then TrimEnd(s[..|s| - 1]) else s
  }

  /** `TrimStart` removes white space only, and all of the leading run of it. */
  lemma {:induction false} TrimStartRemovesLeadingSpace(s: string)
    ensures AllSpace(s[..|s| - |TrimStart(s)|])
    ensures TrimStart(s) != [] ==> !IsSpace(TrimStart(s)[0])
    ensures TrimStart(s) == [] <==> AllSpace(s)
  {
    if s != [] && IsSpace(s[0]) {
      var t := s[1..];
      TrimStartRemovesLeadingSpace(t);
      var n := |s| - |TrimStart(s)|;
      assert s[..n] == [s[0]] + t[..n - 1];
      if AllSpace(t) {
        assert forall k :: 1 <= k < |s| ==> s[k] == t[k - 1];
      }
    } else if s != [] {
      assert !IsSpace(s[0]);
    }
  }

  /** `TrimEnd` removes white space only, and all of the trailing run of it. */
  lemma {:induction false} TrimEndRemovesTrailingSpace(s: string)
    ensures AllSpace(s[|TrimEnd(s)|..])
    ensures TrimEnd(s) != [] ==> !IsSpace(TrimEnd(s)[|TrimEnd(s)| - 1])
    ensures TrimEnd(s) == [] <==> AllSpace(s)
  {
    if s != [] && IsSpace(s[|s| - 1]) {
      var t := s[..|s| - 1];
      TrimEndRemovesTrailingSpace(t);
      var n := |TrimEnd(s)|;
      assert s[n..] == t[n..] + [s[|s| - 1]];
      if AllSpace(t) {
        assert forall k :: 0 <= k < |t| ==> s[k] == t[k];
      }
    } else if s != [] {
      assert !IsSpace(s[|s| - 1]);
    }
  }

  /** A prefix `r` of a suffix `t` of `s` is a slice of `s`, and what follows `r` in `t` is the rest of `s`. */
  lemma PrefixOfSuffix(s: string, t: string, r: string)
    requires |t| <= |s| && t == s[|s| - |t|..]
    requires |r| <= |t| && r == t[..|r|]
    ensures var i := |s| - |t|;
      r == s[i..i + |r|] && t[|r|..] == s[i + |r|..]
  {
  }

  /** `r` is the slice of `s` starting at `i`, with nothing but white space before and after it. */
  predicate SpaceAround(r: string, s: string, i: int) {
    && 0 <= i && i + |r| <= |s|
    && r == s[i..i + |r|]
    && AllSpace(s[..i]) && AllSpace(s[i + |r|..])
  }

  /**
   * A suffix `t` of `s` after a run of white space, and a prefix `r` of `t`
   * before a run of white space: `r` is the slice of `s` between the two runs.
   */
  lemma InnerPart(s: string, t: string, r: string)
    requires |t| <= |s| && t == s[|s| - |t|..] && AllSpace(s[..|s| - |t|])
    requires |r| <= |t| && r == t[..|r|] && AllSpace(t[|r|..])
    requires t != [] ==> !IsSpace(t[0])
    requires r != [] ==> !IsSpace(r[|r| - 1])
    ensures SpaceAround(r, s, |s| - |t|)
    ensures r != [] ==> !IsSpace(r[0]) && !IsSpace(r[|r| - 1])
  {
    PrefixOfSuffix(s, t, r);
    assert t[|r|..] == s[|s| - |t| + |r|..];
    if r != [] {
      assert r[0] == t[0];
    }
  }

  /**
   * `s.trim()`: the part of `s` between a leading and a trailing run of
   * white space, both of which it removes. The result neither starts nor
   * ends with white space.
   */
  function Trim(s: string): (r: string)
    ensures SpaceAround(r, s, |s| - |TrimStart(s)|)
    ensures r != [] ==> !IsSpace(r[0]) && !IsSpace(r[|r| - 1])
  {
    var t := TrimStart(s);
    var r := TrimEnd(t);
    TrimStartRemovesLeadingSpace(s);
    TrimEndRemovesTrailingSpace(t);
    InnerPart(s, t, r);
    r
  }

  /** A string of white space only trims to the empty string, and only such a string does. */
  lemma TrimEmptyIffAllSpace(s: string)
    ensures Trim(s) == "" <==> AllSpace(s)
  {
    var t := TrimStart(s);
    TrimStartRemovesLeadingSpace(s);
    TrimEndRemovesTrailingSpace(t);
    if t != [] {
      assert !AllSpace(t) by { assert !IsSpace(t[0]); }
    }
  }

  /** Trimming twice trims nothing more. */
  lemma TrimIdempotent(s: string)
    ensures Trim(Trim(s)) == Trim(s)
  {
    var r := Trim(s);
    if r != [] {
      assert TrimStart(r) == r;
      assert TrimEnd(r) == r;
    }
  }

  // ---------------------------------------------------------------------------
  // String(v)

  function DigitChar(d: nat): (c: char)
    requires d < 10
    ensures '0' <= c <= '9' && DigitValue(c) == d
  {
    ('0' as int + d) as char
  }

  function DigitValue(c: char): int {
    c as int - '0' as int
  }

  /** The decimal digits of a natural number, without leading zeros. */
  function NatToString(n: nat): (r: string)
    ensures r != [] && forall k :: 0 <= k < |r| ==> '0' <= r[k] <= '9'
    ensures |r| > 1 ==> r[0] != '0'
  {
    if n < 10 then [DigitChar(n)] else NatToString(n / 10) + [DigitChar(n % 10)]
  }

  /** Decimal digits without a superfluous leading zero, as `String(n)` writes a natural number. */
  predicate CanonicalDigits(s: string) {
    && s != []
    && (forall k :: 0 <= k < |s| ==> '0' <= s[k] <= '9')
    && (|s| > 1 ==> s[0] != '0')
  }

  /** The number a string of decimal digits denotes, as `Number(s)` reads it. */
  function DecimalValue(s: string): int {
    if s == [] then 0 else DecimalValue(s[..|s| - 1]) * 10 + DigitValue(s[|s| - 1])
  }

  /** Reading the digits of `n` back gives `n`. */
  lemma {:induction false} NatToStringValue(n: nat)
    ensures DecimalValue(NatToString(n)) == n
  {
    if n >= 10 {
      NatToStringValue(n / 10);
      var r := NatToString(n);
      assert r[..|r| - 1] == NatToString(n / 10);
    }
  }

  /** `String(n)` for an integer-valued number. */
  function IntToString(n: int): string {
    if n < 0 then "-" + NatToString(-n) else NatToString(n)
  }

  /** The height of a value, a termination measure for `String(v)` on nested arrays. */
  function Depth(v: Value): nat {
    match v
    case Arr(items) => 1 + MaxDepth(items)
    case _ => 0
  }

  function MaxDepth(items: seq<Value>): (d: nat)
    ensures forall k :: 0 <= k < |items| ==> Depth(items[k]) <= d
  {
    if items == [] then 0
    else
      var rest := MaxDepth(items[1..]);
      assert forall k :: 1 <= k < |items| ==> items[k] == items[1..][k - 1];
      if Depth(items[0]) < rest then rest else Depth(items[0])
  }

  /**
   * `String(v)`: arrays join their elements with "," and show null and
   * undefined as "". A string is kept as it is, and a number is written in
   * canonical decimal digits, after a minus sign when negative, which read
   * back as it. An object without its own "toString" shows as
   * "[object Object]"; where `ConversionThrows(v)` the result stands for
   * nothing, because JavaScript throws there.
   */
  function ToJsString(v: Value): (r: string)
    ensures v.Str? ==> r == v.s
    ensures v.Num? && v.n >= 0 ==> CanonicalDigits(r) && DecimalValue(r) == v.n
    ensures v.Num? && v.n < 0 ==> |r| > 1 && r[0] == '-' && CanonicalDigits(r[1..]) && DecimalValue(r[1..]) == -v.n
    ensures v.Arr? && v.items == [] ==> r == ""
    ensures v.Obj? && "toString" !in v.fields ==> r == "[object Object]"
    decreases Depth(v), 1
  {
    match v
    case Undefined => "undefined"
    case Null => "null"
    case Bool(b) => if b then "true" else "false"
    case Num(n) =>
      NatToStringValue(if n < 0 then -n else n);
      var r := IntToString(n);
      assert n < 0 ==> r[1..] == NatToString(-n);
      r
    case Str(s) => s
    case Arr(items) => JoinItems(v, 0)
    case Obj(_) => "[object Object]"
  }

  function JoinItems(parent: Value, i: nat): string
    requires parent.Arr? && i <= |parent.items|
    decreases Depth(parent), 0, |parent.items| - i
  {
    if i == |parent.items| then ""
    else
      var item := parent.items[i];
      var text := if item == Null || item == Undefined then "" else ToJsString(item);
      if i == |parent.items| - 1 then text else text + "," + JoinItems(parent, i + 1)
  }

  /**
   * `String(v)` and `Number(v)` throw a TypeError. A parsed object with its
   * own "toString" property has a `toString` that cannot be called, and no
   * `valueOf` of a parsed object returns a primitive, so converting it
   * throws. An array throws when converting one of its elements does, since
   * both conversions go through `join`.
   */
  predicate ConversionThrows(v: Value)
    decreases Depth(v), 1
  {
    match v
    case Obj(fields) => "toString" in fields
    case Arr(_) => ItemsThrow(v, 0)
    case _ => false
  }

  /** Converting one of the items from index `i` on throws. */
  predicate ItemsThrow(parent: Value, i: nat)
    requires parent.Arr? && i <= |parent.items|
    decreases Depth(parent), 0, |parent.items| - i
  {
    i < |parent.items| && (ConversionThrows(parent.items[i]) || ItemsThrow(parent, i + 1))
  }

  /** Converting an array throws exactly when converting one of its items does. */
  lemma {:induction false} ItemsThrowIffSome(parent: Value, i: nat)
    requires parent.Arr? && i <= |parent.items|
    ensures ItemsThrow(parent, i) <==> exists k :: i <= k < |parent.items| && ConversionThrows(parent.items[k])
    decreases |parent.items| - i
  {
    if i < |parent.items| {
      ItemsThrowIffSome(parent, i + 1);
    }
  }

  // ---------------------------------------------------------------------------
  // Array.prototype.join and String.prototype.split

  /** `items.join(sep)` for an array of strings. */
  function Join(items: seq<string>, sep: string): string {
    if items == [] then ""
    else if |items| == 1 then items[0]
    else items[0] + sep + Join(items[1..], sep)
  }

  /** `s.split(sep)` for a one-character separator: the pieces between separators, at least one. */
  function Split(s: string, sep: char): (r: seq<string>)
    ensures |r| >= 1
    ensures forall k :: 0 <= k < |r| ==> sep !in r[k]
  {
    if s == [] then [""]
    else
      var rest := Split(s[1..], sep);
      if s[0] == sep then [""] + rest
      else [[s[0]] + rest[0]] + rest[1..]
  }

  /** Joining the pieces with the separator gives back the string. */
  lemma {:induction false} JoinSplit(s: string, sep: char)
    ensures Join(Split(s, sep), [sep]) == s
  {
    if s != [] {
      var rest := Split(s[1..], sep);
      JoinSplit(s[1..], sep);
      if s[0] == sep {
        assert s == [sep] + s[1..];
      } else {
        var r := Split(s, sep);
        if |rest| == 1 {
          assert r == [[s[0]] + rest[0]];
        } else {
          assert r[1..] == rest[1..];
          assert Join(rest, [sep]) == rest[0] + [sep] + Join(rest[1..], [sep]);
        }
        assert s == [s[0]] + s[1..];
      }
    }
  }

  // ---------------------------------------------------------------------------
  // Array.prototype.filter

  /** `s.filter(p)`: the elements satisfying `p`, in their original order. */
  function Filter<T>(s: seq<T>, p: T -> bool): (r: seq<T>)
    ensures |r| <= |s|
    ensures forall k :: 0 <= k < |r| ==> r[k] in s && p(r[k])
    ensures forall k :: 0 <= k < |s| && p(s[k]) ==> s[k] in r
  {
    if s == [] then []
    else if p(s[0]) then [s[0]] + Filter(s[1..], p)
    else Filter(s[1..], p)
  }

  /** Filtering distributes over concatenation: it keeps the original order. */
  lemma {:induction false} FilterAppend<T>(s: seq<T>, t: seq<T>, p: T -> bool)
    ensures Filter(s + t, p) == Filter(s, p) + Filter(t, p)
  {
    if s == [] {
      assert s + t == t;
    } else {
      assert (s + t)[1..] == s[1..] + t;
      FilterAppend(s[1..], t, p);
    }
  }

  /** Nothing passes the filter exactly when no element satisfies the predicate. */
  lemma {:induction false} FilterEmpty<T>(s: seq<T>, p: T -> bool)
    ensures Filter(s, p) == [] <==> forall k :: 0 <= k < |s| ==> !p(s[k])
  {
    if s != [] {
      FilterEmpty(s[1..], p);
      assert forall k :: 1 <= k < |s| ==> s[k] == s[1..][k - 1];
    }
  }
}
