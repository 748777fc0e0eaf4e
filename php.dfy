/** The fragment of PHP's value semantics that the web-service core relies on:
    scalar values, their string and boolean casts, the key an array uses for a
    value, loose comparison with the empty string, and ordered associative
    arrays (insertion order is kept, assigning an existing key keeps its place). */
module Php {
  import opened Wrappers

  /** A PHP scalar. Floats, nested arrays and objects are not modelled. */
  datatype Scalar = Null | Bool(b: bool) | Int(i: int) | Str(s: string)

  function DigitChar(d: nat): (c: char)
    requires d < 10
    ensures '0' <= c <= '9'
  {
    "0123456789"[d]
  }

  /** Decimal digits of a natural number, most significant first. */
  function NatToText(n: nat): (r: string)
    ensures |r| > 0
    ensures forall c :: c in r ==> '0' <= c <= '9'
  {
    if n < 10 then [DigitChar(n)] else NatToText(n / 10) + [DigitChar(n % 10)]
  }

  /** Decimal rendering of an integer, as `(string)` writes it. */
  function IntToText(i: int): (r: string)
    ensures |r| > 0
  {
    if i < 0 then "-" + NatToText(-i) else NatToText(i)
  }

  /** `(string) $v`: null and false become "", true becomes "1". */
  function ToText(v: Scalar): string
  {
    match v
    case Null => ""
    case Bool(b) => if b then "1" else ""
    case Int(i) => IntToText(i)
    case Str(s) => s
  }

  /** The key under which `$a[$v]` stores or finds an entry: null is the
      key "", booleans are the integer keys 0 and 1, and an integer key and
      its decimal string are the same key. */
  function ArrayKey(v: Scalar): string
  {
    match v
    case Null => ""
    case Bool(b) => if b then "1" else "0"
    case Int(i) => IntToText(i)
    case Str(s) => s
  }

  /** `$v == ''` under PHP 8 loose comparison: true exactly for null, false
      and the empty string (an integer is compared as its decimal text). */
  predicate LooseEqualsEmpty(v: Scalar)
  {
    match v
    case Null => true
    case Bool(b) => !b
    case Int(_) => false
    case Str(s) => s == ""
  }

  /** `(bool) $v`. */
  predicate Truthy(v: Scalar)
  {
    match v
    case Null => false
    case Bool(b) => b
    case Int(i) => i != 0
    case Str(s) => s != "" && s != "0"
  }

  /** The values PHP's manual lists as converting to false, as one
      enumeration, independent of the per-type cast above. */
  predicate Falsy(v: Scalar)
  {
    v == Null || v == Bool(false) || v == Int(0) || v == Str("") || v == Str("0")
  }

  /** A character kept by `preg_replace('/[^A-Z0-9_\.-]/i', '', ...)`. */
  predicate NameChar(c: char)
  {
    'A' <= c <= 'Z' || 'a' <= c <= 'z' || '0' <= c <= '9' || c == '_' || c == '.' || c == '-'
  }

  predicate IsName(s: string)
  {
    forall c :: c in s ==> NameChar(c)
  }

  /** Removes every character outside `[A-Za-z0-9_.-]`, keeping the order of
      the rest. */
  function Sanitize(s: string): (r: string)
    ensures IsName(r)
    ensures forall c :: c in s && NameChar(c) ==> c in r
    ensures forall c :: c in r ==> c in s
    ensures |r| <= |s|
    ensures IsName(s) ==> r == s
    ensures |s| == 1 ==> r == if NameChar(s[0]) then s else []
  {
    if s == [] then []
    else (if NameChar(s[0]) then [s[0]] else []) + Sanitize(s[1..])
  }

  /** Sanitising works character by character: the result for a
      concatenation is the concatenation of the results, so every allowed
      character is kept in its place and in its number. */
  lemma {:induction false} SanitizeConcat(a: string, b: string)
    ensures Sanitize(a + b) == Sanitize(a) + Sanitize(b)
  {
    if a != [] {
      assert (a + b)[0] == a[0] && (a + b)[1..] == a[1..] + b;
      SanitizeConcat(a[1..], b);
    } else {
      assert a + b == b;
    }
  }

  /** `ucfirst`: upper-cases a leading ASCII letter. Only ASCII input is
      modelled; the driver names it is applied to are ASCII. */
  function UcFirst(s: string): (r: string)
    ensures |r| == |s|
    ensures s != [] ==> r[1..] == s[1..]
    ensures s != [] && 'a' <= s[0] <= 'z' ==> r[0] as int - 'A' as int == s[0] as int - 'a' as int
    ensures s != [] && !('a' <= s[0] <= 'z') ==> r == s
  {
    if s != [] && 'a' <= s[0] <= 'z' then [(s[0] as int - 32) as char] + s[1..] else s
  }

  /** An ordered PHP array with string keys. */
  type PhpArray = seq<(string, Scalar)>

  /** The keys of an array, in order. */
  function Keys(a: PhpArray): (ks: seq<string>)
    ensures |ks| == |a|
  {
    if a == [] then [] else [a[0].0] + Keys(a[1..])
  }

  /** `$a[$k]` when the key exists; None when it does not. */
  function Get(a: PhpArray, k: string): (r: Option<Scalar>)
    ensures r.Some? <==> k in Keys(a)
  {
    if a == [] then None
    else if a[0].0 == k then Some(a[0].1)
    else Get(a[1..], k)
  }

  /** `isset($a[$k])`: the key exists and its value is not null. */
  predicate IsSet(a: PhpArray, k: string)
  {
    Get(a, k).Some? && Get(a, k).value != Null
  }

  /** `$a[$k] = $v`: an existing key keeps its position and takes the new
      value; a new key is appended at the end. */
  function Put(a: PhpArray, k: string, v: Scalar): (r: PhpArray)
    ensures Get(r, k) == Some(v)
    ensures forall k' :: k' != k ==> Get(r, k') == Get(a, k')
    ensures Keys(r) == if k in Keys(a) then Keys(a) else Keys(a) + [k]
  {
    if a == [] then [(k, v)]
    else if a[0].0 == k then [(k, v)] + a[1..]
    else [a[0]] + Put(a[1..], k, v)
  }

  /** Assigning a key the value it already has leaves the array as it was. */
  lemma {:induction false} PutSame(a: PhpArray, k: string, v: Scalar)
    requires Get(a, k) == Some(v)
    ensures Put(a, k, v) == a
  {
    if a[0].0 != k {
      PutSame(a[1..], k, v);
    }
  }
}
