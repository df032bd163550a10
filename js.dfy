/** The pieces of JavaScript's runtime semantics the server relies on: the values a parsed
    request body can hold, truthiness, String.prototype.trim and String(n) for whole numbers. */
module Js {

  /** A field of `req.body` after express.json or express.urlencoded parsed it. */
  datatype Value =
    | Undefined          // the key is absent
    | Null
    | Bool(b: bool)
    | Num(x: real)       // a finite JSON number
    | Str(s: string)
    | Compound           // an array or an object

  /** JavaScript truthiness (ToBoolean): `!v` is true exactly when this is false. The falsy
      values a parsed body can hold are undefined, null, false, 0 and "". */
  predicate Truthy(v: Value): (t: bool)
    ensures !t <==> v in {Undefined, Null, Bool(false), Num(0.0), Str("")}
  {
    match v
    case Undefined => false
    case Null => false
    case Bool(b) => b
    case Num(x) => x != 0.0
    case Str(s) => s != ""
    case Compound => true
  }

  /** The characters String.prototype.trim removes: ECMAScript WhiteSpace (TAB, VT, FF,
      ZWNBSP and every space separator) and LineTerminator (LF, CR, LS, PS). */
  predicate IsSpace(c: char)
  {
    || c == '\t' || c == '\n' || c == '\U{B}' || c == '\U{C}' || c == '\r'
    || c == ' ' || c == '\U{A0}' || c == '\U{1680}'
    || ('\U{2000}' <= c <= '\U{200A}')
    || c == '\U{2028}' || c == '\U{2029}' || c == '\U{202F}' || c == '\U{205F}'
    || c == '\U{3000}' || c == '\U{FEFF}'
  }

  predicate AllSpace(s: string)
  {
    forall k | 0 <= k < |s| :: IsSpace(s[k])
  }

  /** The number of white-space characters at the start of s. */
  function LeadingSpaceCount(s: string): (n: nat)
    ensures n <= |s|
    ensures forall k | 0 <= k < n :: IsSpace(s[k])
    ensures n < |s| ==> !IsSpace(s[n])
  {
    if s == [] || !IsSpace(s[0]) then 0 else 1 + LeadingSpaceCount(s[1..])
  }

  /** The number of white-space characters at the end of s. */
  function TrailingSpaceCount(s: string): (n: nat)
    ensures n <= |s|
    ensures forall k | |s| - n <= k < |s| :: IsSpace(s[k])
    ensures n < |s| ==> !IsSpace(s[|s| - n - 1])
  {
    if s == [] || !IsSpace(s[|s| - 1]) then 0 else 1 + TrailingSpaceCount(s[..|s| - 1])
  }

  /** String.prototype.trim: the slice of s that starts after its leading white space and ends
      before the trailing white space of what remains. The result neither starts nor ends with
      white space. */
  function Trim(s: string): (r: string)
    ensures |r| <= |s|
    ensures r == [] || (!IsSpace(r[0]) && !IsSpace(r[|r| - 1]))
  {
    var t := s[LeadingSpaceCount(s)..];
    var n := TrailingSpaceCount(t);
    assert |t| > n ==> t[0] == t[..|t| - n][0];
    t[..|t| - n]
  }

  /** What trim keeps is a slice of its input, and all it drops, before and after, is white
      space. */
  lemma {:induction false} TrimIsSlice(s: string)
    ensures var i := LeadingSpaceCount(s);
      && i + |Trim(s)| <= |s|
      && Trim(s) == s[i..i + |Trim(s)|]
      && (forall k | 0 <= k < i :: IsSpace(s[k]))
      && (forall k | i + |Trim(s)| <= k < |s| :: IsSpace(s[k]))
  {
    var i := LeadingSpaceCount(s);
    var t := s[i..];
    var r := Trim(s);
    assert r == t[..|r|];
    forall k | i + |r| <= k < |s| ensures IsSpace(s[k]) {
      assert s[k] == t[k - i];
    }
  }

  /** White space followed by a text that does not start with white space: the count of leading
      white space is the length of the padding. */
  lemma {:induction false} LeadingSpaceCountOf(pre: string, u: string)
    requires AllSpace(pre)
    requires u == [] || !IsSpace(u[0])
    ensures LeadingSpaceCount(pre + u) == |pre|
  {
    var s := pre + u;
    forall k | 0 <= k < |pre| ensures IsSpace(s[k]) {
      assert s[k] == pre[k];
    }
    assert |pre| < |s| ==> s[|pre|] == u[0];
  }

  /** A text that does not end with white space, followed by white space: the count of trailing
      white space is the length of the padding. */
  lemma {:induction false} TrailingSpaceCountOf(u: string, post: string)
    requires AllSpace(post)
    requires u == [] || !IsSpace(u[|u| - 1])
    ensures TrailingSpaceCount(u + post) == |post|
  {
    var s := u + post;
    forall k | |u| <= k < |s| ensures IsSpace(s[k]) {
      assert s[k] == post[k - |u|];
    }
    assert |post| < |s| ==> s[|s| - |post| - 1] == u[|u| - 1];
  }

  /** Trim has exactly one answer: a text without white space at its ends, padded on either
      side with white space, trims to itself. */
  lemma {:induction false} TrimOfPadded(pre: string, t: string, post: string)
    requires AllSpace(pre) && AllSpace(post)
    requires t == [] || (!IsSpace(t[0]) && !IsSpace(t[|t| - 1]))
    ensures Trim(pre + t + post) == t
  {
    var s := pre + t + post;
    assert s == pre + (t + post);
    if t == [] {
      assert AllSpace(pre + post) by {
        assert forall k | 0 <= k < |pre + post| :: (pre + post)[k] == if k < |pre| then pre[k] else post[k - |pre|];
      }
      assert s == (pre + post) + [];
      LeadingSpaceCountOf(pre + post, []);
    } else {
      LeadingSpaceCountOf(pre, t + post);
      assert s[|pre|..] == t + post;
      TrailingSpaceCountOf(t, post);
      assert (t + post)[..|t|] == t;
    }
  }

  /** Trimming twice is trimming once. */
  lemma {:induction false} TrimIdempotent(s: string)
    ensures Trim(Trim(s)) == Trim(s)
  {
    assert [] + Trim(s) + [] == Trim(s);
    TrimOfPadded([], Trim(s), []);
  }

  /** A text made only of white space trims to the empty string. */
  lemma {:induction false} TrimOfBlank(s: string)
    requires AllSpace(s)
    ensures Trim(s) == ""
  {
    assert [] + [] + s == s;
    TrimOfPadded([], [], s);
  }

  predicate IsDigit(c: char)
  {
    '0' <= c <= '9'
  }

  predicate AllDigits(s: string)
  {
    forall k | 0 <= k < |s| :: IsDigit(s[k])
  }

  function DigitChar(d: nat): (c: char)
    requires d < 10
    ensures IsDigit(c)
  {
    (('0' as int) + d) as char
  }

  function DigitValue(c: char): nat
    requires IsDigit(c)
  {
    (c as int) - ('0' as int)
  }

  /** String(n) for a whole number n below 10^21: its decimal digits, without leading zeros. */
  function DecimalString(n: nat): (r: string)
    ensures r != [] && AllDigits(r)
    ensures r[0] == '0' ==> n == 0
  {
    if n < 10 then [DigitChar(n)] else DecimalString(n / 10) + [DigitChar(n % 10)]
  }

  /** The number a string of decimal digits denotes. */
  function DecimalValue(s: string): nat
    requires AllDigits(s)
  {
    if s == [] then 0 else 10 * DecimalValue(s[..|s| - 1]) + DigitValue(s[|s| - 1])
  }

  /** Reading back the digits String(n) prints gives n. */
  lemma {:induction false} DecimalRoundTrip(n: nat)
    ensures DecimalValue(DecimalString(n)) == n
  {
    if n >= 10 {
      var s := DecimalString(n);
      assert s[..|s| - 1] == DecimalString(n / 10);
      DecimalRoundTrip(n / 10);
    }
  }
}
