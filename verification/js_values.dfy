/**
 * JavaScript values as the two services' validators see them, JavaScript
 * truthiness, and `String.prototype.trim`.
 */
module JsValues {

  /**
   * A field of a decoded JSON body: absent (`undefined`), a string, a finite
   * number, or any other value (`null`, a boolean, an object, an array), of
   * which only its truthiness matters to the services.
   */
  datatype JsValue = Missing | Str(s: string) | Num(n: real) | Other(truthy: bool)

  /** JavaScript truthiness: `undefined`, `""`, `0` and the falsy others are false. */
  predicate Truthy(v: JsValue) {
    match v
    case Missing => false
    case Str(s) => s != ""
    case Num(n) => n != 0.0
    case Other(t) => t
  }

  /** `typeof v === 'string'` on a truthy value. */
  predicate IsNonEmptyString(v: JsValue) {
    v.Str? && v.s != ""
  }

  /** `typeof v === 'number'` and not `v <= 0`. */
  predicate IsPositiveNumber(v: JsValue) {
    v.Num? && v.n > 0.0
  }

  /** The WhiteSpace and LineTerminator code points that `trim` removes. */
  predicate IsWhitespace(c: char) {
    || c == '\t' || c == '\n' || c == '\U{B}' || c == '\U{C}' || c == '\r'
    || c == ' ' || c == '\U{A0}' || c == '\U{1680}'
    || ('\U{2000}' <= c <= '\U{200A}')
    || c == '\U{2028}' || c == '\U{2029}' || c == '\U{202F}' || c == '\U{205F}'
    || c == '\U{3000}' || c == '\U{FEFF}'
  }

  /** `s` with its leading whitespace removed: a suffix of `s`. */
  function TrimStart(s: string): (r: string)
    ensures |r| <= |s| && r == s[|s| - |r|..]
    ensures forall i :: 0 <= i < |s| - |r| ==> IsWhitespace(s[i])
    ensures r == [] || !IsWhitespace(r[0])
  {
    if s != [] && IsWhitespace(s[0]) then TrimStart(s[1..]) else s
  }

  /** `s` with its trailing whitespace removed: a prefix of `s`. */
  function TrimEnd(s: string): (r: string)
    ensures |r| <= |s| && r == s[..|r|]
    ensures forall i :: |r| <= i < |s| ==> IsWhitespace(s[i])
    ensures r == [] || !IsWhitespace(r[|r| - 1])
  {
    if s != [] && IsWhitespace(s[|s| - 1]) then TrimEnd(s[..|s| - 1]) else s
  }

  /** `s.trim()`: no longer than `s`, and neither starting nor ending with whitespace. */
  function Trim(s: string): (r: string)
    ensures |r| <= |s|
    ensures r == [] || (!IsWhitespace(r[0]) && !IsWhitespace(r[|r| - 1]))
  {
    TrimEnd(TrimStart(s))
  }

  /** `s.trim().length === 0` exactly when every character of `s` is whitespace. */
  lemma TrimEmptyIffBlank(s: string)
    ensures Trim(s) == [] <==> forall i :: 0 <= i < |s| ==> IsWhitespace(s[i])
  {
    var t := TrimStart(s);
    if Trim(s) == [] {
      assert t == [];
    } else {
      assert Trim(s)[0] == t[0] == s[|s| - |t|];
    }
  }

  /**
   * The trimmed string is the contiguous piece of `s` left between the cut
   * leading and trailing whitespace.
   */
  lemma TrimIsInfix(s: string)
    ensures var k := |s| - |TrimStart(s)|;
      && k + |Trim(s)| <= |s| && Trim(s) == s[k..k + |Trim(s)|]
      && forall i :: 0 <= i < |s| && !(k <= i < k + |Trim(s)|) ==> IsWhitespace(s[i])
  {
    var t := TrimStart(s);
    var r := TrimEnd(t);
    assert Trim(s) == r;
    SliceOfSuffix(s, |s| - |t|, |r|);
    CutsAreWhitespace(s, t, r);
  }

  /**
   * Cutting whitespace off the front of `s` to get `t`, then off the back of
   * `t` to get `r`, leaves whitespace everywhere in `s` outside `r`.
   */
  lemma CutsAreWhitespace(s: string, t: string, r: string)
    requires |t| <= |s| && t == s[|s| - |t|..] && forall i :: 0 <= i < |s| - |t| ==> IsWhitespace(s[i])
    requires |r| <= |t| && r == t[..|r|] && forall i :: |r| <= i < |t| ==> IsWhitespace(t[i])
    ensures forall i :: 0 <= i < |s| && !(|s| - |t| <= i < |s| - |t| + |r|) ==> IsWhitespace(s[i])
  {
    var k := |s| - |t|;
    forall i | 0 <= i < |s| && !(k <= i < k + |r|)
      ensures IsWhitespace(s[i])
    {
      if i >= k {
        assert s[i] == t[i - k];
      }
    }
  }

  /** A prefix of a suffix is a slice. */
  lemma SliceOfSuffix(s: string, k: nat, m: nat)
    requires k + m <= |s|
    ensures s[k..][..m] == s[k..k + m]
  {
  }

  /** Trimming twice is trimming once. */
  lemma TrimIdempotent(s: string)
    ensures Trim(Trim(s)) == Trim(s)
  {
    var r := Trim(s);
    if r != [] {
      assert TrimStart(r) == r;
      assert TrimEnd(r) == r;
    }
  }
}
