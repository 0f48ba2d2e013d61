/** The JavaScript string built-ins the application relies on: `trim`,
    `toLowerCase`, `startsWith` and `split(sep)[0]`. Whitespace and case are
    those of ASCII (plus the no-break space and the byte-order mark for
    whitespace); the rest of Unicode is not modelled. */
module JsString {

  /** The characters `String.prototype.trim` removes, restricted to the ones
      below U+0100 and the byte-order mark. */
  predicate IsWhitespace(c: char) {
    c == ' ' || c == '\t' || c == '\n' || c == '\r' || c == '\U{B}' || c == '\U{C}'
    || c == '\U{A0}' || c == '\U{FEFF}'
  }

  predicate IsUpper(c: char) {
    'A' <= c <= 'Z'
  }

  function LowerChar(c: char): (r: char)
    ensures !IsUpper(r)
    ensures IsUpper(c) ==> r as int == c as int + 32
    ensures IsWhitespace(r) <==> IsWhitespace(c)
    ensures !IsUpper(c) ==> r == c
  {
    if IsUpper(c) then (c as int + 32) as char else c
  }

  /** Drops leading whitespace. */
  function TrimStart(s: string): (r: string)
    ensures |r| <= |s| && r == s[|s| - |r|..]
    ensures forall i :: 0 <= i < |s| - |r| ==> IsWhitespace(s[i])
    ensures r != [] ==> !IsWhitespace(r[0])
  {
    if s != [] && IsWhitespace(s[0]) then TrimStart(s[1..]) else s
  }

  /** Drops trailing whitespace. */
  function TrimEnd(s: string): (r: string)
    ensures |r| <= |s| && r == s[..|r|]
    ensures forall i :: |r| <= i < |s| ==> IsWhitespace(s[i])
    ensures r != [] ==> !IsWhitespace(r[|r| - 1])
  {
    if s != [] && IsWhitespace(s[|s| - 1]) then TrimEnd(s[..|s| - 1]) else s
  }

  /** `s.trim()`: the part of `s` left once its leading and trailing
      whitespace is cut off. It is empty exactly when `s` is blank, and
      otherwise neither starts nor ends with whitespace. */
  function Trim(s: string): (r: string)
    ensures |r| <= |s|
    ensures var n := |s| - |TrimStart(s)|;
      && n + |r| <= |s| && r == s[n..n + |r|]
      && (forall k :: 0 <= k < n ==> IsWhitespace(s[k]))
      && (forall k :: n + |r| <= k < |s| ==> IsWhitespace(s[k]))
    ensures r == [] <==> forall i :: 0 <= i < |s| ==> IsWhitespace(s[i])
    ensures r != [] ==> !IsWhitespace(r[0]) && !IsWhitespace(r[|r| - 1])
  {
    var t := TrimStart(s);
    var r := TrimEnd(t);
    assert r == [] ==> t == [];
    TrimSlice(s, |s| - |t|, t, r);
    r
  }

  /** Where the two halves of `trim` cut: the kept part sits right after the
      leading blanks, and everything after it is blank. */
  lemma TrimSlice(s: string, n: nat, t: string, r: string)
    requires n <= |s| && t == s[n..]
    requires |r| <= |t| && r == t[..|r|]
    requires forall k :: |r| <= k < |t| ==> IsWhitespace(t[k])
    ensures n + |r| <= |s| && r == s[n..n + |r|]
    ensures forall k :: n + |r| <= k < |s| ==> IsWhitespace(s[k])
  {
    forall k | n + |r| <= k < |s| ensures IsWhitespace(s[k]) {
      assert s[k] == t[k - n];
    }
  }

  /** `s.toLowerCase()`, character by character. */
  function ToLower(s: string): (r: string)
    ensures |r| == |s|
    ensures forall i :: 0 <= i < |s| ==> r[i] == LowerChar(s[i])
  {
    if s == [] then [] else [LowerChar(s[0])] + ToLower(s[1..])
  }

  /** `s.startsWith(prefix)`, comparing one character at a time: true
      exactly when `prefix` is the first `|prefix|` characters of `s`. */
  predicate StartsWith(s: string, prefix: string): (r: bool)
    ensures r <==> |prefix| <= |s| && s[..|prefix|] == prefix
  {
    prefix == [] || (s != [] && s[0] == prefix[0] && StartsWith(s[1..], prefix[1..]))
  }

  /** `s.split(sep)[0]`: the text before the first `sep`, or all of `s` when
      there is none. */
  function BeforeFirst(s: string, sep: char): (r: string)
    ensures |r| <= |s| && r == s[..|r|]
    ensures sep !in r
    ensures |r| < |s| ==> s[|r|] == sep
  {
    if s == [] || s[0] == sep then [] else [s[0]] + BeforeFirst(s[1..], sep)
  }

  /** `split(sep)[0]` is the text up to the first `sep`, or all of `s` when
      `n == |s|` and there is none. */
  lemma BeforeFirstUpTo(s: string, sep: char, n: nat)
    requires n <= |s| && (n < |s| ==> s[n] == sep)
    requires forall i :: 0 <= i < n ==> s[i] != sep
    ensures BeforeFirst(s, sep) == s[..n]
  {
  }

  /** A string that is already trimmed is left alone by `trim`. */
  lemma TrimOfTrimmed(s: string)
    requires s != [] ==> !IsWhitespace(s[0]) && !IsWhitespace(s[|s| - 1])
    ensures Trim(s) == s
  {
    assert TrimStart(s) == s;
    assert TrimEnd(s) == s;
  }

  /** Lowering an already lower-case string changes nothing. */
  lemma {:induction false} ToLowerOfLower(s: string)
    requires forall i :: 0 <= i < |s| ==> !IsUpper(s[i])
    ensures ToLower(s) == s
  {
    if s != [] {
      ToLowerOfLower(s[1..]);
    }
  }

  /** `trim` then `toLowerCase` yields a canonical string: trimming or lowering
      it again changes nothing, and it is empty only for blank input. */
  lemma NormalizedIsCanonical(s: string)
    ensures Trim(ToLower(Trim(s))) == ToLower(Trim(s))
    ensures ToLower(ToLower(Trim(s))) == ToLower(Trim(s))
    ensures ToLower(Trim(s)) == [] <==> Trim(s) == []
  {
    var t := ToLower(Trim(s));
    TrimOfTrimmed(t);
    ToLowerOfLower(t);
  }
}
