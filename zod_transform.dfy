/** The blank-to-null normaliser applied to optional text fields
    (backend/src/utils/zod-transform.js). */
module ZodTransform {
  import opened JsonValues

  /** The characters `String.prototype.trim` removes: ECMAScript WhiteSpace
      and LineTerminator code points. */
  predicate IsJsWhitespace(c: char)
  {
    || c == '\t' || c == '\n' || c == '\U{B}' || c == '\U{C}' || c == '\r'
    || c == ' ' || c == '\U{A0}' || c == '\U{1680}'
    || ('\U{2000}' <= c <= '\U{200A}')
    || c == '\U{2028}' || c == '\U{2029}' || c == '\U{202F}' || c == '\U{205F}'
    || c == '\U{3000}' || c == '\U{FEFF}'
  }

  /** Every character of `s` is whitespace (the empty string included). */
  predicate AllWhitespace(s: string)
  {
    forall i :: 0 <= i < |s| ==> IsJsWhitespace(s[i])
  }

  function TrimStart(s: string): string
  {
    if |s| > 0 && IsJsWhitespace(s[0]) then TrimStart(s[1..]) else s
  }

  function TrimEnd(s: string): string
  {
    if |s| > 0 && IsJsWhitespace(s[|s| - 1]) then TrimEnd(s[..|s| - 1]) else s
  }

  /** `s.trim()`: leading and trailing whitespace removed. */
  function Trim(s: string): string
  {
    TrimEnd(TrimStart(s))
  }

  lemma {:induction false} TrimStartEmptyIff(s: string)
    ensures TrimStart(s) == "" <==> AllWhitespace(s)
    ensures TrimStart(s) != "" ==> !IsJsWhitespace(TrimStart(s)[0])
  {
    if |s| > 0 && IsJsWhitespace(s[0]) {
      TrimStartEmptyIff(s[1..]);
      assert AllWhitespace(s) <==> AllWhitespace(s[1..]) by {
        assert forall i :: 0 < i < |s| ==> s[i] == s[1..][i - 1];
      }
    }
  }

  lemma {:induction false} TrimEndEmptyIff(s: string)
    ensures TrimEnd(s) == "" <==> AllWhitespace(s)
  {
    if |s| > 0 && IsJsWhitespace(s[|s| - 1]) {
      TrimEndEmptyIff(s[..|s| - 1]);
      assert AllWhitespace(s) <==> AllWhitespace(s[..|s| - 1]) by {
        assert forall i :: 0 <= i < |s| - 1 ==> s[i] == s[..|s| - 1][i];
      }
    }
  }

  /** `s.trim() === ''` holds exactly for whitespace-only strings. */
  lemma TrimEmptyIff(s: string)
    ensures Trim(s) == "" <==> AllWhitespace(s)
  {
    TrimStartEmptyIff(s);
    var t := TrimStart(s);
    TrimEndEmptyIff(t);
    if t != "" {
      assert !AllWhitespace(t) by { assert !IsJsWhitespace(t[0]); }
    }
  }

  /** `emptyToNullTransform`: a blank string (empty or whitespace-only)
      becomes null; every other value, including a non-blank string with
      surrounding whitespace, is returned as it is. */
  function EmptyToNull(value: Json): (r: Json)
    ensures value.Str? && AllWhitespace(value.s) ==> r == Null
    ensures !(value.Str? && AllWhitespace(value.s)) ==> r == value
  {
    if value.Str? then
      TrimEmptyIff(value.s);
      if Trim(value.s) == "" then Null else value
    else
      value
  }

  lemma EmptyStringToNull()
    ensures EmptyToNull(Str("")) == Null
  {
  }

  /** Applying the transform twice is the same as applying it once. */
  lemma EmptyToNullIdempotent(value: Json)
    ensures EmptyToNull(EmptyToNull(value)) == EmptyToNull(value)
  {
  }

  /** The transform never yields a blank string. */
  lemma EmptyToNullNeverBlank(value: Json)
    ensures EmptyToNull(value).Str? ==> !AllWhitespace(EmptyToNull(value).s)
    ensures EmptyToNull(value) != Str("")
  {
  }
}
