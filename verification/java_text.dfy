/** The few `java.lang.String` behaviours the backend's rules depend on.
    A Dafny `char` is a Unicode scalar value; Java counts UTF-16 code units. */
module JavaText {
  import opened Outcomes

  /** `Character.isWhitespace`: space, line and paragraph separators except the
      non-breaking ones, plus the ASCII controls TAB, LF, VT, FF, CR and FS..US. */
  predicate IsJavaWhitespace(c: char) {
    || c == ' ' || c == '\t' || c == '\n' || c == '\U{B}' || c == '\U{C}' || c == '\r'
    || ('\U{1C}' <= c <= '\U{1F}')
    || c == '\U{1680}' || ('\U{2000}' <= c <= '\U{2006}') || ('\U{2008}' <= c <= '\U{200A}')
    || c == '\U{2028}' || c == '\U{2029}' || c == '\U{205F}' || c == '\U{3000}'
  }

  /** `String.isBlank`: empty, or whitespace only. */
  predicate IsBlank(s: string) {
    forall k :: 0 <= k < |s| ==> IsJavaWhitespace(s[k])
  }

  /** `String.trim` strips every character up to and including U+0020. */
  predicate IsTrimmable(c: char) {
    c <= ' '
  }

  /** Index of the first character `trim` keeps, or `|s|` when it keeps none. */
  function TrimStart(s: string): (i: nat)
    ensures i <= |s|
    ensures forall k :: 0 <= k < i ==> IsTrimmable(s[k])
    ensures i < |s| ==> !IsTrimmable(s[i])
  {
    if |s| > 0 && IsTrimmable(s[0]) then 1 + TrimStart(s[1..]) else 0
  }

  /** One past the last character `trim` keeps, or 0 when it keeps none. */
  function TrimEnd(s: string): (j: nat)
    ensures j <= |s|
    ensures forall k :: j <= k < |s| ==> IsTrimmable(s[k])
    ensures j > 0 ==> !IsTrimmable(s[j - 1])
  {
    if |s| > 0 && IsTrimmable(s[|s| - 1]) then TrimEnd(s[..|s| - 1]) else |s|
  }

  /** `String.trim`: the slice of `s` left after dropping trimmable characters
      at both ends. It is empty exactly when every character is trimmable, the
      test `@NotBlank` applies. */
  function Trim(s: string): (r: string)
    ensures |r| <= |s|
    ensures r == [] <==> forall k :: 0 <= k < |s| ==> IsTrimmable(s[k])
    ensures r == [] || (!IsTrimmable(r[0]) && !IsTrimmable(r[|r| - 1]))
    ensures r != [] ==> TrimStart(s) < TrimEnd(s) && r == s[TrimStart(s)..TrimEnd(s)]
  {
    var i := TrimStart(s);
    if i == |s| then []
    else
      assert !IsTrimmable(s[i]);
      assert i < TrimEnd(s);
      s[i..TrimEnd(s)]
  }

  /** `String.length()`: characters outside the Basic Multilingual Plane count twice. */
  function Utf16Length(s: string): (n: nat)
    ensures |s| <= n <= 2 * |s|
    ensures (forall k :: 0 <= k < |s| ==> s[k] <= '\U{FFFF}') ==> n == |s|
  {
    if s == [] then 0 else (if s[0] <= '\U{FFFF}' then 1 else 2) + Utf16Length(s[1..])
  }

  /** Java string concatenation renders a null reference as "null". */
  function Render(s: Option<string>): string {
    s.GetOr("null")
  }
}
