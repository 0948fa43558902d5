/** `String.prototype.trim`, which the add-task handler applies to the typed title. */
module Text {

  /** The characters trim removes: the WhiteSpace and LineTerminator code points of
      ECMAScript (section 12.2 and 12.3 of ECMA-262), that is tab, line tabulation,
      form feed, space, no-break space, the byte order mark, the other space
      separators of Unicode category Zs, and the four line terminators. */
  predicate IsTrimmable(c: char) {
    c == '\t' || c == '\n' || c == '\U{000B}' || c == '\U{000C}' || c == '\r'
    || c == ' ' || c == '\U{00A0}' || c == '\U{1680}'
    || ('\U{2000}' <= c <= '\U{200A}')
    || c == '\U{2028}' || c == '\U{2029}' || c == '\U{202F}' || c == '\U{205F}'
    || c == '\U{3000}' || c == '\U{FEFF}'
  }

  predicate IsBlank(s: string) {
    forall i :: 0 <= i < |s| ==> IsTrimmable(s[i])
  }

  /** Where the text of s begins once its leading whitespace is skipped. */
  function TrimStart(s: string): (k: nat)
    ensures k <= |s|
    ensures IsBlank(s[..k])
    ensures k < |s| ==> !IsTrimmable(s[k])
  {
    if |s| == 0 || !IsTrimmable(s[0]) then 0
    else
      var k := 1 + TrimStart(s[1..]);
      assert forall i :: 1 <= i < k ==> s[..k][i] == s[1..][..k - 1][i - 1];
      k
  }

  /** Where the text of s ends once its trailing whitespace is dropped,
      never before position lo. */
  function TrimEnd(s: string, lo: nat): (j: nat)
    requires lo <= |s|
    ensures lo <= j <= |s|
    ensures IsBlank(s[j..])
    ensures lo < j ==> !IsTrimmable(s[j - 1])
    decreases |s|
  {
    if |s| == lo || !IsTrimmable(s[|s| - 1]) then |s|
    else
      TrimEnd(s[..|s| - 1], lo)
  }

  /** `s.trim()`: s without its leading and trailing whitespace. */
  function Trim(s: string): (r: string)
    ensures |r| <= |s|
    ensures r == [] <==> IsBlank(s)
    ensures r != [] ==> !IsTrimmable(r[0]) && !IsTrimmable(r[|r| - 1])
    ensures exists k, j :: 0 <= k <= j <= |s| && r == s[k..j] && IsBlank(s[..k]) && IsBlank(s[j..])
  {
    var k := TrimStart(s);
    var j := TrimEnd(s, k);
    assert !IsBlank(s) ==> k < |s| by {
      if k == |s| { assert s[..k] == s; }
    }
    assert IsBlank(s) ==> k == |s|;
    s[k..j]
  }

  /** Trimming is idempotent: a trimmed title is its own trim. */
  lemma TrimIdempotent(s: string)
    ensures Trim(Trim(s)) == Trim(s)
  {
  }
}
