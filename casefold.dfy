/** ASCII case folding, standing in for JavaScript's `toLowerCase` and
    `toLocaleLowerCase` on the strings the registry compares. */
module CaseFold {
  import opened Types

  predicate IsUpper(c: char) {
    'A' <= c <= 'Z'
  }

  /** A string with no upper-case letter, as every lower-cased string is. */
  predicate IsLowerStr(s: string) {
    forall i :: 0 <= i < |s| ==> !IsUpper(s[i])
  }

  function Lower(c: char): (r: char)
    ensures !IsUpper(r)
    ensures IsUpper(c) ==> r as int == c as int + 32
    ensures !IsUpper(c) ==> r == c
  {
    if IsUpper(c) then (c as int + 32) as char else c
  }

  function LowerStr(s: string): (r: string)
    ensures |r| == |s|
    ensures forall i :: 0 <= i < |s| ==> r[i] == Lower(s[i])
    ensures IsLowerStr(r)
  {
    seq(|s|, i requires 0 <= i < |s| => Lower(s[i]))
  }

  /** Lower-cases an optional string, as `x?.toLowerCase()` does. */
  function LowerOpt(o: Option<string>): (r: Option<string>)
    ensures r.None? <==> o.None?
    ensures o.Some? ==> r.value == LowerStr(o.value)
  {
    match o
    case None => None
    case Some(s) => Some(LowerStr(s))
  }

  /** Two lower-case strings joined stay lower-case. */
  lemma LowerConcat(s: string, t: string)
    requires IsLowerStr(s) && IsLowerStr(t)
    ensures IsLowerStr(s + t)
  {
  }

  /** A string that starts with an upper-case 'W' is never a lower-case string. */
  lemma {:induction false} WPrefixNotLower(x: string, s: string)
    requires IsLowerStr(s)
    ensures "W" + x != s
  {
    if "W" + x == s {
      assert s[0] == 'W';
      assert IsUpper(s[0]);
      assert false;
    }
  }
}
