/** ASCII case mapping, the part of `strings.ToLower` the model covers. */
module Strings {

  predicate IsAsciiUpper(c: char) { 'A' <= c <= 'Z' }

  function LowerChar(c: char): char
  {
    if IsAsciiUpper(c) then (c as int + 32) as char else c
  }

  /**
   * Lower-cases every ASCII capital letter and leaves every other character
   * alone; the result holds no ASCII capital letter.
   */
  function ToLower(s: string): (r: string)
    ensures |r| == |s|
    ensures forall i :: 0 <= i < |r| ==> !IsAsciiUpper(r[i])
    ensures forall i :: 0 <= i < |s| ==>
      r[i] == s[i] || (IsAsciiUpper(s[i]) && r[i] as int == s[i] as int + 32)
    decreases |s|
  {
    if s == [] then [] else [LowerChar(s[0])] + ToLower(s[1..])
  }

  lemma ToLowerIdempotent(s: string)
    ensures ToLower(ToLower(s)) == ToLower(s)
  {
    var r := ToLower(s);
    assert forall i :: 0 <= i < |r| ==> ToLower(r)[i] == r[i];
  }

  /** Characters that are not capital letters pass through unchanged, so a separator cannot appear or disappear. */
  lemma ToLowerKeeps(s: string, c: char)
    requires !IsAsciiUpper(c) && !('a' <= c <= 'z')
    ensures c in ToLower(s) <==> c in s
  {
    var r := ToLower(s);
    if c in s {
      var i :| 0 <= i < |s| && s[i] == c;
      assert r[i] == c;
    }
    if c in r {
      var i :| 0 <= i < |r| && r[i] == c;
      assert s[i] == c;
    }
  }
}
