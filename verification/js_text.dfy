/** JavaScript's `String.prototype.trim`, which the add form applies to the
    dish name and description before validating and storing them. */
module JsText {

  /** The characters `trim` removes: ECMAScript WhiteSpace (tab, vertical
      tab, form feed, the byte order mark and every Unicode space separator)
      and LineTerminator (line feed, carriage return, U+2028, U+2029). */
  predicate IsJsSpace(c: char) {
    || ('\U{0009}' <= c <= '\U{000D}')
    || c == '\U{0020}' || c == '\U{00A0}' || c == '\U{1680}'
    || ('\U{2000}' <= c <= '\U{200A}')
    || c == '\U{2028}' || c == '\U{2029}' || c == '\U{202F}'
    || c == '\U{205F}' || c == '\U{3000}' || c == '\U{FEFF}'
  }

  /** Every character of `s` is white space; true of the empty string. */
  predicate AllSpace(s: string) {
    forall i :: 0 <= i < |s| ==> IsJsSpace(s[i])
  }

  /** A blank text stays blank when a white-space character is put in
      front of it or after it. */
  lemma AllSpaceExtend(c: char, t: string)
    requires IsJsSpace(c) && AllSpace(t)
    ensures AllSpace([c] + t) && AllSpace(t + [c])
  {
    assert forall i :: 0 < i < |[c] + t| ==> ([c] + t)[i] == t[i - 1];
    assert forall i :: 0 <= i < |t| ==> (t + [c])[i] == t[i];
  }

  /** `s` without its leading white space. */
  function TrimStart(s: string): (r: string)
    ensures |r| <= |s| && r == s[|s| - |r|..]
    ensures AllSpace(s[..|s| - |r|])
    ensures r == [] || !IsJsSpace(r[0])
  {
    if s != [] && IsJsSpace(s[0]) then
      var tail := s[1..];
      var r := TrimStart(tail);
      var cut := |tail| - |r|;
      assert s[..cut + 1] == [s[0]] + tail[..cut];
      AllSpaceExtend(s[0], tail[..cut]);
      assert s[|s| - |r|..] == tail[cut..];
      r
    else
      assert s[..0] == [];
      s
  }

  /** `s` without its trailing white space. */
  function TrimEnd(s: string): (r: string)
    ensures |r| <= |s| && r == s[..|r|]
    ensures AllSpace(s[|r|..])
    ensures r == [] || !IsJsSpace(r[|r| - 1])
  {
    if s != [] && IsJsSpace(s[|s| - 1]) then
      var init := s[..|s| - 1];
      var r := TrimEnd(init);
      assert s[|r|..] == init[|r|..] + [s[|s| - 1]];
      AllSpaceExtend(s[|s| - 1], init[|r|..]);
      assert init[..|r|] == s[..|r|];
      r
    else
      assert s[|s|..] == [];
      s
  }

  /** `s` without its leading and trailing white space. The result is empty
      exactly when `s` is blank, and otherwise starts and ends with a
      character that is not white space. */
  function Trim(s: string): (r: string)
    ensures |r| <= |s|
    ensures r == [] <==> AllSpace(s)
    ensures r == [] || (!IsJsSpace(r[0]) && !IsJsSpace(r[|r| - 1]))
  {
    var t := TrimStart(s);
    var r := TrimEnd(t);
    assert t == [] ==> AllSpace(s) by {
      if t == [] {
        assert s[..|s|] == s;
      }
    }
    r
  }

  /** `Trim` removes only white space: `s` is a blank prefix, the trimmed
      text and a blank suffix, in that order. */
  lemma TrimSplits(s: string) returns (lead: nat, trail: nat)
    ensures lead + |Trim(s)| + trail == |s|
    ensures s == s[..lead] + Trim(s) + s[lead + |Trim(s)|..]
    ensures AllSpace(s[..lead]) && AllSpace(s[lead + |Trim(s)|..])
  {
    var t := TrimStart(s);
    var r := TrimEnd(t);
    lead := |s| - |t|;
    trail := |t| - |r|;
    SliceOfSuffix(s, lead, |r|);
  }

  /** Cutting a suffix of `s` at `n` is cutting `s` at `lead + n`. */
  lemma SliceOfSuffix(s: string, lead: nat, n: nat)
    requires lead + n <= |s|
    ensures s[lead..][..n] == s[lead..lead + n]
    ensures s[lead..][n..] == s[lead + n..]
    ensures s == s[..lead] + s[lead..lead + n] + s[lead + n..]
  {
  }

  /** Text that neither starts nor ends with white space is left as it is. */
  lemma TrimKeepsTrimmed(s: string)
    requires s == [] || (!IsJsSpace(s[0]) && !IsJsSpace(s[|s| - 1]))
    ensures Trim(s) == s
  {
  }

  /** Trimming twice is trimming once. */
  lemma TrimIdempotent(s: string)
    ensures Trim(Trim(s)) == Trim(s)
  {
    TrimKeepsTrimmed(Trim(s));
  }
}
