/** UTF-8 text as bytes (section 4 of RFC 3629), as far as cutting it between characters goes. */
module Utf8 {
  import opened Common

  predicate Continuation(b: byte) { 0x80 <= b < 0xC0 }

  /** How many bytes the first character takes; 0 if it is malformed. */
  function Width(s: Bytes): (k: nat)
    ensures k <= |s| && k <= 4
    ensures forall i :: 1 <= i < k ==> Continuation(s[i])
    ensures k > 0 ==> !Continuation(s[0])
  {
    if |s| >= 1 && s[0] < 0x80 then 1
    else if |s| >= 2 && 0xC2 <= s[0] < 0xE0 && Continuation(s[1]) then 2
    else if |s| >= 3 && 0xE0 <= s[0] < 0xF0 && Continuation(s[1]) && Continuation(s[2])
            && (s[0] == 0xE0 ==> s[1] >= 0xA0) && (s[0] == 0xED ==> s[1] < 0xA0) then 3
    else if |s| >= 4 && 0xF0 <= s[0] < 0xF5 && Continuation(s[1]) && Continuation(s[2]) && Continuation(s[3])
            && (s[0] == 0xF0 ==> s[1] >= 0x90) && (s[0] == 0xF4 ==> s[1] < 0x90) then 4
    else 0
  }

  predicate Valid(s: Bytes)
    decreases |s|
  {
    s == [] || (Width(s) > 0 && Valid(s[Width(s)..]))
  }

  /** `str::is_char_boundary`. */
  predicate Boundary(s: Bytes, i: nat) {
    i == 0 || i == |s| || (i < |s| && !Continuation(s[i]))
  }

  lemma WidthOfPrefix(s: Bytes, e: nat)
    requires Width(s) <= e <= |s| && Width(s) > 0
    ensures Width(s[..e]) == Width(s)
  {
  }

  /** Cutting valid text at a boundary leaves valid text on both sides. */
  lemma {:induction false} CutIsValid(s: Bytes, e: nat)
    requires Valid(s) && e <= |s| && Boundary(s, e)
    ensures Valid(s[..e]) && Valid(s[e..])
    decreases |s|
  {
    if e == 0 {
      assert s[0..] == s;
    } else {
      var k := Width(s);
      assert e >= k;
      var rest := s[k..];
      assert e < |s| ==> rest[e - k] == s[e];
      CutIsValid(rest, e - k);
      assert s[..e][k..] == rest[..e - k] && s[e..] == rest[e - k..];
      WidthOfPrefix(s, e);
    }
  }

  /** Of any four neighbouring places in valid text, one is a boundary. */
  lemma {:induction false} BoundaryNearby(s: Bytes, e: nat) returns (b: nat)
    requires Valid(s) && e <= |s|
    ensures b <= e < b + 4 && Boundary(s, b)
    decreases |s|
  {
    var k := Width(s);
    if e < k || s == [] {
      b := 0;
    } else {
      b := BoundaryNearby(s[k..], e - k);
      assert b < |s[k..]| ==> s[k..][b] == s[k + b];
      b := k + b;
      assert b == k && b < |s| ==> Width(s[k..]) > 0;
    }
  }
}
