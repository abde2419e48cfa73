/** String operations shared by the other modules: the ones Python's `str` and
    Scala's `String` provide and the sources call by name. Case mapping and white
    space are the ASCII ones. */
module Text {

  datatype Option<+T> = None | Some(value: T) {
    function GetOr(default: T): T {
      match this
      case Some(v) => v
      case None => default
    }
  }

  function LowerChar(c: char): char {
    if 'A' <= c <= 'Z' then (c as int + 32) as char else c
  }

  /** `toLowerCase` / `str.lower`. */
  function Lower(s: string): (r: string)
    ensures |r| == |s|
    ensures forall i :: 0 <= i < |s| ==> r[i] == LowerChar(s[i])
  {
    seq(|s|, i requires 0 <= i < |s| => LowerChar(s[i]))
  }

  /** What `strip` takes off. */
  predicate IsSpace(c: char) {
    c == ' ' || '\t' <= c <= '\r' || 28 as char <= c <= 31 as char
  }

  lemma SpacesAre(c: char)
    ensures IsSpace(c) <==> c in " \t\n\r" || c as int in {11, 12, 28, 29, 30, 31}
  {
  }

  /** `s.startswith(p)` for a proper or improper prefix. */
  predicate StartsWith(s: string, p: string) {
    p <= s
  }

  /** `sub` occurs in `s` at position `i`. */
  predicate OccursAt(s: string, sub: string, i: int) {
    0 <= i <= |s| - |sub| && s[i..i + |sub|] == sub
  }

  predicate Contains(s: string, sub: string) {
    exists i | 0 <= i <= |s| - |sub| :: OccursAt(s, sub, i)
  }

  /** `s.lastIndexOf(sub)`: the largest position of an occurrence, or -1. */
  function LastIndexOf(s: string, sub: string): (r: int)
    ensures r == -1 <==> !Contains(s, sub)
    ensures r != -1 ==> OccursAt(s, sub, r)
    ensures forall i :: OccursAt(s, sub, i) ==> i <= r
  {
    if |s| < |sub| then -1 else LastFrom(s, sub, |s| - |sub|)
  }

  function LastFrom(s: string, sub: string, from: nat): (r: int)
    requires from <= |s| - |sub|
    ensures -1 <= r <= from
    ensures r != -1 ==> OccursAt(s, sub, r)
    ensures forall i :: 0 <= i <= from && OccursAt(s, sub, i) ==> i <= r
  {
    if OccursAt(s, sub, from) then from
    else if from == 0 then -1
    else LastFrom(s, sub, from - 1)
  }

  /** `s.find(c)`: the first position of `c`, or |s| when it does not occur. */
  function FirstOf(s: string, c: char): (r: nat)
    ensures r <= |s|
    ensures r < |s| ==> s[r] == c
    ensures forall i :: 0 <= i < r ==> s[i] != c
  {
    if s == "" || s[0] == c then 0 else 1 + FirstOf(s[1..], c)
  }

  /** Cutting at the first `c` recovers a head that has no `c` in it. */
  lemma FirstOfHead(head: string, c: char, tail: string)
    requires c !in head
    ensures FirstOf(head + [c] + tail, c) == |head|
  {
    var s := head + [c] + tail;
    assert s[|head|] == c;
    assert forall i :: 0 <= i < |head| ==> s[i] == head[i];
  }

  /** Case mapping touches the 26 letters and nothing else. */
  lemma LettersAre(ch: char)
    ensures Lower("ABCDEFGHIJKLMNOPQRSTUVWXYZ") == "abcdefghijklmnopqrstuvwxyz"
    ensures ch !in "ABCDEFGHIJKLMNOPQRSTUVWXYZ" ==> LowerChar(ch) == ch
  {
    var upper := "ABCDEFGHIJKLMNOPQRSTUVWXYZ";
    if 'A' <= ch <= 'Z' {
      assert upper[ch as int - 'A' as int] == ch;
    }
  }

  /** A text contains another when it is that with something before and something after it. */
  lemma ContainsIff(s: string, sub: string)
    ensures Contains(s, sub) <==> exists a, b :: s == a + sub + b
  {
    if Contains(s, sub) {
      var i :| 0 <= i <= |s| - |sub| && OccursAt(s, sub, i);
      assert s == s[..i] + sub + s[i + |sub|..];
    }
    forall a, b | s == a + sub + b
      ensures Contains(s, sub)
    {
      assert OccursAt(s, sub, |a|);
    }
  }
}
