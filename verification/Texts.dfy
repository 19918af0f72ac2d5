/** String operations the acceptance rules rely on, over characters. */
module Texts {

  /** White space in the sense of Unicode's White_Space property. */
  predicate IsSpace(c: char) {
    var n := c as int;
    || 0x09 <= n <= 0x0D || n in {0x20, 0x85, 0xA0, 0x1680, 0x2028, 0x2029, 0x202F, 0x205F, 0x3000}
    || 0x2000 <= n <= 0x200A
  }

  function TrimLeft(s: string): (r: string)
    ensures |r| <= |s| && r == s[|s| - |r|..]
    ensures r == "" || !IsSpace(r[0])
  {
    if s == "" || !IsSpace(s[0]) then s else TrimLeft(s[1..])
  }

  function TrimRight(s: string): (r: string)
    ensures r <= s
    ensures r == "" || !IsSpace(r[|r| - 1])
  {
    if s == "" || !IsSpace(s[|s| - 1]) then s else TrimRight(s[..|s| - 1])
  }

  function Trim(s: string): (r: string)
    ensures forall c :: c in r ==> c in s
    ensures r == "" || (!IsSpace(r[0]) && !IsSpace(r[|r| - 1]))
  {
    TrimRight(TrimLeft(s))
  }

  lemma TrimRightSpace(s: string, c: char)
    requires IsSpace(c)
    ensures TrimRight(s + [c]) == TrimRight(s)
  {
    assert (s + [c])[..|s|] == s;
  }

  lemma TrimLeftKeeps(s: string)
    requires s != "" && !IsSpace(s[0])
    ensures TrimLeft(s) == s
  {
  }

  predicate NonBlank(s: string) {
    Trim(s) != ""
  }

  predicate OccursAt(s: string, t: string, i: nat) {
    i + |t| <= |s| && s[i..i + |t|] == t
  }

  predicate Contains(s: string, t: string) {
    exists i :: 0 <= i <= |s| && OccursAt(s, t, i)
  }

  function Lower(s: string): string {
    seq(|s|, i requires 0 <= i < |s| => if 'A' <= s[i] <= 'Z' then s[i] - 'A' + 'a' else s[i])
  }

  /** Text that only grew at its end, or stayed, still contains what it contained. */
  lemma ContainsAfterAppend(s: string, more: string, t: string)
    requires Contains(s, t)
    ensures Contains(s + more, t)
  {
    var i :| 0 <= i <= |s| && OccursAt(s, t, i);
    assert (s + more)[i..i + |t|] == s[i..i + |t|];
    assert OccursAt(s + more, t, i);
  }

  lemma ContainsSuffix(s: string, t: string)
    ensures Contains(s + t, t)
  {
    assert (s + t)[|s|..|s| + |t|] == t;
    assert OccursAt(s + t, t, |s|);
  }

  lemma {:induction false} TrimBlank(s: string)
    ensures (forall c :: c in s ==> IsSpace(c)) <==> !NonBlank(s)
  {
    TrimLeftBlank(s);
    var l := TrimLeft(s);
    if l != "" {
      TrimRightKeeps(l);
    }
  }

  lemma {:induction false} TrimLeftBlank(s: string)
    ensures (forall c :: c in s ==> IsSpace(c)) <==> TrimLeft(s) == ""
  {
    if s != "" {
      TrimLeftBlank(s[1..]);
      assert s == [s[0]] + s[1..];
    }
  }

  lemma {:induction false} TrimRightKeeps(s: string)
    requires s != "" && !IsSpace(s[0])
    ensures TrimRight(s) != ""
  {
    if IsSpace(s[|s| - 1]) {
      TrimRightKeeps(s[..|s| - 1]);
    }
  }

  /** Appending text to nonblank text leaves it nonblank. */
  lemma NonBlankAfterAppend(s: string, more: string)
    requires NonBlank(s)
    ensures NonBlank(s + more)
  {
    TrimBlank(s);
    TrimBlank(s + more);
    var c :| c in s && !IsSpace(c);
    assert c in s + more;
  }
}
