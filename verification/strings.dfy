/**
 * The two JavaScript string tests the dashboard relies on, `startsWith` and
 * `includes`, over strings modelled as sequences of characters. Each has an
 * executable definition and an independent, quantifier-based reference
 * definition, and a lemma connecting the two.
 */
module Strings {
  import opened Optional

  /** `s.startsWith(p)`: the first |p| characters of `s` are `p`. */
  predicate StartsWith(s: string, p: string) {
    |p| <= |s| && s[..|p|] == p
  }

  /** What is left of `s` after the prefix `p`, or None when `s` does not start with `p`. */
  function StripPrefix(s: string, p: string): (r: Option<string>)
    ensures r.Some? <==> StartsWith(s, p)
    ensures r.Some? ==> p + r.value == s
  {
    if StartsWith(s, p) then Some(s[|p|..]) else None
  }

  /** Stripping a prefix from a string built with it returns what followed it. */
  lemma StripPrefixOfConcat(p: string, rest: string)
    ensures StripPrefix(p + rest, p) == Some(rest)
  {
  }

  /** `sub` occurs in `s` starting at index `i`. */
  ghost predicate OccursAt(s: string, sub: string, i: int) {
    0 <= i && i + |sub| <= |s| && s[i..i + |sub|] == sub
  }

  /** Reference meaning of `s.includes(sub)`: some index of `s` starts an occurrence of `sub`. */
  ghost predicate ContainsSpec(s: string, sub: string) {
    exists i :: OccursAt(s, sub, i)
  }

  /** `s.includes(sub)`, computed by scanning `s` from the left. The empty string is included in every string. */
  predicate Contains(s: string, sub: string)
    decreases |s|
  {
    if StartsWith(s, sub) then true
    else if |s| == 0 then false
    else Contains(s[1..], sub)
  }

  /** Every positive answer of the scan is witnessed by an occurrence. */
  lemma {:induction false} ContainsSound(s: string, sub: string)
    requires Contains(s, sub)
    ensures ContainsSpec(s, sub)
    decreases |s|
  {
    if StartsWith(s, sub) {
      assert OccursAt(s, sub, 0);
    } else {
      ContainsSound(s[1..], sub);
      var i :| OccursAt(s[1..], sub, i);
      assert s[1..][i..i + |sub|] == s[i + 1..i + 1 + |sub|];
      assert OccursAt(s, sub, i + 1);
    }
  }

  /** Every occurrence is found by the scan. */
  lemma {:induction false} ContainsComplete(s: string, sub: string, i: int)
    requires OccursAt(s, sub, i)
    ensures Contains(s, sub)
    decreases i
  {
    if i == 0 {
      assert s[..|sub|] == s[0..0 + |sub|];
    } else {
      assert s[1..][i - 1..i - 1 + |sub|] == s[i..i + |sub|];
      ContainsComplete(s[1..], sub, i - 1);
    }
  }

  /** The scan agrees with the reference definition, in both directions. */
  lemma ContainsCorrect(s: string, sub: string)
    ensures Contains(s, sub) <==> ContainsSpec(s, sub)
  {
    if Contains(s, sub) {
      ContainsSound(s, sub);
    }
    if ContainsSpec(s, sub) {
      var i :| OccursAt(s, sub, i);
      ContainsComplete(s, sub, i);
    }
  }

  /** Whatever precedes or follows it, a string includes every one of its own pieces. */
  lemma ContainsInfix(a: string, sub: string, b: string)
    ensures Contains(a + sub + b, sub)
  {
    var s := a + sub + b;
    assert s[|a|..|a| + |sub|] == sub;
    assert OccursAt(s, sub, |a|);
    ContainsCorrect(s, sub);
  }
}
