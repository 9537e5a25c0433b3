/**
 * The JavaScript string primitives the handlers and pages use: `trim`, `toLowerCase`,
 * `startsWith`, `indexOf`, `includes`, and the regular-expression replacement `/\s+/g`.
 */
module Text {

  /**
   * The characters JavaScript's `trim` removes and `\s` matches (WhiteSpace and
   * LineTerminator of ECMAScript section 12.2 and 12.3): tab, line feed, vertical tab,
   * form feed, carriage return, space, U+00A0, U+1680, U+2000 to U+200A, U+2028, U+2029,
   * U+202F, U+205F, U+3000 and U+FEFF.
   */
  predicate IsSpace(c: char)
  {
    var n := c as int;
    (9 <= n <= 13) || n == 32 || n == 0xA0 || n == 0x1680 || (0x2000 <= n <= 0x200A)
    || n == 0x2028 || n == 0x2029 || n == 0x202F || n == 0x205F || n == 0x3000 || n == 0xFEFF
  }

  predicate IsUpper(c: char)
  {
    'A' <= c <= 'Z'
  }

  /** No character of `s` is white space. */
  predicate NoSpace(s: string)
  {
    forall i :: 0 <= i < |s| ==> !IsSpace(s[i])
  }

  /** No character of `s` is an upper-case letter. */
  predicate NoUpper(s: string)
  {
    forall i :: 0 <= i < |s| ==> !IsUpper(s[i])
  }

  /** `toLowerCase` on one character, for the ASCII letters. */
  function LowerChar(c: char): (d: char)
    ensures !IsUpper(d)
    ensures IsSpace(d) == IsSpace(c)
    ensures !IsUpper(c) ==> d == c
  {
    if IsUpper(c) then (c as int + 32) as char else c
  }

  /** `s.toLowerCase()`: maps every upper-case letter to its lower-case form, nothing else. */
  function Lower(s: string): (r: string)
    ensures |r| == |s|
    ensures forall i :: 0 <= i < |s| ==> r[i] == LowerChar(s[i])
    ensures NoUpper(r)
  {
    seq(|s|, i requires 0 <= i < |s| => LowerChar(s[i]))
  }

  lemma LowerOfLowerIsIdentity(s: string)
    requires NoUpper(s)
    ensures Lower(s) == s
  {
  }

  /** `s.trimStart()`: drops the leading run of white space. */
  function TrimStart(s: string): (r: string)
    ensures |r| <= |s| && r == s[|s| - |r|..]
    ensures r == [] || !IsSpace(r[0])
    ensures forall i :: 0 <= i < |s| - |r| ==> IsSpace(s[i])
  {
    if s != [] && IsSpace(s[0]) then TrimStart(s[1..]) else s
  }

  /** `s.trimEnd()`: drops the trailing run of white space. */
  function TrimEnd(s: string): (r: string)
    ensures |r| <= |s| && r == s[..|r|]
    ensures r == [] || !IsSpace(r[|r| - 1])
    ensures forall i :: |r| <= i < |s| ==> IsSpace(s[i])
  {
    if s != [] && IsSpace(s[|s| - 1]) then TrimEnd(s[..|s| - 1]) else s
  }

  /** `s.trim()`: the longest infix of `s` that neither starts nor ends with white space. */
  function Trim(s: string): (r: string)
    ensures r == [] || (!IsSpace(r[0]) && !IsSpace(r[|r| - 1]))
    ensures OccursAt(s, r, |s| - |TrimStart(s)|)
  {
    TrimEnd(TrimStart(s))
  }

  lemma TrimOfNoSpaceIsIdentity(s: string)
    requires NoSpace(s)
    ensures Trim(s) == s
  {
  }

  lemma {:induction false} TrimIdempotent(s: string)
    ensures Trim(Trim(s)) == Trim(s)
  {
    var r := Trim(s);
    if r != [] {
      assert TrimStart(r) == r;
      assert TrimEnd(r) == r;
    }
  }

  predicate AllSpace(s: string)
  {
    forall i :: 0 <= i < |s| ==> IsSpace(s[i])
  }

  lemma {:induction false} TrimStartSkipsPadding(pre: string, rest: string)
    requires AllSpace(pre)
    requires rest == [] || !IsSpace(rest[0])
    ensures TrimStart(pre + rest) == rest
  {
    if pre == [] {
      assert pre + rest == rest;
    } else {
      assert (pre + rest)[1..] == pre[1..] + rest;
      TrimStartSkipsPadding(pre[1..], rest);
    }
  }

  lemma {:induction false} TrimEndSkipsPadding(s: string, post: string)
    requires AllSpace(post)
    requires s == [] || !IsSpace(s[|s| - 1])
    ensures TrimEnd(s + post) == s
  {
    if post == [] {
      assert s + post == s;
    } else {
      var init := post[..|post| - 1];
      assert (s + post)[..|s + post| - 1] == s + init;
      TrimEndSkipsPadding(s, init);
    }
  }

  /** `trim` removes exactly the white space padding around a string that does not itself start or end with white space. */
  lemma TrimStripsPadding(pre: string, s: string, post: string)
    requires AllSpace(pre) && AllSpace(post)
    requires s == [] || (!IsSpace(s[0]) && !IsSpace(s[|s| - 1]))
    ensures Trim(pre + s + post) == s
  {
    if s == [] {
      assert pre + s + post == (pre + post) + [];
      TrimStartSkipsPadding(pre + post, []);
    } else {
      assert pre + s + post == pre + (s + post);
      TrimStartSkipsPadding(pre, s + post);
      TrimEndSkipsPadding(s, post);
    }
  }

  /** The characters of `s` that are neither white space nor `_`, in order. */
  function Visible(s: string): (r: string)
    ensures |r| <= |s|
  {
    if s == [] then [] else (if IsSpace(s[0]) || s[0] == '_' then [] else [s[0]]) + Visible(s[1..])
  }

  /** White space in front of a string adds nothing visible. */
  lemma {:induction false} VisibleSkipsSpace(pre: string, rest: string)
    requires AllSpace(pre)
    ensures Visible(pre + rest) == Visible(rest)
  {
    if pre == [] {
      assert pre + rest == rest;
    } else {
      assert (pre + rest)[1..] == pre[1..] + rest;
      VisibleSkipsSpace(pre[1..], rest);
    }
  }

  /** Lower-casing a string that neither starts nor ends with white space leaves nothing to trim. */
  lemma TrimOfLowerUnpadded(s: string)
    requires s == [] || (!IsSpace(s[0]) && !IsSpace(s[|s| - 1]))
    ensures Trim(Lower(s)) == Lower(s)
  {
    var l := Lower(s);
    if s != [] {
      assert l[0] == LowerChar(s[0]) && l[|l| - 1] == LowerChar(s[|s| - 1]);
    }
    TrimOfUnpadded(l);
  }

  /** A string that neither starts nor ends with white space is its own trim. */
  lemma TrimOfUnpadded(s: string)
    requires s == [] || (!IsSpace(s[0]) && !IsSpace(s[|s| - 1]))
    ensures Trim(s) == s
  {
    assert [] + s + [] == s;
    TrimStripsPadding([], s, []);
  }

  /** `s.replace(/\s+/g, "_")`: every maximal run of white space becomes one underscore. */
  function CollapseSpaces(s: string): (r: string)
    ensures NoSpace(r)
    ensures NoUpper(s) ==> NoUpper(r)
    ensures |r| <= |s|
    decreases |s|
  {
    if s == [] then []
    else if IsSpace(s[0]) then "_" + CollapseSpaces(TrimStart(s))
    else [s[0]] + CollapseSpaces(s[1..])
  }

  /** Collapsing keeps every character other than white space and `_`, in order. */
  lemma {:induction false} CollapseKeepsVisible(s: string)
    ensures Visible(CollapseSpaces(s)) == Visible(s)
    decreases |s|
  {
    if s != [] {
      var r := CollapseSpaces(s);
      if IsSpace(s[0]) {
        var rest := TrimStart(s);
        assert s == s[..|s| - |rest|] + rest;
        VisibleSkipsSpace(s[..|s| - |rest|], rest);
        CollapseKeepsVisible(rest);
        assert r[1..] == CollapseSpaces(rest);
      } else {
        CollapseKeepsVisible(s[1..]);
        assert r[1..] == CollapseSpaces(s[1..]);
      }
    }
  }

  lemma {:induction false} CollapseOfNoSpaceIsIdentity(s: string)
    requires NoSpace(s)
    ensures CollapseSpaces(s) == s
    decreases |s|
  {
    if s != [] {
      assert !IsSpace(s[0]);
      CollapseOfNoSpaceIsIdentity(s[1..]);
    }
  }

  /** `s.startsWith(p)`. */
  predicate StartsWith(s: string, p: string)
  {
    |p| <= |s| && s[..|p|] == p
  }

  /**
   * `s.indexOf(c)`: the position of the first occurrence of `c`, or -1 when `c` does not
   * occur.
   */
  function IndexOf(s: string, c: char): (r: int)
    ensures -1 <= r < |s|
    ensures r == -1 <==> c !in s
    ensures r >= 0 ==> s[r] == c && c !in s[..r]
  {
    if s == [] then -1
    else if s[0] == c then 0
    else
      var k := IndexOf(s[1..], c);
      assert s[1..][..if k < 0 then 0 else k] == s[1..if k < 0 then 1 else k + 1];
      if k < 0 then -1 else k + 1
  }

  /** `sub` occurs in `s` starting at position `i`. */
  predicate OccursAt(s: string, sub: string, i: int)
  {
    0 <= i <= |s| - |sub| && s[i..i + |sub|] == sub
  }

  /** `s.includes(sub)`: `sub` occurs somewhere in `s` (the empty string occurs everywhere). */
  predicate Contains(s: string, sub: string)
    decreases |s|
  {
    StartsWith(s, sub) || (s != [] && Contains(s[1..], sub))
  }

  /** `Contains` agrees with the position-based definition of a substring. */
  lemma {:induction false} ContainsIffOccursAt(s: string, sub: string)
    ensures Contains(s, sub) <==> exists i :: OccursAt(s, sub, i)
    decreases |s|
  {
    if StartsWith(s, sub) {
      assert OccursAt(s, sub, 0);
    }
    if s != [] {
      ContainsIffOccursAt(s[1..], sub);
      if exists i :: OccursAt(s, sub, i) {
        var i :| OccursAt(s, sub, i);
        if i > 0 {
          assert OccursAt(s[1..], sub, i - 1);
        }
      }
      if Contains(s[1..], sub) {
        var i :| OccursAt(s[1..], sub, i);
        assert OccursAt(s, sub, i + 1);
      }
    }
  }

  lemma EverythingContainsEmpty(s: string)
    ensures Contains(s, "")
  {
  }
}
