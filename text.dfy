/** String operations of Python and JavaScript that the receipt code relies on. */
module Text {
  import opened Seqs

  /** Lower-casing of one character: `A`..`Z` map to `a`..`z`, everything else is kept. */
  function LowerChar(c: char): char
  {
    if 'A' <= c <= 'Z' then (c as int + 32) as char else c
  }

  /** `str.lower()` / `String.prototype.toLowerCase()`, restricted to ASCII letters. */
  function Lower(s: string): (r: string)
    ensures |r| == |s|
  {
    seq(|s|, i requires 0 <= i < |s| => LowerChar(s[i]))
  }

  /** A text without capital letters is its own lower-case form. */
  lemma LowerKeeps(s: string)
    requires forall i :: 0 <= i < |s| ==> !('A' <= s[i] <= 'Z')
    ensures Lower(s) == s
  {
    assert forall i :: 0 <= i < |s| ==> Lower(s)[i] == s[i];
  }

  /** A lower-case letter is absent from the lower-cased text when neither case occurs in it. */
  lemma LowerAvoids(s: string, c: char)
    requires 'a' <= c <= 'z' && c !in s && (c as int - 32) as char !in s
    ensures c !in Lower(s)
  {
    forall i | 0 <= i < |s|
      ensures Lower(s)[i] != c
    {
      assert s[i] in s;
    }
  }

  /** The characters for which Python's `str.isspace()` holds; they are also what `\s`
      matches in a `str` regular expression and what `str.strip()` removes. */
  predicate IsSpace(c: char)
  {
    c == ' ' || ('\t' <= c <= '\r') || ('\U{1c}' <= c <= '\U{1f}') || c == '\U{85}'
    || c == '\U{a0}' || c == '\U{1680}' || ('\U{2000}' <= c <= '\U{200a}') || c == '\U{2028}'
    || c == '\U{2029}' || c == '\U{202f}' || c == '\U{205f}' || c == '\U{3000}'
  }

  /** `p` occurs in `s` as a contiguous block: Python's `p in s`, JavaScript's `s.includes(p)`. */
  predicate Contains(s: string, p: string)
    decreases |s|
  {
    p <= s || (s != [] && Contains(s[1..], p))
  }

  /** `p` occurs in `s` starting at index `i`. */
  predicate OccursAt(s: string, p: string, i: int)
  {
    0 <= i <= |s| - |p| && s[i..i + |p|] == p
  }

  lemma {:induction false} ContainsIff(s: string, p: string)
    ensures Contains(s, p) <==> exists i :: OccursAt(s, p, i)
  {
    if Contains(s, p) {
      if p <= s {
        assert OccursAt(s, p, 0);
      } else {
        ContainsIff(s[1..], p);
        var i :| OccursAt(s[1..], p, i);
        assert s[i + 1..i + 1 + |p|] == s[1..][i..i + |p|];
        assert OccursAt(s, p, i + 1);
      }
    }
    if exists i :: OccursAt(s, p, i) {
      var i :| OccursAt(s, p, i);
      if i == 0 {
        assert p <= s;
      } else {
        assert s[1..][i - 1..i - 1 + |p|] == s[i..i + |p|];
        assert OccursAt(s[1..], p, i - 1);
        ContainsIff(s[1..], p);
      }
    }
  }

  /** A text that lacks some character of `p` does not contain `p`. */
  lemma MissingChar(s: string, p: string, k: int)
    requires 0 <= k < |p| && p[k] !in s
    ensures !Contains(s, p)
  {
    ContainsIff(s, p);
    forall i | 0 <= i <= |s| - |p|
      ensures !OccursAt(s, p, i)
    {
      assert s[i..i + |p|][k] == s[i + k];
    }
  }

  /** `p` does not occur in `a + b` when its first character is missing from `a` and another
      of its characters from `b`. */
  lemma SplitMissing(a: string, b: string, p: string, k: int)
    requires 0 <= k < |p| && p[0] !in a && p[k] !in b
    ensures !Contains(a + b, p)
  {
    var s := a + b;
    ContainsIff(s, p);
    forall i | 0 <= i <= |s| - |p|
      ensures !OccursAt(s, p, i)
    {
      assert s[i..i + |p|][0] == s[i] && s[i..i + |p|][k] == s[i + k];
      if i < |a| {
        assert s[i] == a[i];
      } else {
        assert s[i + k] == b[i + k - |a|];
      }
    }
  }

  /** A text that lacks the first character of `p` does not contain `p`. */
  lemma {:induction false} MissingFirstChar(s: string, p: string)
    requires p != [] && p[0] !in s
    ensures !Contains(s, p)
  {
    if s != [] {
      assert s[0] != p[0];
      assert s[1..] <= s[1..] && forall c :: c in s[1..] ==> c in s;
      MissingFirstChar(s[1..], p);
    }
  }

  /** Python's `str.lstrip()`: drops the leading whitespace. */
  function TrimStart(s: string): (r: string)
    ensures |r| <= |s| && r == s[|s| - |r|..]
    ensures forall k :: 0 <= k < |s| - |r| ==> IsSpace(s[k])
    ensures r != [] ==> !IsSpace(r[0])
  {
    if s != [] && IsSpace(s[0]) then TrimStart(s[1..]) else s
  }

  /** Python's `str.rstrip()`: drops the trailing whitespace. */
  function TrimEnd(s: string): (r: string)
    ensures |r| <= |s| && r == s[..|r|]
    ensures forall k :: |r| <= k < |s| ==> IsSpace(s[k])
    ensures r != [] ==> !IsSpace(r[|r| - 1])
  {
    if s != [] && IsSpace(s[|s| - 1]) then TrimEnd(s[..|s| - 1]) else s
  }

  /** `r` is the block of `s` starting at `i`, and everything around it is whitespace. */
  predicate StrippedAt(s: string, r: string, i: int)
  {
    0 <= i <= i + |r| <= |s| && r == s[i..i + |r|]
    && (forall k :: 0 <= k < i ==> IsSpace(s[k]))
    && (forall k :: i + |r| <= k < |s| ==> IsSpace(s[k]))
  }

  /** Python's `str.strip()`: the contiguous middle of `s` left after removing whitespace
      from both ends. */
  function Strip(s: string): (r: string)
    ensures exists i :: StrippedAt(s, r, i)
    ensures r != [] ==> !IsSpace(r[0]) && !IsSpace(r[|r| - 1])
  {
    var t := TrimStart(s);
    var r := TrimEnd(t);
    assert r == s[|s| - |t|..][..|r|] == s[|s| - |t|..|s| - |t| + |r|];
    assert StrippedAt(s, r, |s| - |t|);
    r
  }

  /** Text without whitespace is its own strip. */
  lemma StripNoSpace(s: string)
    requires forall k :: 0 <= k < |s| ==> !IsSpace(s[k])
    ensures Strip(s) == s
  {
    var r := Strip(s);
    var i :| StrippedAt(s, r, i);
    assert s != [] ==> !IsSpace(s[0]) && !IsSpace(s[|s| - 1]);
    assert i == 0 && i + |r| == |s|;
  }

  /** A character that does not occur in `s` does not occur in `Strip(s)`. */
  lemma StripKeepsAbsent(s: string, c: char)
    requires c !in s
    ensures c !in Strip(s)
  {
    var i :| StrippedAt(s, Strip(s), i);
    BlockKeepsAbsent(s, Strip(s), i, c);
  }

  lemma BlockKeepsAbsent(s: string, r: string, i: int, c: char)
    requires c !in s && StrippedAt(s, r, i)
    ensures c !in r
  {
    assert forall k :: 0 <= k < |r| ==> r[k] == s[i + k];
  }

  /** `s.split(c)[0]`: the text before the first `c` (all of `s` when there is none). */
  function BeforeFirst(s: string, c: char): (r: string)
    ensures r <= s && c !in r
    ensures |r| < |s| ==> s[|r|] == c
  {
    if s == [] || s[0] == c then [] else [s[0]] + BeforeFirst(s[1..], c)
  }

  /** The text after the first `c` (empty when there is none). */
  function AfterFirst(s: string, c: char): string
  {
    var b := BeforeFirst(s, c);
    if |b| < |s| then s[|b| + 1..] else []
  }

  /** `s.split(c)[1]` is defined exactly when `c` occurs in `s`; then `s` is the two pieces
      around its first `c`. */
  lemma SplitAtFirst(s: string, c: char)
    requires c in s
    ensures s == BeforeFirst(s, c) + [c] + AfterFirst(s, c)
  {
  }

  function NotChar(c: char): char -> bool
  {
    (x: char) => x != c
  }

  /** `s.replace(c, "")` for a single character `c`. */
  function RemoveChar(s: string, c: char): (r: string)
    ensures c !in r
    ensures forall i :: 0 <= i < |s| && s[i] != c ==> s[i] in r
  {
    var r := Filter(NotChar(c), s);
    FilterMember(NotChar(c), s, c);
    assert forall i :: 0 <= i < |s| && s[i] != c ==> s[i] in r by {
      forall i | 0 <= i < |s| && s[i] != c ensures s[i] in r {
        FilterMember(NotChar(c), s, s[i]);
      }
    }
    r
  }

  /** `s.replace(pat, "")`: occurrences of `pat` are removed scanning from the left,
      the scan continuing after each removed occurrence. */
  function RemoveAll(s: string, pat: string): string
    requires pat != []
  {
    if |s| < |pat| then s
    else if pat <= s then RemoveAll(s[|pat|..], pat)
    else [s[0]] + RemoveAll(s[1..], pat)
  }

  /** `s + p` loses exactly its final `p` when `s` holds no `p` and the first character of `p`
      does not recur in it: no occurrence can straddle the junction. */
  lemma {:induction false} DropSuffix(s: string, p: string)
    requires p != [] && !Contains(s, p)
    requires forall k :: 0 < k < |p| ==> p[k] != p[0]
    ensures RemoveAll(s + p, p) == s
  {
    var t := s + p;
    if s == [] {
      assert t == p && t[|p|..] == [];
      assert RemoveAll(t, p) == RemoveAll([], p);
    } else {
      NotAtFront(s, p);
      assert !Contains(s[1..], p);
      assert t[1..] == s[1..] + p;
      assert RemoveAll(t, p) == [t[0]] + RemoveAll(t[1..], p);
      DropSuffix(s[1..], p);
      assert [s[0]] + s[1..] == s;
    }
  }

  lemma NotAtFront(s: string, p: string)
    requires p != [] && s != [] && !Contains(s, p)
    requires forall k :: 0 < k < |p| ==> p[k] != p[0]
    ensures !(p <= s + p)
  {
    var t := s + p;
    if |s| >= |p| {
      assert t[..|p|] == s[..|p|];
      assert !(p <= s);
    } else {
      assert t[|s|] == p[0];
      assert p[|s|] != p[0];
      assert t[..|p|][|s|] == t[|s|];
    }
  }
}
