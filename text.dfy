/**
 * The Python 2 string operations the login command relies on, over `string`
 * (a sequence of characters): truthiness of an optional string, the
 * substring test `p in s`, `split` on one character, `strip()` and `lower()`.
 * A Python 2 `str` is a byte string, so `strip()` removes the six ASCII
 * whitespace characters and `lower()` maps only `A`..`Z`.
 */
module Text {
  import opened Wrappers

  /** Python truthiness of an option value that is a string or `None`. */
  predicate Truthy(o: Option<string>) {
    o.Some? && o.value != ""
  }

  // ----- the substring test `p in s` -----

  /** `p in s` for strings: `p` occurs somewhere in `s`. */
  predicate Contains(s: string, p: string)
    decreases |s|
  {
    p <= s || (|s| > 0 && Contains(s[1..], p))
  }

  /** `p` occurs in `s` starting at index `i`. */
  predicate OccursAt(s: string, p: string, i: int) {
    0 <= i && i + |p| <= |s| && s[i..i + |p|] == p
  }

  /** The recursive substring test agrees with "there is a position where `p` occurs". */
  lemma {:induction false} ContainsIffOccurs(s: string, p: string)
    ensures Contains(s, p) <==> exists i :: OccursAt(s, p, i)
    decreases |s|
  {
    if p <= s {
      assert OccursAt(s, p, 0);
    } else if |s| == 0 {
    } else {
      ContainsIffOccurs(s[1..], p);
      if Contains(s[1..], p) {
        var i :| OccursAt(s[1..], p, i);
        assert s[i + 1..i + 1 + |p|] == s[1..][i..i + |p|];
        assert OccursAt(s, p, i + 1);
      }
      if i :| OccursAt(s, p, i) {
        assert i != 0;
        var inTail, inWhole := s[1..][i - 1..i - 1 + |p|], s[i..i + |p|];
        forall k | 0 <= k < |p| ensures inTail[k] == inWhole[k] {
          assert s[1..][i - 1 + k] == s[i + k];
        }
        assert inTail == inWhole;
        assert OccursAt(s[1..], p, i - 1);
      }
    }
  }

  /** A string that begins with `p` contains `p`, and so does anything ending with it. */
  lemma {:induction false} ContainsPrefixed(p: string, u: string)
    ensures Contains(p + u, p)
    ensures Contains(u + p, p)
  {
    assert OccursAt(u + p, p, |u|) by {
      assert (u + p)[|u|..|u| + |p|] == p;
    }
    ContainsIffOccurs(u + p, p);
  }

  // ----- `str.split(d)` -----

  /** Number of occurrences of `c` in `s`. */
  function Count(s: string, c: char): nat
    decreases |s|
  {
    if s == [] then 0 else (if s[0] == c then 1 else 0) + Count(s[1..], c)
  }

  /**
   * `s.split(d)`: the pieces between the occurrences of `d`, always at least
   * one (`"".split("=") == [""]`).
   */
  function Split(s: string, d: char): (parts: seq<string>)
    ensures |parts| >= 1
    decreases |s|
  {
    if s == [] then [[]]
    else
      var rest := Split(s[1..], d);
      if s[0] == d then [[]] + rest else [[s[0]] + rest[0]] + rest[1..]
  }

  /** `d.join(parts)`, the reference definition that `Split` inverts. */
  function Join(parts: seq<string>, d: char): string
    requires |parts| >= 1
    decreases |parts|
  {
    if |parts| == 1 then parts[0] else parts[0] + [d] + Join(parts[1..], d)
  }

  /** Rejoining the pieces with the separator gives back the string. */
  lemma {:induction false} JoinOfSplit(s: string, d: char)
    ensures Join(Split(s, d), d) == s
    decreases |s|
  {
    if s != [] {
      JoinOfSplit(s[1..], d);
      var rest := Split(s[1..], d);
      if s[0] == d {
        assert Split(s, d)[1..] == rest;
      } else if |rest| == 1 {
        assert Split(s, d) == [[s[0]] + rest[0]];
      } else {
        var parts := Split(s, d);
        assert parts[1..] == rest[1..];
        assert Join(rest, d) == rest[0] + [d] + Join(rest[1..], d);
      }
    }
  }

  /** There is one piece more than there are separators, and no piece holds a separator. */
  lemma {:induction false} SplitPieces(s: string, d: char)
    ensures |Split(s, d)| == Count(s, d) + 1
    ensures forall k :: 0 <= k < |Split(s, d)| ==> d !in Split(s, d)[k]
    decreases |s|
  {
    if s != [] {
      SplitPieces(s[1..], d);
      var rest := Split(s[1..], d);
      if s[0] != d {
        var parts := Split(s, d);
        assert parts[0] == [s[0]] + rest[0];
        forall k | 1 <= k < |parts| ensures d !in parts[k] {
          assert parts[k] == rest[k];
        }
      }
    }
  }

  /** Splitting a string with no separator in its first `|a|` characters extends the first piece. */
  lemma {:induction false} SplitAfterPlainPrefix(a: string, t: string, d: char)
    requires d !in a
    ensures Split(a + t, d) == [a + Split(t, d)[0]] + Split(t, d)[1..]
    decreases |a|
  {
    if a != [] {
      assert (a + t)[1..] == a[1..] + t;
      assert d !in a[1..] by {
        forall c | c in a[1..] ensures c != d { assert c in a; }
      }
      SplitAfterPlainPrefix(a[1..], t, d);
      var rest := Split(a[1..] + t, d);
      assert rest == [a[1..] + Split(t, d)[0]] + Split(t, d)[1..];
      assert rest[0] == a[1..] + Split(t, d)[0];
      assert rest[1..] == Split(t, d)[1..];
      assert a[0] != d && (a + t)[0] == a[0];
      assert a + t != [];
      assert Split(a + t, d) == [[a[0]] + rest[0]] + rest[1..];
      assert [a[0]] + (a[1..] + Split(t, d)[0]) == a + Split(t, d)[0];
    } else {
      assert a + t == t && a + Split(t, d)[0] == Split(t, d)[0];
    }
  }

  /** Splitting a join of separator-free pieces gives back the pieces. */
  lemma {:induction false} SplitOfJoin(parts: seq<string>, d: char)
    requires |parts| >= 1
    requires forall k :: 0 <= k < |parts| ==> d !in parts[k]
    ensures Split(Join(parts, d), d) == parts
    decreases |parts|
  {
    if |parts| == 1 {
      SplitAfterPlainPrefix(parts[0], [], d);
      assert parts[0] + [] == parts[0];
    } else {
      var tail := Join(parts[1..], d);
      SplitOfJoin(parts[1..], d);
      assert ([d] + tail)[1..] == tail;
      assert Split([d] + tail, d) == [[]] + parts[1..];
      assert Join(parts, d) == parts[0] + ([d] + tail);
      SplitAfterPlainPrefix(parts[0], [d] + tail, d);
      assert parts[0] + [] == parts[0];
      assert [parts[0]] + parts[1..] == parts;
    }
  }

  // ----- `str.strip()` -----

  /** The characters Python 2's `str.strip()` removes: space, tab, LF, CR, VT and FF. */
  predicate IsSpace(c: char) {
    c == ' ' || c == '\t' || c == '\n' || c == '\r' || c == '\U{B}' || c == '\U{C}'
  }

  predicate AllSpace(s: string) {
    forall i :: 0 <= i < |s| ==> IsSpace(s[i])
  }

  /** Neither end of `s` is whitespace. */
  predicate Trimmed(s: string) {
    s == [] || (!IsSpace(s[0]) && !IsSpace(s[|s| - 1]))
  }

  /** `s.lstrip()` */
  function StripLeft(s: string): (r: string)
    ensures |r| <= |s|
    decreases |s|
  {
    if |s| > 0 && IsSpace(s[0]) then StripLeft(s[1..]) else s
  }

  /** `s.rstrip()` */
  function StripRight(s: string): (r: string)
    ensures |r| <= |s|
    decreases |s|
  {
    if |s| > 0 && IsSpace(s[|s| - 1]) then StripRight(s[..|s| - 1]) else s
  }

  /** `s.strip()` */
  function Strip(s: string): (r: string)
    ensures |r| <= |s|
    ensures Trimmed(r)
  {
    StripLeftDropsLeadingSpace(s);
    StripRightDropsTrailingSpace(StripLeft(s));
    var l := StripLeft(s);
    var r := StripRight(l);
    assert r != [] ==> r[0] == l[0];
    r
  }

  /** `lstrip` drops exactly a leading run of whitespace and stops at a non-space. */
  lemma {:induction false} StripLeftDropsLeadingSpace(s: string)
    ensures StripLeft(s) == s[|s| - |StripLeft(s)|..]
    ensures AllSpace(s[..|s| - |StripLeft(s)|])
    ensures StripLeft(s) == [] || !IsSpace(StripLeft(s)[0])
    decreases |s|
  {
    if |s| > 0 && IsSpace(s[0]) {
      StripLeftDropsLeadingSpace(s[1..]);
      var n := |s| - |StripLeft(s)|;
      assert s[1..][n - 1..] == s[n..];
      forall i | 0 <= i < n ensures IsSpace(s[..n][i]) {
        if i > 0 { assert s[..n][i] == s[1..][..n - 1][i - 1]; }
      }
    }
  }

  /** `rstrip` drops exactly a trailing run of whitespace and stops at a non-space. */
  lemma {:induction false} StripRightDropsTrailingSpace(s: string)
    ensures StripRight(s) == s[..|StripRight(s)|]
    ensures AllSpace(s[|StripRight(s)|..])
    ensures StripRight(s) == [] || !IsSpace(StripRight(s)[|StripRight(s)| - 1])
    decreases |s|
  {
    if |s| > 0 && IsSpace(s[|s| - 1]) {
      var s' := s[..|s| - 1];
      StripRightDropsTrailingSpace(s');
      var n := |StripRight(s)|;
      assert s'[..n] == s[..n];
      forall i | n <= i < |s| ensures IsSpace(s[i]) {
        if i < |s| - 1 { assert s[i] == s'[n..][i - n]; }
      }
      assert forall i :: 0 <= i < |s[n..]| ==> s[n..][i] == s[n + i];
    }
  }

  /**
   * `strip()` returns the infix of `s` left after removing a leading and a
   * trailing run of whitespace, and that infix begins and ends with a non-space.
   */
  lemma StripIsTrimmedInfix(s: string)
    ensures var i := |s| - |StripLeft(s)|;
      i + |Strip(s)| <= |s| &&
      Strip(s) == s[i..i + |Strip(s)|] &&
      AllSpace(s[..i]) && AllSpace(s[i + |Strip(s)|..])
    ensures Trimmed(Strip(s))
  {
    var l := StripLeft(s);
    StripLeftDropsLeadingSpace(s);
    StripRightDropsTrailingSpace(l);
    var i := |s| - |l|;
    var r := Strip(s);
    assert l == s[i..];
    assert r == s[i..][..|r|] == s[i..i + |r|];
    assert s[i + |r|..] == l[|r|..];
    if r != [] {
      assert r[0] == l[0];
    }
  }

  /** Stripping twice is stripping once. */
  lemma StripIdempotent(s: string)
    ensures Strip(Strip(s)) == Strip(s)
  {
    StripIsTrimmedInfix(s);
  }

  // ----- `str.lower()` -----

  /** Python 2 `str.lower()` on one character: only `A`..`Z` change. */
  function LowerChar(c: char): char {
    if 'A' <= c <= 'Z' then (c as int + 32) as char else c
  }

  /** `s.lower()` */
  function Lower(s: string): (r: string)
    ensures |r| == |s|
    ensures forall i :: 0 <= i < |r| ==> !('A' <= r[i] <= 'Z')
    ensures forall i :: 0 <= i < |r| ==>
      r[i] == s[i] || ('A' <= s[i] <= 'Z' && r[i] as int == s[i] as int + 32)
  {
    seq(|s|, i requires 0 <= i < |s| => LowerChar(s[i]))
  }
}
