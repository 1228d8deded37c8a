/**
 * String helpers with the meaning of the Python string operations the
 * simulators use: substring test (`sub in s`), `endswith`, the last
 * component of `split('/')`, `replace('\n', '')`, `strip()` and
 * `os.path.join` with two components.
 */
module Text {

  /** Python's `sub in s`. */
  predicate Contains(s: string, sub: string)
    decreases |s|
  {
    sub <= s || (|s| > 0 && Contains(s[1..], sub))
  }

  /** `Contains` agrees with the usual "occurs at some position" reading. */
  lemma {:induction false} ContainsAt(s: string, sub: string, i: nat)
    requires i + |sub| <= |s| && s[i..i + |sub|] == sub
    ensures Contains(s, sub)
    decreases i
  {
    if i == 0 {
      assert s[..|sub|] == sub;
    } else {
      assert s[1..][i - 1..i - 1 + |sub|] == s[i..i + |sub|];
      ContainsAt(s[1..], sub, i - 1);
    }
  }

  /** `sub` occurs in `s` at position `i`. */
  predicate OccursAt(s: string, sub: string, i: int)
  {
    0 <= i <= |s| - |sub| && s[i..i + |sub|] == sub
  }

  /** Conversely, a string that contains `sub` has it at some position. */
  lemma {:induction false} ContainsOccurs(s: string, sub: string)
    requires Contains(s, sub)
    ensures exists i :: OccursAt(s, sub, i)
    decreases |s|
  {
    if sub <= s {
      assert OccursAt(s, sub, 0);
    } else {
      ContainsOccurs(s[1..], sub);
      var i :| OccursAt(s[1..], sub, i);
      assert s[i + 1..i + 1 + |sub|] == s[1..][i..i + |sub|];
      assert OccursAt(s, sub, i + 1);
    }
  }

  /** A string that contains `sub` also contains it after anything is put around it. */
  lemma {:induction false} ContainsInSuffix(s: string, t: string, sub: string)
    requires Contains(t, sub)
    ensures Contains(s + t, sub)
    decreases |s|
  {
    if s == [] {
      assert s + t == t;
    } else {
      assert (s + t)[1..] == s[1..] + t;
      ContainsInSuffix(s[1..], t, sub);
    }
  }

  /** Python's `s.endswith(suffix)`. */
  predicate EndsWith(s: string, suffix: string)
  {
    |suffix| <= |s| && s[|s| - |suffix|..] == suffix
  }

  /** A suffix of a suffix is a suffix. */
  lemma SuffixOfSuffix(s: string, r: string, t: string)
    requires EndsWith(s, r) && EndsWith(r, t)
    ensures EndsWith(s, t)
  {
    assert s[|s| - |t|..] == s[|s| - |r|..][|r| - |t|..];
  }

  /**
   * The last component of `s.split('/')`: the characters after the last
   * slash, or the whole string when there is none.
   */
  function BaseName(s: string): (r: string)
    ensures '/' !in r
    ensures EndsWith(s, r)
    ensures r == s || s[|s| - |r| - 1] == '/'
  {
    var i := LastSlash(s);
    var r := s[i + 1..];
    assert |s| - |r| == i + 1;
    assert '/' !in r by {
      forall k | 0 <= k < |r| ensures r[k] != '/' {
        assert r[k] == s[i + 1 + k];
      }
    }
    assert i == -1 ==> r == s;
    r
  }

  /** A suffix of `s` without a slash is a suffix of its last component. */
  lemma BaseNameSuffix(s: string, t: string)
    requires EndsWith(s, t) && '/' !in t
    ensures EndsWith(BaseName(s), t)
  {
    var i := LastSlash(s);
    assert i < |s| - |t|;
    SliceSuffix(s, t, i + 1);
  }

  /** Dropping a prefix no longer than what precedes suffix `t` keeps `t` a suffix. */
  lemma SliceSuffix(s: string, t: string, m: nat)
    requires EndsWith(s, t) && m <= |s| - |t|
    ensures EndsWith(s[m..], t)
  {
    assert s[m..][|s| - m - |t|..] == s[|s| - |t|..];
  }

  /** The position of the last slash of `s`, or -1 when there is none. */
  function LastSlash(s: string): (i: int)
    ensures -1 <= i < |s|
    ensures i >= 0 ==> s[i] == '/'
    ensures forall j :: i < j < |s| ==> s[j] != '/'
    decreases |s|
  {
    if s == [] then -1
    else if s[|s| - 1] == '/' then |s| - 1
    else LastSlash(s[..|s| - 1])
  }

  /** Python's `s.replace('\n', '')`. */
  function RemoveNewlines(s: string): (r: string)
    ensures '\n' !in r
    ensures |r| <= |s|
    ensures '\n' !in s ==> r == s
    ensures forall c :: c != '\n' ==> multiset(r)[c] == multiset(s)[c]
  {
    if s == [] then []
    else
      var rest := RemoveNewlines(s[1..]);
      assert s == [s[0]] + s[1..];
      if s[0] == '\n' then rest else [s[0]] + rest
  }

  /**
   * Removing line breaks from a concatenation removes them from each part,
   * so the characters kept stay in their order.
   */
  lemma {:induction false} RemoveNewlinesAppend(a: string, b: string)
    ensures RemoveNewlines(a + b) == RemoveNewlines(a) + RemoveNewlines(b)
    decreases |a|
  {
    if a == [] {
      assert a + b == b;
    } else {
      assert (a + b)[0] == a[0] && (a + b)[1..] == a[1..] + b;
      RemoveNewlinesAppend(a[1..], b);
    }
  }

  /** The characters Python's `str.isspace()` accepts. */
  predicate IsSpace(c: char)
  {
    c in {'\U{0020}', '\U{0009}', '\U{000A}', '\U{000D}', '\U{000B}', '\U{000C}', '\U{001C}',
          '\U{001D}', '\U{001E}', '\U{001F}', '\U{0085}', '\U{00A0}', '\U{1680}', '\U{2000}',
          '\U{2001}', '\U{2002}', '\U{2003}', '\U{2004}', '\U{2005}', '\U{2006}', '\U{2007}',
          '\U{2008}', '\U{2009}', '\U{200A}', '\U{2028}', '\U{2029}', '\U{202F}', '\U{205F}',
          '\U{3000}'}
  }

  /** Drops the leading white space of `s`. */
  function TrimStart(s: string): (r: string)
    ensures EndsWith(s, r)
    ensures r == [] || !IsSpace(r[0])
    ensures forall k :: 0 <= k < |s| - |r| ==> IsSpace(s[k])
  {
    if s == [] || !IsSpace(s[0]) then s else TrimStart(s[1..])
  }

  /** Drops the trailing white space of `s`. */
  function TrimEnd(s: string): (r: string)
    ensures r <= s
    ensures r == [] || !IsSpace(r[|r| - 1])
    ensures forall k :: |r| <= k < |s| ==> IsSpace(s[k])
  {
    if s == [] || !IsSpace(s[|s| - 1]) then s else TrimEnd(s[..|s| - 1])
  }

  /** Python's `s.strip()`. */
  function Strip(s: string): (r: string)
  {
    TrimEnd(TrimStart(s))
  }

  /**
   * `r` is the piece of `s` starting at `i`, with no white space at either
   * end, and `s` holds nothing but white space around it.
   */
  predicate StrippedAt(s: string, i: int, r: string)
  {
    && (r == [] || (!IsSpace(r[0]) && !IsSpace(r[|r| - 1])))
    && 0 <= i <= |s| - |r| && s[i..i + |r|] == r
    && (forall k :: 0 <= k < i ==> IsSpace(s[k]))
    && (forall k :: i + |r| <= k < |s| ==> IsSpace(s[k]))
  }

  /**
   * What `strip()` produces: the piece of `s` after its leading white
   * space, with no white space at either end and only white space around it.
   */
  lemma StripSpec(s: string)
    ensures StrippedAt(s, |s| - |TrimStart(s)|, Strip(s))
  {
    StripShape(s, TrimStart(s), Strip(s));
  }

  /**
   * A suffix `t` of `s` after white space only, and a prefix `r` of `t`
   * before white space only, with no white space at the inner ends, make
   * `r` the stripped piece of `s`.
   */
  lemma StripShape(s: string, t: string, r: string)
    requires EndsWith(s, t) && (forall k :: 0 <= k < |s| - |t| ==> IsSpace(s[k]))
    requires t == [] || !IsSpace(t[0])
    requires r <= t && (r == [] || !IsSpace(r[|r| - 1]))
    requires forall k :: |r| <= k < |t| ==> IsSpace(t[k])
    ensures StrippedAt(s, |s| - |t|, r)
  {
    var i := |s| - |t|;
    assert s[i..i + |r|] == t[..|r|];
    forall k | i + |r| <= k < |s| ensures IsSpace(s[k]) {
      assert s[k] == t[k - i];
    }
  }

  /** Stripping a string twice changes nothing more. */
  lemma StripIdempotent(s: string)
    ensures Strip(Strip(s)) == Strip(s)
  {
    var r := Strip(s);
    assert TrimStart(r) == r;
  }

  /** Posix `os.path.join(a, b)` for two components. */
  function PathJoin(a: string, b: string): (r: string)
    ensures EndsWith(r, b)
    ensures b != [] && b[0] == '/' ==> r == b
    ensures (b == [] || b[0] != '/') ==> a <= r
    ensures (b == [] || b[0] != '/') && a != [] && a[|a| - 1] != '/' ==> r == a + "/" + b
  {
    if b != [] && b[0] == '/' then b
    else if a == [] || a[|a| - 1] == '/' then a + b
    else a + "/" + b
  }
}
