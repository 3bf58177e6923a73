// String operations the topic pipeline relies on: Python's str.lower(),
// str.strip(), the regex classes \s and \w, prefix tests and the substring
// operator `in`. Characters are modelled over ASCII: non-ASCII characters are
// neither case-mapped, nor whitespace, nor word characters.
module Text {

  /** Python's whitespace (str.isspace and the regex class \s) on ASCII:
      space, \t \n \v \f \r and the separators \x1c..\x1f. */
  predicate IsSpace(c: char) {
    c == ' ' || ('\t' <= c <= '\r') || ('\U{1C}' <= c <= '\U{1F}')
  }

  /** The regex class \w on ASCII: letters, digits and underscore. */
  predicate IsWordChar(c: char) {
    ('a' <= c <= 'z') || ('A' <= c <= 'Z') || ('0' <= c <= '9') || c == '_'
  }

  predicate IsUpper(c: char) {
    'A' <= c <= 'Z'
  }

  /** str.lower() on one ASCII character. */
  function LowerChar(c: char): (d: char)
    ensures !IsUpper(d)
    ensures IsUpper(c) ==> d as int == c as int + ('a' as int - 'A' as int)
    ensures !IsUpper(c) ==> d == c
    ensures IsSpace(d) <==> IsSpace(c)
    ensures IsWordChar(d) <==> IsWordChar(c)
  {
    if IsUpper(c) then (c as int + 32) as char else c
  }

  /** str.lower(): the length is kept, every upper-case letter becomes its
      lower-case letter, and every other character stays as it is. */
  function Lower(s: string): (r: string)
    ensures |r| == |s| && IsLowerCase(r)
    ensures forall i {:trigger r[i]} :: 0 <= i < |s| && IsUpper(s[i]) ==>
      r[i] as int == s[i] as int + ('a' as int - 'A' as int)
    ensures forall i :: 0 <= i < |s| && !IsUpper(s[i]) ==> r[i] == s[i]
  {
    seq(|s|, i requires 0 <= i < |s| => LowerChar(s[i]))
  }

  predicate IsLowerCase(s: string) {
    forall i :: 0 <= i < |s| ==> !IsUpper(s[i])
  }

  predicate AllSpace(s: string) {
    forall i :: 0 <= i < |s| ==> IsSpace(s[i])
  }

  /** A non-empty string with no whitespace at either end. */
  predicate Trimmed(k: string) {
    k != [] && !IsSpace(k[0]) && !IsSpace(k[|k| - 1])
  }

  /** str.lstrip(): drops the leading run of whitespace. */
  function TrimStart(s: string): (r: string)
    ensures |r| <= |s| && r == s[|s| - |r|..]
    ensures AllSpace(s[..|s| - |r|])
    ensures r == [] || !IsSpace(r[0])
  {
    if s != [] && IsSpace(s[0]) then
      var r := TrimStart(s[1..]);
      assert s[..|s| - |r|] == [s[0]] + s[1..][..|s| - 1 - |r|];
      assert s[|s| - |r|..] == s[1..][|s| - 1 - |r|..];
      r
    else s
  }

  /** str.rstrip(): drops the trailing run of whitespace. */
  function TrimEnd(s: string): (r: string)
    ensures |r| <= |s| && r == s[..|r|]
    ensures AllSpace(s[|r|..])
    ensures r == [] || !IsSpace(r[|r| - 1])
  {
    if s != [] && IsSpace(s[|s| - 1]) then
      var r := TrimEnd(s[..|s| - 1]);
      assert s[|r|..] == s[..|s| - 1][|r|..] + [s[|s| - 1]];
      r
    else s
  }

  /** str.strip(): no whitespace left at either end; the result is empty
      exactly when the input is all whitespace. */
  function Strip(s: string): (r: string)
    ensures |r| <= |s|
    ensures r == [] || Trimmed(r)
    ensures r == [] <==> AllSpace(s)
  {
    var t := TrimStart(s);
    assert t == [] ==> AllSpace(s) by {
      if t == [] {
        assert s[..|s| - |t|] == s;
      }
    }
    assert AllSpace(s) ==> t == [] by {
      if t != [] {
        assert s[|s| - |t|] == t[0];
      }
    }
    TrimEnd(t)
  }

  /** The operator `k in t` on strings: k occurs somewhere in t. */
  predicate Contains(t: string, k: string) {
    exists i :: 0 <= i <= |t| && k <= t[i..]
  }

  /** The window of t of length |k| that starts at i is k. */
  predicate WindowAt(t: string, k: string, i: int) {
    0 <= i && i + |k| <= |t| && t[i..i + |k|] == k
  }

  /** `k in t` holds exactly when some window of t of length |k| equals k,
      which is how str.find looks for it. */
  lemma {:induction false} ContainsIffWindow(t: string, k: string)
    ensures Contains(t, k) <==> exists i :: WindowAt(t, k, i)
  {
    if Contains(t, k) {
      var i :| 0 <= i <= |t| && k <= t[i..];
      assert WindowAt(t, k, i);
    }
    if exists i :: WindowAt(t, k, i) {
      var i :| WindowAt(t, k, i);
      assert k <= t[i..] by {
        forall j | 0 <= j < |k| ensures t[i..][j] == k[j] {
          assert t[i..i + |k|][j] == k[j];
        }
      }
    }
  }

  /** A key that occurs in t occurs in any text around t. */
  lemma {:induction false} ContainsInLonger(a: string, t: string, b: string, k: string)
    requires Contains(t, k)
    ensures Contains(a + t + b, k)
  {
    var u := a + t + b;
    assert u[|a|..|a| + |t|] == t;
    ContainsFromSlice(u, k, |a|, |a| + |t|);
  }

  /** A key longer than t cannot occur in it. */
  lemma {:induction false} ContainsNeedsRoom(t: string, k: string)
    requires |k| > |t|
    ensures !Contains(t, k)
  {
  }

  lemma {:induction false} LowerIdempotent(s: string)
    ensures Lower(Lower(s)) == Lower(s)
  {
    var l := Lower(s);
    assert forall i :: 0 <= i < |s| ==> Lower(l)[i] == l[i];
  }

  /** Lowering a string without upper-case letters changes nothing. */
  lemma {:induction false} LowerOfLowerCase(s: string)
    requires IsLowerCase(s)
    ensures Lower(s) == s
  {
  }

  lemma {:induction false} TrimStartLower(s: string)
    ensures TrimStart(Lower(s)) == Lower(TrimStart(s))
    decreases |s|
  {
    if s != [] && IsSpace(s[0]) {
      assert Lower(s)[1..] == Lower(s[1..]);
      TrimStartLower(s[1..]);
    }
  }

  lemma {:induction false} TrimEndLower(s: string)
    ensures TrimEnd(Lower(s)) == Lower(TrimEnd(s))
    decreases |s|
  {
    if s != [] && IsSpace(s[|s| - 1]) {
      assert Lower(s)[..|s| - 1] == Lower(s[..|s| - 1]);
      TrimEndLower(s[..|s| - 1]);
    }
  }

  /** Lowering and stripping commute, since lowering keeps whitespace. */
  lemma {:induction false} StripLower(s: string)
    ensures Strip(Lower(s)) == Lower(Strip(s))
  {
    TrimStartLower(s);
    TrimEndLower(TrimStart(s));
  }

  /** strip() of a string that starts with a non-space character keeps a
      prefix of it, at least up to any later non-space character. */
  lemma {:induction false} StripKeepsPrefix(t: string, n: nat)
    requires 0 < n <= |t| && !IsSpace(t[0]) && !IsSpace(t[n - 1])
    ensures n <= |Strip(t)| && Strip(t) == t[..|Strip(t)|]
  {
    assert TrimStart(t) == t;
    assert n <= |TrimEnd(t)|;
  }

  /** strip() is rstrip() after lstrip(). */
  lemma {:induction false} StripUnfolds(s: string)
    ensures Strip(s) == TrimEnd(TrimStart(s))
  {
  }

  /** A string with no whitespace at either end is its own strip(). */
  lemma {:induction false} StripUnchanged(s: string)
    requires Trimmed(s)
    ensures Strip(s) == s
  {
    assert TrimStart(s) == s;
  }

  lemma {:induction false} TrimStartIdempotent(s: string)
    ensures TrimStart(TrimStart(s)) == TrimStart(s)
  {
  }

  lemma {:induction false} TrimStartSkipsSpace(w: string, s: string)
    requires AllSpace(w)
    ensures TrimStart(w + s) == TrimStart(s)
    decreases |w|
  {
    if w != [] {
      assert (w + s)[0] == w[0];
      assert (w + s)[1..] == w[1..] + s;
      assert AllSpace(w[1..]) by {
        forall i | 0 <= i < |w| - 1 ensures IsSpace(w[1..][i]) { assert w[1..][i] == w[i + 1]; }
      }
      TrimStartSkipsSpace(w[1..], s);
    } else {
      assert w + s == s;
    }
  }

  lemma {:induction false} TrimEndSkipsSpace(s: string, w: string)
    requires AllSpace(w)
    ensures TrimEnd(s + w) == TrimEnd(s)
    decreases |w|
  {
    if w != [] {
      assert (s + w)[|s + w| - 1] == w[|w| - 1];
      assert (s + w)[..|s + w| - 1] == s + w[..|w| - 1];
      assert AllSpace(w[..|w| - 1]) by {
        forall i | 0 <= i < |w| - 1 ensures IsSpace(w[i]) { }
      }
      TrimEndSkipsSpace(s, w[..|w| - 1]);
    } else {
      assert s + w == s;
    }
  }

  lemma {:induction false} TrimStartAppend(s: string, w: string)
    ensures TrimStart(s + w) == if TrimStart(s) == [] then TrimStart(w) else TrimStart(s) + w
    decreases |s|
  {
    if s == [] {
      assert s + w == w;
    } else if IsSpace(s[0]) {
      assert (s + w)[1..] == s[1..] + w;
      TrimStartAppend(s[1..], w);
    }
  }

  /** Whitespace around a string does not change what strip() returns. */
  lemma {:induction false} StripIgnoresSurroundingSpace(w1: string, s: string, w2: string)
    requires AllSpace(w1) && AllSpace(w2)
    ensures Strip(w1 + s + w2) == Strip(s)
  {
    var inner := s + w2;
    var front := TrimStart(s);
    StripUnfolds(w1 + s + w2);
    StripUnfolds(s);
    assert TrimStart(w1 + s + w2) == TrimStart(inner) by {
      assert w1 + s + w2 == w1 + inner;
      TrimStartSkipsSpace(w1, inner);
    }
    TrimStartAppend(s, w2);
    if front == [] {
      assert w2 + [] == w2;
      TrimStartSkipsSpace(w2, []);
    } else {
      TrimEndSkipsSpace(front, w2);
    }
  }


  lemma {:induction false} ContainsInSlice(t: string, k: string, lo: int, hi: int, i: int)
    requires 0 <= lo <= i && i + |k| <= hi <= |t|
    requires k <= t[i..]
    ensures Contains(t[lo..hi], k)
  {
    var u := t[lo..hi];
    forall j | 0 <= j < |k|
      ensures u[i - lo + j] == k[j]
    {
      assert t[i..][j] == k[j];
    }
    assert k <= u[i - lo..];
  }

  lemma {:induction false} ContainsFromSlice(t: string, k: string, lo: int, hi: int)
    requires 0 <= lo <= hi <= |t|
    requires Contains(t[lo..hi], k)
    ensures Contains(t, k)
  {
    var u := t[lo..hi];
    var i :| 0 <= i <= |u| && k <= u[i..];
    forall j | 0 <= j < |k|
      ensures t[lo + i + j] == k[j]
    {
      assert u[i..][j] == k[j];
    }
    assert k <= t[lo + i..];
  }

  /** Strip(t) is the slice of t between its leading and trailing runs of
      whitespace. */
  lemma {:induction false} StripIsSlice(t: string) returns (lo: nat, hi: nat)
    ensures lo <= hi <= |t| && Strip(t) == t[lo..hi]
    ensures AllSpace(t[..lo]) && AllSpace(t[hi..])
  {
    var a := TrimStart(t);
    var r := TrimEnd(a);
    lo := |t| - |a|;
    hi := lo + |r|;
    SliceOfSuffix(t, lo, |r|);
  }

  lemma {:induction false} SliceOfSuffix(t: string, lo: nat, n: nat)
    requires lo + n <= |t|
    ensures t[lo..][..n] == t[lo..lo + n]
    ensures t[lo..][n..] == t[lo + n..]
  {
  }

  lemma {:induction false} OccurrenceInsideStrip(t: string, k: string, lo: nat, hi: nat, i: nat)
    requires Trimmed(k)
    requires lo <= hi <= |t| && AllSpace(t[..lo]) && AllSpace(t[hi..])
    requires i <= |t| && k <= t[i..]
    ensures lo <= i && i + |k| <= hi
  {
    assert t[i] == k[0];
    assert t[i + |k| - 1] == k[|k| - 1];
  }

  /** A key with no whitespace at either end occurs in strip(t) exactly
      when it occurs in t. */
  lemma {:induction false} StripKeepsContains(t: string, k: string)
    requires Trimmed(k)
    ensures Contains(Strip(t), k) <==> Contains(t, k)
  {
    var lo, hi := StripIsSlice(t);
    if Contains(t, k) {
      var i :| 0 <= i <= |t| && k <= t[i..];
      OccurrenceInsideStrip(t, k, lo, hi, i);
      ContainsInSlice(t, k, lo, hi, i);
    }
    if Contains(t[lo..hi], k) {
      ContainsFromSlice(t, k, lo, hi);
    }
  }
}
