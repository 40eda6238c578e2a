/**
 The few Python 2 `str` operations the HTTP client relies on: `find`,
 `split()` and `strip()` with no arguments, and joining a list of strings.
 Strings are sequences of characters; Python 2 byte strings treat the six
 ASCII characters space, tab, line feed, vertical tab, form feed and
 carriage return as whitespace.
 */
module PyStr {

  /** `str.isspace` for one character: ' ' or one of '\t' '\n' '\v' '\f' '\r'
      (codes 9 to 13). */
  predicate IsSpace(c: char) {
    c == ' ' || '\t' <= c <= '\r'
  }

  /** A token of `split()`: non-empty and free of whitespace. */
  predicate IsWord(w: string) {
    |w| > 0 && forall c :: c in w ==> !IsSpace(c)
  }

  /** Neither starts nor ends with whitespace (what `strip()` produces). */
  predicate Trimmed(s: string) {
    |s| == 0 || (!IsSpace(s[0]) && !IsSpace(s[|s| - 1]))
  }

  // ---------------------------------------------------------------------
  // Joining

  /** `''.join(ss)`: the strings of `ss` laid end to end. */
  function Concat(ss: seq<string>): string {
    if |ss| == 0 then "" else ss[0] + Concat(ss[1..])
  }

  /** Joining distributes over concatenation of the lists. */
  lemma {:induction false} ConcatAppend(a: seq<string>, b: seq<string>)
    ensures Concat(a + b) == Concat(a) + Concat(b)
    decreases |a|
  {
    if |a| == 0 {
      assert a + b == b;
    } else {
      assert (a + b)[1..] == a[1..] + b;
      ConcatAppend(a[1..], b);
    }
  }

  /** Appending one string to the list appends it to the join: the step
      `response += chunk` of a receive loop. */
  lemma ConcatSnoc(ss: seq<string>, s: string)
    ensures Concat(ss + [s]) == Concat(ss) + s
  {
    ConcatAppend(ss, [s]);
    assert Concat([s]) == s + Concat([]);
  }

  /** The join of a prefix, extended by one more element. */
  lemma ConcatPrefixStep(ss: seq<string>, i: nat)
    requires i < |ss|
    ensures Concat(ss[..i + 1]) == Concat(ss[..i]) + ss[i]
  {
    assert ss[..i + 1] == ss[..i] + [ss[i]];
    ConcatSnoc(ss[..i], ss[i]);
  }

  // ---------------------------------------------------------------------
  // find

  /** `pat` occurs in `s` starting at index `i`. */
  predicate OccursAt(s: string, pat: string, i: int) {
    0 <= i && i + |pat| <= |s| && s[i..i + |pat|] == pat
  }

  /** `s.find(pat, i)`: the first occurrence at or after `i`, or -1. */
  function FindFrom(s: string, pat: string, i: nat): (r: int)
    requires i <= |s|
    ensures r == -1 || (i <= r && OccursAt(s, pat, r))
    ensures r == -1 ==> forall j :: i <= j ==> !OccursAt(s, pat, j)
    ensures r != -1 ==> forall j :: i <= j < r ==> !OccursAt(s, pat, j)
    decreases |s| - i
  {
    if i + |pat| > |s| then -1
    else if s[i..i + |pat|] == pat then i
    else
      assert |pat| > 0;
      FindFrom(s, pat, i + 1)
  }

  /** `s.find(pat)`: -1 exactly when `pat` does not occur, otherwise the
      index of its first occurrence. */
  function Find(s: string, pat: string): (r: int)
    ensures r == -1 <==> forall j :: !OccursAt(s, pat, j)
    ensures r != -1 ==> OccursAt(s, pat, r)
    ensures r != -1 ==> forall j :: 0 <= j < r ==> !OccursAt(s, pat, j)
  {
    FindFrom(s, pat, 0)
  }

  // ---------------------------------------------------------------------
  // split() and strip()

  /** Drops leading whitespace (`lstrip()`). */
  function StripLeft(s: string): (r: string)
    ensures |r| <= |s| && r == s[|s| - |r|..]
    ensures |r| > 0 ==> !IsSpace(r[0])
    ensures forall k :: 0 <= k < |s| - |r| ==> IsSpace(s[k])
  {
    if |s| == 0 || !IsSpace(s[0]) then s else StripLeft(s[1..])
  }

  /** Drops trailing whitespace (`rstrip()`). */
  function StripRight(s: string): (r: string)
    ensures |r| <= |s| && r == s[..|r|]
    ensures |r| > 0 ==> !IsSpace(r[|r| - 1])
    ensures forall k :: |r| <= k < |s| ==> IsSpace(s[k])
  {
    if |s| == 0 || !IsSpace(s[|s| - 1]) then s else StripRight(s[..|s| - 1])
  }

  /** `s.strip()`. */
  function Strip(s: string): (r: string)
    ensures Trimmed(r)
  {
    StripRight(StripLeft(s))
  }

  /** Trailing whitespace is exactly what `rstrip()` removes. */
  lemma {:induction false} StripRightDropsSpaces(s: string, tail: string)
    requires forall c :: c in tail ==> IsSpace(c)
    ensures StripRight(s + tail) == StripRight(s)
    decreases |tail|
  {
    if |tail| > 0 {
      var t := s + tail;
      assert t[|t| - 1] == tail[|tail| - 1] && tail[|tail| - 1] in tail;
      assert t[..|t| - 1] == s + tail[..|tail| - 1];
      StripRightDropsSpaces(s, tail[..|tail| - 1]);
    } else {
      assert s + tail == s;
    }
  }

  /** `(w + ' ' + e + tail).strip()` for a word `w`, a stripped `e` and a
      whitespace `tail`: the tail goes, and so does the space when `e` is
      empty. */
  lemma StripWordSpaceTrimmed(w: string, e: string, tail: string)
    requires IsWord(w) && Trimmed(e)
    requires forall c :: c in tail ==> IsSpace(c)
    ensures Strip(w + " " + e + tail) == if e == "" then w else w + " " + e
  {
    var y := w + " " + e;
    var s := y + tail;
    assert s[0] == w[0] && w[0] in w;
    assert StripLeft(s) == s;
    StripRightDropsSpaces(y, tail);
    assert w[|w| - 1] in w;
    if e == "" {
      assert y == w + " ";
      StripRightDropsSpaces(w, " ");
      assert StripRight(w) == w;
    } else {
      assert y[|y| - 1] == e[|e| - 1];
      assert StripRight(y) == y;
    }
  }

  /** Length of the leading run of non-whitespace characters. */
  function WordLength(s: string): (n: nat)
    ensures n <= |s|
    ensures forall k :: 0 <= k < n ==> !IsSpace(s[k])
    ensures n < |s| ==> IsSpace(s[n])
  {
    if |s| == 0 || IsSpace(s[0]) then 0 else 1 + WordLength(s[1..])
  }

  /** `s.split()`: the maximal whitespace-free runs of `s`, in order. */
  function Split(s: string): (r: seq<string>)
    ensures forall i :: 0 <= i < |r| ==> IsWord(r[i])
    decreases |s|
  {
    var t := StripLeft(s);
    if |t| == 0 then []
    else
      var n := WordLength(t);
      assert forall c :: c in t[..n] ==> !IsSpace(c);
      [t[..n]] + Split(t[n..])
  }

  /** A leading whitespace character does not change the tokens. */
  lemma SplitSkipsSpace(c: char, rest: string)
    requires IsSpace(c)
    ensures Split([c] + rest) == Split(rest)
  {
    assert ([c] + rest)[1..] == rest;
  }

  /** A word followed by whitespace is the first token, and the remaining
      tokens come from what follows the whitespace. */
  lemma SplitLeadingWord(w: string, c: char, rest: string)
    requires IsWord(w) && IsSpace(c)
    ensures Split(w + [c] + rest) == [w] + Split(rest)
  {
    var s := w + [c] + rest;
    assert !IsSpace(s[0]) by { assert s[0] == w[0] && w[0] in w; }
    assert StripLeft(s) == s;
    forall k | 0 <= k < |w|
      ensures !IsSpace(s[k])
    {
      assert s[k] == w[k] && w[k] in w;
    }
    assert s[|w|] == c;
    var n := WordLength(s);
    assert n == |w|;
    assert s[..n] == w;
    assert s[n..] == [c] + rest;
    SplitSkipsSpace(c, rest);
  }

  // ---------------------------------------------------------------------
  // Decimal rendering

  /** `str(n)` for a natural number: its decimal digits, most significant
      first, without leading zeros. */
  function NatToString(n: nat): (r: string)
    ensures |r| > 0
    ensures forall c :: c in r ==> '0' <= c <= '9'
    decreases n
  {
    var d := ['0' + (n % 10) as char];
    if n < 10 then d else NatToString(n / 10) + d
  }
}
