/**
 Text primitives used by the prompt enhancer: Python's notion of a whitespace
 character and `str.strip()` with no arguments, which removes the longest
 leading and the longest trailing run of whitespace.
 */
module Text {

  /** The characters for which CPython's `str.isspace()` holds; `str.strip()`
      with no argument removes exactly these. */
  predicate IsWs(c: char) {
    || ('\t' <= c <= '\r')              // tab, line feed, vertical tab, form feed, carriage return
    || ('\U{1C}' <= c <= '\U{1F}')      // file, group, record and unit separators
    || c == ' '
    || c == '\U{85}'                    // next line
    || c == '\U{A0}'                    // no-break space
    || c == '\U{1680}'                  // ogham space mark
    || ('\U{2000}' <= c <= '\U{200A}')  // en quad .. hair space
    || c == '\U{2028}'                  // line separator
    || c == '\U{2029}'                  // paragraph separator
    || c == '\U{202F}'                  // narrow no-break space
    || c == '\U{205F}'                  // medium mathematical space
    || c == '\U{3000}'                  // ideographic space
  }

  predicate AllWs(s: string) {
    forall i :: 0 <= i < |s| ==> IsWs(s[i])
  }

  /** Neither starts nor ends with whitespace (the empty string qualifies). */
  predicate IsTrimmed(s: string) {
    s == [] || (!IsWs(s[0]) && !IsWs(s[|s| - 1]))
  }

  /** Python's `s.strip()`: peel whitespace off the front, then off the
      back, until neither end is whitespace. */
  function Strip(s: string): (r: string)
    ensures IsTrimmed(r)
    ensures |r| <= |s|
    decreases |s|
  {
    if s != [] && IsWs(s[0]) then Strip(s[1..])
    else if s != [] && IsWs(s[|s| - 1]) then Strip(s[..|s| - 1])
    else s
  }

  /** `r` sits in `s` at offset `lo` with only whitespace around it. */
  ghost predicate PaddedAt(s: string, lo: int, r: string) {
    && 0 <= lo && lo + |r| <= |s|
    && s[lo..lo + |r|] == r
    && AllWs(s[..lo])
    && AllWs(s[lo + |r|..])
  }

  /** Putting a whitespace character in front keeps `r` padded. */
  lemma PaddedAfterFront(s: string, lo: int, r: string)
    requires s != [] && IsWs(s[0]) && PaddedAt(s[1..], lo, r)
    ensures PaddedAt(s, lo + 1, r)
  {
    assert s[..lo + 1] == [s[0]] + s[1..][..lo];
    assert s[lo + 1..lo + 1 + |r|] == s[1..][lo..lo + |r|];
    assert s[lo + 1 + |r|..] == s[1..][lo + |r|..];
  }

  /** Putting a whitespace character at the back keeps `r` padded. */
  lemma PaddedAfterBack(s: string, lo: int, r: string)
    requires s != [] && IsWs(s[|s| - 1]) && PaddedAt(s[..|s| - 1], lo, r)
    ensures PaddedAt(s, lo, r)
  {
    var init := s[..|s| - 1];
    assert s[..lo] == init[..lo];
    assert s[lo..lo + |r|] == init[lo..lo + |r|];
    assert s[lo + |r|..] == init[lo + |r|..] + [s[|s| - 1]];
  }

  /** Existence: what `Strip` returns is a slice of its input with nothing
      but whitespace on either side. */
  lemma {:induction false} StripIsPadded(s: string)
    ensures exists lo :: PaddedAt(s, lo, Strip(s))
    decreases |s|
  {
    var r := Strip(s);
    if s != [] && IsWs(s[0]) {
      StripIsPadded(s[1..]);
      var lo :| PaddedAt(s[1..], lo, r);
      PaddedAfterFront(s, lo, r);
    } else if s != [] && IsWs(s[|s| - 1]) {
      StripIsPadded(s[..|s| - 1]);
      var lo :| PaddedAt(s[..|s| - 1], lo, r);
      PaddedAfterBack(s, lo, r);
    } else {
      assert s[..0] == [] && s[|s|..] == [] && s[0..|s|] == s;
      assert PaddedAt(s, 0, r);
    }
  }

  /** Trailing whitespace after trimmed text is all that `Strip` removes. */
  lemma {:induction false} StripOfTrailing(t: string, b: string)
    requires AllWs(b) && IsTrimmed(t)
    ensures Strip(t + b) == t
    decreases |b|
  {
    var s := t + b;
    if b == [] {
      assert s == t;
    } else {
      assert s[|s| - 1] == b[|b| - 1];
      if t == [] {
        assert s == b && s[1..] == t + b[1..];
        StripOfTrailing(t, b[1..]);
      } else {
        assert s[0] == t[0];
        assert s[..|s| - 1] == t + b[..|b| - 1];
        StripOfTrailing(t, b[..|b| - 1]);
      }
    }
  }

  /** Uniqueness: whatever trimmed text sits between two whitespace runs is
      what `Strip` returns. With `StripIsPadded` this characterises `Strip`
      completely. */
  lemma {:induction false} StripOfPadded(a: string, t: string, b: string)
    requires AllWs(a) && AllWs(b) && IsTrimmed(t)
    ensures Strip(a + t + b) == t
    decreases |a|
  {
    var s := a + t + b;
    if a == [] {
      assert s == t + b;
      StripOfTrailing(t, b);
    } else {
      assert s[0] == a[0];
      assert s[1..] == a[1..] + t + b;
      StripOfPadded(a[1..], t, b);
    }
  }

  /** Stripping already trimmed text changes nothing. */
  lemma StripOfTrimmed(t: string)
    requires IsTrimmed(t)
    ensures Strip(t) == t
  {
    assert [] + t + [] == t;
    StripOfPadded([], t, []);
  }

  /** `strip()` is idempotent. */
  lemma StripIdempotent(s: string)
    ensures Strip(Strip(s)) == Strip(s)
  {
    StripOfTrimmed(Strip(s));
  }

  /** Stripping leaves nothing exactly when the text is all whitespace. */
  lemma {:induction false} StripEmptyIffAllWs(s: string)
    ensures Strip(s) == [] <==> AllWs(s)
  {
    if AllWs(s) {
      assert s + [] + [] == s;
      StripOfPadded(s, [], []);
    }
    if Strip(s) == [] {
      StripIsPadded(s);
      var lo :| PaddedAt(s, lo, []);
      forall i | 0 <= i < |s| ensures IsWs(s[i]) {
        if i < lo { assert s[i] == s[..lo][i]; } else { assert s[i] == s[lo..][i - lo]; }
      }
    }
  }
}
