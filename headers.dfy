/**
 * Column-header normalisation (app.py, line 25):
 *
 *   df.columns.str.encode('ascii', 'ignore').str.decode('ascii').str.strip()
 *
 * Each header loses every character outside ASCII first, and only then is
 * trimmed of surrounding whitespace with Python's default `str.strip`.
 */
module Headers {

  /** A character survives `encode('ascii', 'ignore')` iff its code point is below 128. */
  predicate IsAscii(c: char) {
    (c as int) < 128
  }

  predicate AllAscii(s: string) {
    forall i :: 0 <= i < |s| ==> IsAscii(s[i])
  }

  /**
   * The characters Python's `str.isspace` accepts, which is the set the
   * argument-less `str.strip` removes: the ASCII ones (tab, line feed,
   * vertical tab, form feed, carriage return, the four information
   * separators U+001C-U+001F and space) and the Unicode spaces above.
   */
  predicate IsSpace(c: char) {
    var k := c as int;
    (9 <= k <= 13) || (28 <= k <= 32)
    || k == 0x85 || k == 0xA0 || k == 0x1680
    || (0x2000 <= k <= 0x200A) || k == 0x2028 || k == 0x2029
    || k == 0x202F || k == 0x205F || k == 0x3000
  }

  /** Neither end of `s` is a whitespace character. */
  predicate Trimmed(s: string) {
    |s| == 0 || (!IsSpace(s[0]) && !IsSpace(s[|s| - 1]))
  }

  predicate AllSpace(s: string) {
    forall i :: 0 <= i < |s| ==> IsSpace(s[i])
  }

  /** `s.encode('ascii', 'ignore').decode('ascii')`: keep the ASCII characters, in order. */
  function DropNonAscii(s: string): (r: string)
    ensures AllAscii(r)
    ensures |r| <= |s|
  {
    if |s| == 0 then []
    else if IsAscii(s[0]) then [s[0]] + DropNonAscii(s[1..])
    else DropNonAscii(s[1..])
  }

  /** `str.lstrip()`: the longest suffix of `s` that does not start with whitespace. */
  function LStrip(s: string): (r: string)
    ensures |r| <= |s| && r == s[|s| - |r|..]
    ensures AllSpace(s[..|s| - |r|])
    ensures |r| == 0 || !IsSpace(r[0])
  {
    if |s| > 0 && IsSpace(s[0]) then LStrip(s[1..]) else s
  }

  /** `str.rstrip()`: the longest prefix of `s` that does not end with whitespace. */
  function RStrip(s: string): (r: string)
    ensures |r| <= |s| && r == s[..|r|]
    ensures AllSpace(s[|r|..])
    ensures |r| == 0 || !IsSpace(r[|r| - 1])
  {
    if |s| > 0 && IsSpace(s[|s| - 1]) then
      var r := RStrip(s[..|s| - 1]);
      assert forall i :: |r| <= i < |s| - 1 ==> s[i] == s[..|s| - 1][|r|..][i - |r|];
      r
    else s
  }

  /** `str.strip()`: no longer than `s`, and neither end is whitespace. */
  function Strip(s: string): (r: string)
    ensures |r| <= |s|
    ensures Trimmed(r)
  {
    RStrip(LStrip(s))
  }

  /**
   * The header transformation of app.py line 25, applied to one header:
   * the result is ASCII only and neither end is whitespace.
   */
  function Normalize(h: string): (r: string)
    ensures AllAscii(r) && Trimmed(r)
  {
    StripKeepsAscii(DropNonAscii(h));
    Strip(DropNonAscii(h))
  }

  /** The transformation applied to the whole header row, column by column. */
  function NormalizeAll(hs: seq<string>): (r: seq<string>)
    ensures |r| == |hs|
    ensures forall i :: 0 <= i < |hs| ==> r[i] == Normalize(hs[i])
  {
    seq(|hs|, i requires 0 <= i < |hs| => Normalize(hs[i]))
  }

  // ---------------------------------------------------------------------
  // The ASCII filter

  /** The filter distributes over concatenation, so it keeps the relative order of what it keeps. */
  lemma {:induction false} DropNonAsciiConcat(a: string, b: string)
    ensures DropNonAscii(a + b) == DropNonAscii(a) + DropNonAscii(b)
  {
    if |a| == 0 {
      assert a + b == b;
    } else {
      assert (a + b)[0] == a[0];
      assert (a + b)[1..] == a[1..] + b;
      DropNonAsciiConcat(a[1..], b);
    }
  }

  /** `'ignore'`: an ASCII character is kept and any other character is removed, not replaced. */
  lemma DropNonAsciiChar(c: char)
    ensures DropNonAscii([c]) == (if IsAscii(c) then [c] else [])
  {
    assert [c][1..] == [];
  }

  /** Every character of `s` is removed by the filter or is whitespace. */
  predicate Padding(s: string) {
    forall i :: 0 <= i < |s| ==> !IsAscii(s[i]) || IsSpace(s[i])
  }

  /** What is left of a string after the filter is all whitespace exactly when the string is padding. */
  lemma {:induction false} DropNonAsciiPadding(s: string)
    ensures AllSpace(DropNonAscii(s)) <==> Padding(s)
  {
    if |s| > 0 {
      DropNonAsciiPadding(s[1..]);
      var rest := DropNonAscii(s[1..]);
      if IsAscii(s[0]) {
        var t := [s[0]] + rest;
        assert DropNonAscii(s) == t;
        assert t[0] == s[0];
        assert forall i :: 0 <= i < |rest| ==> t[i + 1] == rest[i];
        assert forall i :: 0 < i < |t| ==> t[i] == rest[i - 1];
      }
      assert Padding(s) <==> (!IsAscii(s[0]) || IsSpace(s[0])) && Padding(s[1..]) by {
        assert forall i :: 0 <= i < |s[1..]| ==> s[1..][i] == s[i + 1];
      }
    }
  }

  /** The filter leaves a string unchanged exactly when it is already all ASCII. */
  lemma {:induction false} DropNonAsciiFixedPoint(s: string)
    ensures DropNonAscii(s) == s <==> AllAscii(s)
  {
    if |s| > 0 {
      DropNonAsciiFixedPoint(s[1..]);
      if !IsAscii(s[0]) {
        assert |DropNonAscii(s)| < |s| by { assert |DropNonAscii(s[1..])| <= |s[1..]|; }
      } else if AllAscii(s[1..]) {
        assert s == [s[0]] + s[1..];
      } else {
        var i :| 0 <= i < |s[1..]| && !IsAscii(s[1..][i]);
        assert !IsAscii(s[i + 1]);
      }
    }
  }

  // ---------------------------------------------------------------------
  // Stripping

  /**
   * `Strip` removes a run of whitespace from each end and nothing else:
   * the result is the slice `s[i..j]` with only whitespace before `i` and
   * after `j`, and it starts and ends with a non-whitespace character.
   */
  lemma StripIsTrimmedSlice(s: string)
    ensures exists i, j ::
      0 <= i <= j <= |s| && Strip(s) == s[i..j] && AllSpace(s[..i]) && AllSpace(s[j..])
    ensures Trimmed(Strip(s))
  {
    var l := LStrip(s);
    var r := RStrip(l);
    var i := |s| - |l|;
    var j := i + |r|;
    assert r == s[i..j];
    assert s[j..] == l[|r|..];
    if |r| > 0 {
      assert r[0] == l[0];
    }
  }

  /** Stripping leaves a string unchanged exactly when neither end is whitespace. */
  lemma StripFixedPoint(s: string)
    ensures Strip(s) == s <==> Trimmed(s)
  {
    StripIsTrimmedSlice(s);
    if Trimmed(s) && |s| > 0 {
      assert LStrip(s) == s;
    }
  }

  /** Stripping never introduces a non-ASCII character. */
  lemma StripKeepsAscii(s: string)
    requires AllAscii(s)
    ensures AllAscii(Strip(s))
  {
    var l := LStrip(s);
    forall k | 0 <= k < |l| ensures IsAscii(l[k]) {
      assert l[k] == s[|s| - |l| + k];
    }
    var r := RStrip(l);
    forall k | 0 <= k < |r| ensures IsAscii(r[k]) {
      assert r[k] == l[k];
    }
  }

  // ---------------------------------------------------------------------
  // The whole normalisation

  /** A header is left unchanged exactly when it is already ASCII only and trimmed. */
  lemma NormalizeFixedPoint(h: string)
    ensures Normalize(h) == h <==> AllAscii(h) && Trimmed(h)
  {
    if AllAscii(h) && Trimmed(h) {
      DropNonAsciiFixedPoint(h);
      StripFixedPoint(h);
    }
  }

  /** Normalising a second time changes nothing. */
  lemma NormalizeIdempotent(h: string)
    ensures Normalize(Normalize(h)) == Normalize(h)
  {
    NormalizeFixedPoint(Normalize(h));
  }

  /** The same for the whole header row. */
  lemma NormalizeAllIdempotent(hs: seq<string>)
    ensures NormalizeAll(NormalizeAll(hs)) == NormalizeAll(hs)
  {
    forall i | 0 <= i < |hs| ensures NormalizeAll(NormalizeAll(hs))[i] == NormalizeAll(hs)[i] {
      NormalizeIdempotent(hs[i]);
    }
  }

  /** Leading whitespace is invisible to `LStrip`. */
  lemma {:induction false} LStripSkipsSpace(a: string, t: string)
    requires AllSpace(a)
    ensures LStrip(a + t) == LStrip(t)
  {
    if |a| > 0 {
      assert (a + t)[0] == a[0];
      assert (a + t)[1..] == a[1..] + t;
      LStripSkipsSpace(a[1..], t);
    } else {
      assert a + t == t;
    }
  }

  /** Trailing whitespace is invisible to `RStrip`. */
  lemma {:induction false} RStripSkipsSpace(t: string, b: string)
    requires AllSpace(b)
    ensures RStrip(t + b) == RStrip(t)
  {
    if |b| > 0 {
      var tb := t + b;
      assert tb[|tb| - 1] == b[|b| - 1];
      assert tb[..|tb| - 1] == t + b[..|b| - 1];
      RStripSkipsSpace(t, b[..|b| - 1]);
    } else {
      assert t + b == t;
    }
  }

  /** Stripping a trimmed string padded with whitespace gives back the string. */
  lemma StripPadded(a: string, name: string, b: string)
    requires AllSpace(a) && AllSpace(b) && Trimmed(name)
    ensures Strip(a + name + b) == name
  {
    assert a + name + b == a + (name + b);
    LStripSkipsSpace(a, name + b);
    if |name| == 0 {
      assert name + b == b + [];
      LStripSkipsSpace(b, []);
      assert LStrip(a + name + b) == [];
    } else {
      assert (name + b)[0] == name[0];
      assert LStrip(a + name + b) == name + b;
      RStripSkipsSpace(name, b);
      assert RStrip(name) == name;
    }
  }

  /**
   * A header that differs from an expected ASCII name only by non-ASCII
   * characters and surrounding whitespace is normalised to that name, e.g.
   * a byte-order mark or a no-break space in front of it.
   */
  lemma NormalizeRecoversName(pre: string, name: string, post: string)
    requires AllAscii(name) && Trimmed(name)
    requires Padding(pre) && Padding(post)
    ensures Normalize(pre + name + post) == name
  {
    DropNonAsciiPadding(pre);
    DropNonAsciiPadding(post);
    DropNonAsciiConcat(pre + name, post);
    DropNonAsciiConcat(pre, name);
    DropNonAsciiFixedPoint(name);
    StripPadded(DropNonAscii(pre), name, DropNonAscii(post));
  }
}
