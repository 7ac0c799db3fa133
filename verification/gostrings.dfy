/**
 The parts of Go's `strings` package that the version code relies on:
 `TrimSpace`, `Split` and `HasPrefix`. Strings are sequences of runes
 (`char`): for valid UTF-8 text these are the runes Go's decoding yields.
 */
module GoStrings {

  /** Go's unicode.IsSpace: the Latin-1 spaces plus the Unicode White_Space runes. */
  predicate IsSpace(c: char) {
    || c == ' ' || c == '\t' || c == '\n' || c == '\U{000B}' || c == '\U{000C}' || c == '\r'
    || c == '\U{0085}' || c == '\U{00A0}' || c == '\U{1680}'
    || ('\U{2000}' <= c <= '\U{200A}')
    || c == '\U{2028}' || c == '\U{2029}' || c == '\U{202F}' || c == '\U{205F}' || c == '\U{3000}'
  }

  predicate AllSpace(s: string) {
    forall i :: 0 <= i < |s| ==> IsSpace(s[i])
  }

  /** Neither end of `s` is a space (vacuously true of the empty string). */
  predicate Trimmed(s: string) {
    |s| == 0 || (!IsSpace(s[0]) && !IsSpace(s[|s| - 1]))
  }

  /** Drops the leading spaces: the result is the suffix of `s` after them. */
  function TrimLeft(s: string): (r: string)
    ensures |r| <= |s| && r == s[|s| - |r|..]
    ensures AllSpace(s[..|s| - |r|])
    ensures |r| == 0 || !IsSpace(r[0])
  {
    if |s| > 0 && IsSpace(s[0]) then TrimLeft(s[1..]) else s
  }

  /** Drops the trailing spaces: the result is the prefix of `s` before them. */
  function TrimRight(s: string): (r: string)
    ensures |r| <= |s| && r == s[..|r|]
    ensures AllSpace(s[|r|..])
    ensures |r| == 0 || !IsSpace(r[|r| - 1])
  {
    if |s| > 0 && IsSpace(s[|s| - 1]) then TrimRight(s[..|s| - 1]) else s
  }

  /** strings.TrimSpace: drops leading and trailing spaces. */
  function TrimSpace(s: string): (r: string)
    ensures |r| <= |s|
    ensures Trimmed(r)
  {
    TrimRight(TrimLeft(s))
  }

  /** `t` sits in `s` at `i`, with nothing but spaces on either side of it. */
  predicate SurroundedBySpace(s: string, i: nat, t: string) {
    && i + |t| <= |s|
    && t == s[i..i + |t|]
    && AllSpace(s[..i])
    && AllSpace(s[i + |t|..])
  }

  /**
   TrimSpace removes only spaces, and only at the two ends: the result is a
   slice of `s` with nothing but spaces before and after it.
   */
  lemma TrimSpaceRemovesOnlyEnds(s: string)
    ensures exists i: nat :: SurroundedBySpace(s, i, TrimSpace(s))
  {
    var l := TrimLeft(s);
    var r := TrimRight(l);
    var i := |s| - |l|;
    assert TrimSpace(s) == r;
    assert s[i..] == l;
    assert s[i..i + |r|] == l[..|r|] == r;
    assert AllSpace(s[..i]);
    assert s[i + |r|..] == l[|r|..];
    assert AllSpace(s[i + |r|..]);
    assert SurroundedBySpace(s, i, r);
  }

  /** strings.HasPrefix */
  predicate HasPrefix(s: string, prefix: string) {
    |prefix| <= |s| && s[..|prefix|] == prefix
  }

  /** strings.Join with a one-rune separator. */
  function Join(segments: seq<string>, sep: char): string
  {
    if |segments| == 0 then ""
    else if |segments| == 1 then segments[0]
    else segments[0] + [sep] + Join(segments[1..], sep)
  }

  /**
   strings.Split with a one-rune separator: the pieces between separators,
   always at least one (the empty string splits into one empty piece).
   */
  function Split(s: string, sep: char): (r: seq<string>)
    ensures |r| >= 1
    ensures Join(r, sep) == s
    ensures forall i :: 0 <= i < |r| ==> sep !in r[i]
    decreases |s|
  {
    if |s| == 0 then [""]
    else
      var rest := Split(s[1..], sep);
      if s[0] == sep then
        assert s == [sep] + s[1..];
        [""] + rest
      else
        var r := [[s[0]] + rest[0]] + rest[1..];
        assert r[1..] == rest[1..];
        assert s == [s[0]] + s[1..];
        r
  }

  /** A string without the separator is a single piece. */
  lemma {:induction false} SplitNoSeparator(s: string, sep: char)
    requires sep !in s
    ensures Split(s, sep) == [s]
    decreases |s|
  {
    if |s| > 0 {
      assert sep !in s[1..] by {
        forall i | 0 <= i < |s[1..]| ensures s[1..][i] != sep {
          assert s[1..][i] == s[i + 1];
        }
      }
      SplitNoSeparator(s[1..], sep);
      assert [s[0]] + s[1..] == s;
    }
  }

  /** Splitting at a separator splits the two sides independently. */
  lemma {:induction false} SplitAppend(a: string, b: string, sep: char)
    ensures Split(a + [sep] + b, sep) == Split(a, sep) + Split(b, sep)
    decreases |a|
  {
    var s := a + [sep] + b;
    if |a| == 0 {
      assert s == [sep] + b;
      assert s[1..] == b;
    } else {
      var a' := a[1..];
      assert s[0] == a[0];
      assert s[1..] == a' + [sep] + b;
      SplitAppend(a', b, sep);
      var ra, rb := Split(a', sep), Split(b, sep);
      var rest := Split(s[1..], sep);
      assert rest == ra + rb;
      if a[0] == sep {
        assert Split(s, sep) == [""] + rest;
        assert Split(a, sep) == [""] + ra;
      } else {
        assert rest[0] == ra[0];
        assert rest[1..] == ra[1..] + rb;
        assert Split(s, sep) == [[a[0]] + ra[0]] + (ra[1..] + rb);
        assert Split(a, sep) == [[a[0]] + ra[0]] + ra[1..];
      }
    }
  }

  /** Three pieces without the separator, joined by it, split back into those pieces. */
  lemma SplitThree(a: string, b: string, c: string, sep: char)
    requires sep !in a && sep !in b && sep !in c
    ensures Split(a + [sep] + b + [sep] + c, sep) == [a, b, c]
  {
    SplitAppend(a + [sep] + b, c, sep);
    SplitAppend(a, b, sep);
    SplitNoSeparator(a, sep);
    SplitNoSeparator(b, sep);
    SplitNoSeparator(c, sep);
  }

  /** Leading spaces do not affect TrimLeft. */
  lemma {:induction false} TrimLeftSpaces(w: string, x: string)
    requires AllSpace(w)
    ensures TrimLeft(w + x) == TrimLeft(x)
    decreases |w|
  {
    if |w| > 0 {
      assert (w + x)[1..] == w[1..] + x;
      TrimLeftSpaces(w[1..], x);
    } else {
      assert w + x == x;
    }
  }

  /** Once TrimLeft reaches a non-space rune of `x`, whatever follows `x` is kept. */
  lemma {:induction false} TrimLeftAppend(x: string, y: string)
    requires !AllSpace(x)
    ensures TrimLeft(x + y) == TrimLeft(x) + y
    decreases |x|
  {
    assert |x| > 0;
    if IsSpace(x[0]) {
      assert (x + y)[1..] == x[1..] + y;
      assert !AllSpace(x[1..]) by {
        var i :| 0 <= i < |x| && !IsSpace(x[i]);
        assert x[1..][i - 1] == x[i];
      }
      TrimLeftAppend(x[1..], y);
    }
  }

  /** Trailing spaces do not affect TrimRight. */
  lemma {:induction false} TrimRightSpaces(x: string, w: string)
    requires AllSpace(w)
    ensures TrimRight(x + w) == TrimRight(x)
    decreases |w|
  {
    if |w| > 0 {
      var w' := w[..|w| - 1];
      assert (x + w)[..|x + w| - 1] == x + w';
      assert AllSpace(w') by {
        forall i | 0 <= i < |w'| ensures IsSpace(w'[i]) {
          assert w'[i] == w[i];
        }
      }
      TrimRightSpaces(x, w');
    } else {
      assert x + w == x;
    }
  }

  /** Behind a non-space rune, TrimRight only trims what follows it. */
  lemma {:induction false} TrimRightAppend(x: string, y: string)
    requires |x| > 0 && !IsSpace(x[|x| - 1])
    ensures TrimRight(x + y) == x + TrimRight(y)
    decreases |y|
  {
    if |y| == 0 {
      assert x + y == x;
    } else {
      var y' := y[..|y| - 1];
      assert (x + y)[..|x + y| - 1] == x + y';
      TrimRightAppend(x, y');
    }
  }

  /** A string of spaces trims to nothing. */
  lemma {:induction false} TrimLeftAllSpace(s: string)
    requires AllSpace(s)
    ensures TrimLeft(s) == ""
    decreases |s|
  {
    if |s| > 0 {
      assert AllSpace(s[1..]) by {
        forall i | 0 <= i < |s[1..]| ensures IsSpace(s[1..][i]) {
          assert s[1..][i] == s[i + 1];
        }
      }
      TrimLeftAllSpace(s[1..]);
    }
  }

  lemma AllSpaceAppend(a: string, b: string)
    requires AllSpace(a) && AllSpace(b)
    ensures AllSpace(a + b)
  {
    forall i | 0 <= i < |a + b| ensures IsSpace((a + b)[i]) {
      if i < |a| {
        assert (a + b)[i] == a[i];
      } else {
        assert (a + b)[i] == b[i - |a|];
      }
    }
  }

  /** Spaces around a string never change what TrimSpace returns. */
  lemma TrimSpaceSurrounding(w1: string, s: string, w2: string)
    requires AllSpace(w1) && AllSpace(w2)
    ensures TrimSpace(w1 + s + w2) == TrimSpace(s)
  {
    assert w1 + s + w2 == w1 + (s + w2);
    TrimLeftSpaces(w1, s + w2);
    assert TrimLeft(w1 + s + w2) == TrimLeft(s + w2);
    if AllSpace(s) {
      AllSpaceAppend(s, w2);
      TrimLeftAllSpace(s + w2);
      TrimLeftAllSpace(s);
    } else {
      TrimLeftAppend(s, w2);
      TrimRightSpaces(TrimLeft(s), w2);
    }
  }

  /** TrimSpace leaves a string alone exactly when neither end is a space. */
  lemma TrimSpaceFixedPoint(s: string)
    ensures TrimSpace(s) == s <==> Trimmed(s)
  {
  }
}
