/**
 * The latitude and longitude inputs of the obstacle form: every keystroke
 * replaces the field with `text.replace(/[^0-9.]/g, '')`, the text with
 * every character other than a decimal digit or a dot removed.
 */
module CoordinateInput {

  /** The characters of the class `[0-9.]`. */
  predicate IsCoordinateChar(c: char) {
    '0' <= c <= '9' || c == '.'
  }

  predicate IsCoordinateText(s: string) {
    forall i :: 0 <= i < |s| ==> IsCoordinateChar(s[i])
  }

  /** `sub` is `s` with some characters taken out, the rest in their order. */
  predicate IsSubsequence(sub: string, s: string)
    decreases |s|
  {
    sub == [] ||
    (s != [] && ((sub[0] == s[0] && IsSubsequence(sub[1..], s[1..])) || IsSubsequence(sub, s[1..])))
  }

  /** `text.replace(/[^0-9.]/g, '')`. */
  function Sanitize(text: string): (r: string)
    ensures IsCoordinateText(r)
    ensures |r| <= |text|
  {
    if text == [] then []
    else if IsCoordinateChar(text[0]) then [text[0]] + Sanitize(text[1..])
    else Sanitize(text[1..])
  }

  /** The sanitized text keeps the input's characters in their original relative order. */
  lemma {:induction false} SanitizeIsSubsequence(text: string)
    ensures IsSubsequence(Sanitize(text), text)
  {
    if text != [] {
      SanitizeIsSubsequence(text[1..]);
      var r := Sanitize(text);
      if IsCoordinateChar(text[0]) {
        assert r[0] == text[0] && r[1..] == Sanitize(text[1..]);
      }
    }
  }

  /** Every digit and every dot of the input survives, as often as it occurs; nothing else does. */
  lemma {:induction false} SanitizeCounts(text: string, c: char)
    ensures multiset(Sanitize(text))[c] == if IsCoordinateChar(c) then multiset(text)[c] else 0
  {
    if text == [] {
    } else {
      SanitizeCounts(text[1..], c);
      assert text == [text[0]] + text[1..];
      assert multiset(text) == multiset{text[0]} + multiset(text[1..]);
    }
  }

  /** A subsequence never holds a character more often than the text it is taken from. */
  lemma {:induction false} SubsequenceCounts(sub: string, s: string)
    requires IsSubsequence(sub, s)
    ensures multiset(sub) <= multiset(s)
    decreases |s|
  {
    if sub == [] {
    } else {
      assert s == [s[0]] + s[1..];
      if sub[0] == s[0] && IsSubsequence(sub[1..], s[1..]) {
        SubsequenceCounts(sub[1..], s[1..]);
        assert sub == [sub[0]] + sub[1..];
      } else {
        SubsequenceCounts(sub, s[1..]);
      }
    }
  }

  /**
   * The sanitizer is the only such filter: a subsequence of the input made of
   * digits and dots only, that holds each digit and the dot as often as the
   * input does, is the sanitized input.
   */
  lemma {:induction false} SanitizeUnique(text: string, r: string)
    requires IsSubsequence(r, text)
    requires IsCoordinateText(r)
    requires forall c :: IsCoordinateChar(c) ==> multiset(r)[c] == multiset(text)[c]
    ensures r == Sanitize(text)
    decreases |text|
  {
    if text != [] {
      var x, rest := text[0], text[1..];
      assert text == [x] + rest;
      assert multiset(text) == multiset{x} + multiset(rest);
      if IsCoordinateChar(x) {
        assert multiset(r)[x] > 0;
        assert r != [];
        if r[0] == x && IsSubsequence(r[1..], rest) {
          assert r == [x] + r[1..];
          assert multiset(r) == multiset{x} + multiset(r[1..]);
          SanitizeUnique(rest, r[1..]);
        } else {
          SubsequenceCounts(r, rest);
          assert false;
        }
      } else {
        assert r != [] ==> r[0] != x by {
          if r != [] { assert IsCoordinateChar(r[0]); }
        }
        SanitizeUnique(rest, r);
      }
    }
  }

  /** Text made only of digits and dots is left alone, and only such text is. */
  lemma {:induction false} SanitizeFixesExactlyCoordinateText(text: string)
    ensures Sanitize(text) == text <==> IsCoordinateText(text)
  {
    if text != [] && IsCoordinateText(text) {
      assert IsCoordinateText(text[1..]) by {
        forall i | 0 <= i < |text| - 1 ensures IsCoordinateChar(text[1..][i]) {
          assert text[1..][i] == text[i + 1];
        }
      }
      SanitizeFixesExactlyCoordinateText(text[1..]);
      assert text == [text[0]] + text[1..];
    }
  }

  /** Sanitizing twice is sanitizing once. */
  lemma {:induction false} SanitizeIdempotent(text: string)
    ensures Sanitize(Sanitize(text)) == Sanitize(text)
  {
    SanitizeFixesExactlyCoordinateText(Sanitize(text));
  }

  /**
   * Sanitizing works character by character: a pasted text is filtered piece
   * by piece, and typing after already clean text only filters what was typed.
   */
  lemma {:induction false} SanitizeAppend(a: string, b: string)
    ensures Sanitize(a + b) == Sanitize(a) + Sanitize(b)
  {
    if a != [] {
      assert (a + b)[0] == a[0] && (a + b)[1..] == a[1..] + b;
      SanitizeAppend(a[1..], b);
    } else {
      assert a + b == b;
    }
  }
}
