/** String helpers for the error categoriser: lower-casing and substring
    search (`String.prototype.toLowerCase` and `String.prototype.includes`). */
module Text {

  predicate IsUpper(c: char) {
    'A' <= c <= 'Z'
  }

  /** The Kelvin sign, whose lower-case form is the ASCII letter 'k'. */
  const KelvinSign: char := '\U{212A}'

  /** Lower-case one character: the ASCII letters 'A'..'Z' move to
      'a'..'z' and the Kelvin sign becomes 'k'. Every other character is
      kept; none of them has a lower-case form containing an ASCII letter,
      except U+0130, whose form 'i' + U+0307 is not modelled. */
  function LowerChar(c: char): (r: char)
    ensures !IsUpper(r)
    ensures !IsUpper(c) && c != KelvinSign ==> r == c
    ensures IsUpper(c) ==> r as int == c as int + 32
    ensures c == KelvinSign ==> r == 'k'
  {
    if IsUpper(c) then (c as int + 32) as char
    else if c == KelvinSign then 'k'
    else c
  }

  /** Lower-case a whole string, character by character. */
  function Lower(s: string): (r: string)
    ensures |r| == |s|
    ensures forall i :: 0 <= i < |s| ==> r[i] == LowerChar(s[i])
  {
    seq(|s|, i requires 0 <= i < |s| => LowerChar(s[i]))
  }

  /** `a` is the upper-case form of `b`: an ASCII capital and its small
      letter, or the Kelvin sign and either form of 'k'. */
  predicate UpperOf(a: char, b: char) {
    || (IsUpper(a) && b as int == a as int + 32)
    || (a == KelvinSign && (b == 'k' || b == 'K'))
  }

  /** Two characters that are the same letter up to case. */
  predicate SameLetterIgnoringCase(a: char, b: char) {
    a == b || UpperOf(a, b) || UpperOf(b, a)
  }

  /** Two strings that differ only in the case of their letters. */
  predicate SameIgnoringCase(a: string, b: string) {
    |a| == |b| && forall i :: 0 <= i < |a| ==> SameLetterIgnoringCase(a[i], b[i])
  }

  /** Lower-casing a character loses nothing but its case. */
  lemma LowerCharEqualIffSameLetter(a: char, b: char)
    ensures LowerChar(a) == LowerChar(b) <==> SameLetterIgnoringCase(a, b)
  {
    if LowerChar(a) == LowerChar(b) && a != b {
      if IsUpper(a) {
        assert !IsUpper(b) ==> b == KelvinSign || b as int == a as int + 32;
      }
    }
  }

  /** Lower-casing loses nothing but case: two strings lower-case to the same
      string exactly when they are equal ignoring case. */
  lemma LowerEqualIffSameIgnoringCase(a: string, b: string)
    ensures Lower(a) == Lower(b) <==> SameIgnoringCase(a, b)
  {
    forall i | 0 <= i < |a| && i < |b|
      ensures LowerChar(a[i]) == LowerChar(b[i]) <==> SameLetterIgnoringCase(a[i], b[i])
    {
      LowerCharEqualIffSameLetter(a[i], b[i]);
    }
    if |a| == |b| && !SameIgnoringCase(a, b) {
      var i :| 0 <= i < |a| && !SameLetterIgnoringCase(a[i], b[i]);
      assert Lower(a)[i] != Lower(b)[i];
    }
  }

  /** Lower-casing an already lower-cased string changes nothing. */
  lemma LowerIdempotent(s: string)
    ensures Lower(Lower(s)) == Lower(s)
  {
  }

  predicate StartsWith(s: string, w: string) {
    |w| <= |s| && s[..|w|] == w
  }

  /** `s.includes(w)`: `w` occurs in `s` starting at some position. */
  predicate Contains(s: string, w: string)
    decreases |s|
  {
    StartsWith(s, w) || (|s| > 0 && Contains(s[1..], w))
  }

  /** `w` sits in `s` at position `i`. */
  predicate OccursAt(s: string, w: string, i: int) {
    0 <= i && i + |w| <= |s| && s[i..i + |w|] == w
  }

  /** The recursive search agrees with the positional definition of an
      occurrence, in both directions. */
  lemma {:induction false} ContainsIffOccurs(s: string, w: string)
    ensures Contains(s, w) <==> exists i :: OccursAt(s, w, i)
    decreases |s|
  {
    if StartsWith(s, w) {
      assert OccursAt(s, w, 0);
    } else if |s| == 0 {
    } else {
      ContainsIffOccurs(s[1..], w);
      if exists i :: OccursAt(s[1..], w, i) {
        var i :| OccursAt(s[1..], w, i);
        assert s[i + 1..i + 1 + |w|] == s[1..][i..i + |w|];
        assert OccursAt(s, w, i + 1);
      }
      if exists i :: OccursAt(s, w, i) {
        var i :| OccursAt(s, w, i);
        assert i != 0;
        assert s[1..][i - 1..i - 1 + |w|] == s[i..i + |w|];
        assert OccursAt(s[1..], w, i - 1);
      }
    }
  }

  /** An occurrence at a known position is found by the search. */
  lemma ContainsAt(s: string, w: string, i: int)
    requires OccursAt(s, w, i)
    ensures Contains(s, w)
  {
    ContainsIffOccurs(s, w);
  }
}
