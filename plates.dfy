/**
 * Plate text handling shared by the check, register and remove commands:
 * normalisation (upper-case, then delete everything that is not an ASCII
 * letter or digit) and the plate pattern ^\d{2}[A-Z]{1,2}\d{5,6}$.
 */
module Plates {

  predicate IsDigit(c: char) { '0' <= c <= '9' }
  predicate IsUpper(c: char) { 'A' <= c <= 'Z' }
  predicate IsLower(c: char) { 'a' <= c <= 'z' }

  /** The character class [a-zA-Z0-9] that survives normalisation. */
  predicate IsAlnum(c: char) { IsDigit(c) || IsUpper(c) || IsLower(c) }

  /** A string made only of characters in [A-Z0-9]. */
  predicate IsNormal(s: string) {
    forall i :: 0 <= i < |s| ==> IsDigit(s[i]) || IsUpper(s[i])
  }

  predicate AllDigits(s: string) { forall i :: 0 <= i < |s| ==> IsDigit(s[i]) }
  predicate AllUpper(s: string) { forall i :: 0 <= i < |s| ==> IsUpper(s[i]) }

  /**
   * str.upper() on one character, ASCII only: the result is never a
   * lower-case letter, letters and digits stay letters and digits, and a
   * lower-case letter becomes the upper-case letter at the same place in
   * the alphabet.
   */
  function ToUpper(c: char): (u: char)
    ensures !IsLower(u)
    ensures IsAlnum(u) <==> IsAlnum(c)
    ensures IsLower(c) ==> u as int - 'A' as int == c as int - 'a' as int
  {
    if IsLower(c) then (c as int - 32) as char else c
  }

  /**
   * re.sub(r'\s+|[^a-zA-Z0-9]', '', s.strip().upper()): every character is
   * upper-cased and kept only when it is then an ASCII letter or digit.
   * (strip and the \s+ alternative delete only characters that the class
   * [^a-zA-Z0-9] deletes anyway.)
   */
  function Normalize(s: string): (p: string)
    ensures |p| <= |s|
    ensures IsNormal(p)
  {
    if s == [] then []
    else
      var c := ToUpper(s[0]);
      (if IsAlnum(c) then [c] else []) + Normalize(s[1..])
  }

  /** Normalisation works character by character: it distributes over concatenation. */
  lemma {:induction false} NormalizeConcat(s: string, t: string)
    ensures Normalize(s + t) == Normalize(s) + Normalize(t)
  {
    if s != [] {
      assert (s + t)[1..] == s[1..] + t;
      NormalizeConcat(s[1..], t);
    } else {
      assert s + t == t;
    }
  }

  /** Normalisation leaves a string made of [A-Z0-9] alone. */
  lemma {:induction false} NormalizeFixesNormal(s: string)
    requires IsNormal(s)
    ensures Normalize(s) == s
  {
    if s != [] {
      assert IsNormal(s[1..]) by {
        forall i | 0 <= i < |s[1..]| ensures IsDigit(s[1..][i]) || IsUpper(s[1..][i]) {
          assert s[1..][i] == s[i + 1];
        }
      }
      NormalizeFixesNormal(s[1..]);
      assert s == [s[0]] + s[1..];
    }
  }

  /**
   * Letter case does not matter: two texts that agree character by
   * character once upper-cased normalise to the same plate.
   */
  lemma {:induction false} NormalizeIgnoresCase(s: string, t: string)
    requires |s| == |t|
    requires forall i :: 0 <= i < |s| ==> ToUpper(s[i]) == ToUpper(t[i])
    ensures Normalize(s) == Normalize(t)
  {
    if s != [] {
      assert forall i :: 0 <= i < |s[1..]| ==> s[1..][i] == s[i + 1] && t[1..][i] == t[i + 1];
      NormalizeIgnoresCase(s[1..], t[1..]);
    }
  }

  /** Normalising twice is normalising once. */
  lemma NormalizeIdempotent(s: string)
    ensures Normalize(Normalize(s)) == Normalize(s)
  {
    NormalizeFixesNormal(Normalize(s));
  }

  /** Normalisation deletes exactly the characters that are not letters or digits. */
  lemma {:induction false} NormalizeDeletesOnlyPunctuation(s: string)
    ensures (forall i :: 0 <= i < |s| ==> IsAlnum(s[i])) <==> |Normalize(s)| == |s|
  {
    if s != [] {
      NormalizeDeletesOnlyPunctuation(s[1..]);
      if forall i :: 0 <= i < |s| ==> IsAlnum(s[i]) {
        assert forall i :: 0 <= i < |s[1..]| ==> IsAlnum(s[1..][i]) by {
          forall i | 0 <= i < |s[1..]| ensures IsAlnum(s[1..][i]) { assert s[1..][i] == s[i + 1]; }
        }
      } else {
        var j :| 0 <= j < |s| && !IsAlnum(s[j]);
        if j > 0 {
          assert s[1..][j - 1] == s[j];
          assert |Normalize(s[1..])| < |s[1..]|;
        }
      }
    }
  }

  /**
   * One way to split a plate into the three runs of the pattern: two
   * digits, `letters` upper-case letters, `digits` digits.
   */
  predicate Segments(p: string, letters: nat, digits: nat) {
    && |p| == 2 + letters + digits
    && AllDigits(p[..2])
    && AllUpper(p[2..2 + letters])
    && AllDigits(p[2 + letters..])
  }

  /** The language of ^\d{2}[A-Z]{1,2}\d{5,6}$, as the union of its four shapes. */
  ghost predicate PlateShape(p: string) {
    exists letters: nat, digits: nat | 1 <= letters <= 2 && 5 <= digits <= 6 :: Segments(p, letters, digits)
  }

  /**
   * re.match(r'^\d{2}[A-Z]{1,2}\d{5,6}$', p) on a normalised plate, scanned
   * left to right: two digits, one letter, an optional second letter, then
   * five or six digits to the end.
   */
  function IsValidPlate(p: string): (ok: bool)
    ensures ok ==> 8 <= |p| <= 10
  {
    && |p| >= 3
    && IsDigit(p[0]) && IsDigit(p[1]) && IsUpper(p[2])
    && var letters := if |p| > 3 && IsUpper(p[3]) then 2 else 1;
       var tail := p[2 + letters..];
       (|tail| == 5 || |tail| == 6) && AllDigits(tail)
  }

  /** The scanner accepts exactly the strings of the pattern. */
  lemma PlateMatchesPattern(p: string)
    ensures IsValidPlate(p) <==> PlateShape(p)
  {
    if IsValidPlate(p) {
      var letters := if IsUpper(p[3]) then 2 else 1;
      assert Segments(p, letters, |p| - 2 - letters);
    }
    if PlateShape(p) {
      var letters: nat, digits: nat :| 1 <= letters <= 2 && 5 <= digits <= 6 && Segments(p, letters, digits);
      assert p[..2][0] == p[0] && p[..2][1] == p[1];
      assert p[2..2 + letters][0] == p[2];
      if letters == 1 {
        assert p[2 + letters..][0] == p[3];
      } else {
        assert p[2..2 + letters][1] == p[3];
      }
    }
  }

  /** An accepted plate is already normalised, so re-normalising it is harmless. */
  lemma ValidPlateIsNormal(p: string)
    requires IsValidPlate(p)
    ensures IsNormal(p) && Normalize(p) == p
  {
    var letters := if IsUpper(p[3]) then 2 else 1;
    forall i | 0 <= i < |p| ensures IsDigit(p[i]) || IsUpper(p[i]) {
      if i >= 2 + letters { assert p[i] == p[2 + letters..][i - 2 - letters]; }
    }
    NormalizeFixesNormal(p);
  }
}
