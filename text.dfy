/** Text operations the services apply to command strings and status messages:
    ASCII case mapping (standing in for .NET's ToLower and ToUpperInvariant)
    and ordinal, left-to-right, non-overlapping String.Replace. */
module Text {

  /** A single character mapped to lower case; only 'A'..'Z' change. */
  function LowerChar(c: char): char {
    if 'A' <= c <= 'Z' then (c as int + 32) as char else c
  }

  /** A single character mapped to upper case; only 'a'..'z' change. */
  function UpperChar(c: char): char {
    if 'a' <= c <= 'z' then (c as int - 32) as char else c
  }

  /** `s.ToLower()`, every character mapped on its own. */
  function Lower(s: string): (r: string)
    ensures |r| == |s|
    ensures forall i :: 0 <= i < |s| ==> r[i] == LowerChar(s[i])
  {
    if s == [] then [] else [LowerChar(s[0])] + Lower(s[1..])
  }

  /** `s.ToUpperInvariant()`, every character mapped on its own. */
  function Upper(s: string): (r: string)
    ensures |r| == |s|
    ensures forall i :: 0 <= i < |s| ==> r[i] == UpperChar(s[i])
  {
    if s == [] then [] else [UpperChar(s[0])] + Upper(s[1..])
  }

  /** Lower-casing twice is lower-casing once. */
  lemma LowerIdempotent(s: string)
    ensures Lower(Lower(s)) == Lower(s)
  {
    forall i | 0 <= i < |s| ensures Lower(Lower(s))[i] == Lower(s)[i] {
      var c := s[i];
      assert LowerChar(LowerChar(c)) == LowerChar(c);
    }
  }

  /** Upper-casing forgets a prior lower-casing: a command whose lower-case
      form is a keyword upper-cases to the keyword in capitals. */
  lemma UpperOfLower(s: string)
    ensures Upper(Lower(s)) == Upper(s)
  {
    forall i | 0 <= i < |s| ensures Upper(Lower(s))[i] == Upper(s)[i] {
      var c := s[i];
      assert UpperChar(LowerChar(c)) == UpperChar(c);
    }
  }

  /** Lower-casing forgets a prior upper-casing. */
  lemma LowerOfUpper(s: string)
    ensures Lower(Upper(s)) == Lower(s)
  {
    forall i | 0 <= i < |s| ensures Lower(Upper(s))[i] == Lower(s)[i] {
      var c := s[i];
      assert LowerChar(UpperChar(c)) == LowerChar(c);
    }
  }

  /** `pat` occurs in `s` starting at index `i`. */
  predicate OccursAt(s: string, pat: string, i: nat) {
    i + |pat| <= |s| && s[i..i + |pat|] == pat
  }

  /** `s.Replace(pat, rep)` with ordinal comparison: scanning from the left,
      each occurrence of `pat` is replaced by `rep` and scanning resumes
      after it. .NET refuses an empty `pat`. */
  function Replace(s: string, pat: string, rep: string): string
    requires |pat| > 0
    decreases |s|
  {
    if |s| < |pat| then s
    else if s[..|pat|] == pat then rep + Replace(s[|pat|..], pat, rep)
    else [s[0]] + Replace(s[1..], pat, rep)
  }

  /** Without an occurrence of `pat`, Replace leaves the text as it is. */
  lemma {:induction false} ReplaceAbsent(s: string, pat: string, rep: string)
    requires |pat| > 0
    requires forall i :: 0 <= i <= |s| ==> !OccursAt(s, pat, i)
    ensures Replace(s, pat, rep) == s
  {
    if |s| >= |pat| {
      assert !OccursAt(s, pat, 0);
      var t := s[1..];
      forall i | 0 <= i <= |t| ensures !OccursAt(t, pat, i) {
        assert !OccursAt(s, pat, i + 1);
        if i + |pat| <= |t| {
          assert t[i..i + |pat|] == s[i + 1..i + 1 + |pat|];
        }
      }
      ReplaceAbsent(t, pat, rep);
      assert s == [s[0]] + t;
    }
  }

  /** A slice of `s[1..]` is the slice of `s` one place further on. */
  lemma ShiftedSlice(s: string, i: nat, n: nat)
    requires 1 + i + n <= |s|
    ensures s[1..][i..i + n] == s[i + 1..i + 1 + n]
  {
  }

  /** The first occurrence of `pat` in `a + pat + b` is the one after `a`:
      it becomes `rep`, the text before it is kept, and the rest of the
      text is processed on its own. */
  lemma {:induction false} ReplaceFirst(a: string, pat: string, b: string, rep: string)
    requires |pat| > 0
    requires forall i :: 0 <= i < |a| ==> !OccursAt(a + pat + b, pat, i)
    ensures Replace(a + pat + b, pat, rep) == a + rep + Replace(b, pat, rep)
  {
    var s := a + pat + b;
    if a == [] {
      assert s == pat + b;
      assert s[..|pat|] == pat;
      assert s[|pat|..] == b;
    } else {
      assert !OccursAt(s, pat, 0);
      var a' := a[1..];
      var t := a' + pat + b;
      assert s[1..] == t;
      forall i | 0 <= i < |a'| ensures !OccursAt(t, pat, i) {
        assert !OccursAt(s, pat, i + 1);
        ShiftedSlice(s, i, |pat|);
      }
      ReplaceFirst(a', pat, b, rep);
      calc {
        Replace(s, pat, rep);
        [s[0]] + Replace(t, pat, rep);
        [a[0]] + (a' + rep + Replace(b, pat, rep));
        { assert a == [a[0]] + a'; }
        a + rep + Replace(b, pat, rep);
      }
    }
  }
}
