/** The account-name check: one or more ASCII letters, one space or dot,
    one or more ASCII letters, and nothing else (`^([A-Za-z]+)( |\.)([A-Za-z]+)$`). */
module Validation {

  import opened Text

  predicate IsNameSeparator(c: char) { c == ' ' || c == '.' }

  predicate AllLetters(s: string)
  {
    forall i :: 0 <= i < |s| ==> IsLetter(s[i])
  }

  /** The strings the pattern matches: a non-empty run of letters, a
      separator at position `i`, and a non-empty run of letters to the end. */
  predicate MatchesNamePattern(name: string)
  {
    exists i :: 0 < i < |name| - 1 && AllLetters(name[..i]) && IsNameSeparator(name[i])
      && AllLetters(name[i + 1..])
  }

  /** The length of the run of letters `s` starts with. */
  function LeadingLetters(s: string): (n: nat)
    ensures n <= |s| && AllLetters(s[..n])
    ensures n < |s| ==> !IsLetter(s[n])
  {
    if s == [] || !IsLetter(s[0]) then 0
    else
      var n := 1 + LeadingLetters(s[1..]);
      assert s[..n] == [s[0]] + s[1..][..n - 1];
      n
  }

  /** ValidateName: the first non-letter must be the one separator, with
      letters on both sides of it up to the end. */
  function ValidateName(name: string): (r: bool)
    ensures r <==> MatchesNamePattern(name)
  {
    var n := LeadingLetters(name);
    var r := 0 < n < |name| - 1 && IsNameSeparator(name[n]) && AllLetters(name[n + 1..]);
    assert !r ==> !MatchesNamePattern(name) by {
      if MatchesNamePattern(name) {
        var i :| 0 < i < |name| - 1 && AllLetters(name[..i]) && IsNameSeparator(name[i])
          && AllLetters(name[i + 1..]);
        LeadingLettersAt(name, i);
      }
    }
    r
  }

  /** A separator after a run of letters ends the leading run there. */
  lemma LeadingLettersAt(s: string, i: int)
    requires 0 <= i < |s| && AllLetters(s[..i]) && !IsLetter(s[i])
    ensures LeadingLetters(s) == i
  {
  }

  /** Every name the check accepts has exactly one separator. */
  lemma ValidNameOneSeparator(name: string)
    requires ValidateName(name)
    ensures exists i :: (0 < i < |name| - 1 && IsNameSeparator(name[i])
      && forall j :: 0 <= j < |name| && j != i ==> IsLetter(name[j]))
  {
    var i :| 0 < i < |name| - 1 && AllLetters(name[..i]) && IsNameSeparator(name[i])
      && AllLetters(name[i + 1..]);
    forall j | 0 <= j < |name| && j != i
      ensures IsLetter(name[j])
    {
      if j < i {
        assert name[..i][j] == name[j];
      } else {
        assert name[i + 1..][j - i - 1] == name[j];
      }
    }
  }

  /** A letter run, a separator and a letter run are accepted. */
  lemma ValidNameOfParts(first: string, sep: char, last: string)
    requires |first| > 0 && AllLetters(first) && IsNameSeparator(sep)
    requires |last| > 0 && AllLetters(last)
    ensures ValidateName(first + [sep] + last)
  {
    var name := first + [sep] + last;
    assert name[..|first|] == first;
    assert name[|first| + 1..] == last;
  }

  /** "First Last", "First.Last", "F Last" and "F.Last" are accepted. */
  lemma ValidNameExamples()
    ensures ValidateName("john doe")
    ensures ValidateName("j doe")
    ensures ValidateName("l.james")
  {
    AcceptsFirstLast();
    AcceptsInitialLast();
    AcceptsInitialDotLast();
  }

  lemma AcceptsFirstLast()
    ensures ValidateName("john doe")
  {
    ValidNameOfParts("john", ' ', "doe");
    assert "john" + [' '] + "doe" == "john doe";
  }

  lemma AcceptsInitialLast()
    ensures ValidateName("j doe")
  {
    ValidNameOfParts("j", ' ', "doe");
    assert "j" + [' '] + "doe" == "j doe";
  }

  lemma AcceptsInitialDotLast()
    ensures ValidateName("l.james")
  {
    ValidNameOfParts("l", '.', "james");
    assert "l" + ['.'] + "james" == "l.james";
  }

  /** Empty text, two separators, digits and surrounding white space are rejected. */
  lemma InvalidNameExamples()
    ensures !ValidateName("")
    ensures !ValidateName("john  doe")
    ensures !ValidateName("a b c")
    ensures !ValidateName("john1 doe")
    ensures !ValidateName(" john doe")
    ensures !ValidateName("john doe ")
  {
    RejectsDoubleSeparator();
    RejectsThreeParts();
    RejectsDigit();
    RejectsLeadingSpace();
    RejectsTrailingSpace();
  }

  lemma RejectsDigit()
    ensures !ValidateName("john1 doe")
  {
    LeadingLettersAt("john1 doe", 4);
  }

  lemma RejectsLeadingSpace()
    ensures !ValidateName(" john doe")
  {
    LeadingLettersAt(" john doe", 0);
  }

  lemma RejectsDoubleSeparator()
    ensures !ValidateName("john  doe")
  {
    LeadingLettersAt("john  doe", 4);
    assert "john  doe"[5..][0] == ' ';
  }

  lemma RejectsThreeParts()
    ensures !ValidateName("a b c")
  {
    LeadingLettersAt("a b c", 1);
    assert "a b c"[2..][1] == ' ';
  }

  lemma RejectsTrailingSpace()
    ensures !ValidateName("john doe ")
  {
    LeadingLettersAt("john doe ", 4);
    assert "john doe "[5..][3] == ' ';
  }
}
