/**
 * Text operations shared by the server's search and the client's filter:
 * lower-casing (ASCII letters only) and unanchored substring search.
 */
module Text {

  /** Lower-cases an ASCII upper-case letter; every other character is kept. */
  function LowerChar(c: char): (r: char)
    ensures 'A' <= c <= 'Z' ==> 'a' <= r <= 'z'
    ensures !('A' <= c <= 'Z') ==> r == c
    ensures !('A' <= r <= 'Z')
  {
    if 'A' <= c <= 'Z' then (c as int + 32) as char else c
  }

  /** Lower-cases every character of s. */
  function Lower(s: string): (r: string)
    ensures |r| == |s|
    ensures forall i :: 0 <= i < |s| ==> r[i] == LowerChar(s[i])
  {
    seq(|s|, i requires 0 <= i < |s| => LowerChar(s[i]))
  }

  /** p is a prefix of s. */
  predicate IsPrefix(p: string, s: string)
  {
    |p| <= |s| && s[..|p|] == p
  }

  /** term occurs somewhere in text (no anchoring, no tokenising). */
  predicate Contains(text: string, term: string)
    decreases |text|
  {
    IsPrefix(term, text) || (|text| > 0 && Contains(text[1..], term))
  }

  /** term occurs in text at position i. */
  ghost predicate OccursAt(text: string, term: string, i: int)
  {
    0 <= i && i + |term| <= |text| && text[i..i + |term|] == term
  }

  /** Contains is substring search: it holds exactly when term occurs at some position. */
  lemma {:induction false} ContainsIff(text: string, term: string)
    ensures Contains(text, term) <==> exists i :: OccursAt(text, term, i)
    decreases |text|
  {
    if IsPrefix(term, text) {
      assert OccursAt(text, term, 0);
    } else if |text| == 0 {
    } else {
      ContainsIff(text[1..], term);
      if exists i :: OccursAt(text[1..], term, i) {
        var i :| OccursAt(text[1..], term, i);
        assert text[i + 1..i + 1 + |term|] == text[1..][i..i + |term|];
        assert OccursAt(text, term, i + 1);
      }
      if exists i :: OccursAt(text, term, i) {
        var i :| OccursAt(text, term, i);
        assert i > 0;
        assert text[1..][i - 1..i - 1 + |term|] == text[i..i + |term|];
        assert OccursAt(text[1..], term, i - 1);
      }
    }
  }

  /** The empty term occurs in every text. */
  lemma ContainsEmpty(text: string)
    ensures Contains(text, "")
  {
    assert IsPrefix("", text);
  }

  /** Case-insensitive substring search: both sides are lower-cased first. */
  predicate ContainsIgnoringCase(text: string, term: string)
  {
    Contains(Lower(text), Lower(term))
  }

  /** Lower-casing a slice is slicing the lower-cased text. */
  lemma LowerSlice(s: string, i: nat, j: nat)
    requires i <= j <= |s|
    ensures Lower(s[i..j]) == Lower(s)[i..j]
  {
    assert forall k :: 0 <= k < j - i ==> Lower(s[i..j])[k] == LowerChar(s[i + k]);
  }

  /** The window of text at position i is the term up to case. */
  ghost predicate MatchesAt(text: string, term: string, i: int)
  {
    0 <= i && i + |term| <= |text| && Lower(text[i..i + |term|]) == Lower(term)
  }

  /**
   * Case-insensitive search holds exactly when some window of the text is
   * the term up to case.
   */
  lemma ContainsIgnoringCaseIff(text: string, term: string)
    ensures ContainsIgnoringCase(text, term) <==> exists i :: MatchesAt(text, term, i)
  {
    ContainsIff(Lower(text), Lower(term));
    forall i
      ensures OccursAt(Lower(text), Lower(term), i) <==> MatchesAt(text, term, i)
    {
      if 0 <= i && i + |term| <= |text| {
        LowerSlice(text, i, i + |term|);
      }
    }
  }

  /** For example, "Buy Milk" is found both by "milk" and by "MILK". */
  lemma BuyMilkExample()
    ensures ContainsIgnoringCase("Buy Milk", "milk")
    ensures ContainsIgnoringCase("Buy Milk", "MILK")
  {
    assert Lower("Buy Milk") == "buy milk";
    assert Lower("milk") == "milk";
    assert Lower("MILK") == "milk";
    assert OccursAt("buy milk", "milk", 4);
    ContainsIff("buy milk", "milk");
  }
}
