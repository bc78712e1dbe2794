/** ASCII versions of the Python string methods the component relies on:
    `isalnum`, `upper`, `lower`, `title`, `startswith` and `replace(pat, "")`. */
module Ascii {

  predicate IsDigit(c: char) { '0' <= c <= '9' }
  predicate IsUpper(c: char) { 'A' <= c <= 'Z' }
  predicate IsLower(c: char) { 'a' <= c <= 'z' }
  predicate IsLetter(c: char) { IsUpper(c) || IsLower(c) }
  predicate IsAlnum(c: char) { IsLetter(c) || IsDigit(c) }

  /** `str.isalnum`: true for a non-empty string of letters and digits only. */
  predicate IsAlnumString(s: string) {
    |s| > 0 && forall i :: 0 <= i < |s| ==> IsAlnum(s[i])
  }

  function ToUpper(c: char): (r: char)
    ensures !IsLower(r)
    ensures IsLetter(r) <==> IsLetter(c)
    ensures IsDigit(r) <==> IsDigit(c)
    ensures !IsLower(c) ==> r == c
    ensures IsLower(c) ==> IsUpper(r) && r as int + 32 == c as int
  {
    if IsLower(c) then (c as int - 32) as char else c
  }

  function ToLower(c: char): (r: char)
    ensures !IsUpper(r)
    ensures IsLetter(r) <==> IsLetter(c)
    ensures !IsUpper(c) ==> r == c
    ensures IsUpper(c) ==> IsLower(r) && r as int == c as int + 32
  {
    if IsUpper(c) then (c as int + 32) as char else c
  }

  /** `str.upper`: every lower-case letter is replaced by its capital, nothing else moves. */
  function Upper(s: string): (r: string)
    ensures |r| == |s|
    ensures forall i :: 0 <= i < |r| ==> !IsLower(r[i])
    ensures forall i :: 0 <= i < |r| && !IsLower(s[i]) ==> r[i] == s[i]
    ensures forall i :: 0 <= i < |r| && IsLower(s[i]) ==> IsUpper(r[i]) && r[i] as int + 32 == s[i] as int
  {
    seq(|s|, i requires 0 <= i < |s| => ToUpper(s[i]))
  }

  /** `str.lower`: every capital is replaced by its lower-case letter, nothing else moves. */
  function Lower(s: string): (r: string)
    ensures |r| == |s|
    ensures forall i :: 0 <= i < |r| ==> !IsUpper(r[i])
    ensures forall i :: 0 <= i < |r| && !IsUpper(s[i]) ==> r[i] == s[i]
    ensures forall i :: 0 <= i < |r| && IsUpper(s[i]) ==> IsLower(r[i]) && r[i] as int == s[i] as int + 32
  {
    seq(|s|, i requires 0 <= i < |s| => ToLower(s[i]))
  }

  /** `str.upper` works character by character. */
  lemma UpperCons(c: char, s: string)
    ensures Upper([c] + s) == [ToUpper(c)] + Upper(s)
  {
    var l := Upper([c] + s);
    var r := [ToUpper(c)] + Upper(s);
    forall i | 0 <= i < |l|
      ensures l[i] == r[i]
    {
      if i > 0 {
        assert ([c] + s)[i] == s[i - 1];
      }
    }
  }

  /** A string without lower-case letters is its own upper-case form. */
  lemma UpperFixesUpperCase(s: string)
    requires forall i :: 0 <= i < |s| ==> !IsLower(s[i])
    ensures Upper(s) == s
  {
    assert forall i :: 0 <= i < |s| ==> Upper(s)[i] == s[i];
  }

  /** The case `str.title` gives one character, given whether the character before it is a letter. */
  function TitleChar(c: char, afterLetter: bool): (r: char)
    ensures IsLetter(r) <==> IsLetter(c)
    ensures IsLetter(c) ==> (if afterLetter then IsLower(r) else IsUpper(r))
    ensures !IsLetter(c) ==> r == c
  {
    if !IsLetter(c) then c else if afterLetter then ToLower(c) else ToUpper(c)
  }

  /** `str.title` restricted to ASCII: a letter is upper-cased when the character before it
      is not a letter and lower-cased when it is; every other character is kept. */
  function Title(s: string): (r: string)
    ensures |r| == |s|
    ensures forall i {:trigger r[i]} :: 0 <= i < |s| ==> r[i] == TitleChar(s[i], AfterLetter(s, i))
  {
    TitleAfter(s, false)
  }

  /** `Title` of a suffix, given whether the character before the suffix is a letter. */
  function TitleAfter(s: string, afterLetter: bool): (r: string)
    ensures |r| == |s|
    ensures forall i {:trigger r[i]} :: 0 <= i < |s| ==>
      r[i] == TitleChar(s[i], if i == 0 then afterLetter else IsLetter(s[i - 1]))
  {
    if s == [] then []
    else [TitleChar(s[0], afterLetter)] + TitleAfter(s[1..], IsLetter(s[0]))
  }

  /** The character before index `i` of `s` is a letter. */
  predicate AfterLetter(s: string, i: int) {
    0 < i <= |s| && IsLetter(s[i - 1])
  }

  /** A string in title case: each letter is a capital exactly when no letter precedes it. */
  predicate IsTitled(s: string) {
    forall i :: 0 <= i < |s| && IsLetter(s[i]) ==>
      (if AfterLetter(s, i) then IsLower(s[i]) else IsUpper(s[i]))
  }

  /** `Title` leaves a string unchanged exactly when that string is already in title case. */
  lemma TitleFixedPointIffTitled(s: string)
    ensures Title(s) == s <==> IsTitled(s)
  {
    if IsTitled(s) {
      forall i | 0 <= i < |s|
        ensures Title(s)[i] == s[i]
      {
        if IsLetter(s[i]) {
          assert if AfterLetter(s, i) then IsLower(s[i]) else IsUpper(s[i]);
        }
      }
    }
    if Title(s) == s {
      forall i | 0 <= i < |s| && IsLetter(s[i])
        ensures if AfterLetter(s, i) then IsLower(s[i]) else IsUpper(s[i])
      {
        assert s[i] == TitleChar(s[i], AfterLetter(s, i));
      }
    }
  }

  /** Every string `Title` returns is in title case, so applying it twice changes nothing. */
  lemma TitleIdempotent(s: string)
    ensures IsTitled(Title(s))
    ensures Title(Title(s)) == Title(s)
  {
    var r := Title(s);
    forall i | 0 <= i < |r| && IsLetter(r[i])
      ensures if AfterLetter(r, i) then IsLower(r[i]) else IsUpper(r[i])
    {
      assert IsLetter(s[i]);
      if i > 0 {
        assert IsLetter(r[i - 1]) <==> IsLetter(s[i - 1]);
      }
    }
    TitleFixedPointIffTitled(r);
  }

  /** `str.title` changes only the case of letters. */
  lemma LowerTitle(s: string)
    ensures Lower(Title(s)) == Lower(s)
  {
    var t := Title(s);
    forall i | 0 <= i < |s|
      ensures Lower(t)[i] == Lower(s)[i]
    {
      var c := s[i];
      if IsUpper(c) {
        assert Lower(s)[i] as int == c as int + 32;
      } else if IsLower(c) {
        assert IsLetter(t[i]);
      }
    }
  }

  /** Two strings with the same lower-case form agree, place by place, up to case and on
      which characters are letters. */
  lemma SameLowerAt(r: string, s: string, i: int)
    requires Lower(r) == Lower(s) && 0 <= i < |s|
    ensures ToLower(r[i]) == ToLower(s[i])
    ensures IsLetter(r[i]) <==> IsLetter(s[i])
  {
    assert Lower(r)[i] == ToLower(r[i]) && Lower(s)[i] == ToLower(s[i]);
  }

  /** A character already in the case `TitleChar` would give it is what `TitleChar` gives
      any character equal to it up to case. */
  lemma TitleCharSameLower(c: char, d: char, afterLetter: bool)
    requires ToLower(c) == ToLower(d)
    requires IsLetter(c) ==> if afterLetter then IsLower(c) else IsUpper(c)
    ensures c == TitleChar(d, afterLetter)
  {
  }

  /** A string in title case is determined by its lower-case form: it is the `str.title` of
      any string with the same lower-case form. */
  lemma TitledUnique(r: string, s: string)
    requires IsTitled(r) && Lower(r) == Lower(s)
    ensures r == Title(s)
  {
    forall i | 0 <= i < |s|
      ensures r[i] == Title(s)[i]
    {
      SameLowerAt(r, s, i);
      if i > 0 {
        SameLowerAt(r, s, i - 1);
      }
      assert AfterLetter(r, i) == AfterLetter(s, i);
      TitleCharSameLower(r[i], s[i], AfterLetter(s, i));
    }
  }

  /** A space separates words for `str.title`: title-casing two strings joined by a space
      title-cases each of them on its own. */
  lemma TitleAroundSpace(a: string, b: string)
    ensures Title(a + " " + b)[..|a|] == Title(a)
    ensures Title(a + " " + b)[|a| + 1..] == Title(b)
  {
    var joined := a + " " + b;
    var t := Title(joined);
    forall i | 0 <= i < |a|
      ensures t[i] == Title(a)[i]
    {
      assert joined[i] == a[i];
      if i > 0 { assert joined[i - 1] == a[i - 1]; }
    }
    forall i | 0 <= i < |b|
      ensures t[|a| + 1 + i] == Title(b)[i]
    {
      assert joined[|a| + 1 + i] == b[i];
      if i > 0 { assert joined[|a| + i] == b[i - 1]; }
      else { assert joined[|a|] == ' '; }
    }
  }

  /** `s.startswith(p)`; every string starts with the empty string. */
  predicate StartsWith(s: string, p: string) {
    |p| <= |s| && s[..|p|] == p
  }

  /** `pat` occurs in `s` starting at index `i`. */
  predicate OccursAt(s: string, pat: string, i: int) {
    0 <= i && i + |pat| <= |s| && s[i..i + |pat|] == pat
  }

  predicate Contains(s: string, pat: string) {
    exists i | 0 <= i <= |s| :: OccursAt(s, pat, i)
  }

  /** `s.replace(pat, "")`: scans `s` from the left and drops each non-overlapping
      occurrence of `pat`; an empty `pat` leaves `s` unchanged. */
  function RemoveAll(s: string, pat: string): (r: string)
    ensures |r| <= |s|
    ensures forall c :: c in r ==> c in s
    ensures |pat| == 1 ==> pat[0] !in r
    decreases |s|
  {
    if pat == [] || |s| < |pat| then s
    else if s[..|pat|] == pat then RemoveAll(s[|pat|..], pat)
    else [s[0]] + RemoveAll(s[1..], pat)
  }

  /** The occurrences in the tail of `s` are those in `s`, one place further on. */
  lemma OccursInTail(s: string, pat: string, i: int)
    requires |s| > 0 && 0 <= i
    ensures OccursAt(s[1..], pat, i) <==> OccursAt(s, pat, i + 1)
  {
    if i + |pat| <= |s| - 1 {
      assert s[1..][i..i + |pat|] == s[i + 1..i + 1 + |pat|];
    }
  }

  /** Nothing is removed from a string in which the pattern does not occur. */
  lemma {:induction false} RemoveAllAbsent(s: string, pat: string)
    requires !Contains(s, pat)
    ensures RemoveAll(s, pat) == s
    decreases |s|
  {
    if pat == [] || |s| < |pat| {
    } else {
      assert !OccursAt(s, pat, 0);
      assert !Contains(s[1..], pat) by {
        forall i | OccursAt(s[1..], pat, i)
          ensures OccursAt(s, pat, i + 1)
        {
          OccursInTail(s, pat, i);
        }
      }
      RemoveAllAbsent(s[1..], pat);
    }
  }

  /** When the pattern does not start the text, the first character is kept. */
  lemma RemoveAllKeepsHead(s: string, pat: string)
    requires pat != [] && |s| > 0 && !OccursAt(s, pat, 0)
    ensures RemoveAll(s, pat) == [s[0]] + RemoveAll(s[1..], pat)
  {
    if |s| < |pat| {
      assert s == [s[0]] + s[1..];
    }
  }

  /** A prefix free of occurrences stays free of them, one shorter, in the tail. */
  lemma NoOccurrenceInTail(s: string, pat: string, k: nat)
    requires 0 < k <= |s|
    requires forall i :: 0 <= i < k ==> !OccursAt(s, pat, i)
    ensures forall i :: 0 <= i < k - 1 ==> !OccursAt(s[1..], pat, i)
  {
    forall i | 0 <= i < k - 1
      ensures !OccursAt(s[1..], pat, i)
    {
      OccursInTail(s, pat, i);
    }
  }

  /** The characters before the first occurrence of the pattern are kept as they are, and
      the scan goes on from there. */
  lemma {:induction false} RemoveAllKeepsPrefix(s: string, pat: string, k: nat)
    requires pat != [] && k <= |s|
    requires forall i :: 0 <= i < k ==> !OccursAt(s, pat, i)
    ensures RemoveAll(s, pat) == s[..k] + RemoveAll(s[k..], pat)
    decreases k
  {
    if k == 0 {
      assert s[..0] == [] && s[0..] == s;
    } else {
      var t := s[1..];
      var rest := RemoveAll(s[k..], pat);
      assert RemoveAll(s, pat) == [s[0]] + RemoveAll(t, pat) by {
        RemoveAllKeepsHead(s, pat);
      }
      assert RemoveAll(t, pat) == t[..k - 1] + rest by {
        NoOccurrenceInTail(s, pat, k);
        RemoveAllKeepsPrefix(t, pat, k - 1);
        assert t[k - 1..] == s[k..];
      }
      ConsPrefix(s, k, rest);
    }
  }

  /** Putting the first character back in front of the rest of a prefix gives the prefix. */
  lemma ConsPrefix(s: string, k: nat, rest: string)
    requires 0 < k <= |s|
    ensures [s[0]] + (s[1..][..k - 1] + rest) == s[..k] + rest
  {
    assert [s[0]] + s[1..][..k - 1] == s[..k];
  }

  /** A leading occurrence of the pattern is dropped whole. */
  lemma RemoveAllLeading(pat: string, s: string)
    requires pat != []
    ensures RemoveAll(pat + s, pat) == RemoveAll(s, pat)
  {
    assert (pat + s)[..|pat|] == pat;
    assert (pat + s)[|pat|..] == s;
  }

  /** With a one-character pattern, `RemoveAll` drops that character wherever it stands. */
  lemma RemoveAllCharCons(c: char, s: string, d: char)
    ensures RemoveAll([c] + s, [d]) == (if c == d then [] else [c]) + RemoveAll(s, [d])
  {
    var t := [c] + s;
    assert t[..1] == [c] && t[1..] == s;
  }
}
