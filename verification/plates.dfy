/** License plates: `RDWEntity.validate_plate` and the normalisation the configuration flow
    applies to what the user types. */
module Plates {
  import opened Ascii

  /** `validate_plate`: exactly six characters, all letters or digits. A plate that passes
      holds no dash or space, so the normalisation has nothing to remove from it. */
  function ValidatePlate(plate: string): (b: bool)
    ensures b <==> |plate| == 6 && forall i :: 0 <= i < 6 ==> IsUpper(plate[i]) || IsLower(plate[i]) || IsDigit(plate[i])
    ensures b ==> '-' !in plate && ' ' !in plate
  {
    |plate| == 6 && IsAlnumString(plate)
  }

  /** `plate.upper().replace("-", "")`. */
  function NormalisePlate(plate: string): (r: string)
    ensures '-' !in r
    ensures forall i :: 0 <= i < |r| ==> !IsLower(r[i])
    ensures forall c :: c in r ==> c in Upper(plate)
    ensures |r| <= |plate|
  {
    var r := RemoveAll(Upper(plate), "-");
    assert forall i :: 0 <= i < |r| ==> r[i] in Upper(plate);
    r
  }

  /** The normalisation works character by character: a dash is dropped, every other
      character is kept in place and upper-cased. With `NormalisePlate("") == ""` this
      determines the result for every input. */
  lemma NormalisePlateCons(c: char, s: string)
    ensures NormalisePlate([c] + s) == (if c == '-' then [] else [ToUpper(c)]) + NormalisePlate(s)
  {
    UpperCons(c, s);
    RemoveAllCharCons(ToUpper(c), Upper(s), '-');
  }

  /** Normalising a normalised plate changes nothing. */
  lemma NormaliseIdempotent(plate: string)
    ensures NormalisePlate(NormalisePlate(plate)) == NormalisePlate(plate)
  {
    var r := NormalisePlate(plate);
    UpperFixesUpperCase(r);
    NoDashNoOccurrence(r);
    RemoveAllAbsent(r, "-");
  }

  lemma NoDashNoOccurrence(s: string)
    requires '-' !in s
    ensures !Contains(s, "-")
  {
    forall i | 0 <= i <= |s|
      ensures !OccursAt(s, "-", i)
    {
      if i < |s| {
        assert s[i..i + 1] == [s[i]];
      }
    }
  }

  /** A plate that is already valid only has its lower-case letters capitalised by the
      normalisation, and stays valid. */
  lemma NormalisePreservesValid(plate: string)
    requires ValidatePlate(plate)
    ensures NormalisePlate(plate) == Upper(plate)
    ensures ValidatePlate(NormalisePlate(plate))
  {
    var u := Upper(plate);
    assert '-' !in u by {
      forall i | 0 <= i < |u|
        ensures u[i] != '-'
      {
        assert IsAlnum(plate[i]);
      }
    }
    NoDashNoOccurrence(u);
    RemoveAllAbsent(u, "-");
    forall i | 0 <= i < |u|
      ensures IsAlnum(u[i])
    {
      assert IsAlnum(plate[i]);
    }
  }
}
