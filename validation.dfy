/**
 The entry validators the settings reader calls: validateNal (a single
 letter) and validateAlu (a letter or pin value that at most one entry
 field holds). validateNan, validateNai and the pin range check inside
 validateNap parse Python numbers and consult the board's pin table; they
 are parameters of the model.
 */
module Validation {
  import opened Text

  /** validateNal: the empty text, or an alphabetic text of length one;
      that is, at most one character, and that one a letter. */
  function ValidateNal(s: string): (ok: bool)
    ensures ok <==> |s| <= 1 && forall i :: 0 <= i < |s| ==> IsLetter(s[i])
  {
    s == [] || (IsAlpha(s) && |s| == 1)
  }

  /** The number of fields whose text is `value`. */
  function Occurrences(value: string, fields: seq<string>): (n: nat)
    ensures n <= |fields|
  {
    if fields == [] then 0
    else Occurrences(value, fields[..|fields| - 1]) + (if fields[|fields| - 1] == value then 1 else 0)
  }

  /** No two different fields hold `value`. */
  predicate AtMostOnce(value: string, fields: seq<string>) {
    forall i, j :: 0 <= i < |fields| && 0 <= j < |fields| && fields[i] == value && fields[j] == value ==> i == j
  }

  /** Counting to at most one is the same as no two fields sharing the
      value. */
  lemma {:induction false} OccurrencesAtMostOne(value: string, fields: seq<string>)
    ensures Occurrences(value, fields) <= 1 <==> AtMostOnce(value, fields)
  {
    if fields != [] {
      var front := fields[..|fields| - 1];
      var last := |fields| - 1;
      OccurrencesAtMostOne(value, front);
      if fields[last] == value && Occurrences(value, front) == 1 {
        OccurrencesPositive(value, front);
        var i :| 0 <= i < |front| && front[i] == value;
        assert fields[i] == value && i != last;
      }
      if Occurrences(value, fields) <= 1 {
        forall i, j | 0 <= i < |fields| && 0 <= j < |fields| && fields[i] == value && fields[j] == value
          ensures i == j
        {
          if i != last && j != last {
            assert front[i] == value && front[j] == value;
          } else if i != j {
            var k := if i == last then j else i;
            assert front[k] == value;
            OccurrencesFound(value, front, k);
          }
        }
      }
    }
  }

  lemma {:induction false} OccurrencesPositive(value: string, fields: seq<string>)
    requires Occurrences(value, fields) > 0
    ensures exists i :: 0 <= i < |fields| && fields[i] == value
  {
    var last := |fields| - 1;
    if fields[last] != value {
      OccurrencesPositive(value, fields[..last]);
      var i :| 0 <= i < last && fields[..last][i] == value;
      assert fields[i] == value;
    }
  }

  lemma {:induction false} OccurrencesFound(value: string, fields: seq<string>, k: nat)
    requires k < |fields| && fields[k] == value
    ensures Occurrences(value, fields) > 0
  {
    var last := |fields| - 1;
    if k != last {
      assert fields[..last][k] == value;
      OccurrencesFound(value, fields[..last], k);
    }
  }

  /** The checks validateAlu chains before counting: validateNap for pins
      (the number checks are `validPin`), validateNal for letters. */
  predicate Acceptable(value: string, isPin: bool, validPin: string -> bool) {
    if isPin then validPin(value) else ValidateNal(value)
  }

  /** validateAlu as a predicate, for the settings reader. */
  predicate AluValid(value: string, isPin: bool, validPin: string -> bool, fields: seq<string>) {
    value == [] || (Acceptable(value, isPin, validPin) && Occurrences(value, fields) <= 1)
  }

  /** validateAlu accepts the empty value, and otherwise exactly the values
      that pass their own check and that no two fields share. */
  lemma AluValidMeaning(value: string, isPin: bool, validPin: string -> bool, fields: seq<string>)
    ensures AluValid(value, isPin, validPin, fields) <==>
      value == [] || (Acceptable(value, isPin, validPin) && AtMostOnce(value, fields))
  {
    OccurrencesAtMostOne(value, fields);
  }

  /** validateAlu: counts the fields (the eight letter entries, or the seven
      pin entries) whose text is the value. */
  method ValidateAlu(value: string, isPin: bool, validPin: string -> bool, fields: seq<string>)
    returns (ok: bool)
    ensures ok <==> value == [] || (Acceptable(value, isPin, validPin) && AtMostOnce(value, fields))
  {
    var inWidgets := 0;
    if value == [] {
      return true;
    }
    if !Acceptable(value, isPin, validPin) {
      return false;
    }
    for i := 0 to |fields|
      invariant inWidgets == Occurrences(value, fields[..i])
    {
      assert fields[..i + 1][..i] == fields[..i];
      inWidgets := inWidgets + (if value == fields[i] then 1 else 0);
    }
    assert fields[..|fields|] == fields;
    OccurrencesAtMostOne(value, fields);
    ok := inWidgets <= 1;
  }
}
