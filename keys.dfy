/**
 MainWindow.keypress and MainWindow.keyrelease: while the motors are
 started, a plain letter key held down counts in `letter_pressed`, and only
 the first of the keys held at once acts. The letter is looked up in the
 eight increment/decrement letters of the settings (top, middle, bottom,
 all; increment before decrement); it selects a motor and a sign, and a
 single motor is only adjusted when its operating flag is set.
 */
module Keys {
  import opened Text
  import opened Speed
  import opened Wrappers

  /** The motor the letter at `index` of the eight letters belongs to. */
  function MotorOf(index: nat): Motor {
    if index < 2 then Top else if index < 4 then Middle else if index < 6 then Bottom else All
  }

  /** Increment letters sit at even positions, decrement letters at odd. */
  function Sign(index: nat): int {
    if index % 2 == 0 then 1 else -1
  }

  /** The operating flag checked for a single motor's letter. */
  function OperatingSlot(index: nat): nat {
    (index - index % 2) / 2
  }

  /** The flag checked for letters 0 .. 5 is the selected motor's own, and
      the sign alternates increment, decrement. */
  lemma SlotIsMotor(index: nat)
    requires index < 8
    ensures index < 6 <==> MotorOf(index) != All
    ensures index < 6 ==> OperatingSlot(index) == Slot(MotorOf(index))
    ensures Sign(index) == 1 <==> index % 2 == 0
    ensures Sign(index) == -1 <==> index % 2 == 1
  {
  }

  /** list.index: the first position holding `x`, if any. */
  function IndexOf(xs: seq<string>, x: string): (r: Option<nat>)
    ensures r.None? <==> x !in xs
    ensures r.Some? ==> r.value < |xs| && xs[r.value] == x
    ensures r.Some? ==> forall j :: 0 <= j < r.value ==> xs[j] != x
  {
    if xs == [] then None
    else if xs[0] == x then Some(0)
    else match IndexOf(xs[1..], x)
      case None => None
      case Some(k) => Some(k + 1)
  }

  /** The increment_letters list: the eight letters, lower-cased. */
  function LowerAll(letters: seq<string>): (r: seq<string>)
    ensures |r| == |letters|
    ensures forall k :: 0 <= k < |letters| ==> r[k] == Lower(letters[k])
  {
    seq(|letters|, k requires 0 <= k < |letters| => Lower(letters[k]))
  }

  /** What a first key press selects: the motor whose increment value entry
      is copied into the settings, the sign of the change, and whether
      setIncrement is then called. */
  datatype Selection = Selection(motor: Motor, sign: int, adjust: bool)

  function Dispatch(letters: seq<string>, ch: string, operating: seq<bool>): Option<Selection>
    requires |letters| == 8 && |operating| == 3
  {
    match IndexOf(LowerAll(letters), Lower(ch))
    case None => None
    case Some(index) =>
      Some(Selection(MotorOf(index), Sign(index), index >= 6 || operating[OperatingSlot(index)]))
  }

  /** Pressing a key (in either case) selects through the first of the
      eight letters it matches after lower-casing: the motor and direction
      that letter is set for, adjusting the motor when it is "all" or its
      own flag is set; a key matching no letter selects nothing. */
  lemma DispatchLetter(letters: seq<string>, ch: string, operating: seq<bool>)
    requires |letters| == 8 && |operating| == 3
    ensures (forall k :: 0 <= k < 8 ==> Lower(ch) != Lower(letters[k])) <==>
            Dispatch(letters, ch, operating) == None
    ensures forall k :: 0 <= k < 8 && Lower(ch) == Lower(letters[k]) &&
                        (forall j :: 0 <= j < k ==> Lower(ch) != Lower(letters[j])) ==>
      Dispatch(letters, ch, operating) ==
        Some(Selection(MotorOf(k), Sign(k), MotorOf(k) == All || operating[Slot(MotorOf(k))]))
  {
    var low := LowerAll(letters);
    forall k | 0 <= k < 8 && Lower(ch) == Lower(letters[k]) &&
               (forall j :: 0 <= j < k ==> Lower(ch) != Lower(letters[j]))
      ensures Dispatch(letters, ch, operating) ==
        Some(Selection(MotorOf(k), Sign(k), MotorOf(k) == All || operating[Slot(MotorOf(k))]))
    {
      assert low[k] == Lower(ch);
      var r := IndexOf(low, Lower(ch));
      assert r.Some? && r.value == k;
      SlotIsMotor(k);
    }
    if forall k :: 0 <= k < 8 ==> Lower(ch) != Lower(letters[k]) {
      assert Lower(ch) !in low;
    }
  }

  /** Nothing keeps two of the eight letters apart in case only: with "A"
      for the top motor's increment and "a" for the middle one's, the key
      "a" always selects the top motor, and the middle motor cannot be
      raised from the keyboard. */
  lemma CaseTwinSelectsFirst(letters: seq<string>, operating: seq<bool>)
    requires |letters| == 8 && |operating| == 3
    requires letters[0] == "A" && letters[2] == "a"
    ensures Dispatch(letters, "a", operating) == Some(Selection(Top, 1, operating[0]))
    ensures forall ch :: Dispatch(letters, ch, operating) != Some(Selection(Middle, 1, operating[1]))
  {
    assert Lower("A") == "a" && Lower("a") == "a";
    DispatchLetter(letters, "a", operating);
    forall ch
      ensures Dispatch(letters, ch, operating) != Some(Selection(Middle, 1, operating[1]))
    {
      var r := IndexOf(LowerAll(letters), Lower(ch));
      if r.Some? && r.value == 2 {
        assert false;
      }
    }
  }

  /** The window's key state: `started` and `letter_pressed`. */
  class KeyState {
    var started: bool
    var letterPressed: int

    ghost predicate Valid()
      reads this
    {
      letterPressed >= 0
    }

    constructor ()
      ensures Valid() && !started && letterPressed == 0
    {
      started := false;
      letterPressed := 0;
    }

    /** keypress: a key whose character is its keysym (no modifier) counts
        as held; only when it is the only key held does it select. */
    method KeyPress(ch: string, keysym: string, letters: seq<string>, operating: seq<bool>)
      returns (selected: Option<Selection>)
      requires Valid() && |letters| == 8 && |operating| == 3
      modifies this`letterPressed
      ensures Valid()
      ensures letterPressed == if started && ch == keysym then old(letterPressed) + 1 else old(letterPressed)
      ensures selected == if started && ch == keysym && letterPressed == 1
                          then Dispatch(letters, ch, operating) else None
    {
      selected := None;
      if started {
        if ch == keysym {
          letterPressed := letterPressed + 1;
        } else {
          return;
        }
        if letterPressed == 1 {
          var low := LowerAll(letters);
          var index := IndexOf(low, Lower(ch));
          if index.Some? {
            var i := index.value;
            var motor := MotorOf(i);
            if i >= 6 || operating[OperatingSlot(i)] {
              selected := Some(Selection(motor, Sign(i), true));
            } else {
              selected := Some(Selection(motor, Sign(i), false));
            }
          }
        }
      }
    }

    /** keyrelease: a one-character keysym releases a held key; the count
        never goes below zero. */
    method KeyRelease(keysym: string)
      requires Valid()
      modifies this`letterPressed
      ensures Valid()
      ensures letterPressed ==
        if |keysym| == 1 && started && old(letterPressed) > 0 then old(letterPressed) - 1
        else old(letterPressed)
    {
      if |keysym| == 1 && started {
        letterPressed := letterPressed - (if letterPressed <= 0 then 0 else 1);
      }
    }
  }

  /** Two letters pressed together and released: only the first one acts,
      and afterwards the next press acts again. */
  method HoldTwoKeys(s: KeyState, a: char, b: char, letters: seq<string>, operating: seq<bool>)
    returns (first: Option<Selection>, second: Option<Selection>, third: Option<Selection>)
    requires s.Valid() && s.started && s.letterPressed == 0
    requires |letters| == 8 && |operating| == 3
    modifies s
    ensures first == Dispatch(letters, [a], operating)
    ensures second == None
    ensures third == Dispatch(letters, [a], operating)
    ensures s.Valid() && s.letterPressed == 1
  {
    first := s.KeyPress([a], [a], letters, operating);
    second := s.KeyPress([b], [b], letters, operating);
    s.KeyRelease([b]);
    s.KeyRelease([a]);
    third := s.KeyPress([a], [a], letters, operating);
  }
}
