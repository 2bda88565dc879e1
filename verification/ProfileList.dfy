/**
 Finding an account in the console's profile list: a list whose focus stops at both ends, a reader
 of the focused row, and the scan that presses DOWN until the row is the wanted one.
 */
module ProfileList {
  import opened Options

  // Why the scan gives up before or after pressing.
  datatype ScanError = NoTarget | WrongLayout | NotFound

  // What the text recognition answers on this screen: row by row when focused, and for the whole list.
  datatype Screen = Screen(rows: seq<string>, lines: seq<string>) {
    predicate Valid() {
      |rows| > 0
    }
  }

  const SCROLL_PRESSES := 10
  const MAX_PROFILE_LIST_SLOTS := 12

  function Min(a: int, b: int): int {
    if a < b then a else b
  }

  /** An unreadable row never matches. */
  predicate Matches(identity: string -> bool, text: string) {
    text != "" && identity(text)
  }

  /** Where the focus is after scrolling up from `start`. */
  function TopAfter(start: nat): nat {
    if start > SCROLL_PRESSES then start - SCROLL_PRESSES else 0
  }

  /** The row in focus when the scan looks at `slot`. */
  function RowAt(screen: Screen, start: nat, slot: nat): nat
    requires screen.Valid()
  {
    Min(TopAfter(start) + slot, |screen.rows| - 1)
  }

  /** The scan's answer for slot 0 when that row cannot be read but some line of the list matches. */
  predicate FallsBack(screen: Screen, start: nat, identity: string -> bool)
    requires screen.Valid()
  {
    screen.rows[RowAt(screen, start, 0)] == "" && exists line | line in screen.lines :: Matches(identity, line)
  }

  /** What the scan answers, and where it leaves the focus, for any starting row. */
  ghost predicate ScanResult(screen: Screen, start: nat, identity: string -> bool, maxSlots: nat,
                             result: Result<nat, ScanError>, focus: nat, downs: nat)
    requires screen.Valid()
  {
    match result
    case Success(slot) =>
      && slot < maxSlots && downs == slot && focus == RowAt(screen, start, slot)
      && (forall s: nat | s < slot :: !Matches(identity, screen.rows[RowAt(screen, start, s)]))
      && (Matches(identity, screen.rows[focus]) || (slot == 0 && FallsBack(screen, start, identity)))
      && (slot > 0 ==> !FallsBack(screen, start, identity))
    case Failure(error) =>
      && error.NotFound?
      && downs == (if maxSlots == 0 then 0 else maxSlots - 1) && focus == RowAt(screen, start, downs)
      && (forall s: nat | s < maxSlots :: !Matches(identity, screen.rows[RowAt(screen, start, s)]))
      && (maxSlots > 0 ==> !FallsBack(screen, start, identity))
  }

  class AccountSwitcher {
    const screen: Screen
    var focus: nat
    var ups: nat
    var downs: nat

    predicate Valid()
      reads this
    {
      screen.Valid() && focus < |screen.rows|
    }

    constructor (screen: Screen, focus: nat)
      requires screen.Valid() && focus < |screen.rows|
      ensures Valid() && this.screen == screen && this.focus == focus && ups == 0 && downs == 0
    {
      this.screen, this.focus, ups, downs := screen, focus, 0, 0;
    }

    method PressUp()
      requires Valid()
      modifies this`focus, this`ups
      ensures Valid() && ups == old(ups) + 1 && focus == if old(focus) > 0 then old(focus) - 1 else 0
    {
      ups := ups + 1;
      focus := if focus > 0 then focus - 1 else 0;
    }

    method PressDown()
      requires Valid()
      modifies this`focus, this`downs
      ensures Valid() && downs == old(downs) + 1 && focus == Min(old(focus) + 1, |screen.rows| - 1)
    {
      downs := downs + 1;
      focus := Min(focus + 1, |screen.rows| - 1);
    }

    method ScrollToTop()
      requires Valid()
      modifies this`focus, this`ups
      ensures Valid() && ups == old(ups) + SCROLL_PRESSES && focus == TopAfter(old(focus))
    {
      for i := 0 to SCROLL_PRESSES
        invariant Valid() && ups == old(ups) + i
        invariant focus == if old(focus) > i then old(focus) - i else 0
      {
        PressUp();
      }
    }

    /** Whether any line of the whole-list reading matches. */
    method AnyLineMatches(identity: string -> bool) returns (found: bool)
      ensures found <==> exists line | line in screen.lines :: Matches(identity, line)
    {
      found := false;
      for i := 0 to |screen.lines|
        invariant found <==> exists line | line in screen.lines[..i] :: Matches(identity, line)
      {
        assert screen.lines[..i + 1] == screen.lines[..i] + [screen.lines[i]];
        if Matches(identity, screen.lines[i]) { found := true; }
      }
      assert screen.lines[..|screen.lines|] == screen.lines;
    }

    /** _select_account_by_gamertag. */
    method SelectAccount(hasTarget: bool, layoutOk: bool, identity: string -> bool, maxSlots: nat)
      returns (result: Result<nat, ScanError>)
      requires Valid()
      modifies this`focus, this`ups, this`downs
      ensures Valid()
      ensures !hasTarget ==> result == Failure(NoTarget) && unchanged(this)
      ensures hasTarget && !layoutOk ==> result == Failure(WrongLayout) && unchanged(this)
      ensures hasTarget && layoutOk ==>
        && ups == old(ups) + SCROLL_PRESSES
        && downs >= old(downs)
        && ScanResult(screen, old(focus), identity, maxSlots, result, focus, downs - old(downs))
    {
      if !hasTarget {
        return Failure(NoTarget);
      }
      if !layoutOk {
        return Failure(WrongLayout);
      }
      ghost var start := focus;
      ScrollToTop();
      var slot := 0;
      while slot < maxSlots
        invariant 0 <= slot <= maxSlots && Valid() && ups == old(ups) + SCROLL_PRESSES
        invariant downs == old(downs) + if slot < maxSlots || slot == 0 then slot else slot - 1
        invariant focus == RowAt(screen, start, downs - old(downs))
        invariant forall s: nat | s < slot :: !Matches(identity, screen.rows[RowAt(screen, start, s)])
        invariant slot > 0 ==> !FallsBack(screen, start, identity)
      {
        var detected := screen.rows[focus];
        if Matches(identity, detected) {
          return Success(slot);
        }
        if slot == 0 && detected == "" {
          var found := AnyLineMatches(identity);
          if found {
            return Success(slot);
          }
        }
        if slot < maxSlots - 1 {
          PressDown();
        }
        slot := slot + 1;
      }
      result := Failure(NotFound);
    }
  }

  /**
   From a starting focus no deeper than row 10, and with the top row readable (or no line to fall back on),
   the scan finds the first matching row among those it can reach, and leaves the focus on it.
   */
  lemma ScanFindsLeastRow(screen: Screen, start: nat, identity: string -> bool, maxSlots: nat,
                          result: Result<nat, ScanError>, focus: nat, downs: nat)
    requires screen.Valid() && start < |screen.rows| && start <= SCROLL_PRESSES
    requires ScanResult(screen, start, identity, maxSlots, result, focus, downs)
    requires !FallsBack(screen, start, identity)
    ensures result.Success? <==> exists row: nat | row < |screen.rows| && row < maxSlots :: Matches(identity, screen.rows[row])
    ensures result.Success? ==>
      && focus == result.value < |screen.rows| && Matches(identity, screen.rows[focus])
      && forall row: nat | row < focus :: !Matches(identity, screen.rows[row])
  {
    forall row: nat | row < |screen.rows|
      ensures RowAt(screen, start, row) == row
    {
    }
    if result.Success? {
      var last := |screen.rows| - 1;
      assert result.value > last ==> RowAt(screen, start, last) == focus;
      forall row: nat | row < focus
        ensures !Matches(identity, screen.rows[row])
      {
        assert !Matches(identity, screen.rows[RowAt(screen, start, row)]);
      }
    } else {
      forall row: nat | row < |screen.rows| && row < maxSlots
        ensures !Matches(identity, screen.rows[row])
      {
        assert !Matches(identity, screen.rows[RowAt(screen, start, row)]);
      }
    }
  }

  /** The index the scan returns is the focused row exactly when the scan began within reach of the top. */
  lemma IndexIsFocusedRowIff(screen: Screen, start: nat, identity: string -> bool, maxSlots: nat,
                             slot: nat, focus: nat, downs: nat)
    requires screen.Valid() && start < |screen.rows|
    requires ScanResult(screen, start, identity, maxSlots, Success(slot), focus, downs)
    requires !FallsBack(screen, start, identity)
    ensures slot == focus <==> start <= SCROLL_PRESSES
  {
    if start <= SCROLL_PRESSES {
      ScanFindsLeastRow(screen, start, identity, maxSlots, Success(slot), focus, downs);
    } else if slot > 0 {
      assert RowAt(screen, start, slot - 1) != focus;
    }
  }

  /** The focused row is the wanted one exactly when the answer did not come from the whole-list reading. */
  lemma FocusedRowMatchesIff(screen: Screen, start: nat, identity: string -> bool, maxSlots: nat,
                             slot: nat, focus: nat, downs: nat)
    requires screen.Valid() && start < |screen.rows|
    requires ScanResult(screen, start, identity, maxSlots, Success(slot), focus, downs)
    ensures Matches(identity, screen.rows[focus]) <==> !FallsBack(screen, start, identity)
  {
  }

  /** A list of 13 rows scanned from row 12: row 2 is focused, and reported as index 0. */
  lemma DeepStartMisreportsIndex()
    ensures var rows := ["a", "b", "c", "d", "e", "f", "g", "h", "i", "j", "k", "l", "m"];
      ScanResult(Screen(rows, []), 12, text => text == "c", MAX_PROFILE_LIST_SLOTS, Success(0), 2, 0)
  {
  }

  /** An unreadable top row and the wanted name in a lower one: the fallback answers 0 with the wrong row focused. */
  lemma FallbackFocusesAWrongRow()
    ensures var screen := Screen(["", "b"], ["b"]);
      && ScanResult(screen, 0, text => text == "b", MAX_PROFILE_LIST_SLOTS, Success(0), 0, 0)
      && !Matches(text => text == "b", screen.rows[0]) && Matches(text => text == "b", screen.rows[1])
  {
    var screen := Screen(["", "b"], ["b"]);
    assert "b" in screen.lines && Matches(text => text == "b", "b");
    assert FallsBack(screen, 0, text => text == "b");
  }

  /** When the top row cannot be read, the answer is 0 exactly when some line of the whole list is readable and the wanted one. */
  lemma FallbackAnswersExactly(screen: Screen, start: nat, identity: string -> bool, maxSlots: nat,
                               result: Result<nat, ScanError>, focus: nat, downs: nat)
    requires screen.Valid() && start < |screen.rows| && maxSlots > 0
    requires ScanResult(screen, start, identity, maxSlots, result, focus, downs)
    requires screen.rows[if start <= 10 then 0 else start - 10] == ""
    ensures result == Success(0) <==> exists i | 0 <= i < |screen.lines| :: screen.lines[i] != "" && identity(screen.lines[i])
  {
    assert RowAt(screen, start, 0) == if start <= 10 then 0 else start - 10;
    if result == Success(0) {
      assert FallsBack(screen, start, identity);
      var line :| line in screen.lines && Matches(identity, line);
    }
    forall i | 0 <= i < |screen.lines| && screen.lines[i] != "" && identity(screen.lines[i])
      ensures FallsBack(screen, start, identity)
    {
      assert screen.lines[i] in screen.lines && Matches(identity, screen.lines[i]);
    }
  }
}
