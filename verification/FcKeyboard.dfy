/**
 The typist of the FC on-screen keyboard, and the keyboard as a device: a cursor on a grid of
 keys, a symbol layer toggled by LT, and the text entered so far.
 */
module FcKeyboard {
  import opened Options

  type Cell = (int, int)  // column, row; rows grow upwards

  datatype Button = L3 | LT | A | Menu | Up | Down | Left | Right

  // ---------- the typist's table ----------

  /** FC_KEYBOARD_LAYOUT: '@' and '2' share a cell. */
  function Layout(ch: char): Option<Cell> {
    match ch
    case '+' => Some((-6, 1))
    case '1' => Some((-5, 1)) case '2' => Some((-4, 1)) case '3' => Some((-3, 1)) case '4' => Some((-2, 1))
    case '5' => Some((-1, 1)) case '6' => Some((0, 1)) case '7' => Some((1, 1)) case '8' => Some((2, 1))
    case '9' => Some((3, 1)) case '0' => Some((4, 1))
    case 'q' => Some((-5, 0)) case 'w' => Some((-4, 0)) case 'e' => Some((-3, 0)) case 'r' => Some((-2, 0))
    case 't' => Some((-1, 0)) case 'y' => Some((0, 0)) case 'u' => Some((1, 0)) case 'i' => Some((2, 0))
    case 'o' => Some((3, 0)) case 'p' => Some((4, 0))
    case 'a' => Some((-5, -1)) case 's' => Some((-4, -1)) case 'd' => Some((-3, -1)) case 'f' => Some((-2, -1))
    case 'g' => Some((-1, -1)) case 'h' => Some((0, -1)) case 'j' => Some((1, -1)) case 'k' => Some((2, -1))
    case 'l' => Some((3, -1))
    case 'z' => Some((-5, -2)) case 'x' => Some((-4, -2)) case 'c' => Some((-3, -2)) case 'v' => Some((-2, -2))
    case 'b' => Some((-1, -2)) case 'n' => Some((0, -2)) case 'm' => Some((1, -2))
    case '@' => Some((-4, 1))
    case '.' => Some((3, -2))
    case _ => None
  }

  // ---------- the device ----------

  /** What A enters on the letter layer, row by row. */
  function LetterAt(cell: Cell): Option<char> {
    var (col, row) := cell;
    if row == 1 && -6 <= col <= 4 then Some("+1234567890"[col + 6])
    else if row == 0 && -5 <= col <= 4 then Some("qwertyuiop"[col + 5])
    else if row == -1 && -5 <= col <= 3 then Some("asdfghjkl"[col + 5])
    else if row == -2 && -5 <= col <= 1 then Some("zxcvbnm"[col + 5])
    else if cell == (3, -2) then Some('.')
    else None
  }

  /** The one symbol the typist relies on. */
  function SymbolAt(cell: Cell): Option<char> {
    if cell == (-4, 1) then Some('@') else None
  }

  datatype Device = Device(cursor: Cell, symbols: bool, text: string, submitted: nat)

  function Moved(cell: Cell, b: Button): Cell {
    match b
    case Up => (cell.0, cell.1 + 1)
    case Down => (cell.0, cell.1 - 1)
    case Left => (cell.0 - 1, cell.1)
    case Right => (cell.0 + 1, cell.1)
    case _ => cell
  }

  function Pressed(d: Device, b: Button): Device {
    match b
    case A =>
      var entered := if d.symbols then SymbolAt(d.cursor) else LetterAt(d.cursor);
      if entered.Some? then d.(text := d.text + [entered.value]) else d
    case LT => d.(symbols := !d.symbols)
    case Menu => d.(submitted := d.submitted + 1)
    case L3 => d
    case _ => d.(cursor := Moved(d.cursor, b))
  }

  function Replay(d: Device, presses: seq<Button>): Device {
    if presses == [] then d else Pressed(Replay(d, presses[..|presses| - 1]), presses[|presses| - 1])
  }

  lemma ReplaySnoc(d: Device, presses: seq<Button>, b: Button)
    ensures Replay(d, presses + [b]) == Pressed(Replay(d, presses), b)
  {
    assert (presses + [b])[..|presses|] == presses;
  }

  lemma {:induction false} ReplayAppend(d: Device, first: seq<Button>, second: seq<Button>)
    ensures Replay(d, first + second) == Replay(Replay(d, first), second)
    decreases |second|
  {
    if second == [] {
      assert first + second == first;
    } else {
      var rest, last := second[..|second| - 1], second[|second| - 1];
      assert first + second == (first + rest) + [last] && second == rest + [last];
      ReplaySnoc(d, first + rest, last);
      ReplayAppend(d, first, rest);
    }
  }

  /** Pressing A on the key of a supported character enters it, '@' on the symbol layer, the rest on the other. */
  lemma KeyEntersItsCharacter(d: Device, ch: char)
    requires Layout(ch) == Some(d.cursor) && d.symbols == (ch == '@')
    ensures Pressed(d, A) == d.(text := d.text + [ch])
  {
  }

  // ---------- distances ----------

  function Abs(n: int): nat {
    if n < 0 then -n else n
  }

  function Manhattan(a: Cell, b: Cell): nat {
    Abs(a.0 - b.0) + Abs(a.1 - b.1)
  }

  predicate IsMove(b: Button) {
    b.Up? || b.Down? || b.Left? || b.Right?
  }

  function CountMoves(presses: seq<Button>): nat {
    if presses == [] then 0
    else CountMoves(presses[..|presses| - 1]) + if IsMove(presses[|presses| - 1]) then 1 else 0
  }

  /** No press sequence whatever moves the cursor further than it has D-pad presses. */
  lemma {:induction false} ManhattanIsLeast(d: Device, presses: seq<Button>)
    ensures Manhattan(d.cursor, Replay(d, presses).cursor) <= CountMoves(presses)
    decreases |presses|
  {
    if presses != [] {
      ManhattanIsLeast(d, presses[..|presses| - 1]);
    }
  }

  lemma {:induction false} CountAppend(first: seq<Button>, second: seq<Button>)
    ensures CountMoves(first + second) == CountMoves(first) + CountMoves(second)
    decreases |second|
  {
    if second == [] {
      assert first + second == first;
    } else {
      assert (first + second)[..|first + second| - 1] == first + second[..|second| - 1];
      CountAppend(first, second[..|second| - 1]);
    }
  }

  // ---------- keyboards with edges ----------

  /** A keyboard that ignores a D-pad press that would leave its keys. */
  function Walled(isKey: Cell -> bool, from: Cell, moves: seq<Button>): Cell
    decreases |moves|
  {
    if moves == [] then from
    else Walled(isKey, if isKey(Moved(from, moves[0])) then Moved(from, moves[0]) else from, moves[1..])
  }

  function Free(from: Cell, moves: seq<Button>): Cell
    decreases |moves|
  {
    if moves == [] then from else Free(Moved(from, moves[0]), moves[1..])
  }

  /** Every cell on the way is a key. */
  predicate Passable(isKey: Cell -> bool, from: Cell, moves: seq<Button>)
    decreases |moves|
  {
    moves == [] || (isKey(Moved(from, moves[0])) && Passable(isKey, Moved(from, moves[0]), moves[1..]))
  }

  lemma {:induction false} FreeReach(from: Cell, moves: seq<Button>)
    ensures Manhattan(from, Free(from, moves)) <= |moves|
    decreases |moves|
  {
    if moves != [] { FreeReach(Moved(from, moves[0]), moves[1..]); }
  }

  lemma {:induction false} WalledReach(isKey: Cell -> bool, from: Cell, moves: seq<Button>)
    ensures Manhattan(from, Walled(isKey, from, moves)) <= |moves|
    decreases |moves|
  {
    if moves != [] {
      WalledReach(isKey, if isKey(Moved(from, moves[0])) then Moved(from, moves[0]) else from, moves[1..]);
    }
  }

  /** A shortest route reaches its target on such a keyboard exactly when every cell on the way is a key. */
  lemma {:induction false} ShortestRouteOnEdgedKeyboard(isKey: Cell -> bool, from: Cell, moves: seq<Button>)
    requires |moves| == Manhattan(from, Free(from, moves))
    ensures Walled(isKey, from, moves) == Free(from, moves) <==> Passable(isKey, from, moves)
    decreases |moves|
  {
    if moves != [] {
      var next := Moved(from, moves[0]);
      FreeReach(next, moves[1..]);
      if isKey(next) {
        ShortestRouteOnEdgedKeyboard(isKey, next, moves[1..]);
      } else {
        WalledReach(isKey, from, moves[1..]);
      }
    }
  }

  lemma {:induction false} FreeIsReplay(d: Device, moves: seq<Button>)
    ensures Replay(d, moves).cursor == Free(d.cursor, moves)
    decreases |moves|
  {
    if moves != [] {
      assert moves == [moves[0]] + moves[1..] && [moves[0]] == [] + [moves[0]];
      ReplaySnoc(d, [], moves[0]);
      ReplayAppend(d, [moves[0]], moves[1..]);
      FreeIsReplay(Pressed(d, moves[0]), moves[1..]);
    }
  }

  // ---------- the way _move_to takes ----------

  /** Sideways first, then up or down. */
  function Toward(from: Cell, to: Cell): Button
    requires from != to
  {
    if from.0 > to.0 then Left else if from.0 < to.0 then Right else if from.1 > to.1 then Down else Up
  }

  function Route(from: Cell, to: Cell): seq<Button>
    decreases Manhattan(from, to)
  {
    if from == to then [] else [Toward(from, to)] + Route(Moved(from, Toward(from, to)), to)
  }

  lemma {:induction false} RouteIsShortest(from: Cell, to: Cell)
    ensures |Route(from, to)| == Manhattan(from, to) && Free(from, Route(from, to)) == to
    decreases Manhattan(from, to)
  {
    if from != to { RouteIsShortest(Moved(from, Toward(from, to)), to); }
  }

  lemma RouteStep(before: seq<Button>, from: Cell, to: Cell)
    requires from != to
    ensures var b := Toward(from, to);
      && before + Route(from, to) == (before + [b]) + Route(Moved(from, b), to)
      && |Route(Moved(from, b), to)| < |Route(from, to)|
  {
  }

  /** On the device the way is D-pad presses only, and moves nothing but the cursor. */
  lemma {:induction false} RouteOnDevice(d: Device, to: Cell)
    ensures Replay(d, Route(d.cursor, to)) == d.(cursor := to)
    ensures CountMoves(Route(d.cursor, to)) == |Route(d.cursor, to)|
    decreases Manhattan(d.cursor, to)
  {
    if d.cursor != to {
      var b := Toward(d.cursor, to);
      var next := Pressed(d, b);
      RouteOnDevice(next, to);
      assert [b] == [] + [b];
      ReplaySnoc(d, [], b);
      ReplayAppend(d, [b], Route(next.cursor, to));
      CountAppend([b], Route(next.cursor, to));
    }
  }

  predicate Between(a: int, x: int, b: int) {
    a <= x <= b || b <= x <= a
  }

  /** The cells of that way: along the starting row, then along the target's column. */
  predicate OnWay(from: Cell, to: Cell, cell: Cell) {
    || (cell.1 == from.1 && Between(from.0, cell.0, to.0))
    || (cell.0 == to.0 && Between(from.1, cell.1, to.1))
  }

  ghost predicate WayIsClear(isKey: Cell -> bool, from: Cell, to: Cell) {
    forall cell: Cell | OnWay(from, to, cell) && cell != from :: isKey(cell)
  }

  /** One step along the way takes exactly the starting cell out of it. */
  lemma StepAlong(from: Cell, to: Cell, cell: Cell)
    requires from != to
    ensures var next := Moved(from, Toward(from, to));
      OnWay(from, to, cell) && cell != from <==> OnWay(next, to, cell)
  {
  }

  lemma {:induction false} PassableExactly(isKey: Cell -> bool, from: Cell, to: Cell)
    ensures Passable(isKey, from, Route(from, to)) <==> WayIsClear(isKey, from, to)
    decreases Manhattan(from, to)
  {
    if from != to {
      var next := Moved(from, Toward(from, to));
      PassableExactly(isKey, next, to);
      forall cell: Cell
        ensures OnWay(from, to, cell) && cell != from <==> OnWay(next, to, cell)
      {
        StepAlong(from, to, cell);
      }
      hide Moved, Toward;
      assert OnWay(next, to, next);
    }
  }

  /**
   On a keyboard that ignores presses off its keys, _move_to arrives exactly when every cell along the starting row
   and then along the target's column is a key.
   */
  lemma MoveOnEdgedKeyboard(isKey: Cell -> bool, from: Cell, to: Cell)
    ensures Walled(isKey, from, Route(from, to)) == to <==> WayIsClear(isKey, from, to)
  {
    RouteIsShortest(from, to);
    ShortestRouteOnEdgedKeyboard(isKey, from, Route(from, to));
    PassableExactly(isKey, from, to);
  }

  // ---------- the text ----------

  /** Python's str.strip() whitespace. */
  predicate IsSpace(ch: char) {
    '\t' <= ch <= '\r' || '\U{1c}' <= ch <= ' ' || ch == '\U{85}' || ch == '\U{a0}' || ch == '\U{1680}'
    || '\U{2000}' <= ch <= '\U{200a}' || ch == '\U{2028}' || ch == '\U{2029}' || ch == '\U{202f}'
    || ch == '\U{205f}' || ch == '\U{3000}'
  }

  function StripLeft(s: string): string {
    if s != "" && IsSpace(s[0]) then StripLeft(s[1..]) else s
  }

  function StripRight(s: string): string {
    if s != "" && IsSpace(s[|s| - 1]) then StripRight(s[..|s| - 1]) else s
  }

  function LowerChar(ch: char): char {
    if 'A' <= ch <= 'Z' then ch - 'A' + 'a' else ch
  }

  function Normalize(text: string): string {
    var stripped := StripRight(StripLeft(text));
    seq(|stripped|, i requires 0 <= i < |stripped| => LowerChar(stripped[i]))
  }

  const CAPITALS := "ABCDEFGHIJKLMNOPQRSTUVWXYZ"
  const SMALL_LETTERS := "abcdefghijklmnopqrstuvwxyz"

  /** The characters the typist accepts. */
  predicate Typeable(ch: char) {
    'a' <= ch <= 'z' || '0' <= ch <= '9' || ch == '+' || ch == '@' || ch == '.'
  }

  predicate AllSpace(s: string) {
    forall k | 0 <= k < |s| :: IsSpace(s[k])
  }

  /** From low to high the text is stripped: outside all is white space, and neither end of the inside is. */
  predicate IsCore(text: string, low: nat, high: nat) {
    && low <= high <= |text| && AllSpace(text[..low]) && AllSpace(text[high..])
    && (low < high ==> !IsSpace(text[low]) && !IsSpace(text[high - 1]))
  }

  /** Each capital letter is replaced by the small letter at its place in the alphabet, and nothing else changes. */
  ghost predicate IsLowered(from: string, to: string) {
    && |to| == |from|
    && (forall k, n | 0 <= k < |from| && 0 <= n < 26 && from[k] == CAPITALS[n] :: to[k] == SMALL_LETTERS[n])
    && (forall k | 0 <= k < |from| && from[k] !in CAPITALS :: to[k] == from[k])
  }

  /** What is to be typed for a text: the text stripped and lower-cased. */
  ghost predicate ToType(text: string, norm: string) {
    exists low: nat, high: nat :: IsCore(text, low, high) && IsLowered(text[low..high], norm)
  }

  lemma LetterLowered(ch: char, n: nat)
    requires n < 26
    ensures ch == CAPITALS[n] <==> ch as int == 'A' as int + n
    ensures SMALL_LETTERS[n] as int == 'a' as int + n
  {
  }

  lemma CapitalsExactly(ch: char)
    ensures ch in CAPITALS <==> 'A' <= ch <= 'Z'
  {
    if 'A' <= ch <= 'Z' { LetterLowered(ch, ch as int - 'A' as int); }
  }

  lemma LoweredExactly(from: string, to: string)
    requires |to| == |from| && forall k | 0 <= k < |from| :: to[k] == LowerChar(from[k])
    ensures IsLowered(from, to)
  {
    forall k, n | 0 <= k < |from| && 0 <= n < 26 && from[k] == CAPITALS[n]
      ensures to[k] == SMALL_LETTERS[n]
    {
      LetterLowered(from[k], n);
    }
    forall k | 0 <= k < |from| && from[k] !in CAPITALS
      ensures to[k] == from[k]
    {
      CapitalsExactly(from[k]);
    }
  }

  lemma {:induction false} LeftStripped(s: string) returns (low: nat)
    ensures low <= |s| && StripLeft(s) == s[low..] && AllSpace(s[..low])
    ensures low < |s| ==> !IsSpace(s[low])
  {
    if s != "" && IsSpace(s[0]) {
      low := LeftStripped(s[1..]);
      assert s[1..][low..] == s[low + 1..] && s[..low + 1] == [s[0]] + s[1..][..low];
      low := low + 1;
    } else {
      low := 0;
    }
  }

  lemma {:induction false} RightStripped(s: string) returns (high: nat)
    ensures high <= |s| && StripRight(s) == s[..high] && AllSpace(s[high..])
    ensures high > 0 ==> !IsSpace(s[high - 1])
  {
    if s != "" && IsSpace(s[|s| - 1]) {
      var front := s[..|s| - 1];
      high := RightStripped(front);
      assert front[..high] == s[..high] && s[high..] == front[high..] + [s[|s| - 1]];
    } else {
      high := |s|;
    }
  }

  /** Stripping one end and then the other leaves the core. */
  lemma StrippedIsCore(text: string) returns (low: nat, high: nat)
    ensures IsCore(text, low, high) && StripRight(StripLeft(text)) == text[low..high]
  {
    low := LeftStripped(text);
    var left := text[low..];
    var n := RightStripped(left);
    hide IsSpace, StripLeft, StripRight, AllSpace;
    high := low + n;
    assert left[..n] == text[low..high] && left[n..] == text[high..];
  }

  lemma NormalizeExactly(text: string)
    ensures ToType(text, Normalize(text))
  {
    var low, high := StrippedIsCore(text);
    hide StripLeft, StripRight, IsLowered, AllSpace, IsSpace;
    LoweredExactly(text[low..high], Normalize(text));
  }

  /** The supported characters, one by one. */
  lemma SupportedExactly(ch: char)
    ensures Layout(ch).Some? <==> Typeable(ch)
  {
  }

  predicate Supported(text: string) {
    forall i | 0 <= i < |text| :: Layout(text[i]).Some?
  }

  /** The D-pad presses that typing a supported text costs, one shortest way per character. */
  function TravelLength(from: Cell, text: string): nat
    requires Supported(text)
  {
    if text == "" then 0
    else
      var front := text[..|text| - 1];
      TravelLength(from, front) + Manhattan(CursorAfter(from, front), Layout(text[|text| - 1]).value)
  }

  function CursorAfter(from: Cell, text: string): Cell
    requires Supported(text)
  {
    if text == "" then from else Layout(text[|text| - 1]).value
  }

  // ---------- the code ----------

  class FcOnScreenKeyboard {
    var cursor: Cell
    var sent: seq<Button>

    constructor ()
      ensures cursor == (-5, 0) && sent == []
    {
      cursor, sent := (-5, 0), [];
    }

    method Press(b: Button)
      modifies this`sent
      ensures sent == old(sent) + [b]
    {
      sent := sent + [b];
    }

    /** One turn of the loop of _move_to. */
    method PressToward(target: Cell) returns (ghost b: Button)
      requires cursor != target
      modifies this
      ensures b == Toward(old(cursor), target) && cursor == Moved(old(cursor), b) && sent == old(sent) + [b]
    {
      var (cx, cy) := cursor;
      var (tx, ty) := target;
      if cx > tx {
        Press(Left);
        cursor := (cx - 1, cy);
      } else if cx < tx {
        Press(Right);
        cursor := (cx + 1, cy);
      } else if cy > ty {
        Press(Down);
        cursor := (cx, cy - 1);
      } else {
        Press(Up);
        cursor := (cx, cy + 1);
      }
      b := Toward(old(cursor), target);
    }

    /** _move_to: the way above, a shortest one; the device ends on the target and nothing else happens. */
    method MoveTo(target: Cell, ghost screen: Device) returns (ghost moves: seq<Button>)
      requires screen.cursor == cursor
      modifies this
      ensures cursor == target && sent == old(sent) + moves && moves == Route(old(cursor), target)
      ensures |moves| == Manhattan(old(cursor), target) == CountMoves(moves)
      ensures Replay(screen, moves) == screen.(cursor := target)
    {
      moves := [];
      RouteOnDevice(screen, target);
      RouteIsShortest(cursor, target);
      assert Route(target, target) == [];
      hide Manhattan, Replay, CountMoves, Free, Route;
      while cursor != target
        invariant sent == old(sent) + moves
        invariant moves + Route(cursor, target) == Route(old(cursor), target)
        decreases |Route(cursor, target)|
      {
        RouteStep(moves, cursor, target);
        ghost var b := PressToward(target);
        hide Toward, Moved;
        moves := moves + [b];
      }
    }

    /** One character: the symbol layer is up only while '@' is entered. */
    method TypeChar(ch: char, ghost screen: Device) returns (ghost presses: seq<Button>)
      requires screen.cursor == cursor && !screen.symbols && Layout(ch).Some?
      modifies this
      ensures cursor == Layout(ch).value && sent == old(sent) + presses
      ensures CountMoves(presses) == Manhattan(old(cursor), cursor)
      ensures Replay(screen, presses) == Device(cursor, false, screen.text + [ch], screen.submitted)
    {
      ghost var shift := Shift(ch);
      ghost var shifted := screen.(symbols := ch == '@');
      ShiftOnDevice(screen, ch);
      hide Replay, Layout, CountMoves, Manhattan;
      if ch == '@' {
        Press(LT);
      }
      ghost var moves := MoveTo(Layout(ch).value, shifted);
      Press(A);
      if ch == '@' {
        Press(LT);
      }
      presses := shift + moves + [A] + shift;
      assert sent == old(sent) + presses;
      CharOnDevice(screen, ch, moves);
    }

    /** The loop of type_text: stops before the first unsupported character. `base` is what was sent before this text. */
    method TypeCharacters(norm: string, ghost screen: Device, ghost base: seq<Button>, ghost before: seq<Button>)
      returns (unsupported: Option<char>, ghost presses: seq<Button>, ghost typed: nat)
      requires sent == base + before && TypedSoFar(screen, before, "", cursor, 0)
      modifies this
      ensures sent == base + presses && before <= presses && typed <= |norm|
      ensures TypedSoFar(screen, presses, norm[..typed], cursor, 0)
      ensures unsupported.None? ==> typed == |norm|
      ensures unsupported.Some? ==> typed < |norm| && norm[typed] == unsupported.value && Layout(norm[typed]).None?
    {
      hide TypedSoFar, Replay, CursorAfter, CountMoves, Manhattan, Supported, Layout;
      presses := before;
      assert norm[..0] == "";
      for i := 0 to |norm|
        invariant sent == base + presses && before <= presses
        invariant TypedSoFar(screen, presses, norm[..i], cursor, 0)
      {
        var ch := norm[i];
        if Layout(ch).None? {
          return Some(ch), presses, i;
        }
        TypedState(screen, presses, norm[..i], cursor);
        ghost var more := TypeChar(ch, Replay(screen, presses));
        TypedOneMore(screen, presses, norm[..i], more, ch);
        assert base + presses + more == base + (presses + more);
        assert norm[..i + 1] == norm[..i] + [ch];
        presses := presses + more;
      }
      assert norm[..|norm|] == norm;
      unsupported, typed := None, |norm|;
    }

    /**
     Types the stripped, lower-cased text `norm`, or stops before its first unsupported character; `typed` is how many
     characters went in. The keyboard is woken by L3 first, and the text is submitted only when all of it was typed.
     */
    method TypeText(text: string, ghost screen: Device)
      returns (result: Result<(), char>, ghost presses: seq<Button>, ghost norm: string, ghost typed: nat)
      requires screen.cursor == cursor && !screen.symbols
      modifies this
      ensures ToType(text, norm) && sent == old(sent) + presses && typed <= |norm|
      ensures TypedSoFar(screen, presses, norm[..typed], cursor, if result.Success? && typed > 0 then 1 else 0)
      ensures result.Success? <==> forall k | 0 <= k < |norm| :: Typeable(norm[k])
      ensures result.Success? ==> typed == |norm|
      ensures result.Failure? ==> typed < |norm| && norm[typed] == result.error && !Typeable(result.error)
      ensures norm == "" ==> presses == []
      ensures norm != "" ==> |presses| > 0 && presses[0] == L3 && (result.Success? ==> presses[|presses| - 1] == Menu)
    {
      var normalized := Normalize(text);
      norm := normalized;
      NormalizeExactly(text);
      hide ToType;
      presses, typed := [], 0;
      if normalized == "" {
        return Success(()), presses, norm, typed;
      }
      Press(L3);
      Woken(screen);
      hide Normalize, Layout, Replay, Typeable;
      var unsupported;
      unsupported, presses, typed := TypeCharacters(normalized, screen, old(sent), [L3]);
      AllSupported(norm, typed);
      hide TypedSoFar;
      if unsupported.Some? {
        SupportedExactly(unsupported.value);
        return Failure(unsupported.value), presses, norm, typed;
      }
      Press(Menu);
      Submitted(screen, presses, norm[..typed], cursor);
      assert norm[..typed] == norm;
      presses := presses + [Menu];
      result := Success(());
    }
  }

  lemma AllSupported(norm: string, typed: nat)
    requires typed <= |norm| && Supported(norm[..typed])
    ensures forall k | 0 <= k < typed :: Typeable(norm[k])
  {
    forall k | 0 <= k < typed
      ensures Typeable(norm[k])
    {
      assert norm[k] == norm[..typed][k];
      SupportedExactly(norm[k]);
    }
  }

  /** The presses have entered exactly `prefix`, by shortest ways, and the device's cursor is the tracked one. */
  ghost predicate TypedSoFar(screen: Device, presses: seq<Button>, prefix: string, cursor: Cell, submits: nat) {
    && Supported(prefix)
    && cursor == CursorAfter(screen.cursor, prefix)
    && Replay(screen, presses).cursor == cursor
    && !Replay(screen, presses).symbols
    && Replay(screen, presses).text == screen.text + prefix
    && Replay(screen, presses).submitted == screen.submitted + submits
    && CountMoves(presses) == TravelLength(screen.cursor, prefix)
  }

  lemma TypedState(screen: Device, presses: seq<Button>, prefix: string, cursor: Cell)
    requires TypedSoFar(screen, presses, prefix, cursor, 0)
    ensures Supported(prefix) && cursor == CursorAfter(screen.cursor, prefix)
    ensures Replay(screen, presses).cursor == cursor && !Replay(screen, presses).symbols
  {
  }

  lemma Woken(screen: Device)
    requires !screen.symbols
    ensures TypedSoFar(screen, [L3], "", screen.cursor, 0)
  {
    assert [L3] == [] + [L3];
    ReplaySnoc(screen, [], L3);
  }

  lemma Submitted(screen: Device, presses: seq<Button>, text: string, cursor: Cell)
    requires TypedSoFar(screen, presses, text, cursor, 0)
    ensures TypedSoFar(screen, presses + [Menu], text, cursor, 1)
  {
    ReplaySnoc(screen, presses, Menu);
    CountAppend(presses, [Menu]);
  }

  lemma TypedOneMore(screen: Device, presses: seq<Button>, prefix: string, more: seq<Button>, ch: char)
    requires Layout(ch).Some? && Supported(prefix)
    requires TypedSoFar(screen, presses, prefix, CursorAfter(screen.cursor, prefix), 0)
    requires CountMoves(more) == Manhattan(CursorAfter(screen.cursor, prefix), Layout(ch).value)
    requires var d := Replay(screen, presses);
      Replay(d, more) == Device(Layout(ch).value, false, d.text + [ch], d.submitted)
    ensures TypedSoFar(screen, presses + more, prefix + [ch], Layout(ch).value, 0)
  {
    ReplayAppend(screen, presses, more);
    CountAppend(presses, more);
    assert (prefix + [ch])[..|prefix|] == prefix;
  }

  /** LT before and after the at-sign only. */
  function Shift(ch: char): seq<Button> {
    if ch == '@' then [LT] else []
  }

  lemma ShiftOnDevice(d: Device, ch: char)
    ensures Replay(d, Shift(ch)) == if ch == '@' then d.(symbols := !d.symbols) else d
    ensures CountMoves(Shift(ch)) == 0
  {
    assert [LT] == [] + [LT];
    ReplaySnoc(d, [], LT);
  }

  /** What the presses of one character do to the device. */
  lemma CharOnDevice(screen: Device, ch: char, moves: seq<Button>)
    requires Layout(ch).Some? && !screen.symbols
    requires var shifted := screen.(symbols := ch == '@'); Replay(shifted, moves) == shifted.(cursor := Layout(ch).value)
    ensures var presses := Shift(ch) + moves + [A] + Shift(ch);
      && Replay(screen, presses) == Device(Layout(ch).value, false, screen.text + [ch], screen.submitted)
      && CountMoves(presses) == CountMoves(moves)
  {
    var shift := Shift(ch);
    var arrived := screen.(symbols := ch == '@', cursor := Layout(ch).value);
    ShiftOnDevice(screen, ch);
    KeyEntersItsCharacter(arrived, ch);
    ShiftOnDevice(Pressed(arrived, A), ch);
    hide Layout, Replay, CountMoves, Shift;
    ReplayAppend(screen, shift, moves);
    ReplaySnoc(screen, shift + moves, A);
    ReplayAppend(screen, shift + moves + [A], shift);
    CountAppend(shift, moves);
    CountPress(shift + moves);
    CountAppend(shift + moves + [A], shift);
  }

  lemma CountPress(presses: seq<Button>)
    ensures CountMoves(presses + [A]) == CountMoves(presses)
  {
    assert (presses + [A])[..|presses|] == presses;
  }

  /** On a keyboard whose keys are those of the table, the way from 'q' to '+' is lost: no key lies left of 'q'. */
  lemma PlusIsOutOfReachFromQ()
    ensures Layout('q') == Some((-5, 0)) && Layout('+') == Some((-6, 1))
    ensures Walled(c => LetterAt(c).Some?, (-5, 0), Route((-5, 0), (-6, 1))) != (-6, 1)
  {
    var isKey: Cell -> bool := c => LetterAt(c).Some?;
    assert OnWay((-5, 0), (-6, 1), (-6, 0)) && !isKey((-6, 0));
    MoveOnEdgedKeyboard(isKey, (-5, 0), (-6, 1));
  }
}
