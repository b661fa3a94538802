/** The tic-tac-toe rules: board queries, which mark a seat plays, and when a match is decided. */
module Rules {
  import opened Prelude

  datatype Cell = Empty | X | O

  datatype State = Open | Playing | First | Second | Draw

  /** A board position. */
  type Pos = n: nat | n < 9

  /** One of the two seats: the creator's is 0, the joiner's is 1. */
  type Seat = n: nat | n < 2

  type Board = b: seq<Cell> | |b| == 9 witness seq(9, _ => Empty)

  const EMPTY_BOARD: Board := [Empty, Empty, Empty, Empty, Empty, Empty, Empty, Empty, Empty]

  const LINES: seq<(Pos, Pos, Pos)> :=
    [(0, 1, 2), (3, 4, 5), (6, 7, 8), (0, 3, 6), (1, 4, 7), (2, 5, 8), (0, 4, 8), (2, 4, 6)]

  // ---------- lines ----------

  function Row(p: Pos): nat { p / 3 }

  function Column(p: Pos): nat { p % 3 }

  /** The lines are exactly the rows, the columns and the two diagonals. */
  lemma LinesAreExact(x: Pos, y: Pos, z: Pos)
    ensures var rows, columns := (Row(x), Row(y), Row(z)), (Column(x), Column(y), Column(z));
      (x, y, z) in LINES <==>
      || (rows.0 == rows.1 == rows.2 && columns == (0, 1, 2))
      || (columns.0 == columns.1 == columns.2 && rows == (0, 1, 2))
      || (rows == (0, 1, 2) && columns == (0, 1, 2))
      || (rows == (0, 1, 2) && columns == (2, 1, 0))
  {
    assert (x, y, z) in LINES <==>
      || (x == 0 && y == 1 && z == 2) || (x == 3 && y == 4 && z == 5) || (x == 6 && y == 7 && z == 8)
      || (x == 0 && y == 3 && z == 6) || (x == 1 && y == 4 && z == 7) || (x == 2 && y == 5 && z == 8)
      || (x == 0 && y == 4 && z == 8) || (x == 2 && y == 4 && z == 6) by {
      assert LINES[0] == (0, 1, 2) && LINES[1] == (3, 4, 5) && LINES[2] == (6, 7, 8) && LINES[3] == (0, 3, 6);
      assert LINES[4] == (1, 4, 7) && LINES[5] == (2, 5, 8) && LINES[6] == (0, 4, 8) && LINES[7] == (2, 4, 6);
    }
  }

  // ---------- boards ----------

  function Count(b: seq<Cell>, c: Cell): nat {
    if b == [] then 0 else (if b[0] == c then 1 else 0) + Count(b[1..], c)
  }

  /** The number of marks on the board. */
  function Plies(b: seq<Cell>): nat {
    if b == [] then 0 else (if b[0] != Empty then 1 else 0) + Plies(b[1..])
  }

  predicate BoardFull(b: seq<Cell>) {
    Plies(b) == 9
  }

  predicate HoldsLine(b: Board, line: nat, c: Cell)
    requires line < |LINES|
  {
    var (x, y, z) := LINES[line];
    c != Empty && b[x] == c && b[y] == c && b[z] == c
  }

  /** The holder of the first completed line at or after `line`. */
  function WinnerFrom(b: Board, line: nat): Option<Cell>
    requires line <= |LINES|
    decreases |LINES| - line
  {
    if line == |LINES| then None
    else
      var (x, y, z) := LINES[line];
      if b[x] != Empty && b[x] == b[y] && b[y] == b[z] then Some(b[x])
      else WinnerFrom(b, line + 1)
  }

  /** The mark holding a completed line. */
  function Winner(b: Board): Option<Cell> {
    WinnerFrom(b, 0)
  }

  lemma {:induction false} WinnerFromIsALine(b: Board, line: nat)
    requires line <= |LINES|
    ensures var r := WinnerFrom(b, line);
            if r.Some? then exists i :: line <= i < |LINES| && HoldsLine(b, i, r.value)
            else forall i, c :: line <= i < |LINES| ==> !HoldsLine(b, i, c)
    decreases |LINES| - line
  {
    if line < |LINES| {
      WinnerFromIsALine(b, line + 1);
      if WinnerFrom(b, line).Some? {
        assert HoldsLine(b, line, b[LINES[line].0]) || WinnerFrom(b, line) == WinnerFrom(b, line + 1);
      }
    }
  }

  /** A winner holds a line; without a winner nobody does. */
  lemma WinnerIsALine(b: Board)
    ensures Winner(b).Some? ==> exists i :: 0 <= i < |LINES| && HoldsLine(b, i, Winner(b).value)
    ensures Winner(b).None? ==> forall i, c :: 0 <= i < |LINES| ==> !HoldsLine(b, i, c)
  {
    WinnerFromIsALine(b, 0);
  }

  lemma {:induction false} CountUpdate(b: seq<Cell>, i: nat, was: Cell, now: Cell, c: Cell)
    requires i < |b| && b[i] == was
    ensures Count(b[i := now], c)
         == Count(b, c) - (if was == c then 1 else 0) + (if now == c then 1 else 0)
  {
    if i == 0 {
      assert b[i := now][1..] == b[1..];
    } else {
      assert b[i := now][1..] == b[1..][i - 1 := now];
      CountUpdate(b[1..], i - 1, was, now, c);
    }
  }

  lemma {:induction false} PliesSplit(b: seq<Cell>)
    ensures Plies(b) == Count(b, X) + Count(b, O) == |b| - Count(b, Empty)
    ensures Plies(b) == |b| <==> Empty !in b
  {
    if b != [] {
      PliesSplit(b[1..]);
      assert b == [b[0]] + b[1..];
    }
  }

  lemma EmptyBoardHasNoMark()
    ensures Plies(EMPTY_BOARD) == 0 && Count(EMPTY_BOARD, X) == 0 && Count(EMPTY_BOARD, O) == 0
    ensures Winner(EMPTY_BOARD) == None
  {
    NoMarks(EMPTY_BOARD);
    WinnerIsALine(EMPTY_BOARD);
  }

  lemma {:induction false} NoMarks(b: seq<Cell>)
    requires forall i :: 0 <= i < |b| ==> b[i] == Empty
    ensures Plies(b) == 0 && Count(b, X) == 0 && Count(b, O) == 0
  {
    if b != [] {
      NoMarks(b[1..]);
    }
  }

  /** On a board without a line, a new mark can complete only a line of its own. */
  lemma PlacedMarkIsTheOnlyWinner(b: Board, cell: Pos, mark: Cell)
    requires Winner(b) == None && b[cell] == Empty
    ensures Winner(b[cell := mark]) in {None, Some(mark)}
  {
    var after := b[cell := mark];
    var w := Winner(after);
    WinnerIsALine(b);
    WinnerIsALine(after);
    if w.Some? && w.value != mark {
      var i :| 0 <= i < |LINES| && HoldsLine(after, i, w.value);
      OldLine(b, cell, mark, i, w.value);
    }
  }

  lemma OldLine(b: Board, cell: Pos, mark: Cell, line: nat, c: Cell)
    requires line < |LINES| && c != mark && HoldsLine(b[cell := mark], line, c)
    ensures HoldsLine(b, line, c)
  {
  }

  // ---------- seats ----------

  function Other(mark: Cell): Cell {
    match mark case X => O case O => X case Empty => Empty
  }

  function MarkForSeat(creatorMark: Cell, round: nat, seat: nat): Cell {
    if seat == 0 then (if round % 2 == 0 then creatorMark else Other(creatorMark))
    else if seat == 1 then (if round % 2 == 0 then Other(creatorMark) else creatorMark)
    else Empty
  }

  function SeatToMove(creatorMark: Cell, round: nat, b: seq<Cell>): Seat {
    var toMove := if Plies(b) % 2 == 0 then X else O;
    if MarkForSeat(creatorMark, round, 0) == toMove then 0 else 1
  }

  /** X opens a round and the marks then alternate: the seat to move plays exactly the mark the
      board is waiting for. */
  lemma ToMovePlaysTheAwaitedMark(creatorMark: Cell, round: nat, b: seq<Cell>)
    requires creatorMark != Empty
    ensures MarkForSeat(creatorMark, round, SeatToMove(creatorMark, round, b))
         == if Plies(b) % 2 == 0 then X else O
    ensures MarkForSeat(creatorMark, round, 1 - SeatToMove(creatorMark, round, b))
         == if Plies(b) % 2 == 0 then O else X
  {
  }

  /** The creator opens the first round with its own mark or against it, the seats always hold opposite marks,
      and they swap them from each round to the next: so the first move changes seat every round. */
  lemma MarksSwapEveryRound(creatorMark: Cell, round: nat, seat: Seat)
    requires creatorMark != Empty
    ensures MarkForSeat(creatorMark, 0, 0) == creatorMark
    ensures {MarkForSeat(creatorMark, round, 0), MarkForSeat(creatorMark, round, 1)} == {X, O}
    ensures MarkForSeat(creatorMark, round + 1, seat) == MarkForSeat(creatorMark, round, 1 - seat)
    ensures SeatToMove(creatorMark, round + 1, EMPTY_BOARD) == 1 - SeatToMove(creatorMark, round, EMPTY_BOARD)
  {
    EmptyBoardHasNoMark();
  }

  // ---------- match outcome ----------

  function SaturatingSub(a: nat, b: nat): nat {
    if a < b then 0 else a - b
  }

  /** The match result, or None while play continues; a seat that can no longer be caught wins at
      once. */
  function MatchOutcome(roundsTotal: nat, w0: nat, w1: nat, draws: nat): Option<State> {
    var remaining := SaturatingSub(roundsTotal, w0 + w1 + draws);
    if w0 > w1 + remaining then Some(First)
    else if w1 > w0 + remaining then Some(Second)
    else if remaining == 0 then
      Some(if w0 > w1 then First else if w0 < w1 then Second else Draw)
    else None
  }

  /** How one further round could go. */
  datatype RoundResult = Win0 | Win1 | Drawn

  function Wins(rest: seq<RoundResult>, r: RoundResult): nat {
    if rest == [] then 0 else (if rest[0] == r then 1 else 0) + Wins(rest[1..], r)
  }

  /** The result by final count after `rest` is played out in full. */
  function FinalState(w0: nat, w1: nat, rest: seq<RoundResult>): State {
    var f0 := w0 + Wins(rest, Win0);
    var f1 := w1 + Wins(rest, Win1);
    if f0 > f1 then First else if f0 < f1 then Second else Draw
  }

  lemma {:induction false} WinsBounded(rest: seq<RoundResult>)
    ensures Wins(rest, Win0) + Wins(rest, Win1) <= |rest|
  {
    if rest != [] {
      WinsBounded(rest[1..]);
    }
  }

  lemma {:induction false} WinsOfRepeat(n: nat, r: RoundResult, q: RoundResult)
    ensures Wins(seq(n, _ => r), q) == if r == q then n else 0
  {
    if n > 0 {
      assert seq(n, _ => r)[1..] == seq(n - 1, _ => r);
      WinsOfRepeat(n - 1, r, q);
    }
  }

  /** The three continuations that separate the outcomes: seat 0 or seat 1 sweeps, or all drawn. */
  lemma Sweeps(w0: nat, w1: nat, n: nat)
    ensures FinalState(w0, w1, seq(n, _ => Win0)) ==
            (if w0 + n > w1 then First else if w0 + n < w1 then Second else Draw)
    ensures FinalState(w0, w1, seq(n, _ => Win1)) ==
            (if w0 > w1 + n then First else if w0 < w1 + n then Second else Draw)
  {
    WinsOfRepeat(n, Win0, Win0);
    WinsOfRepeat(n, Win0, Win1);
    WinsOfRepeat(n, Win1, Win0);
    WinsOfRepeat(n, Win1, Win1);
  }

  /** Early clinch is exact: the match is decided for `s` precisely when every way to play the
      remaining rounds ends in `s`. */
  lemma ClinchIsExact(roundsTotal: nat, w0: nat, w1: nat, draws: nat, s: State)
    requires w0 + w1 + draws <= roundsTotal
    ensures MatchOutcome(roundsTotal, w0, w1, draws) == Some(s) <==>
            forall rest: seq<RoundResult> {:trigger FinalState(w0, w1, rest)} ::
              |rest| == roundsTotal - (w0 + w1 + draws) ==> FinalState(w0, w1, rest) == s
  {
    var n := roundsTotal - (w0 + w1 + draws);
    forall rest: seq<RoundResult> | |rest| == n && MatchOutcome(roundsTotal, w0, w1, draws) == Some(s)
      ensures FinalState(w0, w1, rest) == s
    {
      WinsBounded(rest);
    }
    Sweeps(w0, w1, n);
    if forall rest: seq<RoundResult> {:trigger FinalState(w0, w1, rest)} ::
        |rest| == n ==> FinalState(w0, w1, rest) == s {
      assert FinalState(w0, w1, seq(n, _ => Win0)) == s;
      assert FinalState(w0, w1, seq(n, _ => Win1)) == s;
    }
  }

  /** An undecided match is genuinely open: two continuations end differently. */
  lemma UndecidedIsOpen(roundsTotal: nat, w0: nat, w1: nat, draws: nat)
    requires w0 + w1 + draws <= roundsTotal
    ensures MatchOutcome(roundsTotal, w0, w1, draws) == None <==>
            exists p: seq<RoundResult>, q: seq<RoundResult>
                {:trigger FinalState(w0, w1, p), FinalState(w0, w1, q)} ::
              |p| == |q| == roundsTotal - (w0 + w1 + draws) &&
              FinalState(w0, w1, p) != FinalState(w0, w1, q)
  {
    var n := roundsTotal - (w0 + w1 + draws);
    var o := MatchOutcome(roundsTotal, w0, w1, draws);
    if o.Some? {
      ClinchIsExact(roundsTotal, w0, w1, draws, o.value);
    } else {
      Sweeps(w0, w1, n);
      assert FinalState(w0, w1, seq(n, _ => Win0)) != FinalState(w0, w1, seq(n, _ => Win1));
    }
  }
}
