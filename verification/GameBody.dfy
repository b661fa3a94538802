/** The stored game as the guest mutates it: two ring queues, the board, the counters and the clock,
    all updated in place. Every mutator is proved against the value-level machine of `Match`. */
module GameBody {
  import opened Prelude
  import opened Rules
  import M = Match
  import Inv = MatchInvariant
  import opened Resources

  const NOT_A_PLAYER := "turn: mover is not a player of this game"

  /** One seat's ring of pre-committed cells: writes at `(head + count) % PENDING_CAP`, pops at
      `head`; popped slots linger. The decoder admits only board positions, so the bytes are those. */
  class PendingQueue {
    const cells: array<Pos>
    var head: u8
    var count: u8
    /** The live entries, oldest first. */
    ghost var Contents: seq<Pos>

    ghost predicate Valid()
      reads this, cells
    {
      && cells.Length == M.PENDING_CAP && head < M.PENDING_CAP && count <= M.PENDING_CAP
      && |Contents| == count
      && forall i :: 0 <= i < count ==> Contents[i] == cells[(head + i) % M.PENDING_CAP]
    }

    constructor Zeroed()
      ensures Valid() && Contents == [] && fresh(cells)
    {
      cells := new Pos[M.PENDING_CAP](_ => 0);
      head, count := 0, 0;
      Contents := [];
    }

    /** Appends `cell`, or reports a full ring. */
    method Push(cell: Pos) returns (ok: bool)
      requires Valid()
      modifies this, cells
      ensures Valid()
      ensures ok == (|old(Contents)| < M.PENDING_CAP)
      ensures Contents == if ok then old(Contents) + [cell] else old(Contents)
    {
      if count == M.PENDING_CAP {
        return false;
      }
      var tail := (head + count) % M.PENDING_CAP;
      cells[tail] := cell;
      count := count + 1;
      Contents := Contents + [cell];
      ok := true;
    }

    /** Pops the oldest entry. */
    method Pop() returns (r: Option<Pos>)
      requires Valid()
      modifies this
      ensures Valid()
      ensures r == if old(Contents) == [] then None else Some(old(Contents)[0])
      ensures Contents == if old(Contents) == [] then [] else old(Contents)[1..]
    {
      if count == 0 {
        return None;
      }
      var cell := cells[head];
      head := (head + 1) % M.PENDING_CAP;
      count := count - 1;
      Contents := Contents[1..];
      r := Some(cell);
    }

    /** The oldest entry, left in place. */
    method Peek() returns (r: Option<Pos>)
      requires Valid()
      ensures r == if Contents == [] then None else Some(Contents[0])
    {
      r := if count > 0 then Some(cells[head]) else None;
    }

    /** Zeroes the whole ring. */
    method Clear()
      requires Valid()
      modifies this, cells
      ensures Valid() && Contents == []
    {
      for i := 0 to cells.Length {
        cells[i] := 0;
      }
      head, count := 0, 0;
      Contents := [];
    }
  }

  class GameBody {
    var state: State
    const creatorMark: Cell
    const roundsTotal: u8
    var roundWins: seq<u8>
    var draws: u8
    const stake: u64
    var lastMoveAt: u64
    const creator: Id
    var joiner: Option<Id>
    const pending0: PendingQueue
    const pending1: PendingQueue
    const board: array<Cell>

    ghost function Repr(): set<object> {
      {this, pending0, pending0.cells, pending1, pending1.cells, board}
    }

    /** The memory shape: separate queues over separate rings. */
    ghost predicate Valid()
      reads Repr()
    {
      && |roundWins| == 2 && board.Length == 9
      && pending0 != pending1 && pending0.cells != pending1.cells
      && pending0.Valid() && pending1.Valid()
    }

    /** The match this body stores. */
    ghost function View(): M.Match
      requires Valid()
      reads Repr()
    {
      M.Match(CoreView(), lastMoveAt, pending0.Contents, pending1.Contents)
    }

    ghost function CoreView(): M.Core
      requires |roundWins| == 2 && board.Length == 9
      reads this, board
    {
      M.Core(state, creatorMark, roundsTotal, roundWins[0], roundWins[1], draws, board[..])
    }

    /** The whole game resource, players and stake included. */
    ghost function Value(): Game
      requires Valid()
      reads Repr()
    {
      Game(creator, joiner, stake, View())
    }

    function Pending(seat: Seat): PendingQueue {
      if seat == 0 then pending0 else pending1
    }

    /** A fresh open game; every field not named has its birth value. */
    constructor WriteGame(creator: Id, creatorMark: Cell, stake: u64, roundsTotal: u8)
      ensures Valid() && fresh(Repr())
      ensures Value() == Game(creator, None, stake, M.Fresh(creatorMark, roundsTotal))
    {
      this.state := Open;
      this.creatorMark := creatorMark;
      this.roundsTotal := roundsTotal;
      this.roundWins := [0, 0];
      this.draws := 0;
      this.stake := stake;
      this.lastMoveAt := 0;
      this.creator := creator;
      this.joiner := None;
      this.pending0 := new PendingQueue.Zeroed();
      this.pending1 := new PendingQueue.Zeroed();
      this.board := new Cell[9](_ => Empty);
    }

    /** The current round index, in the u8 the source computes it in. */
    method MarkAndRound() returns (mark: Cell, round: u8)
      requires Valid() && View().core.Round() <= roundsTotal
      ensures mark == creatorMark && round == View().core.Round()
    {
      mark, round := creatorMark, roundWins[0] + roundWins[1] + draws;
    }

    method ToMove() returns (seat: Seat)
      requires Valid() && View().core.Round() <= roundsTotal
      ensures seat == View().core.ToMove()
    {
      var mark, round := MarkAndRound();
      seat := SeatToMove(mark, round, board[..]);
    }

    method ClearPending()
      requires Valid()
      modifies pending0, pending0.cells, pending1, pending1.cells
      ensures Valid() && View() == old(View()).(q0 := [], q1 := [])
    {
      pending0.Clear();
      pending1.Clear();
    }

    method FillEmpty()
      requires board.Length == 9
      modifies board
      ensures board[..] == EMPTY_BOARD
    {
      for i := 0 to board.Length
        invariant forall k :: 0 <= k < i ==> board[k] == Empty
      {
        board[i] := Empty;
      }
    }

    method EndMatchIfDecided()
      requires Valid()
      modifies this`state, pending0, pending0.cells, pending1, pending1.cells
      ensures Valid()
      ensures View() ==
              (match old(View()).core.Outcome()
               case Some(s) => old(View()).(core := old(View()).core.(state := s), q0 := [], q1 := [])
               case None => old(View()))
    {
      var outcome := MatchOutcome(roundsTotal, roundWins[0], roundWins[1], draws);
      if outcome.Some? {
        state := outcome.value;
        ClearPending();
      }
    }

    method CloseRound()
      requires Valid() && state.Playing?
      modifies this`state, board, pending0, pending0.cells, pending1, pending1.cells
      ensures Valid()
      ensures View() == M.Tidy(old(View()).(core := M.CloseRound(old(View()).core)))
    {
      FillEmpty();
      EndMatchIfDecided();
    }

    /** Writes `seat`'s mark and stamps the clock. */
    method PlaceMark(seat: Seat, cell: Pos, now: u64) returns (mark: Cell)
      requires Valid() && View().core.Round() <= roundsTotal
      modifies this`lastMoveAt, board
      ensures Valid()
      ensures mark == MarkForSeat(creatorMark, old(View()).core.Round(), seat)
      ensures View() == old(View()).(core := M.Marked(old(View()).core, seat, cell), lastMoveAt := now)
    {
      var creator, round := MarkAndRound();
      mark := MarkForSeat(creator, round, seat);
      board[cell] := mark;
      lastMoveAt := now;
      assert board[..] == old(board[..])[cell := mark];
    }

    /** Counts a won round; the byte counter cannot overflow before the last round. */
    method WinRound(seat: Seat)
      requires Valid() && View().core.Round() < roundsTotal
      modifies this`roundWins
      ensures Valid() && View() == old(View()).(core := old(View()).core.WithRoundWonBy(seat))
    {
      roundWins := roundWins[seat := roundWins[seat] + 1];
    }

    method DrawRound()
      requires Valid() && View().core.Round() < roundsTotal
      modifies this`draws
      ensures Valid() && View() == old(View()).(core := old(View()).core.(draws := old(View()).core.draws + 1))
    {
      draws := draws + 1;
    }

    /** Counts the round a just-placed `mark` ended, if it did, and closes it. The round counters
        cannot overflow their bytes. */
    method ScoreMove(seat: Seat, mark: Cell)
      requires Valid() && state.Playing? && View().core.Round() < roundsTotal
      modifies this`state, this`roundWins, this`draws, board
      modifies pending0, pending0.cells, pending1, pending1.cells
      ensures Valid() && View() == M.Tidy(old(View()).(core := M.Score(old(View()).core, seat, mark)))
    {
      ghost var c := View().core;
      var won := Winner(board[..]) == Some(mark);
      var full := !won && BoardFull(board[..]);
      if won {
        WinRound(seat);
      } else if full {
        DrawRound();
      }
      assert View() == old(View()).(core := if won then c.WithRoundWonBy(seat)
                                            else if full then c.(draws := c.draws + 1) else c);
      if won || full {
        CloseRound();
      }
    }

    /** Places the to-move seat's mark and closes the round when that ends it. */
    method ApplyMove(seat: Seat, cell: Pos, now: u64)
      requires Valid() && Inv.Live(View().core)
      modifies this`state, this`roundWins, this`draws, this`lastMoveAt, board
      modifies pending0, pending0.cells, pending1, pending1.cells
      ensures Valid() && View() == M.ApplyMove(old(View()), seat, cell, now)
    {
      var mark := PlaceMark(seat, cell, now);
      ScoreMove(seat, mark);
    }

    /** Peeks at the to-move seat's oldest entry and pops it. */
    method PopHead(seat: Seat) returns (head: Option<Pos>)
      requires Valid()
      modifies pending0, pending1
      ensures Valid()
      ensures old(View()).Queue(seat) == [] ==> head == None && View() == old(View())
      ensures old(View()).Queue(seat) != [] ==>
                && head == Some(old(View()).Queue(seat)[0])
                && View() == old(View()).WithQueue(seat, old(View()).Queue(seat)[1..])
    {
      head := Pending(seat).Peek();
      if head.Some? {
        var _ := Pending(seat).Pop();
      }
    }

    /** Applies queued pre-commits while the game plays. Every iteration pops one entry. */
    method DrainPending(now: u64)
      requires Valid() && Inv.Draining(View())
      modifies this`state, this`roundWins, this`draws, this`lastMoveAt, board
      modifies pending0, pending0.cells, pending1, pending1.cells
      ensures Valid() && View() == M.Drain(old(View()), now)
    {
      while state.Playing?
        invariant Valid() && Inv.Draining(View())
        invariant M.Drain(View(), now) == M.Drain(old(View()), now)
        decreases View().Queued()
      {
        ghost var before := View();
        var seat := ToMove();
        var head := PopHead(seat);
        Inv.DrainStep(before, now);
        if head.None? {
          break;
        }
        if board[head.value] == Empty {
          ApplyMove(seat, head.value, now);
        }
      }
    }

    /** Lands the explicit turn on the board, or at the back of the mover's queue. */
    method CommitExplicit(seat: Seat, cell: Pos, now: u64) returns (r: Result<()>)
      requires Valid() && Inv.Valid(View()) && state.Playing?
      modifies this`state, this`roundWins, this`draws, this`lastMoveAt, board
      modifies pending0, pending0.cells, pending1, pending1.cells
      ensures Valid()
      ensures match M.CommitExplicit(old(View()), seat, cell, now)
              case Ok(m) => r == Ok(()) && View() == m
              case Err(e) => r == Err(e) && View() == old(View())
    {
      if board[cell] != Empty {
        return Err("turn: cell is occupied");
      }
      var toMove := ToMove();
      if seat == toMove {
        ApplyMove(seat, cell, now);
      } else {
        ghost var before := View();
        var ok := Pending(seat).Push(cell);
        if !ok {
          return Err("turn: pending queue is full");
        }
        assert View() == before.WithQueue(seat, before.Queue(seat) + [cell]);
      }
      r := Ok(());
    }

    /** The player at a seat: the creator's is taken from the start, the joiner's once there is one. */
    function Player(seat: Seat): Option<Id>
      reads this`joiner
    {
      if seat == 0 then Some(creator) else joiner
    }

    /** The mover's seat; the first one, should it sit at both. */
    method SeatOf(mover: Id) returns (r: Result<Seat>)
      ensures r.Ok? <==> exists seat: Seat :: Player(seat) == Some(mover)
      ensures r.Ok? ==> Player(r.value) == Some(mover)
      ensures r.Ok? ==> forall seat: Seat :: seat < r.value ==> Player(seat) != Some(mover)
      ensures r.Err? ==> r.error == NOT_A_PLAYER
    {
      if creator == mover {
        assert Player(0) == Some(mover);
        r := Ok(0);
      } else if joiner == Some(mover) {
        assert Player(1) == Some(mover);
        r := Ok(1);
      } else {
        r := Err(NOT_A_PLAYER);
      }
    }

    /** Plays the explicit turn and its cascade; reports whether the match just finished. A rejected
        turn leaves the body as it was. */
    method PlayTurn(mover: Id, cell: Pos, now: u64) returns (r: Result<bool>)
      requires Valid() && Inv.Valid(View())
      modifies this`state, this`roundWins, this`draws, this`lastMoveAt, board
      modifies pending0, pending0.cells, pending1, pending1.cells
      ensures Valid()
      ensures match PlayGame(old(Value()), mover, cell, now)
              case Ok(g) => r == Ok(g.play.core.Finished()) && Value() == g
              case Err(e) => r == Err(e) && Value() == old(Value())
    {
      if !state.Playing? {
        return Err("turn: game is not playing");
      }
      var seat := SeatOf(mover);
      if seat.Err? {
        assert Player(0) != Some(mover) && Player(1) != Some(mover);
        return Err(seat.error);
      }
      assert seat.value == 1 ==> Player(0) != Some(mover);
      PlayGameAt(Value(), mover, seat.value, cell, now);
      var played := CommitAndDrain(seat.value, cell, now);
      if played.Err? {
        return Err(played.error);
      }
      r := Ok(state.First? || state.Second? || state.Draw?);
    }

    method CommitAndDrain(seat: Seat, cell: Pos, now: u64) returns (r: Result<()>)
      requires Valid() && Inv.Valid(View()) && state.Playing?
      modifies this`state, this`roundWins, this`draws, this`lastMoveAt, board
      modifies pending0, pending0.cells, pending1, pending1.cells
      ensures Valid()
      ensures match M.PlayTurn(old(View()), seat, cell, now)
              case Ok(m) => r == Ok(()) && View() == m
              case Err(e) => r == Err(e) && View() == old(View())
    {
      r := CommitExplicit(seat, cell, now);
      if r.Ok? {
        Inv.CommitDraining(old(View()), seat, cell, now);
        DrainPending(now);
      }
    }

    /** Awards the round to the seat not to move once the clock ran out, then drains. */
    method ForfeitRound(turnTtl: u64, now: u64) returns (r: Result<bool>)
      requires Valid() && Inv.Valid(View())
      modifies this`state, this`roundWins, this`draws, this`lastMoveAt, board
      modifies pending0, pending0.cells, pending1, pending1.cells
      ensures Valid()
      ensures match M.Forfeit(old(View()), turnTtl, now)
              case Ok(m) => r == Ok(m.core.Finished()) && View() == m
              case Err(e) => r == Err(e) && View() == old(View())
    {
      if !state.Playing? {
        return Err("timeout: game is not playing");
      }
      if lastMoveAt + turnTtl >= U64_LIMIT {
        return Err("timeout: last_move_at + turn_ttl overflows");
      }
      var deadline := lastMoveAt + turnTtl;
      if now < deadline {
        return Err("timeout: turn has not expired");
      }
      AwardAndDrain(turnTtl, now);
      r := Ok(state.First? || state.Second? || state.Draw?);
    }

    method AwardAndDrain(ghost turnTtl: u64, now: u64)
      requires Valid() && Inv.Valid(View()) && M.Forfeit(View(), turnTtl, now).Ok?
      modifies this`state, this`roundWins, this`draws, this`lastMoveAt, board
      modifies pending0, pending0.cells, pending1, pending1.cells
      ensures Valid() && M.Forfeit(old(View()), turnTtl, now) == Ok(View())
    {
      Inv.ForfeitValid(View(), turnTtl, now);
      AwardRound(now);
      DrainPending(now);
    }

    /** The seat not to move takes the round; the clock restarts at the claim. */
    method AwardRound(now: u64)
      requires Valid() && Inv.Live(View().core)
      modifies this`state, this`roundWins, this`lastMoveAt, board
      modifies pending0, pending0.cells, pending1, pending1.cells
      ensures Valid() && View() == M.Forfeited(old(View()), now)
    {
      var toMove := ToMove();
      var winner := 1 - toMove;
      WinRound(winner);
      lastMoveAt := now;
      CloseRound();
    }
  }

  /** The game after a turn by `mover`, as a value. */
  function PlayGame(g: Game, mover: Id, cell: Pos, now: nat): Result<Game> {
    if !g.play.core.state.Playing? then Err("turn: game is not playing")
    else if g.creator != mover && g.joiner != Some(mover) then Err(NOT_A_PLAYER)
    else
      match M.PlayTurn(g.play, if g.creator == mover then 0 else 1, cell, now)
      case Ok(m) => Ok(g.(play := m))
      case Err(e) => Err(e)
  }

  lemma PlayGameAt(g: Game, mover: Id, seat: Seat, cell: Pos, now: nat)
    requires g.play.core.state.Playing?
    requires if seat == 0 then g.creator == mover else g.creator != mover && g.joiner == Some(mover)
    ensures PlayGame(g, mover, cell, now)
         == match M.PlayTurn(g.play, seat, cell, now)
            case Ok(m) => Ok(g.(play := m))
            case Err(e) => Err(e)
  {
  }

  /** The game after a forfeit claim, as a value. */
  function ForfeitGame(g: Game, turnTtl: nat, now: nat): Result<Game> {
    match M.Forfeit(g.play, turnTtl, now)
    case Ok(m) => Ok(g.(play := m))
    case Err(e) => Err(e)
  }
}
