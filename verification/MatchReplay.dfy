/** Reorder tolerance: a match does not depend on how the two players' turns were interleaved. */
module MatchReplay {
  import opened Rules
  import opened Match
  import opened MatchInvariant

  /** A match without its clock: what both players must agree on. The lists are the cells each seat
      has submitted and the board has not yet consumed. */
  datatype Position = Position(core: Core, q0: seq<Pos>, q1: seq<Pos>) {
    function Queue(seat: Seat): seq<Pos> { if seat == 0 then q0 else q1 }

    function Append(a0: seq<Pos>, a1: seq<Pos>): Position {
      Position(core, q0 + a0, q1 + a1)
    }
  }

  function View(m: Match): Position {
    Position(m.core, m.q0, m.q1)
  }

  predicate Stuck(p: Position) {
    !p.core.state.Playing? || p.Queue(p.core.ToMove()) == []
  }

  /** The to-move seat consumes its next submitted cell, dropping it when the cell is taken; what is
      left over when the match ends is discarded. */
  function Consume(p: Position): Position
    requires !Stuck(p)
  {
    var seat := p.core.ToMove();
    var cell := p.Queue(seat)[0];
    var core := if p.core.board[cell] == Empty then Place(p.core, seat, cell) else p.core;
    if core.Finished() then Position(core, [], [])
    else if seat == 0 then Position(core, p.q0[1..], p.q1)
    else Position(core, p.q0, p.q1[1..])
  }

  /** The declarative replay: consume until the seat to move has nothing submitted. */
  function Replay(p: Position): Position
    decreases |p.q0| + |p.q1|
  {
    if Stuck(p) then p else Replay(Consume(p))
  }

  lemma {:induction false} DrainIsReplay(m: Match, now: nat)
    requires m.core.Finished() ==> m.q0 == m.q1 == []
    ensures View(Drain(m, now)) == Replay(View(m))
    decreases m.Queued()
  {
    var seat := m.core.ToMove();
    if !Stuck(View(m)) {
      var q := m.Queue(seat);
      var popped := m.WithQueue(seat, q[1..]);
      if m.core.board[q[0]] == Empty {
        DrainIsReplay(ApplyMove(popped, seat, q[0], now), now);
      } else {
        DrainIsReplay(popped, now);
      }
    }
  }

  lemma ConsumeAppend(p: Position, a0: seq<Pos>, a1: seq<Pos>)
    requires !Stuck(p) && !Consume(p).core.Finished()
    ensures !Stuck(p.Append(a0, a1))
    ensures Consume(p.Append(a0, a1)) == Consume(p).Append(a0, a1)
  {
    if p.core.ToMove() == 0 {
      assert (p.q0 + a0)[1..] == p.q0[1..] + a0;
    } else {
      assert (p.q1 + a1)[1..] == p.q1[1..] + a1;
    }
  }

  lemma {:induction false} FinishedStays(p: Position)
    requires p.core.Finished()
    ensures Replay(p) == p
  {
  }

  /** Replaying early and then again with more submitted is replaying everything at once. */
  lemma {:induction false} ReplayAppend(p: Position, a0: seq<Pos>, a1: seq<Pos>)
    requires Replay(p).core.state.Playing?
    ensures Replay(Replay(p).Append(a0, a1)) == Replay(p.Append(a0, a1))
    decreases |p.q0| + |p.q1|
  {
    if !Stuck(p) {
      if Consume(p).core.Finished() {
        FinishedStays(Consume(p));
      }
      ConsumeAppend(p, a0, a1);
      ReplayAppend(Consume(p), a0, a1);
    }
  }

  function Submit(p: Position, seat: Seat, cell: Pos): Position {
    if seat == 0 then p.Append([cell], []) else p.Append([], [cell])
  }

  /** An accepted turn is a replay with one more cell submitted. */
  lemma TurnIsReplay(m: Match, seat: Seat, cell: Pos, now: nat)
    requires Valid(m) && PlayTurn(m, seat, cell, now).Ok?
    ensures View(PlayTurn(m, seat, cell, now).value) ==
            Replay(Submit(View(m), seat, cell))
  {
    var submitted := Submit(View(m), seat, cell);
    var m' := CommitExplicit(m, seat, cell, now).value;
    DrainIsReplay(m', now);
    assert m.q0 + [] == m.q0 && m.q1 + [] == m.q1;
    if seat == m.core.ToMove() {
      // The mover's queue is empty, so the submitted cell is the one consumed.
      assert View(m') == Consume(submitted);
    } else {
      assert View(m') == submitted;
    }
  }

  /** The cells one seat submitted, in order. */
  function Cells(inputs: seq<Input>, seat: Seat): seq<Pos> {
    if inputs == [] then []
    else (if inputs[0].Turn? && inputs[0].seat == seat then [inputs[0].cell] else [])
         + Cells(inputs[1..], seat)
  }

  predicate OnlyTurns(inputs: seq<Input>) {
    forall i :: 0 <= i < |inputs| ==> inputs[i].Turn?
  }

  /** After any run of accepted turns the match is the declarative replay of what each seat
      submitted, whatever the interleaving was. */
  lemma {:induction false} RunIsReplay(m: Match, inputs: seq<Input>)
    requires Valid(m) && OnlyTurns(inputs) && Run(m, inputs).Some?
    ensures inputs == [] || m.core.state.Playing?
    ensures View(Run(m, inputs).value) ==
            (if inputs == [] then View(m)
             else Replay(View(m).Append(Cells(inputs, 0), Cells(inputs, 1))))
    decreases |inputs|
  {
    if inputs != [] {
      var i := inputs[0];
      var rest := inputs[1..];
      var m' := PlayTurn(m, i.seat, i.cell, i.now).value;
      PlayTurnValid(m, i.seat, i.cell, i.now);
      TurnIsReplay(m, i.seat, i.cell, i.now);
      RunIsReplay(m', rest);
      SubmitThenRest(View(m), inputs);
      if rest != [] {
        ReplayAppend(Submit(View(m), i.seat, i.cell), Cells(rest, 0), Cells(rest, 1));
      }
    }
  }

  /** What the first input adds to one seat's submissions. */
  function Head(inputs: seq<Input>, seat: Seat): seq<Pos>
    requires inputs != []
  {
    if inputs[0].Turn? && inputs[0].seat == seat then [inputs[0].cell] else []
  }

  lemma QueueGrows(q: seq<Pos>, inputs: seq<Input>, seat: Seat)
    requires inputs != []
    ensures (q + Head(inputs, seat)) + Cells(inputs[1..], seat) == q + Cells(inputs, seat)
    ensures inputs[1..] == [] ==> q + Head(inputs, seat) == q + Cells(inputs, seat)
  {
    assert Cells(inputs, seat) == Head(inputs, seat) + Cells(inputs[1..], seat);
    if inputs[1..] == [] {
      assert Cells(inputs, seat) == Head(inputs, seat);
    }
  }

  lemma SubmitThenRest(p: Position, inputs: seq<Input>)
    requires OnlyTurns(inputs) && inputs != []
    ensures var first := Submit(p, inputs[0].seat, inputs[0].cell);
            var rest := inputs[1..];
            && first.Append(Cells(rest, 0), Cells(rest, 1)) == p.Append(Cells(inputs, 0), Cells(inputs, 1))
            && (rest == [] ==> first == p.Append(Cells(inputs, 0), Cells(inputs, 1)))
  {
    assert inputs[0].Turn?;
    assert Submit(p, inputs[0].seat, inputs[0].cell) == p.Append(Head(inputs, 0), Head(inputs, 1));
    QueueGrows(p.q0, inputs, 0);
    QueueGrows(p.q1, inputs, 1);
  }

  /** Reorder tolerance: two accepted interleavings of the same submissions end alike, in board,
      counters, result and queues. */
  lemma InterleavingsAgree(m: Match, first: seq<Input>, second: seq<Input>)
    requires Valid(m) && OnlyTurns(first) && OnlyTurns(second)
    requires Cells(first, 0) == Cells(second, 0) && Cells(first, 1) == Cells(second, 1)
    requires Run(m, first).Some? && Run(m, second).Some?
    ensures View(Run(m, first).value) == View(Run(m, second).value)
  {
    RunIsReplay(m, first);
    RunIsReplay(m, second);
    CellsCountTurns(first);
    CellsCountTurns(second);
  }

  lemma {:induction false} CellsCountTurns(inputs: seq<Input>)
    requires OnlyTurns(inputs)
    ensures |Cells(inputs, 0)| + |Cells(inputs, 1)| == |inputs|
  {
    if inputs != [] {
      CellsCountTurns(inputs[1..]);
    }
  }
}
