/** Search.java: findBestMove, minimax and quiesce as methods that make and unmake
    moves on one Position. Each is proved to leave the position and return the score
    (or move) that the matching function of module SearchRules computes, for any
    engine that agrees with the program's move generator, position and evaluator
    (Agrees). SearchLemmas.ChessAgrees shows that Chess is such an engine, so what
    module SearchLemmas proves about those functions holds of these methods. */
module Search {
  import opened Moves
  import opened Boards
  import opened Scoring
  import opened Positions
  import opened MoveGenerator
  import opened Evaluator
  import opened SearchRules

  /** findBestMove: searches every legal move to depth - 1 with the full window and
      keeps the first move with the best score for the side to move; None when there
      is no legal move. */
  method FindBestMove(ghost e: Engine, tables: AttackTables, position: Position, depth: int)
    returns (bestMove: Option<Move>)
    requires Agrees(e) && tables.Valid()
    requires depth >= 1
    modifies position
    ensures (position.State(), bestMove) == FindBest(e, old(position.State()), depth)
  {
    var legalMoves := GenerateLegalMoves(tables, position);
    var moves := legalMoves.items;
    if |moves| == 0 {
      return None;
    }
    var isWhiteTurn := position.isWhiteTurn;
    bestMove := BestMoveLoop(e, tables, position, moves, depth, isWhiteTurn);
  }

  /** The loop of findBestMove, from bestMove = null and the worst score for the side
      to move; a move replaces the best one only when it scores strictly better. */
  method BestMoveLoop(ghost e: Engine, tables: AttackTables, position: Position, moves: seq<Move>, depth: int,
                      isWhiteTurn: bool) returns (bestMove: Option<Move>)
    requires Agrees(e) && tables.Valid()
    requires depth >= 1
    modifies position
    ensures (position.State(), bestMove)
         == BestLoop(e, old(position.State()), moves, depth, isWhiteTurn, if isWhiteTurn then MIN_VALUE else MAX_VALUE, None)
  {
    bestMove := None;
    var bestScore := if isWhiteTurn then MIN_VALUE else MAX_VALUE;
    ghost var total := BestLoop(e, position.State(), moves, depth, isWhiteTurn, bestScore, bestMove);
    for i := 0 to |moves|
      invariant BestLoop(e, position.State(), moves[i..], depth, isWhiteTurn, bestScore, bestMove) == total
    {
      var move := moves[i];
      var score := SearchMove(e, tables, position, move, depth, MIN_VALUE, MAX_VALUE);
      assert moves[i..][1..] == moves[i + 1..];
      if isWhiteTurn {
        if score > bestScore {
          bestScore := score;
          bestMove := Some(move);
        }
      } else {
        if score < bestScore {
          bestScore := score;
          bestMove := Some(move);
        }
      }
    }
  }

  /** minimax: quiescence at depth 0; mate or stalemate when the side to move has no
      legal move; otherwise the maximising (white) or minimising (black) loop, which
      stops once alpha reaches beta. */
  method Minimax(ghost e: Engine, tables: AttackTables, position: Position, depth: int, alpha: int, beta: int)
    returns (score: int)
    requires Agrees(e) && tables.Valid()
    requires depth >= 0
    modifies position
    decreases depth, 2
    ensures (position.State(), score) == SearchRules.Minimax(e, old(position.State()), depth, alpha, beta)
  {
    if depth == 0 {
      score := Quiesce(e, tables, position, alpha, beta, QUIESCE_DEPTH);
      return;
    }
    var legalMoves := GenerateLegalMoves(tables, position);
    var moves := legalMoves.items;
    if |moves| == 0 {
      var inCheck := IsKingInCheck(tables, position, position.isWhiteTurn);
      if inCheck {
        score := if position.isWhiteTurn then MIN_VALUE + depth else MAX_VALUE - depth;
      } else {
        score := 0;
      }
      return;
    }
    if position.isWhiteTurn {
      score := MinimaxMaxLoop(e, tables, position, moves, depth, alpha, beta);
    } else {
      score := MinimaxMinLoop(e, tables, position, moves, depth, alpha, beta);
    }
  }

  /** The body of the move loops of findBestMove and minimax: make the move, search
      the position after it one ply shallower, unmake it with the saved state. */
  method SearchMove(ghost e: Engine, tables: AttackTables, position: Position, move: Move, depth: int,
                    alpha: int, beta: int) returns (score: int)
    requires Agrees(e) && tables.Valid()
    requires depth >= 1
    modifies position
    decreases depth, 0
    ensures var child := MinimaxAfter(e, old(position.State()), move, depth, alpha, beta);
      position.State() == e.unmake(child.0, move, Snapshot(old(position.State()))) && score == child.1
  {
    var saved := position.MakeMove(move);
    assert position.State() == e.make(old(position.State()), move);
    score := Minimax(e, tables, position, depth - 1, alpha, beta);
    position.UnmakeMove(move, saved);
  }

  /** The maximising loop of minimax, from maxScore = Integer.MIN_VALUE. */
  method MinimaxMaxLoop(ghost e: Engine, tables: AttackTables, position: Position, moves: seq<Move>, depth: int,
                        alpha: int, beta: int) returns (maxScore: int)
    requires Agrees(e) && tables.Valid()
    requires depth >= 1
    modifies position
    decreases depth, 1
    ensures (position.State(), maxScore) == MinimaxMax(e, old(position.State()), moves, depth, alpha, beta, MIN_VALUE)
  {
    ghost var total := MinimaxMax(e, position.State(), moves, depth, alpha, beta, MIN_VALUE);
    var a := alpha;
    maxScore := MIN_VALUE;
    for i := 0 to |moves|
      invariant MinimaxMax(e, position.State(), moves[i..], depth, a, beta, maxScore) == total
    {
      var score := SearchMove(e, tables, position, moves[i], depth, a, beta);
      assert moves[i..][1..] == moves[i + 1..];
      maxScore := Max(maxScore, score);
      a := Max(a, score);
      if a >= beta {
        assert (position.State(), maxScore) == total;
        break;
      }
    }
  }

  /** The minimising loop of minimax, from minScore = Integer.MAX_VALUE. */
  method MinimaxMinLoop(ghost e: Engine, tables: AttackTables, position: Position, moves: seq<Move>, depth: int,
                        alpha: int, beta: int) returns (minScore: int)
    requires Agrees(e) && tables.Valid()
    requires depth >= 1
    modifies position
    decreases depth, 1
    ensures (position.State(), minScore) == MinimaxMin(e, old(position.State()), moves, depth, alpha, beta, MAX_VALUE)
  {
    ghost var total := MinimaxMin(e, position.State(), moves, depth, alpha, beta, MAX_VALUE);
    var bt := beta;
    minScore := MAX_VALUE;
    for i := 0 to |moves|
      invariant MinimaxMin(e, position.State(), moves[i..], depth, alpha, bt, minScore) == total
    {
      var score := SearchMove(e, tables, position, moves[i], depth, alpha, bt);
      assert moves[i..][1..] == moves[i + 1..];
      minScore := Min(minScore, score);
      bt := Min(bt, score);
      if alpha >= bt {
        assert (position.State(), minScore) == total;
        break;
      }
    }
  }

  /** quiesce: the stand-pat evaluation, a fail-hard cutoff against the window, then
      the captures among the generated moves searched one ply deeper. */
  method Quiesce(ghost e: Engine, tables: AttackTables, position: Position, alpha: int, beta: int, depth: int)
    returns (score: int)
    requires Agrees(e) && tables.Valid()
    modifies position
    decreases if depth > 0 then depth else 0, 2
    ensures (position.State(), score) == SearchRules.Quiesce(e, old(position.State()), alpha, beta, depth)
  {
    ghost var b := position.State();
    var standPat := Evaluate(position);
    assert standPat == Evaluation(position.State().pieces);
    if depth <= 0 {
      return standPat;
    }
    var a, bt := alpha, beta;
    if position.isWhiteTurn {
      if standPat >= beta {
        return beta;
      }
      if standPat > alpha {
        a := standPat;
      }
    } else {
      if standPat <= alpha {
        return alpha;
      }
      if standPat < beta {
        bt := standPat;
      }
    }
    assert a == if b.isWhiteTurn && standPat > alpha then standPat else alpha;
    assert bt == if !b.isWhiteTurn && standPat < beta then standPat else beta;
    var allMoves := GenerateMoves(tables, position);
    var forcingMoves := ForcingMoves(allMoves);
    var forcing := forcingMoves.items;
    if |forcing| == 0 {
      return standPat;
    }
    if position.isWhiteTurn {
      score := QuiesceMaxLoop(e, tables, position, forcing, a, bt, depth, standPat);
    } else {
      score := QuiesceMinLoop(e, tables, position, forcing, a, bt, depth, standPat);
    }
  }

  /** The loop of quiesce that copies the captures out of the generated moves. */
  method ForcingMoves(allMoves: MoveList) returns (forcingMoves: MoveList)
    ensures fresh(forcingMoves)
    ensures forcingMoves.items == Captures(allMoves.items)
  {
    forcingMoves := new MoveList();
    var moves := allMoves.items;
    for i := 0 to |moves|
      invariant forcingMoves.items + Captures(moves[i..]) == Captures(moves)
    {
      assert moves[i..][1..] == moves[i + 1..];
      var move := moves[i];
      if IsCapture(move) {
        SeqAssociative(forcingMoves.items, [move], Captures(moves[i + 1..]));
        forcingMoves.Add(move);
      }
    }
    assert moves[|moves|..] == [];
  }

  /** The body of the capture loops of quiesce: make the capture, quiesce one ply
      shallower, unmake it with the saved state. */
  method SearchCapture(ghost e: Engine, tables: AttackTables, position: Position, move: Move, alpha: int, beta: int,
                       depth: int) returns (score: int)
    requires Agrees(e) && tables.Valid()
    requires depth >= 1
    modifies position
    decreases depth, 0
    ensures var child := QuiesceAfter(e, old(position.State()), move, alpha, beta, depth);
      position.State() == e.unmake(child.0, move, Snapshot(old(position.State()))) && score == child.1
  {
    var saved := position.MakeMove(move);
    assert position.State() == e.make(old(position.State()), move);
    score := Quiesce(e, tables, position, alpha, beta, depth - 1);
    position.UnmakeMove(move, saved);
  }

  /** White's capture loop in quiesce, from maxScore = standPat. */
  method QuiesceMaxLoop(ghost e: Engine, tables: AttackTables, position: Position, moves: seq<Move>, alpha: int,
                        beta: int, depth: int, standPat: int) returns (maxScore: int)
    requires Agrees(e) && tables.Valid()
    requires depth >= 1
    modifies position
    decreases depth, 1
    ensures (position.State(), maxScore) == QuiesceMax(e, old(position.State()), moves, alpha, beta, depth, standPat)
  {
    ghost var total := QuiesceMax(e, position.State(), moves, alpha, beta, depth, standPat);
    var a := alpha;
    maxScore := standPat;
    for i := 0 to |moves|
      invariant QuiesceMax(e, position.State(), moves[i..], a, beta, depth, maxScore) == total
    {
      var score := SearchCapture(e, tables, position, moves[i], a, beta, depth);
      assert moves[i..][1..] == moves[i + 1..];
      maxScore := Max(maxScore, score);
      a := Max(a, score);
      if a >= beta {
        assert (position.State(), maxScore) == total;
        break;
      }
    }
  }

  /** Black's capture loop in quiesce, from minScore = standPat. */
  method QuiesceMinLoop(ghost e: Engine, tables: AttackTables, position: Position, moves: seq<Move>, alpha: int,
                        beta: int, depth: int, standPat: int) returns (minScore: int)
    requires Agrees(e) && tables.Valid()
    requires depth >= 1
    modifies position
    decreases depth, 1
    ensures (position.State(), minScore) == QuiesceMin(e, old(position.State()), moves, alpha, beta, depth, standPat)
  {
    ghost var total := QuiesceMin(e, position.State(), moves, alpha, beta, depth, standPat);
    var bt := beta;
    minScore := standPat;
    for i := 0 to |moves|
      invariant QuiesceMin(e, position.State(), moves[i..], alpha, bt, depth, minScore) == total
    {
      var score := SearchCapture(e, tables, position, moves[i], alpha, bt, depth);
      assert moves[i..][1..] == moves[i + 1..];
      minScore := Min(minScore, score);
      bt := Min(bt, score);
      if alpha >= bt {
        assert (position.State(), minScore) == total;
        break;
      }
    }
  }
}
