/** Search.java on values: alpha-beta minimax over the legal moves, a capture-only
    quiescence search below it, and the root loop that picks a move. Each function
    threads the board the way the methods do (make the move, search, unmake with the
    snapshot taken before the move), so module Search can be proved equal to them.
    Beside them stand the plain minimax values the pruning is meant to compute, and
    the conditions under which every unmake gives the board back.

    The search is written over an Engine: the calls Search.java makes into
    MoveGenerator, Position and Evaluator, as function values. Chess is the engine
    of this program, built from the functions of modules MoveRules, Boards and
    Scoring; module Search runs the search with it. */
module SearchRules {
  import opened Moves
  import opened GameStates
  import opened Boards
  import opened MoveRules
  import opened Scoring

  datatype Option<T> = None | Some(value: T)

  /** What the search calls on a position. */
  datatype Engine = Engine(
    generate: Board -> seq<Move>,              // MoveGenerator.generateMoves
    legal: Board -> (Board, seq<Move>),        // generateLegalMoves: the board it leaves, the moves
    inCheck: Board -> bool,                    // isKingInCheck for the side to move
    evaluate: Board -> int,                    // Evaluator.evaluate
    make: (Board, Move) -> Board,              // Position.makeMove
    unmake: (Board, Move, GameState) -> Board) // Position.unmakeMove

  /** This program's engine. */
  const Chess: Engine := Engine(
    PseudoLegalMoves,
    (b: Board) => LegalFilter(b, b.isWhiteTurn, PseudoLegalMoves(b)),
    (b: Board) => InCheck(b, b.isWhiteTurn),
    (b: Board) => Evaluation(b.pieces),
    Make,
    Unmake)

  /** An engine that does on every board what the program's own functions do. Each
      fact fires only on a term of those functions, so that a proof about an engine
      that agrees does not unfold the functions on every board the search reaches. */
  ghost predicate Agrees(e: Engine)
  {
    && (forall b {:trigger PseudoLegalMoves(b)} :: e.generate(b) == PseudoLegalMoves(b))
    && (forall b: Board, white {:trigger LegalFilter(b, white, PseudoLegalMoves(b))} ::
          white == b.isWhiteTurn ==> e.legal(b) == LegalFilter(b, white, PseudoLegalMoves(b)))
    && (forall b: Board, white {:trigger InCheck(b, white)} :: white == b.isWhiteTurn ==> e.inCheck(b) == InCheck(b, white))
    && (forall b: Board {:trigger Evaluation(b.pieces)} :: e.evaluate(b) == Evaluation(b.pieces))
    && (forall b, m {:trigger Make(b, m)} :: e.make(b, m) == Make(b, m))
    && (forall b, m, g {:trigger Unmake(b, m, g)} :: e.unmake(b, m, g) == Unmake(b, m, g))
  }

  /** Integer.MIN_VALUE and Integer.MAX_VALUE, the scores the search starts from. */
  const MIN_VALUE: int := -0x8000_0000
  const MAX_VALUE: int := 0x7fff_ffff

  /** The quiescence depth minimax hands over with at its leaves. */
  const QUIESCE_DEPTH: int := 5

  /** The "forcing moves" quiesce keeps: the captures, in generation order. */
  function Captures(moves: seq<Move>): (r: seq<Move>)
    ensures |r| <= |moves|
  {
    if |moves| == 0 then []
    else (if IsCapture(moves[0]) then [moves[0]] else []) + Captures(moves[1..])
  }

  // ---------------------------------------------------------------------------
  // The search as the code runs it

  /** quiesce: the static evaluation as a stand-pat score, a fail-hard cutoff against
      the window, then the captures searched one ply deeper while the window stays
      open. Returns the board the code leaves behind and the score. */
  function Quiesce(e: Engine, b: Board, alpha: int, beta: int, depth: int): (Board, int)
    decreases if depth > 0 then depth else 0, 1, 0
  {
    var standPat := e.evaluate(b);
    if depth <= 0 then (b, standPat)
    else if b.isWhiteTurn && standPat >= beta then (b, beta)
    else if !b.isWhiteTurn && standPat <= alpha then (b, alpha)
    else
      var alpha' := if b.isWhiteTurn && standPat > alpha then standPat else alpha;
      var beta' := if !b.isWhiteTurn && standPat < beta then standPat else beta;
      var forcing := Captures(e.generate(b));
      if |forcing| == 0 then (b, standPat)
      else if b.isWhiteTurn then QuiesceMax(e, b, forcing, alpha', beta', depth, standPat)
      else QuiesceMin(e, b, forcing, alpha', beta', depth, standPat)
  }

  /** One capture searched: quiesce on the board after it, one ply shallower. */
  function QuiesceAfter(e: Engine, b: Board, m: Move, alpha: int, beta: int, depth: int): (Board, int)
    requires depth > 0
    decreases depth, 0, 0
  {
    Quiesce(e, e.make(b, m), alpha, beta, depth - 1)
  }

  /** White's capture loop in quiesce: maxScore starts at the stand-pat score; each
      capture raises maxScore and alpha, and the loop stops once alpha reaches beta. */
  function QuiesceMax(e: Engine, b: Board, moves: seq<Move>, alpha: int, beta: int, depth: int, maxScore: int)
    : (Board, int)
    requires depth > 0
    decreases depth, 0, |moves|
  {
    if |moves| == 0 then (b, maxScore)
    else
      var m := moves[0];
      var child := QuiesceAfter(e, b, m, alpha, beta, depth);
      var back := e.unmake(child.0, m, Snapshot(b));
      var maxScore' := Max(maxScore, child.1);
      var alpha' := Max(alpha, child.1);
      if alpha' >= beta then (back, maxScore')
      else QuiesceMax(e, back, moves[1..], alpha', beta, depth, maxScore')
  }

  /** Black's capture loop in quiesce, lowering minScore and beta. */
  function QuiesceMin(e: Engine, b: Board, moves: seq<Move>, alpha: int, beta: int, depth: int, minScore: int)
    : (Board, int)
    requires depth > 0
    decreases depth, 0, |moves|
  {
    if |moves| == 0 then (b, minScore)
    else
      var m := moves[0];
      var child := QuiesceAfter(e, b, m, alpha, beta, depth);
      var back := e.unmake(child.0, m, Snapshot(b));
      var minScore' := Min(minScore, child.1);
      var beta' := Min(beta, child.1);
      if alpha >= beta' then (back, minScore')
      else QuiesceMin(e, back, moves[1..], alpha, beta', depth, minScore')
  }

  /** The score minimax gives a side to move that has no legal move: mate, scored
      Integer.MIN_VALUE + depth against white and Integer.MAX_VALUE - depth against
      black, or stalemate, scored 0. */
  function NoMoveScore(e: Engine, b: Board, depth: int): int
  {
    if e.inCheck(b) then
      (if b.isWhiteTurn then MIN_VALUE + depth else MAX_VALUE - depth)
    else 0
  }

  /** minimax: quiescence at depth 0; otherwise the legal moves (generated on the
      position, which generateLegalMoves leaves as its loop left it), the no-move score
      when there are none, else the maximising or minimising loop. */
  function Minimax(e: Engine, b: Board, depth: nat, alpha: int, beta: int): (Board, int)
    decreases depth, 1, 0
  {
    if depth == 0 then Quiesce(e, b, alpha, beta, QUIESCE_DEPTH)
    else
      var generated := e.legal(b);
      var b1, legal := generated.0, generated.1;
      if |legal| == 0 then (b1, NoMoveScore(e, b1, depth))
      else if b1.isWhiteTurn then MinimaxMax(e, b1, legal, depth, alpha, beta, MIN_VALUE)
      else MinimaxMin(e, b1, legal, depth, alpha, beta, MAX_VALUE)
  }

  /** One move searched: minimax on the board after it, one ply shallower. */
  function MinimaxAfter(e: Engine, b: Board, m: Move, depth: nat, alpha: int, beta: int): (Board, int)
    requires depth > 0
    decreases depth, 0, 0
  {
    Minimax(e, e.make(b, m), depth - 1, alpha, beta)
  }

  /** The maximising loop of minimax. */
  function MinimaxMax(e: Engine, b: Board, moves: seq<Move>, depth: nat, alpha: int, beta: int, maxScore: int)
    : (Board, int)
    requires depth > 0
    decreases depth, 0, |moves|
  {
    if |moves| == 0 then (b, maxScore)
    else
      var m := moves[0];
      var child := MinimaxAfter(e, b, m, depth, alpha, beta);
      var back := e.unmake(child.0, m, Snapshot(b));
      var maxScore' := Max(maxScore, child.1);
      var alpha' := Max(alpha, child.1);
      if alpha' >= beta then (back, maxScore')
      else MinimaxMax(e, back, moves[1..], depth, alpha', beta, maxScore')
  }

  /** The minimising loop of minimax. */
  function MinimaxMin(e: Engine, b: Board, moves: seq<Move>, depth: nat, alpha: int, beta: int, minScore: int)
    : (Board, int)
    requires depth > 0
    decreases depth, 0, |moves|
  {
    if |moves| == 0 then (b, minScore)
    else
      var m := moves[0];
      var child := MinimaxAfter(e, b, m, depth, alpha, beta);
      var back := e.unmake(child.0, m, Snapshot(b));
      var minScore' := Min(minScore, child.1);
      var beta' := Min(beta, child.1);
      if alpha >= beta' then (back, minScore')
      else MinimaxMin(e, back, moves[1..], depth, alpha, beta', minScore')
  }

  /** A score the side to move prefers to the best so far: strictly higher for white,
      strictly lower for black. */
  predicate Prefers(white: bool, score: int, best: int)
  {
    if white then score > best else score < best
  }

  /** findBestMove: no move when there is no legal move; otherwise each legal move is
      searched to depth - 1 with the full window, and a move replaces the best one only
      when it scores strictly better. */
  function FindBest(e: Engine, b: Board, depth: nat): (Board, Option<Move>)
    requires depth >= 1
  {
    var generated := e.legal(b);
    var b1, legal := generated.0, generated.1;
    if |legal| == 0 then (b1, None)
    else
      var white := b1.isWhiteTurn;
      BestLoop(e, b1, legal, depth, white, if white then MIN_VALUE else MAX_VALUE, None)
  }

  /** findBestMove's loop over the legal moves. */
  function BestLoop(e: Engine, b: Board, moves: seq<Move>, depth: nat, white: bool, bestScore: int,
                    bestMove: Option<Move>): (Board, Option<Move>)
    requires depth >= 1
    decreases |moves|
  {
    if |moves| == 0 then (b, bestMove)
    else
      var m := moves[0];
      var child := MinimaxAfter(e, b, m, depth, MIN_VALUE, MAX_VALUE);
      var back := e.unmake(child.0, m, Snapshot(b));
      if Prefers(white, child.1, bestScore) then BestLoop(e, back, moves[1..], depth, white, child.1, Some(m))
      else BestLoop(e, back, moves[1..], depth, white, bestScore, bestMove)
  }

  // ---------------------------------------------------------------------------
  // The values the pruning is meant to compute

  /** Plain quiescence value without a window: the stand-pat score, and when captures
      are searched, the best of it and every capture's value, on the board after that
      capture. */
  function QuiesceValue(e: Engine, b: Board, depth: int): int
    decreases if depth > 0 then depth else 0, 1, 0
  {
    var standPat := e.evaluate(b);
    if depth <= 0 then standPat
    else QuiesceBest(e, b, Captures(e.generate(b)), depth, b.isWhiteTurn, standPat)
  }

  /** The plain quiescence value of the board after a capture, one ply shallower. */
  function QuiesceValueAfter(e: Engine, b: Board, m: Move, depth: int): int
    requires depth > 0
    decreases depth, 0, 0
  {
    QuiesceValue(e, e.make(b, m), depth - 1)
  }

  /** The best of `acc` and the values of the moves, for the side `white` says. */
  function QuiesceBest(e: Engine, b: Board, moves: seq<Move>, depth: int, white: bool, acc: int): int
    requires depth > 0
    decreases depth, 0, |moves|
  {
    if |moves| == 0 then acc
    else
      var v := QuiesceValueAfter(e, b, moves[0], depth);
      QuiesceBest(e, b, moves[1..], depth, white, if white then Max(acc, v) else Min(acc, v))
  }

  /** Plain minimax value: quiescence at depth 0, the no-move score without legal
      moves, else the best value over the legal moves. */
  function MinimaxValue(e: Engine, b: Board, depth: nat): int
    decreases depth, 1, 0
  {
    if depth == 0 then QuiesceValue(e, b, QUIESCE_DEPTH)
    else
      var legal := e.legal(b).1;
      if |legal| == 0 then NoMoveScore(e, b, depth)
      else MinimaxBest(e, b, legal, depth, b.isWhiteTurn, if b.isWhiteTurn then MIN_VALUE else MAX_VALUE)
  }

  /** The plain minimax value of the board after a move, one ply shallower. */
  function MinimaxValueAfter(e: Engine, b: Board, m: Move, depth: nat): int
    requires depth > 0
    decreases depth, 0, 0
  {
    MinimaxValue(e, e.make(b, m), depth - 1)
  }

  /** The best of `acc` and the values of the moves, for the side `white` says. */
  function MinimaxBest(e: Engine, b: Board, moves: seq<Move>, depth: nat, white: bool, acc: int): int
    requires depth > 0
    decreases depth, 0, |moves|
  {
    if |moves| == 0 then acc
    else
      var v := MinimaxValueAfter(e, b, moves[0], depth);
      MinimaxBest(e, b, moves[1..], depth, white, if white then Max(acc, v) else Min(acc, v))
  }

  /** What alpha-beta promises about a score r for a position of value v searched with
      the window (alpha, beta): at or below alpha it bounds v from above, at or above
      beta from below, and strictly inside the window it is v. */
  predicate Bounds(r: int, v: int, alpha: int, beta: int)
  {
    && (r <= alpha ==> v <= r)
    && (r >= beta ==> v >= r)
    && (alpha < r < beta ==> r == v)
  }

  // ---------------------------------------------------------------------------
  // When the engine behaves

  /** Every static evaluation lies strictly inside the int range. */
  ghost predicate ScoresInRange(e: Engine)
  {
    forall b :: MIN_VALUE < e.evaluate(b) < MAX_VALUE
  }

  /** unmakeMove, given the snapshot taken before makeMove, gives the board back. */
  predicate Undoes(e: Engine, b: Board, m: Move)
  {
    e.unmake(e.make(b, m), m, Snapshot(b)) == b
  }

  /** Every capture quiescence may make below b, to `depth`, is undone exactly. */
  ghost predicate QuiesceSafe(e: Engine, b: Board, depth: int)
    decreases if depth > 0 then depth else 0
  {
    depth <= 0 ||
    forall m :: m in Captures(e.generate(b)) ==> Undoes(e, b, m) && QuiesceSafe(e, e.make(b, m), depth - 1)
  }

  /** The same for minimax to `depth`: generateLegalMoves gives the board back, every
      legal move is undone exactly, and so is every move searched below. */
  ghost predicate MinimaxSafe(e: Engine, b: Board, depth: nat)
    decreases depth
  {
    if depth == 0 then QuiesceSafe(e, b, QUIESCE_DEPTH)
    else
      && e.legal(b).0 == b
      && forall m :: m in e.legal(b).1 ==> Undoes(e, b, m) && MinimaxSafe(e, e.make(b, m), depth - 1)
  }
}
