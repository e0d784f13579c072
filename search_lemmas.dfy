/** What the search promises: the forcing moves are the captures in order; every score
    lies strictly between Integer.MIN_VALUE and Integer.MAX_VALUE, so findBestMove
    returns a legal move exactly when there is one; and wherever every make can be
    undone, the pruned search returns the board unchanged and a score that bounds the
    plain minimax value the way alpha-beta should, equal to it at the root, so the move
    chosen is the first legal move of best value. */
module SearchLemmas {
  import opened Moves
  import opened Boards
  import opened MoveRules
  import opened MoveLemmas
  import opened Scoring
  import opened SearchRules

  // ---------------------------------------------------------------------------
  // Forcing moves

  /** The forcing moves are exactly the captures of the list, in the list's order. */
  lemma {:induction false} CapturesAre(moves: seq<Move>)
    ensures forall m :: m in Captures(moves) <==> m in moves && IsCapture(m)
    ensures IsSubsequence(Captures(moves), moves)
    decreases |moves|
  {
    if |moves| > 0 {
      CapturesAre(moves[1..]);
      var rest := Captures(moves[1..]);
      assert moves == [moves[0]] + moves[1..];
      if IsCapture(moves[0]) {
        assert Captures(moves) == [moves[0]] + rest;
        assert ([moves[0]] + rest)[1..] == rest;
      } else {
        assert Captures(moves) == rest;
        SubsequenceOfTail(rest, moves);
      }
    }
  }

  // ---------------------------------------------------------------------------
  // Every score is a Java int strictly inside (MIN_VALUE, MAX_VALUE)

  /** Quiescence scores lie strictly inside the int range whenever alpha is below
      Integer.MAX_VALUE and beta above Integer.MIN_VALUE. */
  lemma {:induction false} QuiesceRange(e: Engine, b: Board, alpha: int, beta: int, depth: int)
    requires ScoresInRange(e) && alpha < MAX_VALUE && beta > MIN_VALUE
    ensures MIN_VALUE < Quiesce(e, b, alpha, beta, depth).1 < MAX_VALUE
    decreases if depth > 0 then depth else 0, 1, 0
  {
    var standPat := e.evaluate(b);
    var white := b.isWhiteTurn;
    if depth > 0 && !(white && standPat >= beta) && !(!white && standPat <= alpha) {
      var alpha' := if white && standPat > alpha then standPat else alpha;
      var beta' := if !white && standPat < beta then standPat else beta;
      var forcing := Captures(e.generate(b));
      if |forcing| > 0 {
        if white {
          QuiesceMaxRange(e, b, forcing, alpha', beta', depth, standPat);
        } else {
          QuiesceMinRange(e, b, forcing, alpha', beta', depth, standPat);
        }
      }
    }
  }

  lemma {:induction false} QuiesceAfterRange(e: Engine, b: Board, m: Move, alpha: int, beta: int, depth: int)
    requires ScoresInRange(e) && depth > 0 && alpha < MAX_VALUE && beta > MIN_VALUE
    ensures MIN_VALUE < QuiesceAfter(e, b, m, alpha, beta, depth).1 < MAX_VALUE
    decreases depth, 0, 0
  {
    QuiesceRange(e, e.make(b, m), alpha, beta, depth - 1);
  }

  lemma {:induction false} QuiesceMaxRange(e: Engine, b: Board, moves: seq<Move>, alpha: int, beta: int, depth: int,
                                            maxScore: int)
    requires ScoresInRange(e) && depth > 0 && alpha < MAX_VALUE && beta > MIN_VALUE && MIN_VALUE < maxScore < MAX_VALUE
    ensures MIN_VALUE < QuiesceMax(e, b, moves, alpha, beta, depth, maxScore).1 < MAX_VALUE
    decreases depth, 0, |moves|
  {
    if |moves| > 0 {
      var m := moves[0];
      QuiesceAfterRange(e, b, m, alpha, beta, depth);
      var child := QuiesceAfter(e, b, m, alpha, beta, depth);
      if Max(alpha, child.1) < beta {
        QuiesceMaxRange(e, e.unmake(child.0, m, Snapshot(b)), moves[1..], Max(alpha, child.1), beta, depth,
                        Max(maxScore, child.1));
      }
    }
  }

  lemma {:induction false} QuiesceMinRange(e: Engine, b: Board, moves: seq<Move>, alpha: int, beta: int, depth: int,
                                            minScore: int)
    requires ScoresInRange(e) && depth > 0 && alpha < MAX_VALUE && beta > MIN_VALUE && MIN_VALUE < minScore < MAX_VALUE
    ensures MIN_VALUE < QuiesceMin(e, b, moves, alpha, beta, depth, minScore).1 < MAX_VALUE
    decreases depth, 0, |moves|
  {
    if |moves| > 0 {
      var m := moves[0];
      QuiesceAfterRange(e, b, m, alpha, beta, depth);
      var child := QuiesceAfter(e, b, m, alpha, beta, depth);
      if alpha < Min(beta, child.1) {
        QuiesceMinRange(e, e.unmake(child.0, m, Snapshot(b)), moves[1..], alpha, Min(beta, child.1), depth,
                        Min(minScore, child.1));
      }
    }
  }

  /** Minimax scores, mate scores included, lie strictly inside the int range for any
      depth an int can hold. */
  lemma {:induction false} MinimaxRange(e: Engine, b: Board, depth: nat, alpha: int, beta: int)
    requires ScoresInRange(e) && depth <= MAX_VALUE && alpha < MAX_VALUE && beta > MIN_VALUE
    ensures MIN_VALUE < Minimax(e, b, depth, alpha, beta).1 < MAX_VALUE
    decreases depth, 1, 0
  {
    if depth == 0 {
      QuiesceRange(e, b, alpha, beta, QUIESCE_DEPTH);
    } else {
      var generated := e.legal(b);
      var b1, legal := generated.0, generated.1;
      if |legal| > 0 {
        if b1.isWhiteTurn {
          MinimaxMaxRange(e, b1, legal, depth, alpha, beta, MIN_VALUE);
        } else {
          MinimaxMinRange(e, b1, legal, depth, alpha, beta, MAX_VALUE);
        }
      }
    }
  }

  lemma {:induction false} MinimaxAfterRange(e: Engine, b: Board, m: Move, depth: nat, alpha: int, beta: int)
    requires ScoresInRange(e) && 0 < depth <= MAX_VALUE && alpha < MAX_VALUE && beta > MIN_VALUE
    ensures MIN_VALUE < MinimaxAfter(e, b, m, depth, alpha, beta).1 < MAX_VALUE
    decreases depth, 0, 0
  {
    MinimaxRange(e, e.make(b, m), depth - 1, alpha, beta);
  }

  lemma {:induction false} MinimaxMaxRange(e: Engine, b: Board, moves: seq<Move>, depth: nat, alpha: int, beta: int,
                                            maxScore: int)
    requires ScoresInRange(e) && 0 < depth <= MAX_VALUE && alpha < MAX_VALUE && beta > MIN_VALUE
    requires MIN_VALUE <= maxScore < MAX_VALUE && (maxScore == MIN_VALUE ==> |moves| > 0)
    ensures MIN_VALUE < MinimaxMax(e, b, moves, depth, alpha, beta, maxScore).1 < MAX_VALUE
    decreases depth, 0, |moves|
  {
    if |moves| > 0 {
      var m := moves[0];
      MinimaxAfterRange(e, b, m, depth, alpha, beta);
      var child := MinimaxAfter(e, b, m, depth, alpha, beta);
      if Max(alpha, child.1) < beta {
        MinimaxMaxRange(e, e.unmake(child.0, m, Snapshot(b)), moves[1..], depth, Max(alpha, child.1), beta,
                        Max(maxScore, child.1));
      }
    }
  }

  lemma {:induction false} MinimaxMinRange(e: Engine, b: Board, moves: seq<Move>, depth: nat, alpha: int, beta: int,
                                            minScore: int)
    requires ScoresInRange(e) && 0 < depth <= MAX_VALUE && alpha < MAX_VALUE && beta > MIN_VALUE
    requires MIN_VALUE < minScore <= MAX_VALUE && (minScore == MAX_VALUE ==> |moves| > 0)
    ensures MIN_VALUE < MinimaxMin(e, b, moves, depth, alpha, beta, minScore).1 < MAX_VALUE
    decreases depth, 0, |moves|
  {
    if |moves| > 0 {
      var m := moves[0];
      MinimaxAfterRange(e, b, m, depth, alpha, beta);
      var child := MinimaxAfter(e, b, m, depth, alpha, beta);
      if alpha < Min(beta, child.1) {
        MinimaxMinRange(e, e.unmake(child.0, m, Snapshot(b)), moves[1..], depth, alpha, Min(beta, child.1),
                        Min(minScore, child.1));
      }
    }
  }

  /** findBestMove's loop ends with no move only when it saw no move: the first score
      always beats the starting Integer.MIN_VALUE or Integer.MAX_VALUE. A move it returns
      is one it was given. */
  lemma {:induction false} BestLoopChoice(e: Engine, b: Board, moves: seq<Move>, depth: int, white: bool,
                                           bestScore: int, bestMove: Option<Move>)
    requires ScoresInRange(e) && 1 <= depth <= MAX_VALUE
    requires bestMove == None ==> bestScore == if white then MIN_VALUE else MAX_VALUE
    ensures var r := BestLoop(e, b, moves, depth, white, bestScore, bestMove).1;
      (r == None <==> bestMove == None && |moves| == 0) && (r.Some? ==> r == bestMove || r.value in moves)
    decreases |moves|
  {
    if |moves| > 0 {
      var m := moves[0];
      MinimaxAfterRange(e, b, m, depth, MIN_VALUE, MAX_VALUE);
      var child := MinimaxAfter(e, b, m, depth, MIN_VALUE, MAX_VALUE);
      var back := e.unmake(child.0, m, Snapshot(b));
      assert forall x :: x in moves[1..] ==> x in moves;
      if Prefers(white, child.1, bestScore) {
        BestLoopChoice(e, back, moves[1..], depth, white, child.1, Some(m));
      } else {
        BestLoopChoice(e, back, moves[1..], depth, white, bestScore, bestMove);
      }
    }
  }

  /** findBestMove returns no move exactly when generateLegalMoves finds none, and
      otherwise one of the moves it found. */
  lemma FindBestIsLegal(e: Engine, b: Board, depth: int)
    requires ScoresInRange(e) && 1 <= depth <= MAX_VALUE
    ensures FindBest(e, b, depth).1 == None <==> e.legal(b).1 == []
    ensures FindBest(e, b, depth).1.Some? ==> FindBest(e, b, depth).1.value in e.legal(b).1
  {
    var generated := e.legal(b);
    var b1, legal := generated.0, generated.1;
    if |legal| > 0 {
      var white := b1.isWhiteTurn;
      BestLoopChoice(e, b1, legal, depth, white, if white then MIN_VALUE else MAX_VALUE, None);
    }
  }

  // ---------------------------------------------------------------------------
  // Alpha-beta computes minimax

  /** The best-of fold never falls behind its starting value. */
  lemma {:induction false} QuiesceBestBound(e: Engine, b: Board, moves: seq<Move>, depth: int, white: bool, acc: int)
    requires depth > 0
    ensures white ==> QuiesceBest(e, b, moves, depth, white, acc) >= acc
    ensures !white ==> QuiesceBest(e, b, moves, depth, white, acc) <= acc
    decreases |moves|
  {
    if |moves| > 0 {
      var v := QuiesceValueAfter(e, b, moves[0], depth);
      QuiesceBestBound(e, b, moves[1..], depth, white, if white then Max(acc, v) else Min(acc, v));
    }
  }

  /** The capture loops never fall behind the score they start from: white's result
      is at least its starting maximum, black's at most its starting minimum, whatever
      the captures lead to. */
  lemma {:induction false} QuiesceMaxAtLeast(e: Engine, b: Board, moves: seq<Move>, alpha: int, beta: int,
                                             depth: int, maxScore: int)
    requires depth > 0
    ensures QuiesceMax(e, b, moves, alpha, beta, depth, maxScore).1 >= maxScore
    decreases |moves|
  {
    if |moves| > 0 {
      var m := moves[0];
      var child := QuiesceAfter(e, b, m, alpha, beta, depth);
      var back := e.unmake(child.0, m, Snapshot(b));
      if Max(alpha, child.1) < beta {
        QuiesceMaxAtLeast(e, back, moves[1..], Max(alpha, child.1), beta, depth, Max(maxScore, child.1));
      }
    }
  }

  lemma {:induction false} QuiesceMinAtMost(e: Engine, b: Board, moves: seq<Move>, alpha: int, beta: int,
                                            depth: int, minScore: int)
    requires depth > 0
    ensures QuiesceMin(e, b, moves, alpha, beta, depth, minScore).1 <= minScore
    decreases |moves|
  {
    if |moves| > 0 {
      var m := moves[0];
      var child := QuiesceAfter(e, b, m, alpha, beta, depth);
      var back := e.unmake(child.0, m, Snapshot(b));
      if alpha < Min(beta, child.1) {
        QuiesceMinAtMost(e, back, moves[1..], alpha, Min(beta, child.1), depth, Min(minScore, child.1));
      }
    }
  }

  /** The stand-pat bound of quiesce, on any board and with no safety assumption: the
      side to move may always decline to capture, so below beta white's score is at
      least the static evaluation, and above alpha black's is at most it; at or beyond
      the window the score is the window's edge. */
  lemma QuiesceStandPat(e: Engine, b: Board, alpha: int, beta: int, depth: int)
    requires depth > 0
    ensures b.isWhiteTurn && e.evaluate(b) < beta ==> Quiesce(e, b, alpha, beta, depth).1 >= e.evaluate(b)
    ensures !b.isWhiteTurn && e.evaluate(b) > alpha ==> Quiesce(e, b, alpha, beta, depth).1 <= e.evaluate(b)
    ensures b.isWhiteTurn && e.evaluate(b) >= beta ==> Quiesce(e, b, alpha, beta, depth).1 == beta
    ensures !b.isWhiteTurn && e.evaluate(b) <= alpha ==> Quiesce(e, b, alpha, beta, depth).1 == alpha
  {
    var standPat := e.evaluate(b);
    var alpha' := if b.isWhiteTurn && standPat > alpha then standPat else alpha;
    var beta' := if !b.isWhiteTurn && standPat < beta then standPat else beta;
    var forcing := Captures(e.generate(b));
    if |forcing| > 0 {
      if b.isWhiteTurn {
        QuiesceMaxAtLeast(e, b, forcing, alpha', beta', depth, standPat);
      } else {
        QuiesceMinAtMost(e, b, forcing, alpha', beta', depth, standPat);
      }
    }
  }

  lemma {:induction false} MinimaxBestBound(e: Engine, b: Board, moves: seq<Move>, depth: nat, white: bool, acc: int)
    requires depth > 0
    ensures white ==> MinimaxBest(e, b, moves, depth, white, acc) >= acc
    ensures !white ==> MinimaxBest(e, b, moves, depth, white, acc) <= acc
    decreases |moves|
  {
    if |moves| > 0 {
      var v := MinimaxValueAfter(e, b, moves[0], depth);
      MinimaxBestBound(e, b, moves[1..], depth, white, if white then Max(acc, v) else Min(acc, v));
    }
  }

  /** Quiescence with any open window leaves a safe board as it found it, and its score
      bounds the plain quiescence value as alpha-beta should: fail-hard at the stand-pat
      cutoffs, fail-soft in the capture loops. */
  lemma {:induction false} QuiesceAlphaBeta(e: Engine, b: Board, alpha: int, beta: int, depth: int)
    requires QuiesceSafe(e, b, depth) && alpha < beta
    ensures Quiesce(e, b, alpha, beta, depth).0 == b
    ensures Bounds(Quiesce(e, b, alpha, beta, depth).1, QuiesceValue(e, b, depth), alpha, beta)
    decreases if depth > 0 then depth else 0, 1, 0
  {
    if depth > 0 {
      var standPat := e.evaluate(b);
      var white := b.isWhiteTurn;
      var forcing := Captures(e.generate(b));
      QuiesceBestBound(e, b, forcing, depth, white, standPat);
      if !(white && standPat >= beta) && !(!white && standPat <= alpha) && |forcing| > 0 {
        var alpha' := if white && standPat > alpha then standPat else alpha;
        var beta' := if !white && standPat < beta then standPat else beta;
        if white {
          QuiesceMaxAlphaBeta(e, b, forcing, depth, alpha, alpha', beta, standPat, standPat);
        } else {
          QuiesceMinAlphaBeta(e, b, forcing, depth, alpha, beta, beta', standPat, standPat);
        }
      }
    }
  }

  lemma {:induction false} QuiesceAfterAlphaBeta(e: Engine, b: Board, m: Move, alpha: int, beta: int, depth: int)
    requires depth > 0 && QuiesceSafe(e, e.make(b, m), depth - 1) && alpha < beta
    ensures QuiesceAfter(e, b, m, alpha, beta, depth).0 == e.make(b, m)
    ensures Bounds(QuiesceAfter(e, b, m, alpha, beta, depth).1, QuiesceValueAfter(e, b, m, depth), alpha, beta)
    decreases depth, 0, 0
  {
    QuiesceAlphaBeta(e, e.make(b, m), alpha, beta, depth - 1);
  }

  /** White's capture loop, from any point in it: alpha is the larger of the window's
      alpha0 and the best score so far, and the values seen so far, folded into vAcc,
      are at most that score and equal to it once it has passed alpha0. */
  lemma {:induction false} QuiesceMaxAlphaBeta(e: Engine, b: Board, moves: seq<Move>, depth: int,
                                                alpha0: int, alpha: int, beta: int, best: int, vAcc: int)
    requires depth > 0
    requires forall m :: m in moves ==> Undoes(e, b, m) && QuiesceSafe(e, e.make(b, m), depth - 1)
    requires alpha == Max(alpha0, best) && alpha < beta
    requires vAcc <= best && (best > alpha0 ==> vAcc == best)
    ensures QuiesceMax(e, b, moves, alpha, beta, depth, best).0 == b
    ensures Bounds(QuiesceMax(e, b, moves, alpha, beta, depth, best).1, QuiesceBest(e, b, moves, depth, true, vAcc),
                   alpha0, beta)
    decreases depth, 0, |moves|
  {
    if |moves| > 0 {
      var m := moves[0];
      QuiesceAfterAlphaBeta(e, b, m, alpha, beta, depth);
      var r := QuiesceAfter(e, b, m, alpha, beta, depth).1;
      var v := QuiesceValueAfter(e, b, m, depth);
      var best', alpha', vAcc' := Max(best, r), Max(alpha, r), Max(vAcc, v);
      if alpha' >= beta {
        QuiesceBestBound(e, b, moves[1..], depth, true, vAcc');
      } else {
        assert forall x :: x in moves[1..] ==> x in moves;
        QuiesceMaxAlphaBeta(e, b, moves[1..], depth, alpha0, alpha', beta, best', vAcc');
      }
    }
  }

  /** Black's capture loop, the mirror image with beta and the smallest score. */
  lemma {:induction false} QuiesceMinAlphaBeta(e: Engine, b: Board, moves: seq<Move>, depth: int,
                                                alpha: int, beta0: int, beta: int, best: int, vAcc: int)
    requires depth > 0
    requires forall m :: m in moves ==> Undoes(e, b, m) && QuiesceSafe(e, e.make(b, m), depth - 1)
    requires beta == Min(beta0, best) && alpha < beta
    requires vAcc >= best && (best < beta0 ==> vAcc == best)
    ensures QuiesceMin(e, b, moves, alpha, beta, depth, best).0 == b
    ensures Bounds(QuiesceMin(e, b, moves, alpha, beta, depth, best).1, QuiesceBest(e, b, moves, depth, false, vAcc),
                   alpha, beta0)
    decreases depth, 0, |moves|
  {
    if |moves| > 0 {
      var m := moves[0];
      QuiesceAfterAlphaBeta(e, b, m, alpha, beta, depth);
      var r := QuiesceAfter(e, b, m, alpha, beta, depth).1;
      var v := QuiesceValueAfter(e, b, m, depth);
      var best', beta', vAcc' := Min(best, r), Min(beta, r), Min(vAcc, v);
      if alpha >= beta' {
        QuiesceBestBound(e, b, moves[1..], depth, false, vAcc');
      } else {
        assert forall x :: x in moves[1..] ==> x in moves;
        QuiesceMinAlphaBeta(e, b, moves[1..], depth, alpha, beta0, beta', best', vAcc');
      }
    }
  }

  /** Minimax with any open int window leaves a safe board as it found it and bounds
      the plain minimax value as alpha-beta should. */
  lemma {:induction false} MinimaxAlphaBeta(e: Engine, b: Board, depth: nat, alpha: int, beta: int)
    requires MinimaxSafe(e, b, depth) && MIN_VALUE <= alpha < beta <= MAX_VALUE
    ensures Minimax(e, b, depth, alpha, beta).0 == b
    ensures Bounds(Minimax(e, b, depth, alpha, beta).1, MinimaxValue(e, b, depth), alpha, beta)
    decreases depth, 1, 0
  {
    if depth == 0 {
      QuiesceAlphaBeta(e, b, alpha, beta, QUIESCE_DEPTH);
    } else {
      var legal := e.legal(b).1;
      if |legal| > 0 {
        if b.isWhiteTurn {
          MinimaxMaxAlphaBeta(e, b, legal, depth, alpha, alpha, beta, MIN_VALUE, MIN_VALUE);
        } else {
          MinimaxMinAlphaBeta(e, b, legal, depth, alpha, beta, beta, MAX_VALUE, MAX_VALUE);
        }
      }
    }
  }

  lemma {:induction false} MinimaxAfterAlphaBeta(e: Engine, b: Board, m: Move, depth: nat, alpha: int, beta: int)
    requires depth > 0 && MinimaxSafe(e, e.make(b, m), depth - 1) && MIN_VALUE <= alpha < beta <= MAX_VALUE
    ensures MinimaxAfter(e, b, m, depth, alpha, beta).0 == e.make(b, m)
    ensures Bounds(MinimaxAfter(e, b, m, depth, alpha, beta).1, MinimaxValueAfter(e, b, m, depth), alpha, beta)
    decreases depth, 0, 0
  {
    MinimaxAlphaBeta(e, e.make(b, m), depth - 1, alpha, beta);
  }

  /** The maximising loop of minimax, from any point in it (as for quiescence). */
  lemma {:induction false} MinimaxMaxAlphaBeta(e: Engine, b: Board, moves: seq<Move>, depth: nat,
                                                alpha0: int, alpha: int, beta: int, best: int, vAcc: int)
    requires depth > 0 && MIN_VALUE <= alpha0 && beta <= MAX_VALUE
    requires forall m :: m in moves ==> Undoes(e, b, m) && MinimaxSafe(e, e.make(b, m), depth - 1)
    requires alpha == Max(alpha0, best) && alpha < beta
    requires vAcc <= best && (best > alpha0 ==> vAcc == best)
    ensures MinimaxMax(e, b, moves, depth, alpha, beta, best).0 == b
    ensures Bounds(MinimaxMax(e, b, moves, depth, alpha, beta, best).1, MinimaxBest(e, b, moves, depth, true, vAcc),
                   alpha0, beta)
    decreases depth, 0, |moves|
  {
    if |moves| > 0 {
      var m := moves[0];
      MinimaxAfterAlphaBeta(e, b, m, depth, alpha, beta);
      var r := MinimaxAfter(e, b, m, depth, alpha, beta).1;
      var v := MinimaxValueAfter(e, b, m, depth);
      var best', alpha', vAcc' := Max(best, r), Max(alpha, r), Max(vAcc, v);
      if alpha' >= beta {
        MinimaxBestBound(e, b, moves[1..], depth, true, vAcc');
      } else {
        assert forall x :: x in moves[1..] ==> x in moves;
        MinimaxMaxAlphaBeta(e, b, moves[1..], depth, alpha0, alpha', beta, best', vAcc');
      }
    }
  }

  /** The minimising loop of minimax. */
  lemma {:induction false} MinimaxMinAlphaBeta(e: Engine, b: Board, moves: seq<Move>, depth: nat,
                                                alpha: int, beta0: int, beta: int, best: int, vAcc: int)
    requires depth > 0 && MIN_VALUE <= alpha && beta0 <= MAX_VALUE
    requires forall m :: m in moves ==> Undoes(e, b, m) && MinimaxSafe(e, e.make(b, m), depth - 1)
    requires beta == Min(beta0, best) && alpha < beta
    requires vAcc >= best && (best < beta0 ==> vAcc == best)
    ensures MinimaxMin(e, b, moves, depth, alpha, beta, best).0 == b
    ensures Bounds(MinimaxMin(e, b, moves, depth, alpha, beta, best).1, MinimaxBest(e, b, moves, depth, false, vAcc),
                   alpha, beta0)
    decreases depth, 0, |moves|
  {
    if |moves| > 0 {
      var m := moves[0];
      MinimaxAfterAlphaBeta(e, b, m, depth, alpha, beta);
      var r := MinimaxAfter(e, b, m, depth, alpha, beta).1;
      var v := MinimaxValueAfter(e, b, m, depth);
      var best', beta', vAcc' := Min(best, r), Min(beta, r), Min(vAcc, v);
      if alpha >= beta' {
        MinimaxBestBound(e, b, moves[1..], depth, false, vAcc');
      } else {
        assert forall x :: x in moves[1..] ==> x in moves;
        MinimaxMinAlphaBeta(e, b, moves[1..], depth, alpha, beta0, beta', best', vAcc');
      }
    }
  }

  /** With the full int window, as findBestMove calls it, minimax after a move on a safe
      board returns the board after the move and exactly its plain minimax value. */
  lemma MinimaxAfterExact(e: Engine, b: Board, m: Move, depth: nat)
    requires ScoresInRange(e) && 0 < depth <= MAX_VALUE && MinimaxSafe(e, e.make(b, m), depth - 1)
    ensures MinimaxAfter(e, b, m, depth, MIN_VALUE, MAX_VALUE) == (e.make(b, m), MinimaxValueAfter(e, b, m, depth))
    ensures MIN_VALUE < MinimaxValueAfter(e, b, m, depth) < MAX_VALUE
  {
    MinimaxAfterAlphaBeta(e, b, m, depth, MIN_VALUE, MAX_VALUE);
    MinimaxAfterRange(e, b, m, depth, MIN_VALUE, MAX_VALUE);
  }

  // ---------------------------------------------------------------------------
  // The move findBestMove picks

  /** moves[i] has the best value for `white` and no earlier move has as good a one. */
  predicate IsFirstBest(e: Engine, b: Board, moves: seq<Move>, depth: nat, white: bool, i: int)
    requires depth > 0
  {
    && 0 <= i < |moves|
    && (forall j :: 0 <= j < |moves| ==>
          !Prefers(white, MinimaxValueAfter(e, b, moves[j], depth), MinimaxValueAfter(e, b, moves[i], depth)))
    && (forall j :: 0 <= j < i ==>
          Prefers(white, MinimaxValueAfter(e, b, moves[i], depth), MinimaxValueAfter(e, b, moves[j], depth)))
  }

  /** findBestMove's loop, from the k-th move on: the move held so far is the first best
      among the first k, and the loop ends holding the first best of them all. */
  lemma {:induction false} BestLoopFirstBest(e: Engine, b: Board, all: seq<Move>, k: int, depth: nat, white: bool,
                                              bestScore: int, bestMove: Option<Move>, i: int)
    requires ScoresInRange(e) && 0 < depth <= MAX_VALUE && 0 <= k <= |all|
    requires forall m :: m in all ==> Undoes(e, b, m) && MinimaxSafe(e, e.make(b, m), depth - 1)
    requires k == 0 ==> bestMove == None && bestScore == if white then MIN_VALUE else MAX_VALUE
    requires k > 0 ==>
      && 0 <= i < k && bestMove == Some(all[i]) && bestScore == MinimaxValueAfter(e, b, all[i], depth)
      && (forall j :: 0 <= j < k ==> !Prefers(white, MinimaxValueAfter(e, b, all[j], depth), bestScore))
      && (forall j :: 0 <= j < i ==> Prefers(white, bestScore, MinimaxValueAfter(e, b, all[j], depth)))
    ensures BestLoop(e, b, all[k..], depth, white, bestScore, bestMove).0 == b
    ensures |all| > 0 ==> exists i' ::
      IsFirstBest(e, b, all, depth, white, i') && BestLoop(e, b, all[k..], depth, white, bestScore, bestMove).1 == Some(all[i'])
    decreases |all| - k
  {
    if k == |all| {
      if |all| > 0 {
        assert IsFirstBest(e, b, all, depth, white, i);
      }
    } else {
      var m := all[k];
      assert m in all;
      MinimaxAfterExact(e, b, m, depth);
      var score := MinimaxValueAfter(e, b, m, depth);
      assert e.unmake(e.make(b, m), m, Snapshot(b)) == b;
      assert all[k..][0] == m && all[k..][1..] == all[k + 1..];
      if Prefers(white, score, bestScore) {
        BestLoopFirstBest(e, b, all, k + 1, depth, white, score, Some(m), k);
      } else {
        BestLoopFirstBest(e, b, all, k + 1, depth, white, bestScore, bestMove, i);
      }
    }
  }

  /** On a safe board findBestMove leaves the position as it was and returns the first
      legal move whose minimax value is best for the side to move. */
  lemma FindBestIsFirstBest(e: Engine, b: Board, depth: nat)
    requires ScoresInRange(e) && 0 < depth <= MAX_VALUE && MinimaxSafe(e, b, depth)
    ensures FindBest(e, b, depth).0 == b
    ensures var legal := e.legal(b).1;
      legal != [] ==> exists i ::
        IsFirstBest(e, b, legal, depth, b.isWhiteTurn, i) && FindBest(e, b, depth).1 == Some(legal[i])
  {
    var legal := e.legal(b).1;
    if |legal| > 0 {
      var white := b.isWhiteTurn;
      assert legal[0..] == legal;
      BestLoopFirstBest(e, b, legal, 0, depth, white, if white then MIN_VALUE else MAX_VALUE, None, 0);
    }
  }

  // ---------------------------------------------------------------------------
  // This program's engine

  /** Chess's fields are the program's own move generator, evaluation and make/unmake. */
  lemma ChessAgrees()
    ensures Agrees(Chess)
  {
  }

  /** Evaluator.evaluate never leaves the int range. */
  lemma ChessScoresInRange()
    ensures ScoresInRange(Chess)
  {
    forall b: Board
      ensures MIN_VALUE < Chess.evaluate(b) < MAX_VALUE
    {
      assert Chess.evaluate(b) == Evaluation(b.pieces);
    }
  }

  /** unmakeMove undoes makeMove whenever the move is reversible on the board. */
  lemma ChessUndoes(b: Board, m: Move)
    requires Reversible(b, m)
    ensures Undoes(Chess, b, m)
  {
    MakeUnmakeRoundTrip(b, m);
  }

  /** A node is safe for quiescence when its board is well formed and the boards after
      its captures are safe one ply shallower. */
  lemma QuiesceSafeStep(b: Board, depth: int)
    requires depth > 0 && WellFormed(b)
    requires forall m :: m in Captures(PseudoLegalMoves(b)) ==> QuiesceSafe(Chess, Make(b, m), depth - 1)
    ensures QuiesceSafe(Chess, b, depth)
  {
    CapturesAre(PseudoLegalMoves(b));
    forall m | m in Captures(PseudoLegalMoves(b))
      ensures Undoes(Chess, b, m)
    {
      GeneratedMovesReversible(b, m);
      ChessUndoes(b, m);
    }
  }

  /** The same for minimax: a well-formed board whose legal moves lead to safe boards. */
  lemma MinimaxSafeStep(b: Board, depth: nat)
    requires depth > 0 && WellFormed(b)
    requires forall m :: m in LegalMoves(b) ==> MinimaxSafe(Chess, Make(b, m), depth - 1)
    ensures MinimaxSafe(Chess, b, depth)
  {
    LegalMovesAre(b);
    assert Chess.legal(b) == (b, LegalMoves(b));
    forall m | m in LegalMoves(b)
      ensures Undoes(Chess, b, m)
    {
      GeneratedMovesReversible(b, m);
      ChessUndoes(b, m);
    }
  }

  // ---------------------------------------------------------------------------
  // Boards the search keeps well formed

  /** No capture quiescence may make below b, to `depth`, takes a square a held castling
      right relies on. */
  ghost predicate QuiesceClean(b: Board, depth: int)
    decreases if depth > 0 then depth else 0
  {
    depth <= 0 ||
    forall m :: m in Captures(PseudoLegalMoves(b)) ==> !TakesAnchor(b, m) && QuiesceClean(Make(b, m), depth - 1)
  }

  /** The same for every pseudo-legal move to `depth` (a superset of the legal moves
      minimax searches), and for the quiescence below. */
  ghost predicate MinimaxClean(b: Board, depth: nat)
    decreases depth
  {
    if depth == 0 then QuiesceClean(b, QUIESCE_DEPTH)
    else forall m :: m in PseudoLegalMoves(b) ==> !TakesAnchor(b, m) && MinimaxClean(Make(b, m), depth - 1)
  }

  /** Quiescence from a well-formed board with its kings at home is safe when none of
      its captures takes a square a held right relies on. */
  lemma {:induction false} CleanQuiesceSafe(b: Board, depth: int)
    requires WellFormed(b) && KingsHome(b) && QuiesceClean(b, depth)
    ensures QuiesceSafe(Chess, b, depth)
    decreases if depth > 0 then depth else 0
  {
    if depth > 0 {
      CapturesAre(PseudoLegalMoves(b));
      forall m | m in Captures(PseudoLegalMoves(b))
        ensures QuiesceSafe(Chess, Make(b, m), depth - 1)
      {
        MakeKeepsWellFormed(b, m);
        CleanQuiesceSafe(Make(b, m), depth - 1);
      }
      QuiesceSafeStep(b, depth);
    }
  }

  /** The same for minimax. */
  lemma CleanMinimaxSafe(b: Board, depth: nat)
    requires WellFormed(b) && KingsHome(b) && MinimaxClean(b, depth)
    ensures MinimaxSafe(Chess, b, depth)
  {
    CleanLeavesSafe();
    CleanBoardsStep();
    SafeByInvariant(Chess, Clean, b, depth);
  }

  /** The invariant CleanMinimaxSafe carries down the tree. */
  ghost predicate Clean(b: Board, depth: int)
  {
    depth >= 0 && WellFormed(b) && KingsHome(b) && MinimaxClean(b, depth)
  }

  /** Clean leaves: quiescence below them is safe. */
  lemma CleanLeavesSafe()
    ensures forall x :: Clean(x, 0) ==> MinimaxSafe(Chess, x, 0)
  {
    forall x | Clean(x, 0)
      ensures MinimaxSafe(Chess, x, 0)
    {
      CleanQuiesceSafe(x, QUIESCE_DEPTH);
    }
  }

  /** Clean boards with depth left: generateLegalMoves gives the board back, each legal
      move is undone, and each leads to a clean board one level down. */
  lemma CleanBoardsStep()
    ensures forall x, d {:trigger Clean(x, d)} :: d > 0 && Clean(x, d) ==> Chess.legal(x).0 == x
    ensures forall x, d {:trigger Clean(x, d)} :: d > 0 && Clean(x, d) ==>
      forall m :: m in Chess.legal(x).1 ==> Undoes(Chess, x, m)
    ensures forall x, d {:trigger Clean(x, d)} :: d > 0 && Clean(x, d) ==>
      forall m :: m in Chess.legal(x).1 ==> Clean(Chess.make(x, m), d - 1)
  {
    CleanBoardsKept();
    CleanBoardsUndone();
    CleanBoardsStayClean();
  }

  /** The first part of CleanBoardsStep, on its own. */
  lemma CleanBoardsKept()
    ensures forall x, d {:trigger Clean(x, d)} :: d > 0 && Clean(x, d) ==> Chess.legal(x).0 == x
  {
    forall x, d | d > 0 && Clean(x, d)
      ensures Chess.legal(x).0 == x
    {
      CleanMinimaxStep(x, d);
    }
  }

  /** The second part of CleanBoardsStep, on its own. */
  lemma CleanBoardsUndone()
    ensures forall x, d {:trigger Clean(x, d)} :: d > 0 && Clean(x, d) ==>
      forall m :: m in Chess.legal(x).1 ==> Undoes(Chess, x, m)
  {
    forall x, d | d > 0 && Clean(x, d)
      ensures forall m :: m in Chess.legal(x).1 ==> Undoes(Chess, x, m)
    {
      CleanMinimaxStep(x, d);
    }
  }

  /** The third part of CleanBoardsStep, on its own. */
  lemma CleanBoardsStayClean()
    ensures forall x, d {:trigger Clean(x, d)} :: d > 0 && Clean(x, d) ==>
      forall m :: m in Chess.legal(x).1 ==> Clean(Chess.make(x, m), d - 1)
  {
    forall x, d {:trigger Clean(x, d)} | d > 0 && Clean(x, d)
      ensures forall m :: m in Chess.legal(x).1 ==> Clean(Chess.make(x, m), d - 1)
    {
      CleanMinimaxStep(x, d);
    }
  }

  /** One level of CleanMinimaxSafe: the legal moves of a clean board are undone and lead
      to clean boards. */
  lemma CleanMinimaxStep(b: Board, depth: int)
    requires depth > 0 && Clean(b, depth)
    ensures Chess.legal(b).0 == b
    ensures forall m :: m in Chess.legal(b).1 ==> Undoes(Chess, b, m) && Clean(Chess.make(b, m), depth - 1)
  {
    LegalMovesAre(b);
    forall m | m in LegalMoves(b)
      ensures Undoes(Chess, b, m) && Clean(Chess.make(b, m), depth - 1)
    {
      CleanMinimaxChild(b, m, depth);
      GeneratedMovesReversible(b, m);
      ChessUndoes(b, m);
      assert Chess.make(b, m) == Make(b, m);
    }
  }

  /** Minimax is safe from every board an invariant holds on, when the invariant holds
      at the leaves' quiescence and passes from a board to the boards its legal moves
      make. */
  lemma {:induction false} SafeByInvariant(e: Engine, inv: (Board, int) -> bool, b: Board, depth: nat)
    requires forall x :: inv(x, 0) ==> MinimaxSafe(e, x, 0)
    requires forall x, d {:trigger inv(x, d)} :: d > 0 && inv(x, d) ==> e.legal(x).0 == x
    requires forall x, d {:trigger inv(x, d)} :: d > 0 && inv(x, d) ==>
      forall m :: m in e.legal(x).1 ==> Undoes(e, x, m)
    requires forall x, d {:trigger inv(x, d)} :: d > 0 && inv(x, d) ==>
      forall m :: m in e.legal(x).1 ==> inv(e.make(x, m), d - 1)
    requires inv(b, depth)
    ensures MinimaxSafe(e, b, depth)
    decreases depth
  {
    if depth > 0 {
      forall m | m in e.legal(b).1
        ensures MinimaxSafe(e, e.make(b, m), depth - 1)
      {
        SafeByInvariant(e, inv, e.make(b, m), depth - 1);
      }
    }
  }

  /** Every legal move is pseudo-legal. */
  lemma LegalIsPseudoLegal(b: Board, m: Move)
    requires WellFormed(b) && m in LegalMoves(b)
    ensures m in PseudoLegalMoves(b)
  {
    LegalMovesAre(b);
  }

  /** A legal move searched below a clean board leads to a clean, well-formed board. */
  lemma CleanMinimaxChild(b: Board, m: Move, depth: nat)
    requires WellFormed(b) && KingsHome(b) && depth > 0 && MinimaxClean(b, depth) && m in LegalMoves(b)
    ensures WellFormed(Make(b, m)) && KingsHome(Make(b, m)) && MinimaxClean(Make(b, m), depth - 1)
  {
    LegalIsPseudoLegal(b, m);
    MakeKeepsWellFormed(b, m);
  }

  /** findBestMove of this program, from a well-formed board with its kings at home whose
      search takes no square a held right relies on, leaves the position as it was and
      returns the first legal move of best minimax value. */
  lemma ChessFindBest(b: Board, depth: nat)
    requires WellFormed(b) && KingsHome(b) && MinimaxClean(b, depth) && 0 < depth <= MAX_VALUE
    ensures FindBest(Chess, b, depth).0 == b
    ensures var legal := Chess.legal(b).1;
      legal != [] ==> exists i ::
        IsFirstBest(Chess, b, legal, depth, b.isWhiteTurn, i) && FindBest(Chess, b, depth).1 == Some(legal[i])
  {
    ChessScoresInRange();
    CleanMinimaxSafe(b, depth);
    FindBestIsFirstBest(Chess, b, depth);
  }
}
