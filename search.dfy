/** Minimax of com.chessgame.player.aiopponent: minValue and maxValue call each other one
    level down over the completed moves of the side to move, stop at level 0 or when
    the game is over, and score the leaves with EvaluateBoardScore; runAlgorithm picks
    the root move. Each child board is a new ChessBoard, so its players start with
    hasCastled false. */
module Search {
  import opened Wrappers
  import opened Teams
  import opened Boards
  import opened Moves
  import opened Rules
  import opened Status
  import opened Evaluation

  const IntMin := -2147483648
  const IntMax := 2147483647

  /** The values of a Java int. */
  predicate InIntRange(x: int) { IntMin <= x <= IntMax }

  /** isGameOver: the mover's isCheckMate, then, when that is false, its isStaleMate;
      each runs the escape search only when its check condition holds. */
  function GameOver(b: Board, flags: Flags): Result<(bool, Flags)>
    requires Valid(b)
  {
    var mate :- IsCheckMate(b, b.mover, flags);
    if mate.0 then Ok(mate) else IsStaleMate(b, b.mover, mate.1)
  }

  /** The game is over exactly when no legal move of the side to move completes. */
  lemma GameOverIff(b: Board, flags: Flags)
    requires Valid(b)
    ensures GameOver(b, flags).Ok? ==> (GameOver(b, flags).value.0 <==> NoMoveCompletes(b, b.mover))
  {
    var mate := IsCheckMate(b, b.mover, flags);
    MateMeansNoCompletedMove(b, b.mover, flags, flags);
    if mate.Ok? {
      MateMeansNoCompletedMove(b, b.mover, mate.value.1, mate.value.1);
    }
  }

  /** The score of a leaf: EvaluateBoardScore.score, without the flags it leaves. */
  function Leaf(b: Board, level: nat, flags: Flags): Result<int>
    requires Valid(b)
  {
    var score :- Score(b, level, flags);
    Ok(score.0)
  }

  /** minValue: the score at level 0 or when the game is over, else the search over
      the moves. */
  function MinValueSpec(b: Board, level: nat, flags: Flags): Result<int>
    requires Valid(b)
    decreases level, 3, 0
  {
    if level == 0 then Leaf(b, level, flags)
    else
      var over :- GameOver(b, flags);
      if over.0 then Leaf(b, level, over.1) else MinSearch(b, level)
  }

  /** maxValue: the same with its own search. */
  function MaxValueSpec(b: Board, level: nat, flags: Flags): Result<int>
    requires Valid(b)
    decreases level, 3, 0
  {
    if level == 0 then Leaf(b, level, flags)
    else
      var over :- GameOver(b, flags);
      if over.0 then Leaf(b, level, over.1) else MaxSearch(b, level)
  }

  /** The loop of minValue: the lowest value maxValue gives a completed move's board
      one level down, starting from Integer.MAX_VALUE. */
  function MinSearch(b: Board, level: nat): Result<int>
    requires Valid(b) && level >= 1
    decreases level, 2, 0
  {
    var moves := LegalMoves(b, b.mover);
    AttemptsValid(b, b.mover, moves);
    Lowest(ChildValues(Attempts(b, b.mover, moves), level, true), IntMax)
  }

  /** The loop of maxValue: the highest value minValue gives a completed move's board
      one level down, starting from Integer.MIN_VALUE. */
  function MaxSearch(b: Board, level: nat): Result<int>
    requires Valid(b) && level >= 1
    decreases level, 2, 0
  {
    var moves := LegalMoves(b, b.mover);
    AttemptsValid(b, b.mover, moves);
    Highest(ChildValues(Attempts(b, b.mover, moves), level, false), IntMin)
  }

  /** The level below `level`. */
  function LevelBelow(level: nat): (below: nat)
    requires level >= 1
    ensures below < level
  {
    level - 1
  }

  /** What one makeMove attempt of a level contributes: nothing when it did not
      complete, else the value of its board one level down, by maxValue when
      `childMaximizes` and by minValue otherwise. */
  function ChildValue(attempt: Result<BoardUpdate>, level: nat, childMaximizes: bool): Result<Option<int>>
    requires level >= 1 && (attempt.Ok? ==> Valid(attempt.value.updatedBoard))
    decreases level, 0, 0
  {
    var update :- attempt;
    if update.moveStatus != Completed then Ok(None)
    else
      var value :- ValueAt(update.updatedBoard, LevelBelow(level), NoFlags, childMaximizes);
      Ok(Some(value))
  }

  /** A completed attempt is worth its board's value one level down, its players not
      yet castled; an exception of that value propagates. */
  lemma CompletedChildValue(b: Board, level: nat, childMaximizes: bool)
    requires Valid(b) && level >= 1
    ensures var v := ValueAt(b, LevelBelow(level), NoFlags, childMaximizes);
            ChildValue(Ok(BoardUpdate(b, Completed)), level, childMaximizes) ==
              if v.Ok? then Ok(Some(v.value)) else Thrown(v.reason)
  {
  }

  /** maxValue when `maximizes`, else minValue. */
  function ValueAt(b: Board, level: nat, flags: Flags, maximizes: bool): Result<int>
    requires Valid(b)
    decreases level, 4, 0
  {
    if maximizes then MaxValueSpec(b, level, flags) else MinValueSpec(b, level, flags)
  }

  /** ChildValue of each attempt, in order. */
  function ChildValues(attempts: seq<Result<BoardUpdate>>, level: nat, childMaximizes: bool): (values: seq<Result<Option<int>>>)
    requires level >= 1 && ValidUpdates(attempts)
    ensures |values| == |attempts|
    decreases level, 1, |attempts|
  {
    if attempts == [] then []
    else [ChildValue(attempts[0], level, childMaximizes)] + ChildValues(attempts[1..], level, childMaximizes)
  }

  /** One turn of minValue's loop: the first attempt's value either throws, which ends the
      loop with that exception, or updates the running lowest for the rest. */
  lemma LowestStep(attempts: seq<Result<BoardUpdate>>, level: nat, lowest: int, first: Result<Option<int>>)
    requires level >= 1 && attempts != [] && ValidUpdates(attempts)
    requires first == ChildValue(attempts[0], level, true)
    ensures ValidUpdates(attempts[1..])
    ensures Lowest(ChildValues(attempts, level, true), lowest) ==
              if first.Thrown? then Thrown(first.reason)
              else Lowest(ChildValues(attempts[1..], level, true),
                          if first.value.Some? && first.value.value <= lowest then first.value.value else lowest)
  {
  }

  /** One turn of maxValue's loop, the same with the running highest. */
  lemma HighestStep(attempts: seq<Result<BoardUpdate>>, level: nat, highest: int, first: Result<Option<int>>)
    requires level >= 1 && attempts != [] && ValidUpdates(attempts)
    requires first == ChildValue(attempts[0], level, false)
    ensures ValidUpdates(attempts[1..])
    ensures Highest(ChildValues(attempts, level, false), highest) ==
              if first.Thrown? then Thrown(first.reason)
              else Highest(ChildValues(attempts[1..], level, false),
                           if first.value.Some? && first.value.value >= highest then first.value.value else highest)
  {
  }

  lemma {:induction false} ChildValuesAre(attempts: seq<Result<BoardUpdate>>, level: nat, childMaximizes: bool, i: int)
    requires level >= 1 && ValidUpdates(attempts)
    requires 0 <= i < |attempts| && (attempts[i].Ok? ==> Valid(attempts[i].value.updatedBoard))
    ensures ChildValues(attempts, level, childMaximizes)[i] == ChildValue(attempts[i], level, childMaximizes)
    decreases i
  {
    if i > 0 {
      ChildValuesAre(attempts[1..], level, childMaximizes, i - 1);
      assert attempts[1..][i - 1] == attempts[i];
      assert ChildValues(attempts, level, childMaximizes)[i] == ChildValues(attempts[1..], level, childMaximizes)[i - 1];
    }
  }

  /** minValue and maxValue stop at level 0, and at a higher level when no legal move
      of the side to move completes, with the leaf score (after the flags the
      game-over test left); otherwise they search. */
  lemma ValuesStop(b: Board, level: nat, flags: Flags)
    requires Valid(b)
    ensures level == 0 ==> MinValueSpec(b, level, flags) == Leaf(b, level, flags) == MaxValueSpec(b, level, flags)
    ensures level > 0 && GameOver(b, flags).Ok? && NoMoveCompletes(b, b.mover) ==>
              MinValueSpec(b, level, flags) == Leaf(b, level, GameOver(b, flags).value.1) == MaxValueSpec(b, level, flags)
    ensures level > 0 && GameOver(b, flags).Ok? && !NoMoveCompletes(b, b.mover) ==>
              MinValueSpec(b, level, flags) == MinSearch(b, level) && MaxValueSpec(b, level, flags) == MaxSearch(b, level)
  {
    GameOverIff(b, flags);
  }

  /** Each makeMove attempt of a level: its exception propagates, an attempt that did
      not complete is skipped, and the board of a completed one is valued one level
      down by maxValue (`childMaximizes`) or minValue, its players not yet castled. */
  lemma ChildValueMeaning(attempt: Result<BoardUpdate>, level: nat, childMaximizes: bool)
    requires level >= 1 && (attempt.Ok? ==> Valid(attempt.value.updatedBoard))
    ensures attempt.Thrown? ==> ChildValue(attempt, level, childMaximizes) == Thrown(attempt.reason)
    ensures attempt.Ok? && !IsCompletedAttempt(attempt) ==> ChildValue(attempt, level, childMaximizes) == Ok(None)
    ensures IsCompletedAttempt(attempt) ==>
              var child := if childMaximizes then MaxValueSpec(attempt.value.updatedBoard, LevelBelow(level), NoFlags)
                           else MinValueSpec(attempt.value.updatedBoard, LevelBelow(level), NoFlags);
              ChildValue(attempt, level, childMaximizes) == if child.Ok? then Ok(Some(child.value)) else Thrown(child.reason)
  {
  }

  /** The search of minValue scans the values of makeMove of each legal move of the side
      to move, in order (AttemptsAreMakeMoves, ChildValuesAre); that of maxValue too. */
  lemma SearchesScan(b: Board, level: nat)
    requires Valid(b) && level >= 1
    ensures var attempts := Attempts(b, b.mover, LegalMoves(b, b.mover));
            ValidUpdates(attempts) &&
            MinSearch(b, level) == Lowest(ChildValues(attempts, level, true), IntMax) &&
            MaxSearch(b, level) == Highest(ChildValues(attempts, level, false), IntMin)
  {
    AttemptsValid(b, b.mover, LegalMoves(b, b.mover));
  }

  // ---------------------------------------------------------------- the loops of minValue and maxValue

  /** The loop of minValue over the values of its moves: an exception propagates, a
      completed move's value replaces the running lowest when it is `<=` it. */
  function Lowest(values: seq<Result<Option<int>>>, lowest: int): Result<int>
    decreases |values|
  {
    if values == [] then Ok(lowest)
    else
      var value :- values[0];
      Lowest(values[1..], if value.Some? && value.value <= lowest then value.value else lowest)
  }

  /** The loop of maxValue: the running highest is replaced by a value `>=` it. */
  function Highest(values: seq<Result<Option<int>>>, highest: int): Result<int>
    decreases |values|
  {
    if values == [] then Ok(highest)
    else
      var value :- values[0];
      Highest(values[1..], if value.Some? && value.value >= highest then value.value else highest)
  }

  /** The loop ends without exception exactly when no value is an exception, and then
      it answers a lower bound of the start and of every value, which is the start or
      one of the values. */
  lemma {:induction false} LowestIsMinimum(values: seq<Result<Option<int>>>, lowest: int)
    ensures Lowest(values, lowest).Ok? <==> forall i :: 0 <= i < |values| ==> values[i].Ok?
    ensures Lowest(values, lowest).Ok? ==>
              var v := Lowest(values, lowest).value;
              v <= lowest &&
              (forall i :: 0 <= i < |values| && values[i].value.Some? ==> v <= values[i].value.value) &&
              (v == lowest || exists i :: 0 <= i < |values| && values[i] == Ok(Some(v)))
    decreases |values|
  {
    if values != [] {
      assert forall i :: 1 <= i < |values| ==> values[i] == values[1..][i - 1];
      if values[0].Ok? {
        var value := values[0].value;
        var next := if value.Some? && value.value <= lowest then value.value else lowest;
        LowestIsMinimum(values[1..], next);
        if Lowest(values, lowest).Ok? {
          var v := Lowest(values, lowest).value;
          if v != next {
            var i :| 0 <= i < |values| - 1 && values[1..][i] == Ok(Some(v));
            assert values[i + 1] == Ok(Some(v));
          }
        }
      }
    }
  }

  /** The same for maxValue's loop: an upper bound, attained or the start. */
  lemma {:induction false} HighestIsMaximum(values: seq<Result<Option<int>>>, highest: int)
    ensures Highest(values, highest).Ok? <==> forall i :: 0 <= i < |values| ==> values[i].Ok?
    ensures Highest(values, highest).Ok? ==>
              var v := Highest(values, highest).value;
              v >= highest &&
              (forall i :: 0 <= i < |values| && values[i].value.Some? ==> v >= values[i].value.value) &&
              (v == highest || exists i :: 0 <= i < |values| && values[i] == Ok(Some(v)))
    decreases |values|
  {
    if values != [] {
      assert forall i :: 1 <= i < |values| ==> values[i] == values[1..][i - 1];
      if values[0].Ok? {
        var value := values[0].value;
        var next := if value.Some? && value.value >= highest then value.value else highest;
        HighestIsMaximum(values[1..], next);
        if Highest(values, highest).Ok? {
          var v := Highest(values, highest).value;
          if v != next {
            var i :| 0 <= i < |values| - 1 && values[1..][i] == Ok(Some(v));
            assert values[i + 1] == Ok(Some(v));
          }
        }
      }
    }
  }

  // ---------------------------------------------------------------- runAlgorithm

  /** The value of entry j, when the move completed. */
  predicate Valued(values: seq<Result<Option<int>>>, j: int)
    requires 0 <= j < |values|
  {
    values[j].Ok? && values[j].value.Some?
  }

  /** A value at least as good as another for the side to move: higher for White,
      lower for Black. */
  predicate AtLeastAsGood(whiteMoves: bool, x: int, y: int)
  {
    if whiteMoves then x >= y else x <= y
  }

  /** The loop of runAlgorithm from entry i on, over the values of the root's moves:
      with White to move a value `>=` the highest so far makes its move the best one,
      with Black a value `<=` the lowest so far; moves that did not complete are
      skipped. The best move is kept as its index. */
  function BestFrom(values: seq<Result<Option<int>>>, i: nat, whiteMoves: bool,
                    best: Option<nat>, highest: int, lowest: int): (r: Result<Option<nat>>)
    requires i <= |values| && (best.Some? ==> best.value < |values|)
    ensures r.Ok? && r.value.Some? ==> r.value.value < |values|
    decreases |values| - i
  {
    if i == |values| then Ok(best)
    else
      var value :- values[i];
      if value.None? then BestFrom(values, i + 1, whiteMoves, best, highest, lowest)
      else if whiteMoves && value.value >= highest then
        BestFrom(values, i + 1, whiteMoves, Some(i), value.value, lowest)
      else if !whiteMoves && value.value <= lowest then
        BestFrom(values, i + 1, whiteMoves, Some(i), highest, value.value)
      else BestFrom(values, i + 1, whiteMoves, best, highest, lowest)
  }

  /** The variables the loop of runAlgorithm carries: the best move so far, its index
      among the legal moves, and the highest and lowest values seen. */
  datatype Choice = Choice(bestMove: Option<Move>, best: Option<nat>, highest: int, lowest: int)

  /** The best move of `c` is the move at its index, or null when there is none. */
  predicate Tracks(moves: seq<Move>, c: Choice)
  {
    (c.best.None? ==> c.bestMove.None?) &&
    (c.best.Some? ==> c.best.value < |moves| && c.bestMove == Some(moves[c.best.value]))
  }

  /** When the loop of runAlgorithm has passed every entry, the move it holds is the
      root's choice. */
  lemma LoopChoice(moves: seq<Move>, values: seq<Result<Option<int>>>, whiteMoves: bool, c: Choice)
    requires |values| == |moves| && Tracks(moves, c)
    requires BestFrom(values, |values|, whiteMoves, c.best, c.highest, c.lowest) ==
             BestFrom(values, 0, whiteMoves, None, IntMin, IntMax)
    ensures RootChoice(moves, values, whiteMoves) == Ok(c.bestMove)
  { }

  /** One entry of the loop of runAlgorithm, given the entry's value `v`. */
  lemma BestStep(values: seq<Result<Option<int>>>, i: nat, whiteMoves: bool,
                 best: Option<nat>, highest: int, lowest: int, v: Result<Option<int>>)
    requires i < |values| && (best.Some? ==> best.value < |values|) && v == values[i]
    ensures BestFrom(values, i, whiteMoves, best, highest, lowest) ==
              if v.Thrown? then Thrown(v.reason)
              else if v.value.Some? && whiteMoves && v.value.value >= highest then
                BestFrom(values, i + 1, whiteMoves, Some(i), v.value.value, lowest)
              else if v.value.Some? && !whiteMoves && v.value.value <= lowest then
                BestFrom(values, i + 1, whiteMoves, Some(i), highest, v.value.value)
              else BestFrom(values, i + 1, whiteMoves, best, highest, lowest)
  { }

  /** runAlgorithm: each completed root move is valued by minValue (White to move) or
      maxValue (Black to move) one level down, and the best of them is returned, None
      standing for null. */
  function RunAlgorithmSpec(b: Board, treeLevel: nat): Result<Option<Move>>
    requires Valid(b) && treeLevel >= 1
  {
    var moves := LegalMoves(b, b.mover);
    AttemptsValid(b, b.mover, moves);
    var whiteMoves := b.mover == White;
    RootChoice(moves, ChildValues(Attempts(b, b.mover, moves), treeLevel, !whiteMoves), whiteMoves)
  }

  /** The move the loop of runAlgorithm leaves in bestMove, given the values of the
      moves; None stands for null. */
  function RootChoice(moves: seq<Move>, values: seq<Result<Option<int>>>, whiteMoves: bool): Result<Option<Move>>
    requires |values| == |moves|
  {
    var best :- BestFrom(values, 0, whiteMoves, None, IntMin, IntMax);
    if best.None? then Ok(None) else Ok(Some(moves[best.value]))
  }

  /** Every value fits in a Java int. */
  predicate ValuesInRange(values: seq<Result<Option<int>>>)
  {
    forall j :: 0 <= j < |values| && values[j].Ok? && values[j].value.Some? ==> InIntRange(values[j].value.value)
  }

  /** What the loop of runAlgorithm has established after the first i entries: none
      threw; nothing is chosen exactly when none of them completed; otherwise the
      chosen entry is at least as good as every one of them and no later one is at
      least as good as it. */
  predicate ChoiceSoFar(values: seq<Result<Option<int>>>, i: nat, whiteMoves: bool, best: Option<nat>)
    requires i <= |values|
  {
    (forall j :: 0 <= j < i ==> values[j].Ok?) &&
    (best.None? <==> forall j :: 0 <= j < i ==> !Valued(values, j)) &&
    (best.Some? ==>
       best.value < i && Valued(values, best.value) &&
       (forall j :: 0 <= j < i && Valued(values, j) ==>
          AtLeastAsGood(whiteMoves, values[best.value].value.value, values[j].value.value)) &&
       (forall j :: best.value < j < i && Valued(values, j) ==>
          !AtLeastAsGood(whiteMoves, values[j].value.value, values[best.value].value.value)))
  }

  /** An entry at least as good as the chosen one becomes the choice. */
  lemma ChooseEntry(values: seq<Result<Option<int>>>, i: nat, whiteMoves: bool, best: Option<nat>)
    requires i < |values| && Valued(values, i) && ChoiceSoFar(values, i, whiteMoves, best)
    requires best.Some? ==> AtLeastAsGood(whiteMoves, values[i].value.value, values[best.value].value.value)
    ensures ChoiceSoFar(values, i + 1, whiteMoves, Some(i))
  {
    assert forall j :: 0 <= j < i + 1 && Valued(values, j) ==>
      AtLeastAsGood(whiteMoves, values[i].value.value, values[j].value.value);
  }

  /** An entry that did not complete, or is worse than the chosen one, keeps the choice. */
  lemma KeepChoice(values: seq<Result<Option<int>>>, i: nat, whiteMoves: bool, best: Option<nat>)
    requires i < |values| && values[i].Ok? && ChoiceSoFar(values, i, whiteMoves, best)
    requires Valued(values, i) ==>
               best.Some? && !AtLeastAsGood(whiteMoves, values[i].value.value, values[best.value].value.value)
    ensures ChoiceSoFar(values, i + 1, whiteMoves, best)
  {
  }

  /** The loop keeps ChoiceSoFar, provided its running bound is the chosen entry's
      value, or the start value while nothing is chosen, and the values fit in an int. */
  lemma {:induction false} BestFromChooses(values: seq<Result<Option<int>>>, i: nat, whiteMoves: bool,
                                            best: Option<nat>, highest: int, lowest: int)
    requires i <= |values| && ValuesInRange(values)
    requires ChoiceSoFar(values, i, whiteMoves, best)
    requires (if whiteMoves then highest else lowest) ==
             (if best.Some? then values[best.value].value.value else if whiteMoves then IntMin else IntMax)
    ensures BestFrom(values, i, whiteMoves, best, highest, lowest).Ok? ==>
              ChoiceSoFar(values, |values|, whiteMoves, BestFrom(values, i, whiteMoves, best, highest, lowest).value)
    decreases |values| - i
  {
    if i < |values| && values[i].Ok? {
      var value := values[i].value;
      if value.None? {
        BestFromChooses(values, i + 1, whiteMoves, best, highest, lowest);
      } else if whiteMoves && value.value >= highest {
        ChooseEntry(values, i, whiteMoves, best);
        BestFromChooses(values, i + 1, whiteMoves, Some(i), value.value, lowest);
      } else if !whiteMoves && value.value <= lowest {
        ChooseEntry(values, i, whiteMoves, best);
        BestFromChooses(values, i + 1, whiteMoves, Some(i), highest, value.value);
      } else {
        KeepChoice(values, i, whiteMoves, best);
        BestFromChooses(values, i + 1, whiteMoves, best, highest, lowest);
      }
    }
  }


  /** An entry of the root loop that did not throw has a value exactly when its
      makeMove completed. */
  lemma ValuedIsCompleted(attempts: seq<Result<BoardUpdate>>, level: nat, childMaximizes: bool, j: int)
    requires level >= 1 && ValidUpdates(attempts) && 0 <= j < |attempts|
    ensures var values := ChildValues(attempts, level, childMaximizes);
            values[j].Ok? ==> (Valued(values, j) <==> IsCompletedAttempt(attempts[j]))
  {
    ValidUpdatesAt(attempts, j);
    ChildValuesAre(attempts, level, childMaximizes, j);
  }

  /** The loop of runAlgorithm, when no value throws and all fit in an int: it answers
      null exactly when no move completed; otherwise a move whose completed value is the
      best for the side to move (highest for White, lowest for Black), the last such one
      in the order of the moves. */
  lemma RootChoiceIsBest(moves: seq<Move>, values: seq<Result<Option<int>>>, whiteMoves: bool)
    requires |values| == |moves| && ValuesInRange(values)
    ensures RootChoice(moves, values, whiteMoves).Ok? ==>
              var r := RootChoice(moves, values, whiteMoves).value;
              (r.None? ==> ChoiceSoFar(values, |values|, whiteMoves, None)) &&
              (r.Some? ==> exists k :: 0 <= k < |moves| && r.value == moves[k] &&
                                      ChoiceSoFar(values, |values|, whiteMoves, Some(k)))
  {
    BestFromChooses(values, 0, whiteMoves, None, IntMin, IntMax);
  }
}
