/** Rock-paper-scissors scoring: a fixed dominance table between three moves,
    its inverse, decoders for the two columns of a strategy line, and the
    score of a line under the two readings of its second column. */
module RockPaperScissors {
  import opened Errors

  datatype Outcome = Lose | Draw | Win

  datatype Move = Rock | Paper | Scissors

  /** The outcome of a round for the player of `b` against `a`. The source
      ends its table with an arm it marks unreachable; here the match is
      exhaustive without it. */
  function OutcomeOf(a: Move, b: Move): (o: Outcome)
    ensures o == Draw <==> a == b
  {
    match (a, b)
    case (Rock, Paper) => Win
    case (Rock, Scissors) => Lose
    case (Paper, Scissors) => Win
    case (Paper, Rock) => Lose
    case (Scissors, Rock) => Win
    case (Scissors, Paper) => Lose
    case (Rock, Rock) => Draw
    case (Paper, Paper) => Draw
    case (Scissors, Scissors) => Draw
  }

  /** The move to play against `a` to reach `outcome`. */
  function RequiredMove(a: Move, outcome: Outcome): (b: Move)
    ensures OutcomeOf(a, b) == outcome
  {
    match (a, outcome)
    case (Rock, Win) => Paper
    case (Rock, Lose) => Scissors
    case (Paper, Win) => Scissors
    case (Paper, Lose) => Rock
    case (Scissors, Win) => Rock
    case (Scissors, Lose) => Paper
    case (_, Draw) => a
  }

  /** Position of a move in the cycle Rock, Paper, Scissors. */
  function Index(m: Move): nat {
    match m
    case Rock => 0
    case Paper => 1
    case Scissors => 2
  }

  /** The table is the 3-cycle in which every move beats the one before it:
      one step forward wins, one step back loses. */
  lemma OutcomeIsCyclic(a: Move, b: Move)
    ensures OutcomeOf(a, b) == Win <==> (Index(b) - Index(a)) % 3 == 1
    ensures OutcomeOf(a, b) == Lose <==> (Index(b) - Index(a)) % 3 == 2
    ensures OutcomeOf(a, b) == Draw <==> (Index(b) - Index(a)) % 3 == 0
  {
  }

  /** What one player wins, the other loses. */
  lemma OutcomeAntisymmetric(a: Move, b: Move)
    ensures OutcomeOf(a, b) == Win <==> OutcomeOf(b, a) == Lose
  {
  }

  /** `RequiredMove` recovers the move that produced an outcome, so against
      a fixed move each outcome has exactly one move that reaches it. */
  lemma RequiredMoveRecovers(a: Move, b: Move)
    ensures RequiredMove(a, OutcomeOf(a, b)) == b
  {
  }

  /** Decodes a move from either column: A or X is Rock, B or Y is Paper,
      C or Z is Scissors. */
  function ParseMove(input: string): (r: Result<Move>)
    ensures r.Ok? <==> |input| == 1 && input[0] in "ABCXYZ"
    ensures r.Err? ==> r.error == InputError
  {
    match input
    case "A" => Ok(Rock)
    case "B" => Ok(Paper)
    case "C" => Ok(Scissors)
    case "X" => Ok(Rock)
    case "Y" => Ok(Paper)
    case "Z" => Ok(Scissors)
    case _ => assert |input| == 1 ==> input == [input[0]]; Err(InputError)
  }

  /** Decodes a desired outcome from the second column: X loses, Y draws,
      Z wins. */
  function ParseOutcome(input: string): (r: Result<Outcome>)
    ensures r.Ok? <==> |input| == 1 && input[0] in "XYZ"
    ensures r.Err? ==> r.error == InputError
  {
    match input
    case "X" => Ok(Lose)
    case "Y" => Ok(Draw)
    case "Z" => Ok(Win)
    case _ => assert |input| == 1 ==> input == [input[0]]; Err(InputError)
  }

  /** The letter of a move in the first column. */
  function FirstColumn(m: Move): string {
    match m
    case Rock => "A"
    case Paper => "B"
    case Scissors => "C"
  }

  /** The letter of a move, or of an outcome, in the second column. */
  function SecondColumn(m: Move): string {
    match m
    case Rock => "X"
    case Paper => "Y"
    case Scissors => "Z"
  }

  function OutcomeColumn(o: Outcome): string {
    match o
    case Lose => "X"
    case Draw => "Y"
    case Win => "Z"
  }

  /** Both columns decode back to the move they spell. */
  lemma ParseMoveRoundTrip(m: Move)
    ensures ParseMove(FirstColumn(m)) == Ok(m)
    ensures ParseMove(SecondColumn(m)) == Ok(m)
  {
  }

  lemma ParseOutcomeRoundTrip(o: Outcome)
    ensures ParseOutcome(OutcomeColumn(o)) == Ok(o)
  {
  }

  /** The base score of the move played: 1, 2 or 3, one per move. */
  function ScoreFromMove(m: Move): (score: nat)
    ensures 1 <= score <= 3
    ensures score == Index(m) + 1
  {
    match m
    case Rock => 1
    case Paper => 2
    case Scissors => 3
  }

  /** The bonus for the outcome: 0 for a loss, 3 for a draw, 6 for a win. */
  function ScoreOutcome(o: Outcome): (score: nat)
    ensures score % 3 == 0 && score <= 6
    ensures score < 3 <==> o == Lose
    ensures score > 3 <==> o == Win
  {
    match o
    case Win => 6
    case Draw => 3
    case Lose => 0
  }

  // ---------------------------------------------------------------------
  // Splitting a line on single spaces (`str::split(" ")`)
  // ---------------------------------------------------------------------

  /** The pieces of `s` between single spaces, empty pieces included: `n`
      spaces give `n + 1` pieces. */
  function Split(s: string): (chunks: seq<string>)
    ensures |chunks| > 0
  {
    if s == [] then [[]]
    else
      var rest := Split(s[1..]);
      if s[0] == ' ' then [[]] + rest else [[s[0]] + rest[0]] + rest[1..]
  }

  /** The pieces glued back together with single spaces. */
  function Join(chunks: seq<string>): string
    requires |chunks| > 0
  {
    if |chunks| == 1 then chunks[0] else chunks[0] + " " + Join(chunks[1..])
  }

  lemma {:induction false} SplitJoin(s: string)
    ensures Join(Split(s)) == s
    ensures forall i :: 0 <= i < |Split(s)| ==> ' ' !in Split(s)[i]
  {
    if s != [] {
      SplitJoin(s[1..]);
      var rest := Split(s[1..]);
      if s[0] == ' ' {
        assert ([[]] + rest)[1..] == rest;
        assert s == [] + " " + Join(rest);
      } else {
        var chunks := [[s[0]] + rest[0]] + rest[1..];
        if |rest| == 1 {
          assert s == [s[0]] + rest[0];
        } else {
          assert chunks[1..] == rest[1..];
          assert Join(rest) == rest[0] + " " + Join(rest[1..]);
          assert s == [s[0]] + Join(rest);
        }
      }
    }
  }

  /** A line that `split(" ")` cuts into exactly the two pieces `x` and `y`
      is `x`, one space, `y`. */
  lemma SplitInTwo(line: string)
    requires |Split(line)| == 2
    ensures line == Split(line)[0] + " " + Split(line)[1]
  {
    SplitJoin(line);
    var chunks := Split(line);
    assert Join(chunks[1..]) == chunks[1];
  }

  lemma SplitOfThree(x: char, y: char)
    requires x != ' ' && y != ' '
    ensures Split([x, ' ', y]) == [[x], [y]]
  {
    var line := [x, ' ', y];
    assert line[1..] == [' ', y];
    assert [' ', y][1..] == [y];
    assert [y][1..] == [];
    var empty: string := [];
    assert Split(empty) == [[]];
    assert [y] + Split(empty)[0] == [y];
    assert Split([y]) == [[y]] + Split(empty)[1..];
    assert Split([y]) == [[y]];
    var rest := Split([' ', y]);
    assert rest == [[], [y]];
    assert [x] + rest[0] == [x] && rest[1..] == [[y]];
    assert Split(line) == [[x] + rest[0]] + rest[1..];
  }

  // ---------------------------------------------------------------------
  // Scoring lines
  // ---------------------------------------------------------------------

  /** `evaluate_line`: both columns are moves; the score is that of the
      second player's move plus that of the second player's outcome. */
  function EvaluateLine(line: string): (r: Result<nat>)
    ensures r.Ok? ==> 1 <= r.value <= 9
    ensures r.Err? ==> r.error == InputError
  {
    var chunks := Split(line);
    if |chunks| != 2 then Err(InputError)
    else
      var move1 :- ParseMove(chunks[0]);
      var move2 :- ParseMove(chunks[1]);
      var outcome := OutcomeOf(move1, move2);
      Ok(ScoreFromMove(move2) + ScoreOutcome(outcome))
  }

  /** `evaluate_line_part_two`: the second column is the outcome to reach;
      the move played is the one that reaches it. */
  function EvaluateLinePartTwo(line: string): (r: Result<nat>)
    ensures r.Ok? ==> 1 <= r.value <= 9
    ensures r.Err? ==> r.error == InputError
  {
    var chunks := Split(line);
    if |chunks| != 2 then Err(InputError)
    else
      var move1 :- ParseMove(chunks[0]);
      var outcome :- ParseOutcome(chunks[1]);
      var move2 := RequiredMove(move1, outcome);
      Ok(ScoreFromMove(move2) + ScoreOutcome(outcome))
  }

  /** A line scores in part one exactly when it is two move letters with
      one space between them; a second space, a trailing space or a longer
      token is an input error. */
  lemma EvaluateLineAccepts(line: string)
    ensures EvaluateLine(line).Ok? <==>
      |line| == 3 && line[1] == ' ' && line[0] in "ABCXYZ" && line[2] in "ABCXYZ"
  {
    if EvaluateLine(line).Ok? {
      SplitInTwo(line);
    }
    if |line| == 3 && line[1] == ' ' && line[0] in "ABCXYZ" && line[2] in "ABCXYZ" {
      SplitOfThree(line[0], line[2]);
      assert line == [line[0], ' ', line[2]];
    }
  }

  /** The same for part two, whose second letter must be an outcome. */
  lemma EvaluateLinePartTwoAccepts(line: string)
    ensures EvaluateLinePartTwo(line).Ok? <==>
      |line| == 3 && line[1] == ' ' && line[0] in "ABCXYZ" && line[2] in "XYZ"
  {
    if EvaluateLinePartTwo(line).Ok? {
      SplitInTwo(line);
    }
    if |line| == 3 && line[1] == ' ' && line[0] in "ABCXYZ" && line[2] in "XYZ" {
      SplitOfThree(line[0], line[2]);
      assert line == [line[0], ' ', line[2]];
    }
  }

  /** Any line part one accepts, whichever of the six letters spell its
      moves, scores the move of its second column plus the outcome that
      move reaches against the first. */
  lemma EvaluateLineScore(line: string, a: Move, b: Move)
    requires |line| == 3 && line[1] == ' '
    requires ParseMove([line[0]]) == Ok(a) && ParseMove([line[2]]) == Ok(b)
    ensures EvaluateLine(line) == Ok(ScoreFromMove(b) + ScoreOutcome(OutcomeOf(a, b)))
  {
    SplitOfThree(line[0], line[2]);
    assert line == [line[0], ' ', line[2]];
  }

  /** Any line part two accepts scores the outcome it names plus the move
      required to reach it; that is the score part one gives the line that
      plays the required move instead of naming the outcome. */
  lemma PartTwoIsPartOneWithRequiredMove(line: string, a: Move, o: Outcome)
    requires |line| == 3 && line[1] == ' '
    requires ParseMove([line[0]]) == Ok(a) && ParseOutcome([line[2]]) == Ok(o)
    ensures EvaluateLinePartTwo(line) == Ok(ScoreFromMove(RequiredMove(a, o)) + ScoreOutcome(o))
    ensures EvaluateLinePartTwo(line) == EvaluateLine([line[0], ' '] + SecondColumn(RequiredMove(a, o)))
  {
    var b := RequiredMove(a, o);
    SplitOfThree(line[0], line[2]);
    assert line == [line[0], ' ', line[2]];
    var played := [line[0], ' '] + SecondColumn(b);
    assert SecondColumn(b) == [SecondColumn(b)[0]];
    assert played == [line[0], ' ', SecondColumn(b)[0]];
    EvaluateLineScore(played, a, b);
  }

  /** The small example of the tests: "A Y", "B X", "C Z" score 8, 1 and 6
      in part one (15 in all) and 4, 1 and 7 in part two (12 in all). */
  lemma SmallExample()
    ensures EvaluateLine("A Y") == Ok(8)
    ensures EvaluateLine("B X") == Ok(1)
    ensures EvaluateLine("C Z") == Ok(6)
    ensures EvaluateLinePartTwo("A Y") == Ok(4)
    ensures EvaluateLinePartTwo("B X") == Ok(1)
    ensures EvaluateLinePartTwo("C Z") == Ok(7)
  {
    SplitOfThree('A', 'Y');
    SplitOfThree('B', 'X');
    SplitOfThree('C', 'Z');
  }
}
