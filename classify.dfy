/** Cleaning of the fetched games and classification of each kept game by
    outcome (from White's result code) and by opening. */
module Classify {
  import opened Records
  import opened Eco

  /** White result codes that count as a draw. */
  const DrawCodes: set<string> := {"timevsinsufficient", "repetition", "stalemate", "agreed", "insufficient", "50move"}

  /** White result codes that count as a win for Black. */
  const LossCodes: set<string> := {"timeout", "checkmated", "resigned", "abandoned"}

  /** Every code that sets one of the three outcome flags. */
  const ClassifiedCodes: set<string> := {"win"} + DrawCodes + LossCodes

  /** The three 0/1 outcome columns, from White's point of view. */
  datatype Outcome = Outcome(whiteWin: nat, draw: nat, blackWin: nat)

  /** A condition as the 0/1 integer stored in a flag column. */
  function Flag(b: bool): (f: nat)
    ensures f <= 1 && (f == 1 <==> b)
  {
    if b then 1 else 0
  }

  /** The flags set from `white.result`: `White_Win` for "win" only, `Draw`
      for a draw code, `Black_Win` for a loss code; anything else sets none. */
  function ClassifyResult(result: string): (o: Outcome)
    ensures o.whiteWin <= 1 && o.draw <= 1 && o.blackWin <= 1
    ensures o.whiteWin == 1 <==> result == "win"
    ensures o.draw == 1 <==> result in DrawCodes
    ensures o.blackWin == 1 <==> result in LossCodes
  {
    Outcome(Flag(result == "win"), Flag(result in DrawCodes), Flag(result in LossCodes))
  }

  /** The three code sets are disjoint, so at most one flag is set; exactly
      one is set when the code is classified, and none otherwise. */
  lemma OutcomeExclusive(result: string)
    ensures "win" !in DrawCodes && "win" !in LossCodes && DrawCodes * LossCodes == {}
    ensures var o := ClassifyResult(result); o.whiteWin + o.draw + o.blackWin <= 1
    ensures var o := ClassifyResult(result); o.whiteWin + o.draw + o.blackWin == 1 <==> result in ClassifiedCodes
    ensures result !in ClassifiedCodes ==> ClassifyResult(result) == Outcome(0, 0, 0)
  {
    assert DrawCodes * LossCodes == {} by {
      forall x | x in DrawCodes ensures x !in LossCodes { }
    }
  }

  /** The games the analysis keeps: rated games of standard chess. */
  predicate IsStandardRated(g: GameRecord) {
    g.rated && g.rules == "chess"
  }

  /** The two cleaning filters, applied in order; order is preserved. */
  function Clean(games: seq<GameRecord>): (kept: seq<GameRecord>)
    ensures |kept| <= |games|
    ensures forall g :: g in kept <==> g in games && IsStandardRated(g)
  {
    if games == [] then []
    else (if IsStandardRated(games[0]) then [games[0]] else []) + Clean(games[1..])
  }

  /** Cleaning acts on each game on its own and keeps the order: cleaning a
      concatenation is the concatenation of the cleaned parts. */
  lemma {:induction false} CleanConcat(a: seq<GameRecord>, b: seq<GameRecord>)
    ensures Clean(a + b) == Clean(a) + Clean(b)
  {
    if a == [] {
      assert a + b == b;
    } else {
      assert (a + b)[1..] == a[1..] + b;
      CleanConcat(a[1..], b);
    }
  }

  /** Cleaning a single game keeps it exactly when it is rated standard chess. */
  lemma CleanSingle(g: GameRecord)
    ensures Clean([g]) == if IsStandardRated(g) then [g] else []
  {
    assert [g][1..] == [];
  }

  /** A kept game with its derived columns: the outcome flags, the extracted
      code and the resolved opening name. */
  datatype ClassifiedGame = ClassifiedGame(
    whiteName: string,
    whiteRating: int,
    blackName: string,
    blackRating: int,
    whiteWin: nat,
    draw: nat,
    blackWin: nat,
    eco: Option<string>,
    opening: string
  )

  /** Whether the opening code of a game resolves in the table. */
  predicate Resolves(openings: map<string, string>, g: GameRecord) {
    EcoToOpening(openings, PgnToEco(g.pgn)).Ok?
  }

  /** The derived columns of one game; fails when its code does not resolve. */
  function ClassifyGame(openings: map<string, string>, g: GameRecord): (r: Result<ClassifiedGame, LookupError>)
    ensures r.Ok? <==> Resolves(openings, g)
    ensures r.Err? ==> r.error == MissingOpening(PgnToEco(g.pgn))
  {
    var o := ClassifyResult(g.white.result);
    var eco := PgnToEco(g.pgn);
    match EcoToOpening(openings, eco)
    case Err(e) => Err(e)
    case Ok(name) =>
      Ok(ClassifiedGame(g.white.username, g.white.rating, g.black.username, g.black.rating,
                        o.whiteWin, o.draw, o.blackWin, eco, name))
  }

  /** The columns of a classified game, which only a successful lookup can give. */
  lemma ClassifyGameFields(openings: map<string, string>, g: GameRecord)
    requires Resolves(openings, g)
    ensures var c := ClassifyGame(openings, g).value;
      && c.whiteName == g.white.username && c.blackName == g.black.username
      && c.whiteRating == g.white.rating && c.blackRating == g.black.rating
      && Outcome(c.whiteWin, c.draw, c.blackWin) == ClassifyResult(g.white.result)
      && c.eco == PgnToEco(g.pgn) && c.eco.Some?
      && c.opening == openings[c.eco.value]
  {
  }

  /** A first unresolved game of `games[1..]` is the first of `games` when `games[0]` resolves. */
  lemma FirstFailureShift(openings: map<string, string>, games: seq<GameRecord>, i: nat)
    requires |games| > 0 && Resolves(openings, games[0])
    requires i < |games| - 1 && !Resolves(openings, games[1..][i])
    requires forall j :: 0 <= j < i ==> Resolves(openings, games[1..][j])
    ensures games[1..][i] == games[i + 1] && !Resolves(openings, games[i + 1])
    ensures forall j :: 0 <= j < i + 1 ==> Resolves(openings, games[j])
  {
    forall j | 0 <= j < i + 1 ensures Resolves(openings, games[j]) {
      if j > 0 { assert games[j] == games[1..][j - 1]; }
    }
  }

  /** The derived columns for every kept game (Analysis.py, lines 62-71). The lookup is
      applied to every row, so the first row whose code does not resolve
      raises, and the whole analysis fails with its code. */
  function ClassifyAll(openings: map<string, string>, games: seq<GameRecord>): (r: Result<seq<ClassifiedGame>, LookupError>)
    ensures r.Ok? <==> forall i :: 0 <= i < |games| ==> Resolves(openings, games[i])
    ensures r.Ok? ==> |r.value| == |games|
    ensures r.Ok? ==> forall i :: 0 <= i < |games| ==> Ok(r.value[i]) == ClassifyGame(openings, games[i])
    ensures r.Err? ==> (exists i :: 0 <= i < |games| && !Resolves(openings, games[i])
                          && (forall j :: 0 <= j < i ==> Resolves(openings, games[j]))
                          && r.error == MissingOpening(PgnToEco(games[i].pgn)))
  {
    if games == [] then Ok([])
    else
      match ClassifyGame(openings, games[0])
      case Err(e) => Err(e)
      case Ok(c) =>
        match ClassifyAll(openings, games[1..])
        case Err(e) =>
          var i :| 0 <= i < |games[1..]| && !Resolves(openings, games[1..][i])
            && (forall j :: 0 <= j < i ==> Resolves(openings, games[1..][j]))
            && e == MissingOpening(PgnToEco(games[1..][i].pgn));
          FirstFailureShift(openings, games, i);
          Err(e)
        case Ok(cs) => Ok([c] + cs)
  }
}
