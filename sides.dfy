/** The split of the classified games into the queried user's games as
    White and as Black, relabelled so that every column speaks of the user. */
module Sides {
  import opened Records
  import opened Classify

  /** A game seen from the queried user's side: `Win`, `Draw`, `Loss`,
      `user_rating`, `opponent_rating` and the opening name. */
  datatype UserGame = UserGame(
    opening: string,
    win: nat,
    draw: nat,
    loss: nat,
    userRating: int,
    opponentRating: int
  )

  /** One character lowered: an ASCII capital becomes its small letter,
      every other character is kept. */
  function LowerChar(c: char): (l: char)
    ensures 'A' <= c <= 'Z' ==> l as int == c as int + 32
    ensures !('A' <= c <= 'Z') ==> l == c
  {
    if 'A' <= c <= 'Z' then (c as int + 32) as char else c
  }

  /** `str.lower()`, on the ASCII letters: the same length, with each
      character lowered. */
  function Lower(s: string): (l: string)
    ensures |l| == |s|
    ensures forall i :: 0 <= i < |s| ==> l[i] == LowerChar(s[i])
  {
    if s == [] then [] else [LowerChar(s[0])] + Lower(s[1..])
  }

  /** The case-insensitive comparison of a column with the queried username. */
  predicate SameUser(name: string, username: string) {
    Lower(name) == Lower(username)
  }

  /** A game of the user as White: `White_Win` becomes `Win`, `Black_Win`
      becomes `Loss`, White's rating is the user's. */
  function AsWhite(c: ClassifiedGame): UserGame {
    UserGame(c.opening, c.whiteWin, c.draw, c.blackWin, c.whiteRating, c.blackRating)
  }

  /** A game of the user as Black: `Black_Win` becomes `Win`, `White_Win`
      becomes `Loss`, Black's rating is the user's. */
  function AsBlack(c: ClassifiedGame): UserGame {
    UserGame(c.opening, c.blackWin, c.draw, c.whiteWin, c.blackRating, c.whiteRating)
  }

  /** `wdf`: the games whose White is the user, relabelled, in order. */
  function WhiteView(cs: seq<ClassifiedGame>, username: string): (v: seq<UserGame>)
    ensures |v| <= |cs|
    ensures forall x :: x in v <==> exists c :: c in cs && SameUser(c.whiteName, username) && x == AsWhite(c)
  {
    if cs == [] then []
    else (if SameUser(cs[0].whiteName, username) then [AsWhite(cs[0])] else []) + WhiteView(cs[1..], username)
  }

  /** `bdf`: the games whose Black is the user, relabelled, in order. */
  function BlackView(cs: seq<ClassifiedGame>, username: string): (v: seq<UserGame>)
    ensures |v| <= |cs|
    ensures forall x :: x in v <==> exists c :: c in cs && SameUser(c.blackName, username) && x == AsBlack(c)
  {
    if cs == [] then []
    else (if SameUser(cs[0].blackName, username) then [AsBlack(cs[0])] else []) + BlackView(cs[1..], username)
  }

  /** The view of the requested colour: the games in which the user played
      that colour, relabelled for that colour. */
  function SelectView(cs: seq<ClassifiedGame>, username: string, colour: Colour): (v: seq<UserGame>)
    ensures colour == White ==>
      forall x :: x in v <==> exists c :: c in cs && SameUser(c.whiteName, username) && x == AsWhite(c)
    ensures colour == Black ==>
      forall x :: x in v <==> exists c :: c in cs && SameUser(c.blackName, username) && x == AsBlack(c)
  {
    match colour
    case White => WhiteView(cs, username)
    case Black => BlackView(cs, username)
  }

  /** The same game with the colours exchanged. */
  function Mirror(c: ClassifiedGame): ClassifiedGame {
    ClassifiedGame(c.blackName, c.blackRating, c.whiteName, c.whiteRating,
                   c.blackWin, c.draw, c.whiteWin, c.eco, c.opening)
  }

  function MirrorAll(cs: seq<ClassifiedGame>): (m: seq<ClassifiedGame>)
    ensures |m| == |cs| && forall i :: 0 <= i < |cs| ==> m[i] == Mirror(cs[i])
  {
    if cs == [] then [] else [Mirror(cs[0])] + MirrorAll(cs[1..])
  }

  /** The black view is the white view of the games with colours exchanged. */
  lemma {:induction false} BlackViewMirrorsWhiteView(cs: seq<ClassifiedGame>, username: string)
    ensures BlackView(cs, username) == WhiteView(MirrorAll(cs), username)
  {
    if cs != [] {
      assert MirrorAll(cs)[1..] == MirrorAll(cs[1..]);
      BlackViewMirrorsWhiteView(cs[1..], username);
    }
  }

  /** The white view takes games one by one and keeps their order. */
  lemma {:induction false} WhiteViewConcat(a: seq<ClassifiedGame>, b: seq<ClassifiedGame>, username: string)
    ensures WhiteView(a + b, username) == WhiteView(a, username) + WhiteView(b, username)
  {
    if a == [] {
      assert a + b == b;
    } else {
      assert (a + b)[1..] == a[1..] + b;
      WhiteViewConcat(a[1..], b, username);
    }
  }

  /** The black view takes games one by one and keeps their order. */
  lemma {:induction false} BlackViewConcat(a: seq<ClassifiedGame>, b: seq<ClassifiedGame>, username: string)
    ensures BlackView(a + b, username) == BlackView(a, username) + BlackView(b, username)
  {
    if a == [] {
      assert a + b == b;
    } else {
      assert (a + b)[1..] == a[1..] + b;
      BlackViewConcat(a[1..], b, username);
    }
  }

  /** A single game lands in a view exactly when the user played that colour
      in it; a game the user played with neither colour is in neither view. */
  lemma ViewOfOneGame(c: ClassifiedGame, username: string)
    ensures WhiteView([c], username) == if SameUser(c.whiteName, username) then [AsWhite(c)] else []
    ensures BlackView([c], username) == if SameUser(c.blackName, username) then [AsBlack(c)] else []
  {
    assert [c][1..] == [];
  }

  /** The outcome flags of a classified game: each 0 or 1, at most one set. */
  predicate ValidOutcome(c: ClassifiedGame) {
    c.whiteWin <= 1 && c.draw <= 1 && c.blackWin <= 1 && c.whiteWin + c.draw + c.blackWin <= 1
  }

  /** The relabelled flags of a user game: each 0 or 1, at most one set. */
  predicate ValidUserGame(g: UserGame) {
    g.win <= 1 && g.draw <= 1 && g.loss <= 1 && g.win + g.draw + g.loss <= 1
  }

  /** Classification only produces valid flags, and relabelling keeps
      them valid on either side. */
  lemma ViewsAreValid(openings: map<string, string>, games: seq<GameRecord>, username: string, colour: Colour)
    requires ClassifyAll(openings, games).Ok?
    ensures forall g :: g in SelectView(ClassifyAll(openings, games).value, username, colour) ==> ValidUserGame(g)
  {
    var cs := ClassifyAll(openings, games).value;
    forall c | c in cs ensures ValidOutcome(c) {
      var i :| 0 <= i < |cs| && cs[i] == c;
      ClassifyGameFields(openings, games[i]);
      OutcomeExclusive(games[i].white.result);
    }
  }
}
