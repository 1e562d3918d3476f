/** The group-by over the selected view: per-opening counts and sums, the
    statistics rows built from them, their ordering by games played, and the
    scaling and rounding of the rate columns. */
module Aggregate {
  import opened Sides

  /** The counts and sums of one opening's games: `count` of the group, and
      the sums whose means the source reports. */
  datatype Tally = Tally(games: nat, wins: nat, draws: nat, losses: nat, userRatingSum: int, opponentRatingSum: int)

  const NoGames: Tally := Tally(0, 0, 0, 0, 0, 0)

  function AddGame(t: Tally, g: UserGame): Tally {
    Tally(t.games + 1, t.wins + g.win, t.draws + g.draw, t.losses + g.loss,
          t.userRatingSum + g.userRating, t.opponentRatingSum + g.opponentRating)
  }

  function Combine(a: Tally, b: Tally): Tally {
    Tally(a.games + b.games, a.wins + b.wins, a.draws + b.draws, a.losses + b.losses,
          a.userRatingSum + b.userRatingSum, a.opponentRatingSum + b.opponentRatingSum)
  }

  /** Reference definition of one group: the totals over the games of the
      view whose opening is `name`, taken one game at a time. */
  function TallyOf(view: seq<UserGame>, name: string): Tally {
    if view == [] then NoGames
    else
      var t := TallyOf(view[..|view| - 1], name);
      if view[|view| - 1].opening == name then AddGame(t, view[|view| - 1]) else t
  }

  /** The opening names observed in a view. */
  function Openings(view: seq<UserGame>): set<string> {
    set g | g in view :: g.opening
  }

  /** A group is non-empty exactly when its opening occurs in the view;
      an opening that does not occur has no games, wins or sums. */
  lemma {:induction false} TallyOfOccurs(view: seq<UserGame>, name: string)
    ensures TallyOf(view, name).games > 0 <==> name in Openings(view)
    ensures name !in Openings(view) ==> TallyOf(view, name) == NoGames
  {
    if view != [] {
      var front := view[..|view| - 1];
      TallyOfOccurs(front, name);
      assert Openings(view) == Openings(front) + {view[|view| - 1].opening} by {
        assert view == front + [view[|view| - 1]];
      }
    }
  }

  /** Appending one game changes the tally of its own opening only. */
  lemma TallyOfSnoc(view: seq<UserGame>, g: UserGame, name: string)
    ensures TallyOf(view + [g], name) == if g.opening == name then AddGame(TallyOf(view, name), g) else TallyOf(view, name)
  {
    assert (view + [g])[..|view|] == view;
  }

  /** Tallying splits over a concatenation of views. */
  lemma {:induction false} TallyOfConcat(a: seq<UserGame>, b: seq<UserGame>, name: string)
    ensures TallyOf(a + b, name) == Combine(TallyOf(a, name), TallyOf(b, name))
    decreases |b|
  {
    if b == [] {
      assert a + b == a;
    } else {
      var front, last := b[..|b| - 1], b[|b| - 1];
      assert b == front + [last];
      assert a + b == (a + front) + [last];
      TallyOfSnoc(a + front, last, name);
      TallyOfSnoc(front, last, name);
      TallyOfConcat(a, front, name);
    }
  }

  /** Removing an element found at index `k` removes one occurrence of it. */
  lemma RemoveAt(a: seq<UserGame>, b: seq<UserGame>, k: nat)
    requires a != [] && multiset(a) == multiset(b)
    requires k < |b| && b[k] == a[0]
    ensures b == b[..k] + [a[0]] + b[k + 1..]
    ensures multiset(a[1..]) == multiset(b[..k] + b[k + 1..])
  {
    var before, after := b[..k], b[k + 1..];
    assert b == before + [a[0]] + after;
    assert a == [a[0]] + a[1..];
    calc {
      multiset(a[1..]) + multiset{a[0]};
      multiset(a);
      multiset(b);
      multiset(before) + multiset{a[0]} + multiset(after);
      multiset(before + after) + multiset{a[0]};
    }
    var m1, m2 := multiset(a[1..]), multiset(before + after);
    forall y ensures m1[y] == m2[y] {
      assert (m1 + multiset{a[0]})[y] == (m2 + multiset{a[0]})[y];
    }
    assert m1 == m2;
  }

  /** The totals of `before + [x] + after` are those of `x` added to the
      totals of `before + after`. */
  lemma TallyOfSplit(before: seq<UserGame>, x: UserGame, after: seq<UserGame>, name: string)
    ensures TallyOf(before + [x] + after, name) == Combine(TallyOf([x], name), TallyOf(before + after, name))
  {
    TallyOfConcat(before + [x], after, name);
    TallyOfConcat(before, [x], name);
    TallyOfConcat(before, after, name);
  }

  /** Grouping does not depend on the order the games come in: views that
      are permutations of each other have the same totals for every opening. */
  lemma {:induction false} TallyOfOrderIndependent(a: seq<UserGame>, b: seq<UserGame>, name: string)
    requires multiset(a) == multiset(b)
    ensures TallyOf(a, name) == TallyOf(b, name)
    decreases |a|
  {
    if a == [] {
      assert |b| == |multiset(b)| == 0;
    } else {
      assert a[0] in multiset(b);
      var k :| 0 <= k < |b| && b[k] == a[0];
      RemoveAt(a, b, k);
      TallyOfOrderIndependent(a[1..], b[..k] + b[k + 1..], name);
      assert a == [a[0]] + a[1..];
      TallyOfConcat([a[0]], a[1..], name);
      TallyOfSplit(b[..k], a[0], b[k + 1..], name);
    }
  }

  /** With valid flags, wins + draws + losses never exceed the games of the
      group, and equal them when every game of the group is classified. */
  lemma {:induction false} TallyOutcomes(view: seq<UserGame>, name: string)
    requires forall g :: g in view ==> ValidUserGame(g)
    ensures var t := TallyOf(view, name);
      t.wins <= t.games && t.draws <= t.games && t.losses <= t.games && t.wins + t.draws + t.losses <= t.games
    ensures (forall g :: g in view && g.opening == name ==> g.win + g.draw + g.loss == 1) ==>
      var t := TallyOf(view, name); t.wins + t.draws + t.losses == t.games
  {
    if view != [] {
      var front, last := view[..|view| - 1], view[|view| - 1];
      assert view == front + [last];
      assert forall g :: g in front ==> g in view;
      assert ValidUserGame(last);
      TallyOfSnoc(front, last, name);
      TallyOutcomes(front, name);
    }
  }

  /** One row of the group-by table under construction. */
  datatype Group = Group(opening: string, tally: Tally)

  predicate DistinctGroups(groups: seq<Group>) {
    forall i, j :: 0 <= i < j < |groups| ==> groups[i].opening != groups[j].opening
  }

  /** The games counted over all groups. */
  function GroupGames(groups: seq<Group>): nat {
    if groups == [] then 0 else groups[0].tally.games + GroupGames(groups[1..])
  }

  lemma {:induction false} GroupGamesUpdate(groups: seq<Group>, j: nat, x: Group)
    requires j < |groups|
    ensures GroupGames(groups[j := x]) == GroupGames(groups) - groups[j].tally.games + x.tally.games
  {
    if j > 0 {
      assert groups[j := x][1..] == groups[1..][j - 1 := x];
      GroupGamesUpdate(groups[1..], j - 1, x);
    }
  }

  lemma {:induction false} GroupGamesAppend(groups: seq<Group>, x: Group)
    ensures GroupGames(groups + [x]) == GroupGames(groups) + x.tally.games
  {
    if groups == [] {
      assert [x][1..] == [];
    } else {
      assert (groups + [x])[1..] == groups[1..] + [x];
      GroupGamesAppend(groups[1..], x);
    }
  }

  /** The position of the group for `name`, or `|groups|` if it has none. */
  function FindGroup(groups: seq<Group>, name: string): (j: nat)
    ensures j <= |groups|
    ensures j < |groups| ==> groups[j].opening == name
    ensures j == |groups| ==> forall k :: 0 <= k < |groups| ==> groups[k].opening != name
  {
    if groups == [] then 0
    else if groups[0].opening == name then 0
    else 1 + FindGroup(groups[1..], name)
  }

  /** `groups` is the group-by table of `view`: one group per distinct
      opening of the view, each holding exactly the totals of that opening's
      games, with counts adding up to the size of the view. */
  ghost predicate Tabulates(groups: seq<Group>, view: seq<UserGame>) {
    && DistinctGroups(groups)
    && (forall name :: name in Openings(view) <==> exists j :: 0 <= j < |groups| && groups[j].opening == name)
    && (forall j :: 0 <= j < |groups| ==> groups[j].tally == TallyOf(view, groups[j].opening))
    && GroupGames(groups) == |view|
  }

  /** Counting one more game of an opening the table already has. */
  lemma TabulateUpdate(groups: seq<Group>, seen: seq<UserGame>, g: UserGame, j: nat)
    requires Tabulates(groups, seen)
    requires j < |groups| && groups[j].opening == g.opening
    ensures Tabulates(groups[j := Group(g.opening, AddGame(groups[j].tally, g))], seen + [g])
  {
    var view := seen + [g];
    var updated := Group(g.opening, AddGame(groups[j].tally, g));
    var next := groups[j := updated];
    assert Openings(view) == Openings(seen) + {g.opening};
    forall k | 0 <= k < |next| ensures next[k].tally == TallyOf(view, next[k].opening) {
      TallyOfSnoc(seen, g, next[k].opening);
    }
    forall name ensures name in Openings(view) <==> exists k :: 0 <= k < |next| && next[k].opening == name {
      if exists k :: 0 <= k < |groups| && groups[k].opening == name {
        var k :| 0 <= k < |groups| && groups[k].opening == name;
        assert next[k].opening == name;
      }
    }
    GroupGamesUpdate(groups, j, updated);
  }

  /** Counting the first game of an opening the table does not have yet. */
  lemma TabulateAppend(groups: seq<Group>, seen: seq<UserGame>, g: UserGame)
    requires Tabulates(groups, seen)
    requires forall k :: 0 <= k < |groups| ==> groups[k].opening != g.opening
    ensures Tabulates(groups + [Group(g.opening, AddGame(NoGames, g))], seen + [g])
  {
    var view := seen + [g];
    var added := Group(g.opening, AddGame(NoGames, g));
    var next := groups + [added];
    assert Openings(view) == Openings(seen) + {g.opening};
    TallyOfOccurs(seen, g.opening);
    forall k | 0 <= k < |next| ensures next[k].tally == TallyOf(view, next[k].opening) {
      TallyOfSnoc(seen, g, next[k].opening);
    }
    forall name ensures name in Openings(view) <==> exists k :: 0 <= k < |next| && next[k].opening == name {
      if name == g.opening {
        assert next[|groups|].opening == name;
      } else if exists k :: 0 <= k < |groups| && groups[k].opening == name {
        var k :| 0 <= k < |groups| && groups[k].opening == name;
        assert next[k].opening == name;
      }
    }
    GroupGamesAppend(groups, added);
  }

  /** `df.groupby('opening')`: one pass over the view that keeps a table of
      per-opening counts and sums. The table has one group per distinct
      opening of the view, each group holds exactly the totals of that
      opening's games, and the counts add up to the size of the view. */
  method GroupByOpening(view: seq<UserGame>) returns (groups: seq<Group>)
    ensures Tabulates(groups, view)
  {
    groups := [];
    var i := 0;
    assert view[..0] == [];
    while i < |view|
      invariant 0 <= i <= |view|
      invariant Tabulates(groups, view[..i])
    {
      var g := view[i];
      assert view[..i + 1] == view[..i] + [g];
      var j := FindGroup(groups, g.opening);
      if j < |groups| {
        TabulateUpdate(groups, view[..i], g, j);
        groups := groups[j := Group(g.opening, AddGame(groups[j].tally, g))];
      } else {
        TabulateAppend(groups, view[..i], g);
        groups := groups + [Group(g.opening, AddGame(NoGames, g))];
      }
      i := i + 1;
    }
    assert view[..i] == view;
  }

  /** One output row: the opening, `Games_Played`, the three rate columns,
      and the two average ratings. */
  datatype StatRow = StatRow(
    opening: string,
    gamesPlayed: nat,
    winRate: real,
    drawRate: real,
    lossRate: real,
    avgSelfRating: real,
    avgOpponentRating: real
  )

  /** The arithmetic mean of `n` values whose sum is `sum`. */
  function Mean(sum: int, n: nat): real
    requires n > 0
  {
    sum as real / n as real
  }

  /** The `agg` row of one group: its count and its five means. */
  function Summary(name: string, t: Tally): StatRow
    requires t.games > 0
  {
    StatRow(name, t.games, Mean(t.wins, t.games), Mean(t.draws, t.games), Mean(t.losses, t.games),
            Mean(t.userRatingSum, t.games), Mean(t.opponentRatingSum, t.games))
  }

  /** The `agg(...).reset_index()` table: one summary row per group, in order. */
  function Summarise(groups: seq<Group>): (rows: seq<StatRow>)
    requires forall j :: 0 <= j < |groups| ==> groups[j].tally.games > 0
    ensures |rows| == |groups|
    ensures forall j :: 0 <= j < |groups| ==> rows[j] == Summary(groups[j].opening, groups[j].tally)
    ensures forall j :: 0 <= j < |groups| ==> rows[j].opening == groups[j].opening
  {
    if groups == [] then [] else [Summary(groups[0].opening, groups[0].tally)] + Summarise(groups[1..])
  }

  /** The `Games_Played` column summed. */
  function GamesPlayed(rows: seq<StatRow>): nat {
    if rows == [] then 0 else rows[0].gamesPlayed + GamesPlayed(rows[1..])
  }

  predicate DistinctRows(rows: seq<StatRow>) {
    forall i, j :: 0 <= i < j < |rows| ==> rows[i].opening != rows[j].opening
  }

  /** `Games_Played` is non-increasing down the table. */
  predicate NonIncreasing(rows: seq<StatRow>) {
    forall i, j :: 0 <= i < j < |rows| ==> rows[i].gamesPlayed >= rows[j].gamesPlayed
  }

  /** Two tables with the same openings and counts row by row. */
  predicate SameCounts(a: seq<StatRow>, b: seq<StatRow>) {
    |a| == |b| && forall i :: 0 <= i < |a| ==> a[i].opening == b[i].opening && a[i].gamesPlayed == b[i].gamesPlayed
  }

  /** Tables with the same counts row by row have the same total, order and
      distinctness. */
  lemma {:induction false} SameCountsKeepShape(a: seq<StatRow>, b: seq<StatRow>)
    requires SameCounts(a, b)
    ensures GamesPlayed(a) == GamesPlayed(b)
    ensures NonIncreasing(a) <==> NonIncreasing(b)
    ensures DistinctRows(a) <==> DistinctRows(b)
  {
    if a != [] {
      SameCountsKeepShape(a[1..], b[1..]);
    }
  }

  /** The summarised table has the counts of the groups it came from. */
  lemma {:induction false} SummariseGames(groups: seq<Group>)
    requires forall j :: 0 <= j < |groups| ==> groups[j].tally.games > 0
    ensures GamesPlayed(Summarise(groups)) == GroupGames(groups)
    ensures DistinctGroups(groups) ==> DistinctRows(Summarise(groups))
  {
    if groups != [] {
      assert Summarise(groups)[1..] == Summarise(groups[1..]);
      SummariseGames(groups[1..]);
    }
  }

  /** Inserts a row into a table ordered by `Games_Played`, descending. */
  function InsertByGames(x: StatRow, rows: seq<StatRow>): (r: seq<StatRow>)
    requires NonIncreasing(rows)
    ensures NonIncreasing(r)
    ensures forall y :: y in r <==> y == x || y in rows
    ensures multiset(r) == multiset(rows) + multiset{x}
    ensures GamesPlayed(r) == x.gamesPlayed + GamesPlayed(rows)
  {
    if rows == [] then [x]
    else if x.gamesPlayed >= rows[0].gamesPlayed then
      assert ([x] + rows)[1..] == rows;
      [x] + rows
    else
      var rest := InsertByGames(x, rows[1..]);
      assert rows == [rows[0]] + rows[1..];
      assert ([rows[0]] + rest)[1..] == rest;
      InsertKeepsOrder(rows[0], x, rows[1..], rest);
      [rows[0]] + rest
  }

  /** Putting `head` before the insertion of a smaller row keeps the order. */
  lemma InsertKeepsOrder(head: StatRow, x: StatRow, tail: seq<StatRow>, rest: seq<StatRow>)
    requires NonIncreasing([head] + tail) && NonIncreasing(rest)
    requires x.gamesPlayed < head.gamesPlayed
    requires forall y :: y in rest ==> y == x || y in tail
    ensures NonIncreasing([head] + rest)
  {
    forall k | 0 <= k < |rest| ensures rest[k].gamesPlayed <= head.gamesPlayed {
      assert rest[k] in rest;
      if rest[k] != x {
        var m :| 0 <= m < |tail| && tail[m] == rest[k];
        assert ([head] + tail)[0] == head && ([head] + tail)[m + 1] == rest[k];
      }
    }
    var r := [head] + rest;
    forall i, j | 0 <= i < j < |r| ensures r[i].gamesPlayed >= r[j].gamesPlayed {
      if i == 0 {
        assert r[j] == rest[j - 1];
      } else {
        assert r[i] == rest[i - 1] && r[j] == rest[j - 1];
      }
    }
  }

  /** A table is distinct when its head's opening is not in its tail and its tail is distinct. */
  lemma DistinctCons(head: StatRow, tail: seq<StatRow>)
    ensures DistinctRows([head] + tail) <==> DistinctRows(tail) && forall y :: y in tail ==> y.opening != head.opening
  {
    var r := [head] + tail;
    if DistinctRows(r) {
      forall i, j | 0 <= i < j < |tail| ensures tail[i].opening != tail[j].opening {
        assert tail[i] == r[i + 1] && tail[j] == r[j + 1];
      }
      forall y | y in tail ensures y.opening != head.opening {
        var m :| 0 <= m < |tail| && tail[m] == y;
        assert r[0] == head && r[m + 1] == y;
      }
    }
    if DistinctRows(tail) && forall y :: y in tail ==> y.opening != head.opening {
      forall i, j | 0 <= i < j < |r| ensures r[i].opening != r[j].opening {
        assert r[j] == tail[j - 1] && tail[j - 1] in tail;
        if i > 0 {
          assert r[i] == tail[i - 1];
        }
      }
    }
  }

  /** Inserting a row whose opening is new keeps the openings distinct. */
  lemma {:induction false} InsertKeepsDistinct(x: StatRow, rows: seq<StatRow>)
    requires NonIncreasing(rows) && DistinctRows(rows)
    requires forall y :: y in rows ==> y.opening != x.opening
    ensures DistinctRows(InsertByGames(x, rows))
  {
    if rows == [] {
    } else if x.gamesPlayed >= rows[0].gamesPlayed {
      DistinctCons(x, rows);
    } else {
      var tail := rows[1..];
      assert rows == [rows[0]] + tail;
      DistinctCons(rows[0], tail);
      InsertKeepsDistinct(x, tail);
      var rest := InsertByGames(x, tail);
      assert forall y :: y in rest ==> y.opening != rows[0].opening by {
        assert x.opening != rows[0].opening by { assert rows[0] in rows; }
      }
      DistinctCons(rows[0], rest);
    }
  }

  /** `sort_values(by='Games_Played', ascending=False)`: the same rows, ordered
      by games played, descending. Nothing is promised about the order of
      rows with equal counts. */
  function SortByGamesPlayed(rows: seq<StatRow>): (r: seq<StatRow>)
    ensures NonIncreasing(r)
    ensures forall y :: y in r <==> y in rows
    ensures multiset(r) == multiset(rows)
    ensures GamesPlayed(r) == GamesPlayed(rows)
  {
    if rows == [] then []
    else
      assert rows == [rows[0]] + rows[1..];
      InsertByGames(rows[0], SortByGamesPlayed(rows[1..]))
  }

  /** Sorting keeps the openings distinct. */
  lemma {:induction false} SortKeepsDistinct(rows: seq<StatRow>)
    requires DistinctRows(rows)
    ensures DistinctRows(SortByGamesPlayed(rows))
  {
    if rows != [] {
      assert rows == [rows[0]] + rows[1..];
      DistinctCons(rows[0], rows[1..]);
      SortKeepsDistinct(rows[1..]);
      InsertKeepsDistinct(rows[0], SortByGamesPlayed(rows[1..]));
    }
  }

  /** One row with its three rate columns multiplied by 100. */
  function ScaleRow(row: StatRow): StatRow {
    row.(winRate := 100.0 * row.winRate, drawRate := 100.0 * row.drawRate, lossRate := 100.0 * row.lossRate)
  }

  /** One row with its rate and rating columns passed through `rounder`. */
  function RoundRow(row: StatRow, rounder: real -> real): StatRow {
    row.(winRate := rounder(row.winRate), drawRate := rounder(row.drawRate), lossRate := rounder(row.lossRate),
         avgSelfRating := rounder(row.avgSelfRating), avgOpponentRating := rounder(row.avgOpponentRating))
  }

  /** The three rate columns multiplied by 100, row by row. */
  function ScaleRates(rows: seq<StatRow>): (r: seq<StatRow>)
    ensures SameCounts(r, rows)
    ensures forall i :: 0 <= i < |rows| ==> r[i] == ScaleRow(rows[i])
  {
    if rows == [] then [] else [ScaleRow(rows[0])] + ScaleRates(rows[1..])
  }

  /** The rate and rating columns passed through `rounder`, row by row. */
  function RoundStats(rows: seq<StatRow>, rounder: real -> real): (r: seq<StatRow>)
    ensures SameCounts(r, rows)
    ensures forall i :: 0 <= i < |rows| ==> r[i] == RoundRow(rows[i], rounder)
  {
    if rows == [] then [] else [RoundRow(rows[0], rounder)] + RoundStats(rows[1..], rounder)
  }
}
