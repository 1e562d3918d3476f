/** `analyse_games`: the whole pipeline from the fetched games to the
    per-opening statistics table of one user and one colour. */
module Analysis {
  import opened Records
  import opened Eco
  import opened Classify
  import opened Sides
  import opened Aggregate

  /** The selected view the statistics are computed over: the cleaned,
      classified games, split by side and relabelled for the user. */
  function AnalysedView(openings: map<string, string>, games: seq<GameRecord>, username: string, colour: Colour): seq<UserGame>
    requires ClassifyAll(openings, Clean(games)).Ok?
  {
    SelectView(ClassifyAll(openings, Clean(games)).value, username, colour)
  }

  /** A table row reports its opening's group of the view: `Games_Played` is
      the group's count, each rate is 100 times the mean of its flag, each
      average the mean rating, all passed through `rounder`. */
  predicate Reports(row: StatRow, view: seq<UserGame>, rounder: real -> real) {
    var t := TallyOf(view, row.opening);
    && t.games > 0
    && row.gamesPlayed == t.games
    && row.winRate == rounder(100.0 * Mean(t.wins, t.games))
    && row.drawRate == rounder(100.0 * Mean(t.draws, t.games))
    && row.lossRate == rounder(100.0 * Mean(t.losses, t.games))
    && row.avgSelfRating == rounder(Mean(t.userRatingSum, t.games))
    && row.avgOpponentRating == rounder(Mean(t.opponentRatingSum, t.games))
  }

  /** `rows` is the statistics table of `view`: exactly one row per distinct
      opening of the view, every row reporting its group, the counts adding
      up to the size of the view, and `Games_Played` non-increasing. */
  ghost predicate StatsTable(rows: seq<StatRow>, view: seq<UserGame>, rounder: real -> real) {
    && DistinctRows(rows)
    && (forall name :: name in Openings(view) <==> exists i :: 0 <= i < |rows| && rows[i].opening == name)
    && (forall i :: 0 <= i < |rows| ==> Reports(rows[i], view, rounder))
    && GamesPlayed(rows) == |view|
    && NonIncreasing(rows)
  }

  /** `rows` are the unscaled summaries of `view`: each opening of the view
      once, each row the summary of its group, counts adding up to the view. */
  ghost predicate SummarisesView(rows: seq<StatRow>, view: seq<UserGame>) {
    && DistinctRows(rows)
    && GamesPlayed(rows) == |view|
    && (forall x :: x in rows ==> TallyOf(view, x.opening).games > 0 && x == Summary(x.opening, TallyOf(view, x.opening)))
    && (forall name :: name in Openings(view) <==> exists x :: x in rows && x.opening == name)
  }

  /** Each row of the `agg` table is the summary of its opening's group. */
  lemma SummaryRowsReport(groups: seq<Group>, view: seq<UserGame>)
    requires forall j :: 0 <= j < |groups| ==> groups[j].tally.games > 0
    requires forall j :: 0 <= j < |groups| ==> groups[j].tally == TallyOf(view, groups[j].opening)
    ensures forall x :: x in Summarise(groups) ==>
      TallyOf(view, x.opening).games > 0 && x == Summary(x.opening, TallyOf(view, x.opening))
  {
    var stats := Summarise(groups);
    forall x | x in stats ensures TallyOf(view, x.opening).games > 0 && x == Summary(x.opening, TallyOf(view, x.opening)) {
      var j :| 0 <= j < |stats| && stats[j] == x;
      assert x == Summary(groups[j].opening, groups[j].tally);
    }
  }

  /** The `agg` table has a row for exactly the openings of the view. */
  lemma SummaryRowsCover(groups: seq<Group>, view: seq<UserGame>)
    requires forall j :: 0 <= j < |groups| ==> groups[j].tally.games > 0
    requires forall name :: name in Openings(view) <==> exists j :: 0 <= j < |groups| && groups[j].opening == name
    ensures forall name :: name in Openings(view) <==> exists x :: x in Summarise(groups) && x.opening == name
  {
  }

  /** The `agg` table of a group-by table summarises the view. */
  lemma SummariesOfTable(groups: seq<Group>, view: seq<UserGame>)
    requires Tabulates(groups, view)
    requires forall j :: 0 <= j < |groups| ==> groups[j].tally.games > 0
    ensures SummarisesView(Summarise(groups), view)
  {
    SummariseGames(groups);
    SummaryRowsReport(groups, view);
    SummaryRowsCover(groups, view);
  }

  /** Sorting the summaries keeps what they say about the view. */
  lemma SortedSummaries(groups: seq<Group>, view: seq<UserGame>)
    requires Tabulates(groups, view)
    requires forall j :: 0 <= j < |groups| ==> groups[j].tally.games > 0
    ensures SummarisesView(SortByGamesPlayed(Summarise(groups)), view)
    ensures NonIncreasing(SortByGamesPlayed(Summarise(groups)))
  {
    SummariesOfTable(groups, view);
    SortKeepsDistinct(Summarise(groups));
  }

  /** A summary row, scaled and rounded, reports its group. */
  lemma FinishedRowReports(x: StatRow, view: seq<UserGame>, rounder: real -> real)
    requires TallyOf(view, x.opening).games > 0 && x == Summary(x.opening, TallyOf(view, x.opening))
    ensures Reports(RoundRow(ScaleRow(x), rounder), view, rounder)
  {
  }

  /** Scaling and rounding the sorted summaries gives the statistics table. */
  lemma FinishedTable(sorted: seq<StatRow>, view: seq<UserGame>, rounder: real -> real)
    requires SummarisesView(sorted, view) && NonIncreasing(sorted)
    ensures StatsTable(RoundStats(ScaleRates(sorted), rounder), view, rounder)
  {
    var scaled := ScaleRates(sorted);
    SameCountsKeepShape(scaled, sorted);
    var rounded := RoundStats(scaled, rounder);
    SameCountsKeepShape(rounded, scaled);
    forall i | 0 <= i < |rounded| ensures Reports(rounded[i], view, rounder) {
      assert sorted[i] in sorted;
      FinishedRowReports(sorted[i], view, rounder);
    }
    forall name ensures name in Openings(view) <==> exists i :: 0 <= i < |rounded| && rounded[i].opening == name {
      if name in Openings(view) {
        var x :| x in sorted && x.opening == name;
        var i :| 0 <= i < |sorted| && sorted[i] == x;
        assert rounded[i].opening == name;
      }
      if exists i :: 0 <= i < |rounded| && rounded[i].opening == name {
        var i :| 0 <= i < |rounded| && rounded[i].opening == name;
        assert sorted[i] in sorted;
      }
    }
  }

  /** The statistics of the games of `username` playing `colour`, with
      `rounder` standing for `round(x, 1)`. The analysis fails exactly when
      some cleaned game's opening code does not resolve, with the code of the
      first such game; otherwise it returns the statistics table of the
      selected view, which is empty when the view is. */
  method AnalyseGames(games: seq<GameRecord>, username: string, colour: Colour,
                      openings: map<string, string>, rounder: real -> real)
    returns (r: Result<seq<StatRow>, LookupError>)
    ensures r.Err? <==> exists g :: g in Clean(games) && !Resolves(openings, g)
    ensures r.Err? ==> var kept := Clean(games);
      exists i :: 0 <= i < |kept| && !Resolves(openings, kept[i])
        && (forall j :: 0 <= j < i ==> Resolves(openings, kept[j]))
        && r.error == MissingOpening(PgnToEco(kept[i].pgn))
    ensures r.Ok? ==> ClassifyAll(openings, Clean(games)).Ok?
    ensures r.Ok? ==> StatsTable(r.value, AnalysedView(openings, games, username, colour), rounder)
    ensures r.Ok? && AnalysedView(openings, games, username, colour) == [] ==> r.value == []
  {
    var df := Clean(games);
    var classified := ClassifyAll(openings, df);
    if classified.Err? {
      return Err(classified.error);
    }
    var view := SelectView(classified.value, username, colour);

    var groups := GroupByOpening(view);
    forall j | 0 <= j < |groups| ensures groups[j].tally.games > 0 {
      TallyOfOccurs(view, groups[j].opening);
    }
    var stats := Summarise(groups);
    stats := SortByGamesPlayed(stats);
    stats := ScaleRates(stats);
    stats := RoundStats(stats, rounder);
    SortedSummaries(groups, view);
    FinishedTable(SortByGamesPlayed(Summarise(groups)), view, rounder);
    return Ok(stats);
  }

  /** A mean times the number of values is their sum. */
  lemma MeanTimesCount(sum: int, n: nat)
    requires n > 0
    ensures Mean(sum, n) * n as real == sum as real
  {
  }

  /** Means over the same number of values add up like their sums. */
  lemma MeanAdd(a: int, b: int, n: nat)
    requires n > 0
    ensures Mean(a, n) + Mean(b, n) == Mean(a + b, n)
  {
    MeanTimesCount(a, n);
    MeanTimesCount(b, n);
    MeanTimesCount(a + b, n);
    assert (Mean(a, n) + Mean(b, n)) * n as real == Mean(a + b, n) * n as real;
  }

  /** 100 times the share of a count in the games lies between 0 and 100. */
  lemma RateBounds(count: nat, games: nat)
    requires 0 < games && count <= games
    ensures 0.0 <= 100.0 * Mean(count, games) <= 100.0
  {
    MeanTimesCount(count, games);
    var m := Mean(count, games);
    if m > 1.0 {
      assert m * games as real > 1.0 * games as real;
    }
  }

  /** The unrounded rates of a group lie in [0, 100] and add up to at most
      100, and to exactly 100 when every game of the group is classified. */
  lemma GroupRates(view: seq<UserGame>, name: string)
    requires forall g :: g in view ==> ValidUserGame(g)
    requires name in Openings(view)
    ensures var t := TallyOf(view, name);
      && t.games > 0
      && 0.0 <= 100.0 * Mean(t.wins, t.games) <= 100.0
      && 0.0 <= 100.0 * Mean(t.draws, t.games) <= 100.0
      && 0.0 <= 100.0 * Mean(t.losses, t.games) <= 100.0
      && 100.0 * Mean(t.wins, t.games) + 100.0 * Mean(t.draws, t.games) + 100.0 * Mean(t.losses, t.games) <= 100.0
    ensures (forall g :: g in view && g.opening == name ==> g.win + g.draw + g.loss == 1) ==>
      var t := TallyOf(view, name);
      100.0 * Mean(t.wins, t.games) + 100.0 * Mean(t.draws, t.games) + 100.0 * Mean(t.losses, t.games) == 100.0
  {
    var t := TallyOf(view, name);
    TallyOfOccurs(view, name);
    TallyOutcomes(view, name);
    var n := t.games;
    RateBounds(t.wins, n);
    RateBounds(t.draws, n);
    RateBounds(t.losses, n);
    RateBounds(t.wins + t.draws + t.losses, n);
    MeanAdd(t.wins, t.draws, n);
    MeanAdd(t.wins + t.draws, t.losses, n);
    if t.wins + t.draws + t.losses == n {
      MeanTimesCount(n, n);
      assert Mean(n, n) == 1.0;
    }
  }

  /** With a rounding step that is monotone and keeps 0 and 100, every rate
      the table reports lies in [0, 100]. */
  lemma ReportedRatesInRange(rows: seq<StatRow>, view: seq<UserGame>, rounder: real -> real)
    requires forall g :: g in view ==> ValidUserGame(g)
    requires forall i :: 0 <= i < |rows| ==> Reports(rows[i], view, rounder)
    requires forall x, y :: x <= y ==> rounder(x) <= rounder(y)
    requires rounder(0.0) == 0.0 && rounder(100.0) == 100.0
    ensures forall i :: 0 <= i < |rows| ==>
      && 0.0 <= rows[i].winRate <= 100.0
      && 0.0 <= rows[i].drawRate <= 100.0
      && 0.0 <= rows[i].lossRate <= 100.0
  {
    forall i | 0 <= i < |rows|
      ensures 0.0 <= rows[i].winRate <= 100.0 && 0.0 <= rows[i].drawRate <= 100.0 && 0.0 <= rows[i].lossRate <= 100.0
    {
      TallyOfOccurs(view, rows[i].opening);
      GroupRates(view, rows[i].opening);
    }
  }

  /** The sum of a group's ratings lies between `games` times the lowest and
      `games` times the highest rating of the group. */
  lemma {:induction false} RatingSumBounds(view: seq<UserGame>, name: string, lo: int, hi: int)
    requires forall g :: g in view && g.opening == name ==> lo <= g.userRating <= hi
    ensures var t := TallyOf(view, name); lo * t.games <= t.userRatingSum <= hi * t.games
  {
    if view != [] {
      var front, last := view[..|view| - 1], view[|view| - 1];
      assert view == front + [last];
      assert forall g :: g in front ==> g in view;
      RatingSumBounds(front, name, lo, hi);
      TallyOfSnoc(front, last, name);
      if last.opening == name {
        assert last in view;
        var t := TallyOf(front, name);
        SumStep(lo, hi, t.games, t.userRatingSum, last.userRating);
      }
    }
  }

  /** Adding one rating within the bounds to a bounded sum keeps it bounded. */
  lemma SumStep(lo: int, hi: int, n: nat, sum: int, rating: int)
    requires lo * n <= sum <= hi * n && lo <= rating <= hi
    ensures lo * (n + 1) <= sum + rating <= hi * (n + 1)
  {
    assert lo * (n + 1) == lo * n + lo;
    assert hi * (n + 1) == hi * n + hi;
  }

  /** The mean of a sum bounded by `n` times `lo` and `hi` lies between them. */
  lemma MeanBounds(sum: int, n: nat, lo: int, hi: int)
    requires n > 0 && lo * n <= sum <= hi * n
    ensures lo as real <= Mean(sum, n) <= hi as real
  {
    ProductAsReal(lo, n);
    ProductAsReal(hi, n);
    QuotientBounds(sum as real, n as real, lo as real, hi as real);
  }

  /** A quotient by a positive number lies between the bounds it was multiplied by. */
  lemma QuotientBounds(sum: real, n: real, lo: real, hi: real)
    requires n > 0.0 && lo * n <= sum <= hi * n
    ensures lo <= sum / n <= hi
  {
    assert (sum / n) * n == sum;
  }

  /** An integer product converts to the product of the converted factors. */
  lemma {:induction false} ProductAsReal(a: int, b: nat)
    ensures (a * b) as real == a as real * b as real
  {
    if b > 0 {
      ProductAsReal(a, b - 1);
      assert a * b == a * (b - 1) + a;
    }
  }

  /** The average user rating of a group lies within the group's ratings. */
  lemma AverageRatingWithinRatings(view: seq<UserGame>, name: string, lo: int, hi: int)
    requires forall g :: g in view && g.opening == name ==> lo <= g.userRating <= hi
    requires name in Openings(view)
    ensures var t := TallyOf(view, name); t.games > 0 && lo as real <= Mean(t.userRatingSum, t.games) <= hi as real
  {
    var t := TallyOf(view, name);
    TallyOfOccurs(view, name);
    RatingSumBounds(view, name, lo, hi);
    MeanBounds(t.userRatingSum, t.games, lo, hi);
  }
}
