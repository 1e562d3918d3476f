# Chess opening analysis: a verified model of the analysis pipeline

This project models the analysis core of a small chess.com opening
analyser. The analyser's `analyse_games` takes a player's already-fetched
games and produces a table of per-opening statistics for one user and one
colour. It works in five steps:

1. It keeps the rated games of standard chess.
2. It classifies each game by White's result code into three 0/1 flags
   (`White_Win`, `Draw`, `Black_Win`).
3. It extracts the ECO opening code from the PGN text (`pgn_to_eco`) and
   resolves it to a name in the opening table (`eco_to_opening`). This
   lookup is strict.
4. It splits the games into the user's games as White and as Black, and
   renames the columns so that `Win`, `Loss`, `user_rating` and
   `opponent_rating` always speak of the user.
5. It groups the selected view by opening. It reports the count, the win,
   draw and loss rates (×100, rounded to one decimal) and the average
   ratings, sorted by games played, descending.

Modules, one file each:

- `Records` (`records.dfy`): the game record, the colour enumeration, and
  Option/Result.
- `Eco` (`eco.dfy`): the tag search and the strict lookup.
- `Classify` (`classify.dfy`): cleaning, the outcome flags, and per-game
  classification.
- `Sides` (`sides.dfy`): the white and black views and the relabelling.
- `Aggregate` (`aggregate.dfy`): the group-by loop, the summaries, the
  sort, and the scaling and rounding.
- `Analysis` (`analysis.dfy`): the `AnalyseGames` method and the lemmas
  about the table it returns.

How the source is represented:

- The pandas dataframe becomes a sequence of `GameRecord` values.
- The opening table loaded from `openings_dict.json` becomes a
  `map<string, string>` parameter.
- The colour becomes the two-value datatype `Colour`.
- `round(x, 1)` becomes a parameter `rounder: real -> real`, an abstract
  rounding step.
- Rates and averages are exact reals built from integer counts and sums,
  not floats.
- The group-by is a method with a loop. The loop keeps a table of
  per-opening counts and sums. It is proved against `TallyOf`, a
  per-opening reference fold over the view.

Three behaviours of the code that the model keeps:

- A White result code outside the three sets sets no flag: `White_Win` is
  1 only for `win` (Analysis.py:62).
- A code missing from the table aborts the whole analysis. The lookup runs
  over every cleaned game before the side split, so this includes a game
  in which the user played the other colour (Analysis.py:71-73).
- No order is promised among equal `Games_Played` counts, because
  `sort_values` defaults to quicksort, which is not stable (Analysis.py:92).

## Model

| member | source | states |
|---|---|---|
| `Eco.ExtractAtIsTag` | Analysis.py:45 | at a fixed position the pattern `\[ECO "([^"]+)"\]` captures `c` exactly when `[ECO "c"]` starts there with `c` non-empty and quote-free |
| `Eco.PgnToEco` | Analysis.py:44-48 | a returned code is the code of a tag `[ECO "c"]` (non-empty, quote-free) with no tag before it; None is returned exactly when the PGN holds no tag |
| `Eco.PgnToEcoFirstTag` | Analysis.py:44-47 | if the first tag in the PGN is `[ECO "c"]`, `pgn_to_eco` returns `c` |
| `Eco.EcoToOpening` | Analysis.py:50-51 | the lookup succeeds exactly when the code is present and is a key, and then yields `openings_dict[eco]`; otherwise it fails with that code and no fallback name |
| `Classify.Clean` | Analysis.py:60-61 | the kept games are exactly the input games that are rated and have rules `chess` |
| `Classify.CleanConcat` | Analysis.py:60-61 | cleaning keeps the order: cleaning a concatenation gives the concatenation of the cleaned parts |
| `Classify.CleanSingle` | Analysis.py:60-61 | one game is kept exactly when it is rated standard chess; together with `CleanConcat` this makes the result the order-preserving subsequence of kept games |
| `Classify.ClassifyResult` | Analysis.py:62-66 | `White_Win` is 1 iff the result is `win`; `Draw` is 1 iff it is a draw code; `Black_Win` is 1 iff it is a loss code; each flag is 0 or 1 |
| `Classify.OutcomeExclusive` | Analysis.py:62-66 | the three code sets are disjoint; at most one flag is set; exactly one is set iff the code is in their union; any other code gives all zeros |
| `Classify.ClassifyGame` | Analysis.py:62-71 | a game classifies exactly when its extracted code resolves; otherwise it fails with that code |
| `Classify.ClassifyGameFields` | Analysis.py:62-71 | a classified game carries the flags of White's result, the extracted code and `openings_dict` of that code, plus both names and ratings |
| `Classify.ClassifyAll` | Analysis.py:70-71 | classification of all kept games succeeds iff every code resolves; it fails with the code of the first game that does not resolve |
| `Sides.Lower` | Analysis.py:72-73 | `str.lower()` on ASCII: the result has the same length, each capital A-Z becomes its small letter, and every other character is kept |
| `Sides.WhiteView` | Analysis.py:72-74 | the white view holds exactly the games whose White matches the user case-insensitively, with `Win`=`White_Win`, `Loss`=`Black_Win`, `user_rating`=White's rating, `opponent_rating`=Black's rating, and `Draw` and the opening unchanged |
| `Sides.BlackView` | Analysis.py:73-75 | the mirror image: games whose Black matches the user, with `Win`=`Black_Win`, `Loss`=`White_Win`, and the ratings swapped |
| `Sides.BlackViewMirrorsWhiteView` | Analysis.py:72-75 | the black view is the white view of the games with the colours exchanged |
| `Sides.WhiteViewConcat` | Analysis.py:72 | the white view takes games one at a time and keeps their order |
| `Sides.BlackViewConcat` | Analysis.py:73 | the black view takes games one at a time and keeps their order |
| `Sides.ViewOfOneGame` | Analysis.py:72-73 | a game is in a view exactly when the user played that colour in it; a game the user played with neither colour is in neither view |
| `Sides.ViewsAreValid` | Analysis.py:62-75 | every game of a selected view has 0/1 flags with at most one set |
| `Sides.SelectView` | Analysis.py:76-79 | for White the selected view holds exactly the white-view games, relabelled as White; for Black exactly the black-view games, relabelled as Black |
| `Aggregate.TallyOfOccurs` | Analysis.py:83-84 | a group is non-empty exactly when its opening occurs in the view |
| `Aggregate.TallyOfConcat` | Analysis.py:83-90 | a group's totals over a concatenation are the sums of its totals over the parts |
| `Aggregate.TallyOfOrderIndependent` | Analysis.py:83-90 | grouping does not depend on the order of the games: two views that are permutations of each other have the same totals for every opening |
| `Aggregate.TallyOutcomes` | Analysis.py:83-87 | in each group w, d, l ≤ n and w+d+l ≤ n, with equality when every game of the group is classified |
| `Aggregate.GroupByOpening` | Analysis.py:83-90 | the group-by loop yields one group per distinct opening of the view; each group holds that opening's reference totals; the counts add up to the size of the view |
| `Aggregate.Summarise` | Analysis.py:83-90 | one row per group, in order: the opening, `Games_Played` = the group's count, and the means of the win, draw and loss flags and of the two ratings |
| `Aggregate.SortByGamesPlayed` | Analysis.py:92 | the sorted table is a permutation of the input, has non-increasing `Games_Played` and the same total count |
| `Aggregate.SortKeepsDistinct` | Analysis.py:92 | sorting keeps each opening on one row |
| `Aggregate.ScaleRates` | Analysis.py:94-96 | the same openings and counts row by row, with the win, draw and loss rates each multiplied by 100 and the averages untouched |
| `Aggregate.RoundStats` | Analysis.py:98-102 | the same openings and counts row by row, with the three rates and the two averages each passed through the rounding step |
| `Analysis.AnalyseGames` | Analysis.py:57-102 | fails iff some cleaned game's code does not resolve, reporting the first such code; otherwise returns one row per distinct opening of the selected view, each with count n and rounded rates `rounder(100·w/n)`, `rounder(100·d/n)`, `rounder(100·l/n)` and rounded mean ratings; the counts sum to the size of the view; rows are ordered by non-increasing `Games_Played`; an empty view gives an empty table |
| `Analysis.GroupRates` | Analysis.py:83-96 | a group's unrounded win, draw and loss rates each lie in [0, 100]; they add up to at most 100, and to exactly 100 when every game of the group is classified |
| `Analysis.ReportedRatesInRange` | Analysis.py:94-100 | if the rounding step is monotone and keeps 0 and 100, every reported rate lies in [0, 100] |
| `Analysis.AverageRatingWithinRatings` | Analysis.py:88 | a group's average user rating lies between the lowest and the highest user rating of the group |

## Left out

- Fetching the archive list and the monthly archives (Analysis.py:13-41): HTTP requests and JSON flattening. The model starts from a sequence of already-fetched records.
- Loading `openings_dict.json` (Analysis.py:10-11): the table is a map parameter.
- Saving to CSV (Analysis.py:106-107) and the Tkinter interface with its module-level start (Analysis.py:110-170): file output and GUI.
- Printing the table (Analysis.py:104): `analyse_games` prints `stats` and returns None. The model returns the table instead.
- `rounder` (Analysis.py:53-54): Python's `round` on floats is not modelled. Rounding is the parameter `rounder`, and rates and means are exact reals rather than floats.
- The copy of `eco` into `start_time` and the `drop(columns=...)` list (Analysis.py:67-69): the typed records keep only the columns the analysis reads. The error pandas raises when a listed column is missing is not modelled.
- The `'womp'` branch for a colour other than white or black (Analysis.py:80-81): the colour is a two-value datatype, so that branch cannot be reached.
- The time-class filter (Analysis.py:59): it is commented out in the source.
- Sides.Lower: only ASCII letters are lowered. Python's `str.lower()` also maps non-ASCII letters, and that mapping is not modelled.
- Aggregate.SortByGamesPlayed: the model sorts by insertion and promises nothing about the order of rows with equal counts, since pandas' default quicksort is not stable. The order in which `groupby` lists openings before the sort is not modelled either.
- Missing values (NaN) in pandas columns, and ratings of a non-integer type: ratings are integers and every field is present.
