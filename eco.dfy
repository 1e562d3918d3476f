/** Extraction of the opening code from a game's PGN text, and the strict
    lookup of that code in the opening table. */
module Eco {
  import opened Records

  /** The literal text before the captured code: `[ECO "`. */
  const TagOpen: string := "[ECO \""

  /** `[ECO "c"]` occurs in `s` at index `i`, with `c` non-empty and free of
      quotes: the pattern `\[ECO "([^"]+)"\]` matches at `i`, capturing `c`. */
  ghost predicate TagAt(s: string, i: nat, c: string) {
    && |c| > 0
    && (forall m :: 0 <= m < |c| ==> c[m] != '"')
    && i + |c| + 8 <= |s|
    && s[i..i + |c| + 8] == TagOpen + c + "\"]"
  }

  /** No tag starts in `s` before index `i`. */
  ghost predicate NoTagBefore(s: string, i: nat) {
    forall j: nat, d: string :: j < i ==> !TagAt(s, j, d)
  }

  /** The index of the first quote in `s` at or after `k`, or `|s|` if there is none. */
  function QuoteFrom(s: string, k: nat): (j: nat)
    requires k <= |s|
    ensures k <= j <= |s|
    ensures forall m :: k <= m < j ==> s[m] != '"'
    ensures j < |s| ==> s[j] == '"'
    decreases |s| - k
  {
    if k == |s| || s[k] == '"' then k else QuoteFrom(s, k + 1)
  }

  /** The code the pattern captures when matched at index `i`. At a fixed
      start the group `[^"]+` can only stop at the first quote, so the match
      is decided by that quote and the character after it. */
  function ExtractAt(s: string, i: nat): Option<string> {
    if i + 6 <= |s| && s[i..i + 6] == TagOpen then
      var j := QuoteFrom(s, i + 6);
      if j > i + 6 && j + 1 < |s| && s[j + 1] == ']' then Some(s[i + 6..j]) else None
    else
      None
  }

  /** The leftmost match at or after index `i` (the scan `re.search` performs). */
  function SearchFrom(s: string, i: nat): Option<string>
    decreases |s| - i
  {
    if i >= |s| then None
    else if ExtractAt(s, i).Some? then ExtractAt(s, i)
    else SearchFrom(s, i + 1)
  }

  /** `pgn_to_eco`: the code of the first ECO tag in the PGN, or None. A
      returned code is that of a tag with no tag before it, and None is
      returned exactly when the PGN holds no tag at all. */
  function PgnToEco(pgn: string): (r: Option<string>)
    ensures r.Some? ==> exists i: nat :: TagAt(pgn, i, r.value) && NoTagBefore(pgn, i)
    ensures r.None? <==> forall j: nat, d: string :: !TagAt(pgn, j, d)
  {
    SearchFromNone(pgn, 0);
    if SearchFrom(pgn, 0).Some? then
      FoundIsFirstTag(pgn);
      SearchFrom(pgn, 0)
    else
      None
  }

  /** What the scan from the start finds is the code of the first tag. */
  lemma FoundIsFirstTag(pgn: string)
    requires SearchFrom(pgn, 0).Some?
    ensures exists i: nat :: TagAt(pgn, i, SearchFrom(pgn, 0).value) && NoTagBefore(pgn, i)
  {
    var i := SearchFromSound(pgn, 0, SearchFrom(pgn, 0).value);
  }

  /** A match at `i` captures exactly the code of a tag at `i`. */
  lemma ExtractAtIsTag(s: string, i: nat, c: string)
    ensures ExtractAt(s, i) == Some(c) <==> TagAt(s, i, c)
  {
    if ExtractAt(s, i) == Some(c) {
      var j := QuoteFrom(s, i + 6);
      assert c == s[i + 6..j];
      assert s[i..i + |c| + 8] == TagOpen + c + "\"]" by {
        assert s[i..i + |c| + 8] == s[i..i + 6] + s[i + 6..j] + s[j..j + 2];
        assert s[j..j + 2] == "\"]";
      }
    }
    if TagAt(s, i, c) {
      var t := s[i..i + |c| + 8];
      assert s[i..i + 6] == t[..6];
      assert t[..6] == TagOpen;
      forall m | i + 6 <= m < i + 6 + |c| ensures s[m] != '"' {
        assert s[m] == t[m - i] == c[m - i - 6];
      }
      assert s[i + 6 + |c|] == t[|c| + 6] == '"';
      assert s[i + 7 + |c|] == t[|c| + 7] == ']';
      var j := QuoteFrom(s, i + 6);
      assert j == i + 6 + |c|;
      assert s[i + 6..j] == c by {
        forall m | 0 <= m < |c| ensures s[i + 6..j][m] == c[m] {
          assert s[i + 6 + m] == t[m + 6];
        }
      }
    }
  }

  /** The scan from `k` finds the first tag at or after `k`. */
  lemma {:induction false} SearchFromFirst(s: string, k: nat, i: nat, c: string)
    requires k <= i && TagAt(s, i, c)
    requires forall j: nat, d: string :: k <= j < i ==> !TagAt(s, j, d)
    ensures SearchFrom(s, k) == Some(c)
    decreases i - k
  {
    ExtractAtIsTag(s, k, c);
    if k < i {
      if ExtractAt(s, k).Some? {
        ExtractAtIsTag(s, k, ExtractAt(s, k).value);
        assert false;
      }
      SearchFromFirst(s, k + 1, i, c);
    }
  }

  /** Whatever the scan from `k` returns is the code of a tag at some
      index `i >= k`, with no tag between `k` and `i`. */
  lemma {:induction false} SearchFromSound(s: string, k: nat, c: string) returns (i: nat)
    requires SearchFrom(s, k) == Some(c)
    ensures k <= i && TagAt(s, i, c)
    ensures forall j: nat, d: string :: k <= j < i ==> !TagAt(s, j, d)
    decreases |s| - k
  {
    if ExtractAt(s, k).Some? {
      ExtractAtIsTag(s, k, c);
      i := k;
    } else {
      forall d: string ensures !TagAt(s, k, d) { ExtractAtIsTag(s, k, d); }
      i := SearchFromSound(s, k + 1, c);
    }
  }

  /** The scan from `k` finds nothing exactly when no tag starts at or after `k`. */
  lemma {:induction false} SearchFromNone(s: string, k: nat)
    ensures SearchFrom(s, k) == None <==> forall j: nat, d: string :: k <= j ==> !TagAt(s, j, d)
    decreases |s| - k
  {
    if k >= |s| {
      forall j: nat, d: string | k <= j ensures !TagAt(s, j, d) { }
    } else {
      SearchFromNone(s, k + 1);
      forall d: string ensures ExtractAt(s, k) == Some(d) <==> TagAt(s, k, d) {
        ExtractAtIsTag(s, k, d);
      }
    }
  }

  /** If the first tag of the PGN is `[ECO "c"]`, `pgn_to_eco` returns `c`. */
  lemma PgnToEcoFirstTag(pgn: string, i: nat, c: string)
    requires TagAt(pgn, i, c) && NoTagBefore(pgn, i)
    ensures PgnToEco(pgn) == Some(c)
  {
    SearchFromFirst(pgn, 0, i, c);
  }

  /** The KeyError `openings_dict[eco]` raises; it carries the missing key. */
  datatype LookupError = MissingOpening(eco: Option<string>)

  /** `eco_to_opening`: a strict lookup in the opening table. A code that is
      not a key, and an absent code, fail with no fallback name. */
  function EcoToOpening(openings: map<string, string>, eco: Option<string>): (r: Result<string, LookupError>)
    ensures r.Ok? <==> eco.Some? && eco.value in openings
    ensures r.Ok? ==> r.value == openings[eco.value]
    ensures r.Err? ==> r.error == MissingOpening(eco)
  {
    if eco.Some? && eco.value in openings then Ok(openings[eco.value]) else Err(MissingOpening(eco))
  }
}
