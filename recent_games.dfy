/**
 * The recent-games card: a player's stat lines, newest game first, cut to
 * `limit` rows; each row shows a win/loss badge, the score and, when any
 * of points, rebounds or assists is known, a stat line.
 */
module RecentGames {
  import opened Wrappers
  import opened Types
  import opened Text

  const DefaultLimit := 3

  // ----- newest-first ordering ------------------------------------------

  predicate NewestFirst(s: seq<Stats>)
  {
    forall i, j :: 0 <= i < j < |s| ==> s[i].game.date >= s[j].game.date
  }

  /**
   * Places `x` in front of the first line that is not newer than it, so a
   * line goes before the lines of the same date that followed it.
   */
  function InsertByDate(x: Stats, s: seq<Stats>): (r: seq<Stats>)
    ensures multiset(r) == multiset(s) + multiset{x}
    ensures |r| == |s| + 1
  {
    if s == [] || s[0].game.date <= x.game.date then [x] + s
    else
      assert s == [s[0]] + s[1..];
      [s[0]] + InsertByDate(x, s[1..])
  }

  /** Inserting into a newest-first sequence keeps it newest-first. */
  lemma {:induction false} InsertKeepsNewestFirst(x: Stats, s: seq<Stats>)
    requires NewestFirst(s)
    ensures NewestFirst(InsertByDate(x, s))
    ensures InsertByDate(x, s)[0] == x || InsertByDate(x, s)[0] == s[0]
  {
    if s != [] && s[0].game.date > x.game.date {
      var rest := InsertByDate(x, s[1..]);
      InsertKeepsNewestFirst(x, s[1..]);
      assert rest[0].game.date <= s[0].game.date;
      assert InsertByDate(x, s) == [s[0]] + rest;
    }
  }

  /** `[...stats].sort((a, b) => dateOf(b) - dateOf(a))`: a stable newest-first sort. */
  function SortNewestFirst(stats: seq<Stats>): (r: seq<Stats>)
    ensures NewestFirst(r)
    ensures multiset(r) == multiset(stats)
    ensures |r| == |stats|
  {
    if stats == [] then []
    else
      assert stats == [stats[0]] + stats[1..];
      var sortedRest := SortNewestFirst(stats[1..]);
      InsertKeepsNewestFirst(stats[0], sortedRest);
      InsertByDate(stats[0], sortedRest)
  }

  /** The lines of `s` from games on date `d`, in their order in `s`. */
  function OnDate(s: seq<Stats>, d: int): seq<Stats>
  {
    if s == [] then [] else (if s[0].game.date == d then [s[0]] else []) + OnDate(s[1..], d)
  }

  lemma OnDateCons(y: Stats, t: seq<Stats>, d: int)
    ensures OnDate([y] + t, d) == (if y.game.date == d then [y] else []) + OnDate(t, d)
  {
    assert ([y] + t)[0] == y && ([y] + t)[1..] == t;
  }

  lemma EmptyPartsCommute<T>(a: seq<T>, b: seq<T>, c: seq<T>)
    requires a == [] || b == []
    ensures a + (b + c) == b + (a + c)
  {
  }

  lemma {:induction false} OnDateInsert(x: Stats, s: seq<Stats>, d: int)
    ensures OnDate(InsertByDate(x, s), d) == (if x.game.date == d then [x] else []) + OnDate(s, d)
  {
    if s == [] || s[0].game.date <= x.game.date {
      OnDateCons(x, s, d);
    } else {
      var mine := if x.game.date == d then [x] else [];
      var head := if s[0].game.date == d then [s[0]] else [];
      var rest := InsertByDate(x, s[1..]);
      assert InsertByDate(x, s) == [s[0]] + rest;
      OnDateCons(s[0], rest, d);
      OnDateInsert(x, s[1..], d);
      EmptyPartsCommute(head, mine, OnDate(s[1..], d));
      assert s == [s[0]] + s[1..];
      OnDateCons(s[0], s[1..], d);
    }
  }

  /**
   * The sort is stable: for every date, the lines of that date keep their
   * input order.
   */
  lemma {:induction false} SortIsStable(stats: seq<Stats>, d: int)
    ensures OnDate(SortNewestFirst(stats), d) == OnDate(stats, d)
  {
    if stats != [] {
      SortIsStable(stats[1..], d);
      OnDateInsert(stats[0], SortNewestFirst(stats[1..]), d);
    }
  }

  // ----- slice(0, limit) ------------------------------------------------

  /** `s.slice(0, end)`: a negative end counts back from the end of `s`. */
  function SliceToEnd<T>(s: seq<T>, end: int): (r: seq<T>)
    ensures r <= s
    ensures end >= 0 ==> |r| == if end < |s| then end else |s|
    ensures end < 0 ==> |r| == if |s| + end > 0 then |s| + end else 0
  {
    var stop := if end >= 0 then (if end < |s| then end else |s|)
                else (if |s| + end > 0 then |s| + end else 0);
    s[..stop]
  }

  /** The lines shown, given the `limit` prop (`undefined` means 3). */
  function ShownStats(stats: seq<Stats>, limit: Option<int>): (r: seq<Stats>)
    ensures r <= SortNewestFirst(stats)
    ensures limit.None? ==> |r| == if |stats| < DefaultLimit then |stats| else DefaultLimit
  {
    var end := match limit case Some(n) => n case None => DefaultLimit;
    SliceToEnd(SortNewestFirst(stats), end)
  }

  /** Every line of `shown` is at least as new as every line of `others`. */
  ghost predicate NoneNewer(shown: seq<Stats>, others: multiset<Stats>)
  {
    forall x, y :: x in shown && y in others ==> x.game.date >= y.game.date
  }

  /** A prefix of a newest-first sequence is newest-first and no older than the rest. */
  lemma PrefixIsNewest(sorted: seq<Stats>, k: nat)
    requires NewestFirst(sorted) && k <= |sorted|
    ensures NewestFirst(sorted[..k])
    ensures NoneNewer(sorted[..k], multiset(sorted[k..]))
  {
    forall x, y | x in sorted[..k] && y in multiset(sorted[k..])
      ensures x.game.date >= y.game.date
    {
      var i :| 0 <= i < k && sorted[..k][i] == x;
      var j :| 0 <= j < |sorted| - k && sorted[k..][j] == y;
      assert sorted[i] == x && sorted[k + j] == y;
    }
  }

  /** With a non-negative limit, `min(limit, |stats|)` lines are shown. */
  lemma ShownCount(stats: seq<Stats>, limit: Option<int>)
    requires limit.Some? ==> limit.value >= 0
    ensures var n := if limit.Some? then limit.value else DefaultLimit;
      |ShownStats(stats, limit)| == if n < |stats| then n else |stats|
  {
  }

  /**
   * The lines shown are newest first and are the newest ones: each comes
   * from `stats`, and every line left out is no newer than every line shown.
   */
  lemma ShownAreTheNewest(stats: seq<Stats>, limit: Option<int>)
    ensures NewestFirst(ShownStats(stats, limit))
    ensures multiset(ShownStats(stats, limit)) <= multiset(stats)
    ensures NoneNewer(ShownStats(stats, limit), multiset(stats) - multiset(ShownStats(stats, limit)))
  {
    var sorted := SortNewestFirst(stats);
    var k := |ShownStats(stats, limit)|;
    assert ShownStats(stats, limit) == sorted[..k];
    PrefixMultiset(sorted, k);
    PrefixIsNewest(sorted, k);
  }

  lemma PrefixMultiset<T>(s: seq<T>, k: nat)
    requires k <= |s|
    ensures multiset(s[..k]) <= multiset(s)
    ensures multiset(s) - multiset(s[..k]) == multiset(s[k..])
  {
    assert s == s[..k] + s[k..];
  }

  // ----- the win/loss badge ---------------------------------------------

  /** A score that JavaScript treats as true: present and not 0. */
  predicate Truthy(score: Option<int>)
  {
    score.Some? && score.value != 0
  }

  /**
   * `${home}-${visitor}`: for non-negative scores, the home digits, a
   * single dash, then the visitor digits.
   */
  function ScoreText(home: int, visitor: int): (r: string)
    ensures home >= 0 && visitor >= 0 ==>
      && DashIndex(r) == |IntToDecimal(home)|
      && |r| == |IntToDecimal(home)| + 1 + |IntToDecimal(visitor)|
      && forall k :: 0 <= k < |r| && k != DashIndex(r) ==> IsDigit(r[k])
  {
    if home >= 0 && visitor >= 0 then
      SplitAtDash(IntToDecimal(home), IntToDecimal(visitor));
      IntToDecimal(home) + "-" + IntToDecimal(visitor)
    else
      IntToDecimal(home) + "-" + IntToDecimal(visitor)
  }

  datatype GameResult = GameResult(result: string, won: Option<bool>, score: Option<string>)

  /**
   * `getGameResult`: no badge unless both scores are truthy; otherwise the
   * line counts as the home side exactly when the game's status is "Final".
   */
  function GetGameResult(stat: Stats): (r: GameResult)
    ensures r.won.None? <==> !(Truthy(stat.game.homeTeamScore) && Truthy(stat.game.visitorTeamScore))
    ensures r.won.None? ==> r.result == "N/A" && r.score.None?
    ensures r.won.Some? ==>
      var home := stat.game.homeTeamScore.value;
      var visitor := stat.game.visitorTeamScore.value;
      && (r.won.value <==>
            (stat.game.status == "Final" && home > visitor) || (stat.game.status != "Final" && visitor > home))
      && (r.result == "W" <==> r.won.value)
      && (r.result == "L" <==> !r.won.value)
      && r.score == Some(ScoreText(home, visitor))
  {
    var game := stat.game;
    if !Truthy(game.homeTeamScore) || !Truthy(game.visitorTeamScore) then
      GameResult("N/A", None, None)
    else
      var homeScore := game.homeTeamScore.value;
      var visitorScore := game.visitorTeamScore.value;
      var isHome := game.status == "Final";
      var won := (isHome && homeScore > visitorScore) || (!isHome && visitorScore > homeScore);
      GameResult(if won then "W" else "L", Some(won), Some(ScoreText(homeScore, visitorScore)))
  }

  /** A score of 0 is falsy, so such a game has no badge. */
  lemma ZeroScoreHasNoResult(stat: Stats)
    requires stat.game.homeTeamScore == Some(0) || stat.game.visitorTeamScore == Some(0)
    ensures GetGameResult(stat) == GameResult("N/A", None, None)
  {
  }

  /** A tie is shown as a loss. */
  lemma TieIsLoss(stat: Stats)
    requires Truthy(stat.game.homeTeamScore) && stat.game.visitorTeamScore == stat.game.homeTeamScore
    ensures GetGameResult(stat).result == "L"
    ensures GetGameResult(stat).won == Some(false)
  {
  }

  /**
   * The badge never looks at the player's side: a finished game won by the
   * visitors is an "L" on every line of it, and in an unfinished game the
   * home side's lead is an "L" too.
   */
  lemma BadgeIgnoresPlayerSide(stat: Stats)
    requires Truthy(stat.game.homeTeamScore) && Truthy(stat.game.visitorTeamScore)
    ensures var home := stat.game.homeTeamScore.value;
      var visitor := stat.game.visitorTeamScore.value;
      && (stat.game.status == "Final" && visitor > home ==> GetGameResult(stat).result == "L")
      && (stat.game.status != "Final" && home > visitor ==> GetGameResult(stat).result == "L")
  {
  }

  // ----- reading the score text back ------------------------------------

  /** Position of the first '-' in `s`, or |s|. */
  function DashIndex(s: string): (i: nat)
    ensures i <= |s|
    ensures forall k :: 0 <= k < i ==> s[k] != '-'
    ensures i < |s| ==> s[i] == '-'
  {
    if s == [] then 0 else if s[0] == '-' then 0 else 1 + DashIndex(s[1..])
  }

  /** Splits a score text of two non-negative scores at its dash. */
  function ParseScore(text: string): Option<(nat, nat)>
  {
    var i := DashIndex(text);
    if i < |text| && (forall k :: 0 <= k < |text| && k != i ==> IsDigit(text[k])) then
      Some((DecimalValue(text[..i]), DecimalValue(text[i + 1..])))
    else None
  }

  /** Two digit strings joined by a dash split back at that dash. */
  lemma SplitAtDash(h: string, v: string)
    requires forall k :: 0 <= k < |h| ==> IsDigit(h[k])
    requires forall k :: 0 <= k < |v| ==> IsDigit(v[k])
    ensures var text := h + "-" + v;
      && DashIndex(text) == |h|
      && text[..|h|] == h
      && text[|h| + 1..] == v
      && forall k :: 0 <= k < |text| && k != |h| ==> IsDigit(text[k])
  {
    var text := h + "-" + v;
    assert text[|h|] == '-';
    assert forall k :: 0 <= k < |h| ==> text[k] == h[k];
    assert forall k :: |h| < k < |text| ==> text[k] == v[k - |h| - 1];
    assert text[..|h|] == h;
    assert text[|h| + 1..] == v;
  }

  /** The score text names the home score first, then the visitor score. */
  lemma ScoreTextRoundTrip(home: nat, visitor: nat)
    ensures ParseScore(ScoreText(home, visitor)) == Some((home, visitor))
  {
    SplitAtDash(NatToDecimal(home), NatToDecimal(visitor));
    DecimalRoundTrip(home);
    DecimalRoundTrip(visitor);
  }

  // ----- the card --------------------------------------------------------

  /** `stat.pts !== null || stat.reb !== null || stat.ast !== null`. */
  function HasStats(stat: Stats): (r: bool)
    ensures !r <==> stat.pts.None? && stat.reb.None? && stat.ast.None?
  {
    stat.pts.Some? || stat.reb.Some? || stat.ast.Some?
  }

  datatype Row = Row(stat: Stats, result: GameResult, hasStats: bool)

  datatype View = NoRecentGames | Games(rows: seq<Row>)

  /** The card for the `stats` and `limit` props (`None` is a missing prop). */
  function Render(stats: Option<seq<Stats>>, limit: Option<int>): (v: View)
    ensures v.NoRecentGames? <==> stats.None? || |stats.value| == 0
    ensures v.Games? ==>
      var shown := ShownStats(stats.value, limit);
      && |v.rows| == |shown|
      && forall i :: 0 <= i < |shown| ==>
           && v.rows[i].stat == shown[i]
           && v.rows[i].result == GetGameResult(shown[i])
           && (v.rows[i].hasStats <==> shown[i].pts.Some? || shown[i].reb.Some? || shown[i].ast.Some?)
  {
    if stats.None? || |stats.value| == 0 then NoRecentGames
    else
      var shown := ShownStats(stats.value, limit);
      Games(seq(|shown|, i requires 0 <= i < |shown| =>
        Row(shown[i], GetGameResult(shown[i]), HasStats(shown[i]))))
  }
}
