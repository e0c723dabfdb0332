/** What the allocator's ranking and prizes come to, read off the ballot alone: who clears the
    threshold of a track, which place a row takes, and what that place earns. */
module EmissionMeaning {
  import opened Emission
  import opened EmissionIncentives
  import opened EmissionTotals
  import opened Sorting
  import opened Sums

  // ----- who clears a threshold

  /** The row is on the track, its score is positive and reaches the track's threshold, if it has one. */
  predicate Cleared(b: Ballot, t: Track, r: Row) {
    && t in b.scores && r in b.scores[t]
    && r.score > 0.0 && r.score >= (if t in b.thresholds then b.thresholds[t] else 0.0)
  }

  lemma {:induction false} PassingMembers(rows: seq<Row>, cut: real, r: Row)
    ensures r in Passing(rows, cut) <==> r in rows && r.score > 0.0 && r.score >= cut
  {
    if rows != [] {
      PassingMembers(rows[1..], cut, r);
      assert rows == [rows[0]] + rows[1..];
    }
  }

  lemma RankedIffCleared(b: Ballot, t: Track, r: Row)
    ensures r in Ranking(b, t) <==> Cleared(b, t, r)
  {
    hide Passing, Sort;
    var le := RowOrder(b.digest, SaltOf(b, t));
    PassingMembers(Sort(RowsOf(b, t), le), CutOf(b, t), r);
    SortKeeps(RowsOf(b, t), le);
    MultisetMembers(RowsOf(b, t), Sort(RowsOf(b, t), le));
  }

  /** A hotkey is active exactly when some row of it clears its track's threshold. */
  lemma ActiveIffCleared(b: Ballot, h: string)
    ensures h in Active(StandingsOf(b)) <==> exists t, r :: Cleared(b, t, r) && r.hotkey == h
  {
    hide Ranking, StandingsOf, Cleared;
    forall t ensures h in HotkeysOn(StandingsOf(b), t) <==> exists r :: Cleared(b, t, r) && r.hotkey == h {
      OnTrackIffCleared(b, t, h);
    }
    ActiveSomewhere(StandingsOf(b), h);
    if h in Active(StandingsOf(b)) {
      var t :| h in HotkeysOn(StandingsOf(b), t);
      var r :| Cleared(b, t, r) && r.hotkey == h;
    }
    if exists t, r :: Cleared(b, t, r) && r.hotkey == h {
      var t, r :| Cleared(b, t, r) && r.hotkey == h;
      assert h in HotkeysOn(StandingsOf(b), t);
    }
  }

  lemma ActiveSomewhere(s: Standings, h: string)
    ensures h in Active(s) <==> exists t :: h in HotkeysOn(s, t)
  {
    if t :| h in HotkeysOn(s, t) {
      EveryTrackListed(t);
    }
  }

  lemma OnTrackIffCleared(b: Ballot, t: Track, h: string)
    ensures h in HotkeysOn(StandingsOf(b), t) <==> exists r :: Cleared(b, t, r) && r.hotkey == h
  {
    hide Ranking, Cleared, StandingsOf;
    InStandings(b, t);
    assert t in StandingsOf(b) ==> StandingsOf(b)[t] == Ranking(b, t) by { StandingIs(b, t); }
    forall r ensures r in Ranking(b, t) <==> Cleared(b, t, r) {
      RankedIffCleared(b, t, r);
    }
  }

  lemma StandingIs(b: Ballot, t: Track)
    ensures t in StandingsOf(b) ==> StandingsOf(b)[t] == Ranking(b, t)
  {
    hide Ranking;
  }

  /** Nobody is paid without a row that clears its threshold. */
  lemma PaidOnlyIfCleared(b: Ballot, h: string)
    requires h in EmissionWeights(b)
    ensures exists t, r :: Cleared(b, t, r) && r.hotkey == h
  {
    hide Cleared, StandingsOf;
    var s := StandingsOf(b);
    var p := PlanOf(s, b.contributors);
    assert h in Winners(p) || h in Active(s);
    assert h in Active(s) by {
      WinnersAreActive(s, b.contributors, Repositories, h);
      WinnersAreActive(s, b.contributors, Packages, h);
      WinnersAreActive(s, b.contributors, McpServers, h);
      WinnersAreActive(s, b.contributors, Skills, h);
    }
    ActiveIffCleared(b, h);
  }

  lemma WinnersAreActive(s: Standings, contributors: set<string>, t: Track, h: string)
    ensures h in WinnersOn(PlanOf(s, contributors), t) ==> h in Active(s)
  {
    hide Prizes, Payout;
    if h in WinnersOn(PlanOf(s, contributors), t) {
      var l := LadderOf(s, t);
      assert h in Hotkeys(s[t]) by {
        var k := |l.prizes|;
        var r :| r in (if k <= |s[t]| then s[t][..k] else s[t]) && r.hotkey == h;
        assert r in s[t];
      }
      ActiveSomewhere(s, h);
    }
  }

  // ----- which place a row takes

  /** The tiebreak of a hotkey on a track. */
  function Tie(b: Ballot, t: Track, hotkey: string): int {
    b.digest(b.salt + ":" + (match t case Repositories => "repositories" case Packages => "packages"
                                     case McpServers => "mcp_servers" case Skills => "skills") + ":" + hotkey)
  }

  /** `x` comes before `r`: a higher score, or the same score and a lower tiebreak. */
  predicate ComesBefore(b: Ballot, t: Track, x: Row, r: Row) {
    x.score > r.score || (x.score == r.score && Tie(b, t, x.hotkey) < Tie(b, t, r.hotkey))
  }

  ghost function Count(rows: seq<Row>, p: Row -> bool): nat {
    if rows == [] then 0 else (if p(rows[0]) then 1 else 0) + Count(rows[1..], p)
  }

  /** How many rows of the track clear the threshold and come before `r`. */
  ghost function Ahead(b: Ballot, t: Track, r: Row): nat {
    Count(RowsOf(b, t), (x: Row) => Cleared(b, t, x) && ComesBefore(b, t, x, r))
  }

  lemma {:induction false} CountAppend(x: seq<Row>, y: seq<Row>, p: Row -> bool)
    ensures Count(x + y, p) == Count(x, p) + Count(y, p)
  {
    if x == [] {
      assert x + y == y;
    } else {
      assert (x + y)[1..] == x[1..] + y;
      CountAppend(x[1..], y, p);
    }
  }

  lemma {:induction false} CountSorted(rows: seq<Row>, le: (Row, Row) -> bool, p: Row -> bool)
    ensures Count(Sort(rows, le), p) == Count(rows, p)
  {
    if rows != [] {
      var s := Sort(rows[1..], le);
      var k := Position(rows[0], s, le);
      CountSorted(rows[1..], le, p);
      assert s == s[..k] + s[k..];
      CountAppend(s[..k], s[k..], p);
      CountAppend(s[..k] + [rows[0]], s[k..], p);
      CountAppend(s[..k], [rows[0]], p);
      assert [rows[0]][1..] == [];
    }
  }

  lemma {:induction false} CountPassing(rows: seq<Row>, cut: real, p: Row -> bool)
    requires forall x :: x in rows && p(x) ==> x.score > 0.0 && x.score >= cut
    ensures Count(Passing(rows, cut), p) == Count(rows, p)
  {
    if rows != [] {
      assert rows[0] in rows && forall x :: x in rows[1..] ==> x in rows;
      CountPassing(rows[1..], cut, p);
      if Passes(rows[0], cut) {
        assert ([rows[0]] + Passing(rows[1..], cut))[1..] == Passing(rows[1..], cut);
      } else {
        assert !p(rows[0]) && Passing(rows, cut) == Passing(rows[1..], cut);
      }
    }
  }

  lemma {:induction false} CountAllOrNone(rows: seq<Row>, p: Row -> bool)
    ensures (forall x :: x in rows ==> p(x)) ==> Count(rows, p) == |rows|
    ensures (forall x :: x in rows ==> !p(x)) ==> Count(rows, p) == 0
  {
    if rows != [] {
      assert rows[0] in rows && forall x :: x in rows[1..] ==> x in rows;
      CountAllOrNone(rows[1..], p);
    }
  }

  lemma {:induction false} PassingSorted(rows: seq<Row>, cut: real, le: (Row, Row) -> bool)
    requires Sorted(rows, le)
    ensures Sorted(Passing(rows, cut), le)
  {
    if rows != [] {
      assert Sorted(rows[1..], le);
      PassingSorted(rows[1..], cut, le);
      forall x | x in Passing(rows[1..], cut) ensures le(rows[0], x) {
        PassingMembers(rows[1..], cut, x);
        var i :| 0 <= i < |rows[1..]| && rows[1..][i] == x;
        assert le(rows[0], rows[i + 1]);
      }
    }
  }

  lemma RankingSorted(b: Ballot, t: Track)
    ensures Sorted(Ranking(b, t), RowOrder(b.digest, SaltOf(b, t)))
  {
    var le := RowOrder(b.digest, SaltOf(b, t));
    RowOrderTotal(b.digest, SaltOf(b, t));
    SortSorted(RowsOf(b, t), le);
    PassingSorted(Sort(RowsOf(b, t), le), CutOf(b, t), le);
  }

  /** The rows ahead, counted in the ranking. */
  lemma AheadInRanking(b: Ballot, t: Track, r: Row)
    ensures Ahead(b, t, r) == Count(Ranking(b, t), (x: Row) => Cleared(b, t, x) && ComesBefore(b, t, x, r))
  {
    hide Passing, Sort, ComesBefore, Count;
    var p := (x: Row) => Cleared(b, t, x) && ComesBefore(b, t, x, r);
    var le := RowOrder(b.digest, SaltOf(b, t));
    CountSorted(RowsOf(b, t), le, p);
    CountPassing(Sort(RowsOf(b, t), le), CutOf(b, t), p);
  }

  lemma OrderIsComesBefore(b: Ballot, t: Track, x: Row, r: Row)
    requires t in b.scores && NoCollision(b.digest, SaltOf(b, t), b.scores[t])
    requires Cleared(b, t, x) && Cleared(b, t, r)
    ensures RowOrder(b.digest, SaltOf(b, t))(x, r) && x != r ==> ComesBefore(b, t, x, r)
    ensures RowOrder(b.digest, SaltOf(b, t))(r, x) ==> !ComesBefore(b, t, x, r)
  {
    assert Tie(b, t, x.hotkey) == TiebreakKey(b.digest, SaltOf(b, t), x.hotkey);
    assert Tie(b, t, r.hotkey) == TiebreakKey(b.digest, SaltOf(b, t), r.hotkey);
  }

  /** The first place of a cleared row is the number of cleared rows ahead of it. */
  lemma PlaceIsAhead(b: Ballot, t: Track, r: Row, k: nat)
    requires t in b.scores && NoCollision(b.digest, SaltOf(b, t), b.scores[t])
    requires k < |Ranking(b, t)| && Ranking(b, t)[k] == r && r !in Ranking(b, t)[..k]
    ensures Ahead(b, t, r) == k
  {
    hide Ranking, Count, Cleared, ComesBefore, RowOrder, NoCollision;
    var s := Ranking(b, t);
    var p := (x: Row) => Cleared(b, t, x) && ComesBefore(b, t, x, r);
    AheadInRanking(b, t, r);
    RankingSorted(b, t);
    RankedIffCleared(b, t, r);
    forall i | 0 <= i < k ensures p(s[i]) {
      RankedIffCleared(b, t, s[i]);
      assert s[i] in s[..k];
      OrderIsComesBefore(b, t, s[i], r);
    }
    forall i | k <= i < |s| ensures !p(s[i]) {
      RankedIffCleared(b, t, s[i]);
      assert i == k || RowOrder(b.digest, SaltOf(b, t))(s[k], s[i]);
      OrderIsComesBefore(b, t, s[i], r);
      NotBeforeItself(b, t, r);
    }
    assert s == s[..k] + s[k..];
    CountAppend(s[..k], s[k..], p);
    CountAllOrNone(s[..k], p);
    CountAllOrNone(s[k..], p);
  }

  lemma NotBeforeItself(b: Ballot, t: Track, r: Row)
    ensures !ComesBefore(b, t, r, r)
  {
  }

  lemma {:induction false} FirstPlace(s: seq<Row>, r: Row) returns (k: nat)
    requires r in s
    ensures k < |s| && s[k] == r && r !in s[..k]
  {
    if s[0] == r {
      k := 0;
    } else {
      k := FirstPlace(s[1..], r);
      k := k + 1;
      assert s[..k] == [s[0]] + s[1..][..k - 1];
    }
  }

  /** A cleared row is in a paid place exactly when fewer than five cleared rows of its track come
      before it. */
  lemma PaidIffFewAhead(b: Ballot, t: Track, r: Row)
    requires Cleared(b, t, r) && NoCollision(b.digest, SaltOf(b, t), b.scores[t])
    ensures r in Ranking(b, t)[..PaidPlaces(Ranking(b, t))] <==> Ahead(b, t, r) < 5
  {
    hide Ranking, Ahead;
    RankedIffCleared(b, t, r);
    var k := FirstPlace(Ranking(b, t), r);
    PlaceIsAhead(b, t, r, k);
    InPrefix(Ranking(b, t), k, PaidPlaces(Ranking(b, t)), r);
  }

  lemma InPrefix(s: seq<Row>, k: nat, n: nat, r: Row)
    requires k < |s| && s[k] == r && r !in s[..k] && n <= |s|
    ensures r in s[..n] <==> k < n
  {
    if k < n {
      assert s[..n][k] == r;
    } else {
      assert s[..n] == s[..k][..n];
    }
  }

  // ----- what a place earns

  /** How many rows of the track clear its threshold. */
  ghost function ClearedCount(b: Ballot, t: Track): nat {
    Count(RowsOf(b, t), (x: Row) => Cleared(b, t, x))
  }

  lemma RankingSize(b: Ballot, t: Track)
    ensures |Ranking(b, t)| == ClearedCount(b, t)
  {
    hide Passing, Sort, Count, Cleared;
    var p := (x: Row) => Cleared(b, t, x);
    var le := RowOrder(b.digest, SaltOf(b, t));
    CountSorted(RowsOf(b, t), le, p);
    assert forall x: Row :: p(x) ==> x.score > 0.0 && x.score >= CutOf(b, t) by {
      ClearedReaches(b, t);
    }
    CountPassing(Sort(RowsOf(b, t), le), CutOf(b, t), p);
    forall x | x in Ranking(b, t) ensures p(x) {
      RankedIffCleared(b, t, x);
    }
    CountAllOrNone(Ranking(b, t), p);
  }

  lemma ClearedReaches(b: Ballot, t: Track)
    ensures forall x: Row :: Cleared(b, t, x) ==> x.score > 0.0 && x.score >= CutOf(b, t)
  {
  }

  /** The hotkey has exactly one row on the track. */
  ghost predicate Once(b: Ballot, t: Track, h: string) {
    Count(RowsOf(b, t), (x: Row) => x.hotkey == h) == 1
  }

  lemma {:induction false} CountFewer(rows: seq<Row>, p: Row -> bool, q: Row -> bool)
    requires forall x: Row :: p(x) ==> q(x)
    ensures Count(rows, p) <= Count(rows, q)
  {
    if rows != [] {
      CountFewer(rows[1..], p, q);
    }
  }

  lemma CountTwo(rows: seq<Row>, p: Row -> bool, i: nat, j: nat)
    requires i < j < |rows| && p(rows[i]) && p(rows[j])
    ensures Count(rows, p) >= 2
  {
    assert rows == rows[..i] + [rows[i]] + rows[i + 1..j] + [rows[j]] + rows[j + 1..];
    CountAppend(rows[..i] + [rows[i]] + rows[i + 1..j] + [rows[j]], rows[j + 1..], p);
    CountAppend(rows[..i] + [rows[i]] + rows[i + 1..j], [rows[j]], p);
    CountAppend(rows[..i] + [rows[i]], rows[i + 1..j], p);
    CountAppend(rows[..i], [rows[i]], p);
    CountOne(rows[i], p);
    CountOne(rows[j], p);
  }

  lemma CountOne(r: Row, p: Row -> bool)
    ensures Count([r], p) == if p(r) then 1 else 0
  {
    assert [r][1..] == [];
  }

  lemma OnceInRanking(b: Ballot, t: Track, h: string, i: nat, j: nat)
    requires Once(b, t, h)
    requires i < |Ranking(b, t)| && j < |Ranking(b, t)|
    requires Ranking(b, t)[i].hotkey == h == Ranking(b, t)[j].hotkey
    ensures i == j
  {
    hide Passing, Sort, Count, Cleared;
    var p, q := (x: Row) => x.hotkey == h, (x: Row) => Cleared(b, t, x) && x.hotkey == h;
    var le := RowOrder(b.digest, SaltOf(b, t));
    CountFewer(RowsOf(b, t), q, p);
    CountSorted(RowsOf(b, t), le, q);
    ClearedReaches(b, t);
    CountPassing(Sort(RowsOf(b, t), le), CutOf(b, t), q);
    RankedIffCleared(b, t, Ranking(b, t)[i]);
    RankedIffCleared(b, t, Ranking(b, t)[j]);
    if i < j {
      CountTwo(Ranking(b, t), q, i, j);
    } else if j < i {
      CountTwo(Ranking(b, t), q, j, i);
    }
  }

  lemma {:induction false} OnePlacePays(rows: seq<Row>, place: nat, prizes: seq<real>, h: string, k: nat)
    requires k < |rows| && rows[k].hotkey == h
    requires forall i :: 0 <= i < |rows| && rows[i].hotkey == h ==> i == k
    ensures Pay(rows, place, prizes, h) == PrizeAt(prizes, place + k)
  {
    if k == 0 {
      NoPlacePays(rows[1..], place + 1, prizes, h);
    } else {
      OnePlacePays(rows[1..], place + 1, prizes, h, k - 1);
    }
  }

  lemma {:induction false} NoPlacePays(rows: seq<Row>, place: nat, prizes: seq<real>, h: string)
    requires forall i :: 0 <= i < |rows| ==> rows[i].hotkey != h
    ensures Pay(rows, place, prizes, h) == 0.0
  {
    if rows != [] {
      NoPlacePays(rows[1..], place + 1, prizes, h);
    }
  }

  /** A track's fixed share of the emission, if `on`. */
  function FixedShare(t: Track, on: bool): real {
    if !on then 0.0
    else match t case Repositories => 0.30 case Packages => 0.25 case McpServers => 0.225 case Skills => 0.225
  }

  /** The tracks on which somebody clears the threshold, counted, and the shares of the others. */
  ghost function Busy(b: Ballot): nat {
    (if ClearedCount(b, Repositories) > 0 then 1 else 0) + (if ClearedCount(b, Packages) > 0 then 1 else 0)
    + (if ClearedCount(b, McpServers) > 0 then 1 else 0) + (if ClearedCount(b, Skills) > 0 then 1 else 0)
  }

  ghost function IdleShares(b: Ballot): real {
    FixedShare(Repositories, ClearedCount(b, Repositories) == 0) + FixedShare(Packages, ClearedCount(b, Packages) == 0)
    + FixedShare(McpServers, ClearedCount(b, McpServers) == 0) + FixedShare(Skills, ClearedCount(b, Skills) == 0)
  }

  lemma BusyTracks(b: Ballot)
    ensures |StandingsOf(b).Keys| == Busy(b) && Idle(StandingsOf(b).Keys) == IdleShares(b)
    ensures forall t :: t in StandingsOf(b) <==> ClearedCount(b, t) > 0
  {
    hide StandingsOf, Ranking, ClearedCount;
    forall t ensures t in StandingsOf(b) <==> ClearedCount(b, t) > 0 {
      InStandings(b, t);
      RankingSize(b, t);
    }
    CountTracks(StandingsOf(b).Keys);
  }

  /** The place with `k` rows ahead on a track where `n` clear the threshold gets this part of it. */
  function PlaceRate(n: nat, k: nat): real {
    if k >= 5 || k >= n then 0.0
    else [0.40, 0.25, 0.15, 0.12, 0.08][k] / (if n >= 5 then 1.0 else [0.40, 0.65, 0.80, 0.92][n - 1])
  }

  lemma PrizeIsRate(n: nat, k: nat, payout: real)
    requires k < n
    ensures PrizeAt(Prizes(if n < 5 then n else 5, payout), k) == payout * PlaceRate(n, k)
  {
    RatesValues();
  }

  lemma ClearedOn(b: Ballot, t: Track, r: Row)
    requires Cleared(b, t, r)
    ensures t in b.scores
  {
  }

  lemma LadderPrize(b: Ballot, t: Track, r: Row)
    requires Cleared(b, t, r) && Once(b, t, r.hotkey)
    requires t in b.scores && NoCollision(b.digest, SaltOf(b, t), b.scores[t])
    ensures t in StandingsOf(b) && |StandingsOf(b)[t]| == ClearedCount(b, t) > Ahead(b, t, r)
    ensures FromTrack(PlanOf(StandingsOf(b), b.contributors), t, r.hotkey)
            == PrizeAt(LadderOf(StandingsOf(b), t).prizes, Ahead(b, t, r))
  {
    hide StandingsOf, Ranking, Cleared, Once, Ahead, ClearedCount, Prizes, Pay, NoCollision, Payout;
    var s: Standings := StandingsOf(b);
    RankedIffCleared(b, t, r);
    InStandings(b, t);
    StandingIs(b, t);
    RankingSize(b, t);
    var k := FirstPlace(Ranking(b, t), r);
    PlaceIsAhead(b, t, r, k);
    forall i: nat | i < |s[t]| && s[t][i].hotkey == r.hotkey ensures i == k {
      OnceInRanking(b, t, r.hotkey, i, k);
    }
    OnePlacePays(s[t], 0, LadderOf(s, t).prizes, r.hotkey, k);
  }

  /** What a track pays a hotkey with one cleared row there: its share and an equal part of the idle
      shares, times the rate of the place given by the rows ahead. */
  lemma TrackIncomeExactly(b: Ballot, t: Track, r: Row)
    requires Cleared(b, t, r) && Once(b, t, r.hotkey) && NoCollision(b.digest, SaltOf(b, t), b.scores[t])
    ensures Busy(b) > 0
    ensures FromTrack(PlanOf(StandingsOf(b), b.contributors), t, r.hotkey)
            == (FixedShare(t, true) + IdleShares(b) / Busy(b) as real) * PlaceRate(ClearedCount(b, t), Ahead(b, t, r))
  {
    hide StandingsOf, Cleared, Once, Ahead, ClearedCount, PlaceRate, IdleShares, Busy, Idle, Payout, FixedShare,
         FromTrack, NoCollision, LadderOf, PlanOf;
    var s: Standings := StandingsOf(b);
    ClearedOn(b, t, r);
    LadderPrize(b, t, r);
    BusyTracks(b);
    LadderRate(s, t, Ahead(b, t, r));
    PayoutIs(s.Keys, t);
  }

  lemma LadderRate(s: Standings, t: Track, k: nat)
    requires t in s && k < |s[t]|
    ensures PrizeAt(LadderOf(s, t).prizes, k) == Payout(s.Keys, t) * PlaceRate(|s[t]|, k)
  {
    hide Prizes, PlaceRate, Payout, PrizeAt;
    PrizeIsRate(|s[t]|, k, Payout(s.Keys, t));
  }

  lemma PayoutIs(q: set<Track>, t: Track)
    requires t in q
    ensures |q| > 0
    ensures Payout(q, t) == FixedShare(t, true) + Idle(q) / |q| as real
  {
  }

  lemma NothingClearedPaysNothing(b: Ballot, t: Track, h: string)
    requires forall r :: Cleared(b, t, r) ==> r.hotkey != h
    ensures FromTrack(PlanOf(StandingsOf(b), b.contributors), t, h) == 0.0
  {
    hide Ranking, Cleared, Prizes, Payout, Pay;
    var s: Standings := StandingsOf(b);
    if t in s {
      forall i | 0 <= i < |s[t]| ensures s[t][i].hotkey != h {
        RankedIffCleared(b, t, s[t][i]);
      }
      NoPlacePays(s[t], 0, LadderOf(s, t).prizes, h);
    }
  }

  /** The contributors of whom some row clears a threshold. */
  ghost function ActiveContributors(b: Ballot): set<string> {
    set c | c in b.contributors && exists t, r :: Cleared(b, t, r) && r.hotkey == c
  }

  /** The only row that clears a threshold for the hotkey on each track that is listed; on the other tracks it has
      none. */
  ghost predicate RowsOfHotkey(b: Ballot, h: string, mine: map<Track, Row>) {
    forall t ::
      if t in mine then
        && Cleared(b, t, mine[t]) && mine[t].hotkey == h && Once(b, t, h)
        && NoCollision(b.digest, SaltOf(b, t), b.scores[t])
      else forall r :: Cleared(b, t, r) ==> r.hotkey != h
  }

  /** What a cleared row earns on its track. */
  ghost function Earning(b: Ballot, t: Track, r: Row): real
    requires Busy(b) > 0
  {
    (FixedShare(t, true) + IdleShares(b) / Busy(b) as real) * PlaceRate(ClearedCount(b, t), Ahead(b, t, r))
  }

  ghost function Earned(b: Ballot, t: Track, mine: map<Track, Row>): real {
    if t in mine && Busy(b) > 0 then Earning(b, t, mine[t]) else 0.0
  }

  lemma EarningExactly(b: Ballot, t: Track, r: Row)
    requires Cleared(b, t, r) && Once(b, t, r.hotkey) && NoCollision(b.digest, SaltOf(b, t), b.scores[t])
    ensures Busy(b) > 0 && FromTrack(PlanOf(StandingsOf(b), b.contributors), t, r.hotkey) == Earning(b, t, r)
  {
    hide StandingsOf, PlanOf, Cleared, Once, Ahead, ClearedCount, PlaceRate, IdleShares, Busy, FixedShare, FromTrack,
         NoCollision;
    TrackIncomeExactly(b, t, r);
  }

  lemma EarnedExactly(b: Ballot, t: Track, h: string, mine: map<Track, Row>)
    requires RowsOfHotkey(b, h, mine)
    ensures FromTrack(PlanOf(StandingsOf(b), b.contributors), t, h) == Earned(b, t, mine)
  {
    hide Cleared, Once, NoCollision, FromTrack, StandingsOf, PlanOf, Busy, Earning;
    if t in mine {
      EarningExactly(b, t, mine[t]);
    } else {
      NothingClearedPaysNothing(b, t, h);
    }
  }

  lemma EligibleExactly(b: Ballot)
    ensures Active(StandingsOf(b)) * b.contributors == ActiveContributors(b)
  {
    hide Active, StandingsOf, Cleared;
    forall c ensures c in Active(StandingsOf(b)) * b.contributors <==> c in ActiveContributors(b) {
      ActiveIffCleared(b, c);
    }
  }

  /** The whole weight of a hotkey in numbers read off the ballot: what it earns on its tracks; where some
      contributor is active 95% of that, and a twentieth in equal parts for the active contributors. */
  lemma WeightExactly(b: Ballot, h: string, mine: map<Track, Row>)
    requires RowsOfHotkey(b, h, mine)
    ensures var income := Earned(b, Repositories, mine) + Earned(b, Packages, mine)
                          + Earned(b, McpServers, mine) + Earned(b, Skills, mine);
            var active := ActiveContributors(b);
            Get(EmissionWeights(b), h)
            == if active == {} then income
               else 0.95 * income + (if h in active then 0.05 / |active| as real else 0.0)
  {
    hide RowsOfHotkey, Earned, FromTrack, StandingsOf, Active, ActiveContributors, EmissionWeights, PlanOf;
    EarnedExactly(b, Repositories, h, mine);
    EarnedExactly(b, Packages, h, mine);
    EarnedExactly(b, McpServers, h, mine);
    EarnedExactly(b, Skills, h, mine);
    EligibleExactly(b);
    ContributorShare(b, h);
  }

  /** Ties are told apart on every track. */
  ghost predicate TiesApart(b: Ballot) {
    forall t :: t in b.scores ==> NoCollision(b.digest, SaltOf(b, t), b.scores[t])
  }

  lemma WinnersAreFirst(b: Ballot, t: Track, h: string)
    requires TiesApart(b)
    ensures h in WinnersOn(PlanOf(StandingsOf(b), b.contributors), t)
            <==> exists r :: Cleared(b, t, r) && r.hotkey == h && Ahead(b, t, r) < 5
  {
    hide Cleared, Ahead, StandingsOf, PlanOf, NoCollision, Ranking;
    var s: Standings := StandingsOf(b);
    WinnersArePaid(s, b.contributors, t, h);
    InStandings(b, t);
    if t in s {
      StandingIs(b, t);
      forall r | r in s[t][..PaidPlaces(s[t])] && r.hotkey == h ensures Cleared(b, t, r) && Ahead(b, t, r) < 5 {
        RankedIffCleared(b, t, r);
        ClearedOn(b, t, r);
        PaidIffFewAhead(b, t, r);
      }
    }
    forall r | Cleared(b, t, r) && r.hotkey == h && Ahead(b, t, r) < 5
      ensures t in s && r in s[t][..PaidPlaces(s[t])]
    {
      RankedIffCleared(b, t, r);
      ClearedOn(b, t, r);
      StandingIs(b, t);
      PaidIffFewAhead(b, t, r);
    }
  }

  lemma WinnersArePaid(s: Standings, contributors: set<string>, t: Track, h: string)
    ensures h in WinnersOn(PlanOf(s, contributors), t)
            <==> t in s && exists r :: r in s[t][..PaidPlaces(s[t])] && r.hotkey == h
  {
    hide Prizes, Payout;
  }

  /** Exactly the hotkeys with a cleared row in the first five of its track, and the active contributors, have a
      weight. */
  lemma PaidExactly(b: Ballot, h: string)
    requires TiesApart(b)
    ensures h in EmissionWeights(b)
            <==> (exists t, r :: Cleared(b, t, r) && r.hotkey == h && Ahead(b, t, r) < 5) || h in ActiveContributors(b)
  {
    hide TiesApart, Cleared, Ahead, StandingsOf, ActiveContributors, WinnersOn, Active, Owed, PlanOf;
    EligibleExactly(b);
    var p := PlanOf(StandingsOf(b), b.contributors);
    assert p.eligible == ActiveContributors(b) by { EligibleOf(StandingsOf(b), b.contributors); }
    forall t: Track ensures h in WinnersOn(p, t)
                            <==> exists r :: Cleared(b, t, r) && r.hotkey == h && Ahead(b, t, r) < 5 {
      WinnersAreFirst(b, t, h);
    }
    assert h in Winners(p) <==> exists t :: h in WinnersOn(p, t) by {
      if t :| h in WinnersOn(p, t) {
        EveryTrackListed(t);
      }
    }
    assert h in EmissionWeights(b) <==> h in Winners(p) || h in p.eligible;
    if t: Track :| h in WinnersOn(p, t) {
      var r :| Cleared(b, t, r) && r.hotkey == h && Ahead(b, t, r) < 5;
    }
    if t: Track, r: Row :| Cleared(b, t, r) && r.hotkey == h && Ahead(b, t, r) < 5 {
      assert h in WinnersOn(p, t);
    }
  }

  lemma EligibleOf(s: Standings, contributors: set<string>)
    ensures PlanOf(s, contributors).eligible == Active(s) * contributors
  {
  }
}
