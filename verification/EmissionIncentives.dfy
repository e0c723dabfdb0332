/** What the allocator promises the agents: the order in which results arrive does not matter,
    and raising one score never pays anybody else. */
module EmissionIncentives {
  import opened Collections
  import opened Sorting
  import opened Sums
  import opened Emission
  import opened EmissionTotals

  // ----- the ranking order

  lemma RowOrderTotal(digest: string -> int, salt: string)
    ensures TotalPreorder(RowOrder(digest, salt))
  {
  }

  /** No two different hotkeys of the track share a tiebreak digest. */
  ghost predicate NoCollision(digest: string -> int, salt: string, rows: seq<Row>) {
    forall x, y :: x in rows && y in rows
                   && TiebreakKey(digest, salt, x.hotkey) == TiebreakKey(digest, salt, y.hotkey)
                   ==> x.hotkey == y.hotkey
  }

  lemma RowOrderDiscerns(digest: string -> int, salt: string, rows: seq<Row>)
    requires NoCollision(digest, salt, rows)
    ensures Discerns(RowOrder(digest, salt), rows)
  {
  }

  // ----- order independence

  lemma SameRanking(b: Ballot, c: Ballot, t: Track)
    requires c == b.(scores := c.scores)
    requires multiset(RowsOf(b, t)) == multiset(RowsOf(c, t))
    requires NoCollision(b.digest, SaltOf(b, t), RowsOf(b, t))
    ensures Ranking(b, t) == Ranking(c, t)
  {
    RowOrderTotal(b.digest, SaltOf(b, t));
    RowOrderDiscerns(b.digest, SaltOf(b, t), RowsOf(b, t));
    SortPermutation(RowsOf(b, t), RowsOf(c, t), RowOrder(b.digest, SaltOf(b, t)));
  }

  /** However the agents of each track finish, the emitted weights are the same. */
  lemma OrderIndependence(b: Ballot, c: Ballot)
    requires c == b.(scores := c.scores)
    requires forall t :: multiset(RowsOf(b, t)) == multiset(RowsOf(c, t))
    requires forall t :: NoCollision(b.digest, SaltOf(b, t), RowsOf(b, t))
    ensures EmissionWeights(b) == EmissionWeights(c)
  {
    SameStandings(b, c);
  }

  lemma SameStandings(b: Ballot, c: Ballot)
    requires c == b.(scores := c.scores)
    requires forall t :: multiset(RowsOf(b, t)) == multiset(RowsOf(c, t))
    requires forall t :: NoCollision(b.digest, SaltOf(b, t), RowsOf(b, t))
    ensures StandingsOf(b) == StandingsOf(c)
  {
    forall t ensures Ranking(b, t) == Ranking(c, t) {
      SameRanking(b, c, t);
    }
  }

  // ----- one raised score, inside its track

  lemma {:induction false} PassingAppend(x: seq<Row>, y: seq<Row>, cut: real)
    ensures Passing(x + y, cut) == Passing(x, cut) + Passing(y, cut)
  {
    if x == [] {
      assert x + y == y;
    } else {
      assert (x + y)[1..] == x[1..] + y;
      PassingAppend(x[1..], y, cut);
      var first := if Passes(x[0], cut) then [x[0]] else [];
      assert first + (Passing(x[1..], cut) + Passing(y, cut)) == first + Passing(x[1..], cut) + Passing(y, cut);
    }
  }

  lemma PassingFour(w: seq<Row>, x: seq<Row>, y: seq<Row>, z: seq<Row>, cut: real)
    ensures Passing(w + x + y + z, cut) == Passing(w, cut) + Passing(x, cut) + Passing(y, cut) + Passing(z, cut)
  {
    PassingAppend(w + x + y, z, cut);
    PassingAppend(w + x, y, cut);
    PassingAppend(w, x, cut);
  }

  function Only(r: Row, cut: real): seq<Row> {
    if Passes(r, cut) then [r] else []
  }

  /** `rows` with the score of row `j` replaced. */
  function Rescored(rows: seq<Row>, j: nat, score: real): seq<Row>
    requires j < |rows|
  {
    rows[j := Row(rows[j].hotkey, score)]
  }

  /** Raising a score moves its row towards the front and leaves the others in their order. */
  lemma RaiseMoves(rows: seq<Row>, j: nat, score: real, cut: real, digest: string -> int, salt: string)
    returns (a: seq<Row>, m: seq<Row>, z: seq<Row>)
    requires j < |rows| && score >= rows[j].score
    requires NoCollision(digest, salt, rows)
    ensures Passing(Sort(rows, RowOrder(digest, salt)), cut) == a + m + Only(rows[j], cut) + z
    ensures Passing(Sort(Rescored(rows, j, score), RowOrder(digest, salt)), cut)
            == a + Only(Row(rows[j].hotkey, score), cut) + m + z
  {
    var x, y, w := RaiseInOrder(rows, j, score, digest, salt);
    a, m, z := Passing(x, cut), Passing(y, cut), Passing(w, cut);
    PassingFour(x, y, [rows[j]], w, cut);
    PassingFour(x, [Row(rows[j].hotkey, score)], y, w, cut);
    assert forall r :: Passing([r], cut) == Only(r, cut);
  }

  lemma RaiseInOrder(rows: seq<Row>, j: nat, score: real, digest: string -> int, salt: string)
    returns (x: seq<Row>, y: seq<Row>, w: seq<Row>)
    requires j < |rows| && score >= rows[j].score
    requires NoCollision(digest, salt, rows)
    ensures Sort(rows, RowOrder(digest, salt)) == x + y + [rows[j]] + w
    ensures Sort(Rescored(rows, j, score), RowOrder(digest, salt)) == x + [Row(rows[j].hotkey, score)] + y + w
  {
    var le := RowOrder(digest, salt);
    var raised := Rescored(rows, j, score);
    var rest := rows[..j] + rows[j + 1..];
    assert raised[..j] + raised[j + 1..] == rest;
    RowOrderTotal(digest, salt);
    assert Sort(rows, le) == Insert(rows[j], Sort(rest, le), le) by {
      RowOrderDiscerns(digest, salt, rows);
      SortAround(rows, j, le);
    }
    assert Sort(raised, le) == Insert(raised[j], Sort(rest, le), le) by {
      RaisedDiscerns(rows, j, score, digest, salt);
      SortAround(raised, j, le);
    }
    x, y, w := InsertTwice(raised[j], rows[j], Sort(rest, le), le);
  }

  /** The earlier of two elements is inserted no later in the same sequence. */
  lemma InsertTwice<T(!new)>(early: T, late: T, s: seq<T>, le: (T, T) -> bool)
    returns (x: seq<T>, y: seq<T>, w: seq<T>)
    requires TotalPreorder(le) && le(early, late)
    ensures Insert(late, s, le) == x + y + [late] + w
    ensures Insert(early, s, le) == x + [early] + y + w
  {
    PositionMonotone(early, late, s, le);
    var q, p := Position(early, s, le), Position(late, s, le);
    hide Position;
    x, y, w := s[..q], s[q..p], s[p..];
    CutTwice(s, q, p);
    Associates(x + [early], y, w);
  }

  lemma CutTwice<T>(s: seq<T>, q: nat, p: nat)
    requires q <= p <= |s|
    ensures s[..p] == s[..q] + s[q..p]
    ensures s[q..] == s[q..p] + s[p..]
  {
  }

  lemma RaisedDiscerns(rows: seq<Row>, j: nat, score: real, digest: string -> int, salt: string)
    requires j < |rows|
    requires NoCollision(digest, salt, rows)
    ensures Discerns(RowOrder(digest, salt), Rescored(rows, j, score))
  {
    var raised := Rescored(rows, j, score);
    forall x, y | x in raised && y in raised
                  && TiebreakKey(digest, salt, x.hotkey) == TiebreakKey(digest, salt, y.hotkey)
      ensures x.hotkey == y.hotkey
    {
      var i :| 0 <= i < |rows| && raised[i] == x;
      var k :| 0 <= k < |rows| && raised[k] == y;
      assert rows[i] in rows && rows[k] in rows;
    }
    RowOrderDiscerns(digest, salt, raised);
  }

  lemma {:induction false} PayShift(rows: seq<Row>, place: nat, prizes: seq<real>, h: string)
    requires Falling(prizes)
    ensures Pay(rows, place + 1, prizes, h) <= Pay(rows, place, prizes, h)
  {
    if rows != [] {
      PayShift(rows[1..], place + 1, prizes, h);
    }
  }

  /** Prizes that are pointwise no larger pay no more. */
  lemma {:induction false} PayLower(rows: seq<Row>, place: nat, less: seq<real>, prizes: seq<real>, h: string)
    requires |prizes| <= |less|
    requires forall i :: 0 <= i < |prizes| ==> less[i] <= prizes[i]
    requires |less| == |prizes| || place + |rows| <= |prizes|
    ensures Pay(rows, place, less, h) <= Pay(rows, place, prizes, h)
  {
    if rows != [] {
      PayLower(rows[1..], place + 1, less, prizes, h);
    }
  }

  /** A row overtaking others in a track that pays the same places. */
  lemma OvertakingPaysNobodyElse(a: seq<Row>, m: seq<Row>, z: seq<Row>, r: Row, up: Row, prizes: seq<real>, h: string)
    requires Falling(prizes)
    requires h != r.hotkey == up.hotkey
    ensures Pay(a + [up] + m + z, 0, prizes, h) <= Pay(a + m + [r] + z, 0, prizes, h)
  {
    PayFour(a, [up], m, z, prizes, h);
    PayFour(a, m, [r], z, prizes, h);
    PayOther(up, |a|, prizes, h);
    PayOther(r, |a| + |m|, prizes, h);
    PayShift(m, |a|, prizes, h);
  }

  lemma PayFour(w: seq<Row>, x: seq<Row>, y: seq<Row>, z: seq<Row>, prizes: seq<real>, h: string)
    ensures Pay(w + x + y + z, 0, prizes, h)
            == Pay(w, 0, prizes, h) + Pay(x, |w|, prizes, h)
               + Pay(y, |w| + |x|, prizes, h) + Pay(z, |w| + |x| + |y|, prizes, h)
  {
    PayAppend(w + x + y, z, 0, prizes, h);
    PayAppend(w + x, y, 0, prizes, h);
    PayAppend(w, x, 0, prizes, h);
  }

  lemma PayOther(r: Row, place: nat, prizes: seq<real>, h: string)
    requires r.hotkey != h
    ensures Pay([r], place, prizes, h) == 0.0
  {
    assert [r][1..] == [];
  }

  /** A row joining a track: the places behind it shift and the track may pay one place more. */
  lemma JoiningPaysNobodyElse(a: seq<Row>, y: seq<Row>, up: Row, more: seq<real>, prizes: seq<real>, h: string)
    requires Falling(prizes) && Falling(more)
    requires h != up.hotkey
    requires more == prizes || (Diluted(more, prizes) && |a| + |y| == |prizes|)
    ensures Pay(a + [up] + y, 0, more, h) <= Pay(a + y, 0, prizes, h)
  {
    PayFour(a, [up], y, [], more, h);
    assert a + [up] + y + [] == a + [up] + y;
    PayAppend(a, y, 0, prizes, h);
    PayOther(up, |a|, more, h);
    PayShift(y, |a|, more, h);
    PayLower(a, 0, more, prizes, h);
    PayLower(y, |a|, more, prizes, h);
  }

  lemma PrizesAfterJoining(n: nat, payout: real)
    requires n > 0
    requires payout > 0.0
    ensures var k := if n < TOP_K then n else TOP_K;
            var k' := if n + 1 < TOP_K then n + 1 else TOP_K;
            && Falling(Prizes(k, payout)) && Falling(Prizes(k', payout))
            && (Prizes(k', payout) == Prizes(k, payout) || (Diluted(Prizes(k', payout), Prizes(k, payout)) && k == n))
  {
    var k := if n < TOP_K then n else TOP_K;
    PrizesShape(k, payout);
    if n < TOP_K {
      PrizesShape(k + 1, payout);
      PrizesDiluted(k, payout);
    }
  }

  function PaysFor(rows: seq<Row>, payout: real): seq<real> {
    Prizes(PaidPlaces(rows), payout)
  }

  /** Within a track that was already qualified, nobody else gains. */
  lemma RaiseWithinTrack(was: seq<Row>, now: seq<Row>, a: seq<Row>, m: seq<Row>, z: seq<Row>, r: Row, up: Row,
                         cut: real, payout: real, h: string)
    requires was == a + m + Only(r, cut) + z != []
    requires now == a + Only(up, cut) + m + z
    requires h != r.hotkey == up.hotkey && up.score >= r.score
    requires payout > 0.0
    ensures Pay(now, 0, PaysFor(now, payout), h) <= Pay(was, 0, PaysFor(was, payout), h)
  {
    if Passes(r, cut) {
      assert |was| == |now|;
      PrizesShape(PaidPlaces(was), payout);
      OvertakingPaysNobodyElse(a, m, z, r, up, PaysFor(was, payout), h);
    } else if Passes(up, cut) {
      assert was == a + (m + z) && now == a + [up] + (m + z);
      PrizesAfterJoining(|was|, payout);
      JoiningPaysNobodyElse(a, m + z, up, PaysFor(now, payout), PaysFor(was, payout), h);
    } else {
      assert was == now;
    }
  }

  // ----- one raised score, across the tracks

  ghost function RaisedBallot(b: Ballot, t: Track, j: nat, score: real): Ballot
    requires t in b.scores && j < |b.scores[t]|
  {
    b.(scores := b.scores[t := Rescored(b.scores[t], j, score)])
  }

  /** `late` is `early` with the ranking of track `t` replaced by a nonempty one. */
  ghost predicate Restated(early: Standings, late: Standings, t: Track) {
    late.Keys == early.Keys + {t} && forall u :: u in early && u != t ==> late[u] == early[u]
  }

  /** One more qualified track never raises what the others pay. */
  lemma PayoutShrinks(q: set<Track>, t: Track, u: Track)
    requires t !in q && u in q
    ensures 0.0 < Payout(q + {t}, u) <= Payout(q, u)
  {
    var more := q + {t};
    PayoutsTotalOne(q);
    PayoutsTotalOne(more);
    var n := |q| as real;
    assert |more| as real == n + 1.0;
    assert n >= 1.0 by { assert q != {}; }
    IdleShrinks(q, t);
    QuotientOrder(Idle(more), Idle(q), n);
  }

  lemma IdleShrinks(q: set<Track>, t: Track)
    requires t !in q
    ensures 0.0 <= Idle(q + {t}) <= Idle(q)
  {
  }

  lemma QuotientOrder(x: real, y: real, n: real)
    requires 0.0 <= x <= y && n >= 1.0
    ensures x / (n + 1.0) <= y / n
  {
    assert x / (n + 1.0) <= y / (n + 1.0);
    assert y * n <= y * (n + 1.0);
    assert y / (n + 1.0) <= y / n;
  }

  lemma PartShrinks(e: set<string>, more: set<string>)
    requires e <= more && e != {}
    ensures PoolPart(more) <= PoolPart(e)
  {
    assert |e| <= |more| by { SubsetSize(e, more); }
    PartOrder(|e|, |more|);
  }

  lemma PartOrder(n: nat, m: nat)
    requires 0 < n <= m
    ensures CONTRIBUTION_SHARE / m as real <= CONTRIBUTION_SHARE / n as real
  {
  }

  ghost function Income(s: Standings, u: Track, h: string): real {
    if u in s then Pay(s[u], 0, PaysFor(s[u], Payout(s.Keys, u)), h) else 0.0
  }

  lemma IncomeIsFromTrack(s: Standings, contributors: set<string>, u: Track, h: string)
    ensures FromTrack(PlanOf(s, contributors), u, h) == Income(s, u, h)
  {
  }

  lemma UntouchedTrack(early: Standings, late: Standings, t: Track, u: Track, h: string)
    requires NoEmptyTrack(early) && NoEmptyTrack(late)
    requires Restated(early, late, t)
    requires u != t && u in early
    ensures Income(late, u, h) <= Income(early, u, h)
  {
    if t in early {
      assert early.Keys + {t} == early.Keys;
    } else {
      PayoutShrinks(early.Keys, t, u);
      PrizesLower(PaidPlaces(early[u]), Payout(late.Keys, u), Payout(early.Keys, u));
      PayLower(early[u], 0, PaysFor(late[u], Payout(late.Keys, u)), PaysFor(early[u], Payout(early.Keys, u)), h);
    }
  }

  /** The ranking of the raised track, before and after, as the move of one row. */
  ghost predicate Moved(was: seq<Row>, now: seq<Row>, a: seq<Row>, m: seq<Row>, z: seq<Row>,
                        r: Row, up: Row, cut: real) {
    && was == a + m + Only(r, cut) + z
    && now == a + Only(up, cut) + m + z
    && r.hotkey == up.hotkey && up.score >= r.score
  }

  lemma RaisedTrack(early: Standings, late: Standings, t: Track, a: seq<Row>, m: seq<Row>, z: seq<Row>, r: Row, up: Row,
                    cut: real, h: string)
    requires NoEmptyTrack(early) && NoEmptyTrack(late)
    requires Restated(early, late, t)
    requires Moved(if t in early then early[t] else [], late[t], a, m, z, r, up, cut)
    requires h != r.hotkey
    ensures Income(late, t, h) <= Income(early, t, h)
  {
    if t in early {
      assert early.Keys + {t} == early.Keys;
      PayoutsTotalOne(early.Keys);
      RaiseWithinTrack(early[t], late[t], a, m, z, r, up, cut, Payout(early.Keys, t), h);
    } else {
      assert late[t] == Only(up, cut) == [up];
      PayOther(up, 0, PaysFor(late[t], Payout(late.Keys, t)), h);
    }
  }

  lemma IncomesFall(early: Standings, late: Standings, contributors: set<string>, t: Track,
                    a: seq<Row>, m: seq<Row>, z: seq<Row>, r: Row, up: Row, cut: real, h: string)
    requires NoEmptyTrack(early) && NoEmptyTrack(late)
    requires Restated(early, late, t)
    requires Moved(if t in early then early[t] else [], late[t], a, m, z, r, up, cut)
    requires h != r.hotkey
    ensures Performance(PlanOf(late, contributors), h) <= Performance(PlanOf(early, contributors), h)
  {
    forall u ensures Income(late, u, h) <= Income(early, u, h) {
      if u == t {
        RaisedTrack(early, late, t, a, m, z, r, up, cut, h);
      } else if u in early {
        UntouchedTrack(early, late, t, u, h);
      }
    }
    forall u ensures FromTrack(PlanOf(late, contributors), u, h) <= FromTrack(PlanOf(early, contributors), u, h) {
      IncomeIsFromTrack(early, contributors, u, h);
      IncomeIsFromTrack(late, contributors, u, h);
    }
  }

  lemma HotkeysMoved(was: seq<Row>, now: seq<Row>, a: seq<Row>, m: seq<Row>, z: seq<Row>, r: Row, up: Row, cut: real)
    requires Moved(was, now, a, m, z, r, up, cut)
    ensures Hotkeys(was) <= Hotkeys(now) <= Hotkeys(was) + {r.hotkey}
  {
    forall k | k in Hotkeys(was) ensures k in Hotkeys(now) {
      var x :| x in was && x.hotkey == k;
      assert x in a || x in m || x in z || (x == r && Passes(r, cut));
      assert Passes(r, cut) ==> up in Only(up, cut);
      assert forall y :: y in now <==> y in a || y in Only(up, cut) || y in m || y in z;
    }
    forall k | k in Hotkeys(now) ensures k in Hotkeys(was) + {r.hotkey} {
      var x :| x in now && x.hotkey == k;
      assert x in a || x in m || x in z || x == up;
      assert forall y :: y in was <==> y in a || y in m || y in Only(r, cut) || y in z;
    }
  }

  lemma ActiveGrows(early: Standings, late: Standings, t: Track,
                    a: seq<Row>, m: seq<Row>, z: seq<Row>, r: Row, up: Row, cut: real)
    requires Restated(early, late, t)
    requires Moved(if t in early then early[t] else [], late[t], a, m, z, r, up, cut)
    ensures Active(early) <= Active(late) <= Active(early) + {r.hotkey}
  {
    HotkeysMoved(if t in early then early[t] else [], late[t], a, m, z, r, up, cut);
    forall u ensures HotkeysOn(early, u) <= HotkeysOn(late, u) <= HotkeysOn(early, u) + {r.hotkey} {
      if u != t {
        assert u in early <==> u in late;
      }
    }
  }

  /** Less income, and at most the raised hotkey as a new claimant of the pool. */
  lemma OwedFalls(income: real, income': real, e: set<string>, e': set<string>, raised: string, h: string)
    requires 0.0 <= income' <= income
    requires e <= e' <= e + {raised}
    requires h != raised
    ensures OwedFrom(income', e', PoolPart(e'), h) <= OwedFrom(income, e, PoolPart(e), h)
  {
    if e != {} {
      PartShrinks(e, e');
    } else {
      assert h !in e';
    }
  }

  // ----- the whole vector

  lemma SoundPlanOf(b: Ballot)
    ensures SoundPlan(PlanOf(StandingsOf(b), b.contributors))
    ensures PlanOf(StandingsOf(b), b.contributors).ladders.Keys == StandingsOf(b).Keys
  {
    StandingsAreSound(b);
    PlansAreSound(StandingsOf(b), b.contributors);
  }

  /** What a hotkey is emitted is what it is owed, also when that is nothing. */
  lemma EmittedIsOwed(b: Ballot, h: string)
    ensures Get(EmissionWeights(b), h) == Owed(PlanOf(StandingsOf(b), b.contributors), h)
  {
    SoundPlanOf(b);
    OwedSigns(PlanOf(StandingsOf(b), b.contributors), h);
  }

  /** Each eligible active contributor gets an equal part of the contribution pool on top of 95% of
      its performance income; when none is eligible the whole vector is performance. */
  lemma ContributorShare(b: Ballot, h: string)
    ensures var p := PlanOf(StandingsOf(b), b.contributors);
            var eligible := Active(StandingsOf(b)) * b.contributors;
            Get(EmissionWeights(b), h)
            == if eligible == {} then Performance(p, h)
               else 0.95 * Performance(p, h) + (if h in eligible then 0.05 / |eligible| as real else 0.0)
  {
    hide EmissionWeights, StandingsOf, Active, Performance, LadderOf;
    EmittedIsOwed(b, h);
  }

  /** Either nothing clears the threshold after the raise, or the standings change on one track only. */
  lemma RaisedStandings(b: Ballot, t: Track, j: nat, score: real)
    returns (a: seq<Row>, m: seq<Row>, z: seq<Row>)
    requires t in b.scores && j < |b.scores[t]| && score >= b.scores[t][j].score
    requires NoCollision(b.digest, SaltOf(b, t), b.scores[t])
    ensures var early, late := StandingsOf(b), StandingsOf(RaisedBallot(b, t, j, score));
            var r := b.scores[t][j];
            || early == late
            || (&& Restated(early, late, t)
                && Moved(if t in early then early[t] else [], late[t], a, m, z, r, Row(r.hotkey, score), CutOf(b, t)))
  {
    hide StandingsOf, Sort, Passing;
    var c := RaisedBallot(b, t, j, score);
    a, m, z := RaiseMoves(b.scores[t], j, score, CutOf(b, t), b.digest, SaltOf(b, t));
    assert Moved(Ranking(b, t), Ranking(c, t), a, m, z, b.scores[t][j], Row(b.scores[t][j].hotkey, score), CutOf(b, t));
    forall u | u != t ensures Ranking(c, u) == Ranking(b, u) {}
    if Ranking(c, t) == [] {
      SameStandingsFrom(b, c);
    } else {
      RestatedFrom(b, c, t);
      InStandings(b, t);
      InStandings(c, t);
    }
  }

  lemma SameStandingsFrom(b: Ballot, c: Ballot)
    requires forall u :: Ranking(c, u) == Ranking(b, u)
    ensures StandingsOf(c) == StandingsOf(b)
  {
  }

  lemma SameOnTrack(b: Ballot, c: Ballot, u: Track)
    requires Ranking(c, u) == Ranking(b, u)
    ensures u in StandingsOf(c) <==> u in StandingsOf(b)
    ensures u in StandingsOf(b) ==> StandingsOf(c)[u] == StandingsOf(b)[u]
  {
    InStandings(b, u);
    InStandings(c, u);
  }

  lemma RestatedFrom(b: Ballot, c: Ballot, t: Track)
    requires forall u :: u != t ==> Ranking(c, u) == Ranking(b, u)
    requires Ranking(c, t) != []
    ensures Restated(StandingsOf(b), StandingsOf(c), t)
  {
    hide StandingsOf, Ranking;
    var early, late := StandingsOf(b), StandingsOf(c);
    assert t in late by { InStandings(c, t); }
    forall u | u != t ensures (u in late <==> u in early) && (u in early ==> late[u] == early[u]) {
      SameOnTrack(b, c, u);
    }
    assert forall u :: u in late <==> u in early.Keys + {t};
  }

  lemma OthersNeverGain(b: Ballot, t: Track, j: nat, score: real, h: string)
    requires t in b.scores && j < |b.scores[t]| && score >= b.scores[t][j].score
    requires NoCollision(b.digest, SaltOf(b, t), b.scores[t])
    requires h != b.scores[t][j].hotkey
    ensures Owed(PlanOf(StandingsOf(RaisedBallot(b, t, j, score)), b.contributors), h)
            <= Owed(PlanOf(StandingsOf(b), b.contributors), h)
  {
    var c := RaisedBallot(b, t, j, score);
    var early, late := StandingsOf(b), StandingsOf(c);
    var a, m, z := RaisedStandings(b, t, j, score);
    if early != late {
      var r := b.scores[t][j];
      StandingsAreSound(b);
      StandingsAreSound(c);
      IncomesFall(early, late, b.contributors, t, a, m, z, r, Row(r.hotkey, score), CutOf(b, t), h);
      ActiveGrows(early, late, t, a, m, z, r, Row(r.hotkey, score), CutOf(b, t));
      SoundPlanOf(c);
      PerformanceSigns(PlanOf(late, b.contributors), h);
      OwedFalls(Performance(PlanOf(early, b.contributors), h), Performance(PlanOf(late, b.contributors), h),
                Active(early) * b.contributors, Active(late) * b.contributors, r.hotkey, h);
    }
  }

  /** In two vectors with the same sum, what the others lose the remaining one gains. */
  lemma TheRestGains(x: Weights, y: Weights, k: string)
    requires x.Keys == y.Keys && k in x
    requires MapSum(x) == MapSum(y)
    requires forall h :: h in x && h != k ==> y[h] <= x[h]
    ensures y[k] >= x[k]
  {
    SumRemove(x, k);
    SumRemove(y, k);
    SumMonotone(y - {k}, x - {k});
  }

  lemma OwnNeverFalls(b: Ballot, t: Track, j: nat, score: real)
    requires t in b.scores && j < |b.scores[t]| && score >= b.scores[t][j].score
    requires NoCollision(b.digest, SaltOf(b, t), b.scores[t])
    ensures Owed(PlanOf(StandingsOf(RaisedBallot(b, t, j, score)), b.contributors), b.scores[t][j].hotkey)
            >= Owed(PlanOf(StandingsOf(b), b.contributors), b.scores[t][j].hotkey)
  {
    var c := RaisedBallot(b, t, j, score);
    var k := b.scores[t][j].hotkey;
    var p, q := PlanOf(StandingsOf(b), b.contributors), PlanOf(StandingsOf(c), b.contributors);
    SoundPlanOf(b);
    SoundPlanOf(c);
    if p.ladders == map[] {
      OwedSigns(p, k);
      OwedSigns(q, k);
    } else {
      StaysQualified(b, t, j, score);
      var u := Winners(p) + p.eligible + Winners(q) + q.eligible + {k};
      OwedTotal(u, p);
      OwedTotal(u, q);
      forall h | h in u && h != k ensures Debts(u, q)[h] <= Debts(u, p)[h] {
        OthersNeverGain(b, t, j, score, h);
      }
      TheRestGains(Debts(u, p), Debts(u, q), k);
    }
  }

  lemma StaysQualified(b: Ballot, t: Track, j: nat, score: real)
    requires t in b.scores && j < |b.scores[t]| && score >= b.scores[t][j].score
    requires NoCollision(b.digest, SaltOf(b, t), b.scores[t])
    requires PlanOf(StandingsOf(b), b.contributors).ladders != map[]
    ensures PlanOf(StandingsOf(RaisedBallot(b, t, j, score)), b.contributors).ladders != map[]
  {
    var a, m, z := RaisedStandings(b, t, j, score);
    var u :| u in PlanOf(StandingsOf(b), b.contributors).ladders;
    assert u in StandingsOf(b);
    assert u in PlanOf(StandingsOf(RaisedBallot(b, t, j, score)), b.contributors).ladders;
  }

  /** Zero-sum incentive. Raising one score of one agent on one track, across rank changes,
      the threshold, a track becoming qualified and a contributor becoming active, never
      raises anyone else's weight and never lowers its own. A hotkey may hold several rows. */
  lemma ZeroSum(b: Ballot, t: Track, j: nat, score: real)
    requires t in b.scores && j < |b.scores[t]| && score >= b.scores[t][j].score
    requires NoCollision(b.digest, SaltOf(b, t), b.scores[t])
    ensures var before, after := EmissionWeights(b), EmissionWeights(RaisedBallot(b, t, j, score));
            && (forall h :: h != b.scores[t][j].hotkey ==> Get(after, h) <= Get(before, h))
            && Get(after, b.scores[t][j].hotkey) >= Get(before, b.scores[t][j].hotkey)
  {
    hide EmissionWeights, Owed, StandingsOf, PlanOf;
    var c := RaisedBallot(b, t, j, score);
    forall h ensures h != b.scores[t][j].hotkey ==> Get(EmissionWeights(c), h) <= Get(EmissionWeights(b), h) {
      EmittedIsOwed(b, h);
      EmittedIsOwed(c, h);
      if h != b.scores[t][j].hotkey {
        OthersNeverGain(b, t, j, score, h);
      }
    }
    EmittedIsOwed(b, b.scores[t][j].hotkey);
    EmittedIsOwed(c, b.scores[t][j].hotkey);
    OwnNeverFalls(b, t, j, score);
  }
}
