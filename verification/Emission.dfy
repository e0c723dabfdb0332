/** The emission allocator: threshold, ranking, top five, idle redistribution, the two
    pools and the final normalisation.

    `EmissionWeights` says in closed form what every hotkey is owed;
    `ComputeEmissionWeights` is the dictionary-updating algorithm, which reaches those
    numbers through two normalisations the closed form does not have.
 */
module Emission {
  import opened Sorting
  import opened Sums

  datatype Track = Repositories | Packages | McpServers | Skills

  /** One scored agent of one track. */
  datatype Row = Row(hotkey: string, score: real)

  type Scores = map<Track, seq<Row>>

  /** What one allocation reads. `digest` stands for the hexadecimal SHA-256 of a string. */
  datatype Ballot = Ballot(
    scores: Scores,
    contributors: set<string>,
    thresholds: map<Track, real>,
    digest: string -> int,
    salt: string)

  const TRACKS: seq<Track> := [Repositories, Packages, McpServers, Skills]
  const TOP_K: nat := 5
  const TOP_K_SPLIT: seq<real> := [0.40, 0.25, 0.15, 0.12, 0.08]
  const CONTRIBUTION_SHARE := 0.05

  function TrackName(t: Track): string {
    match t
    case Repositories => "repositories"
    case Packages => "packages"
    case McpServers => "mcp_servers"
    case Skills => "skills"
  }

  function Share(t: Track): real {
    match t
    case Repositories => 0.30
    case Packages => 0.25
    case McpServers => 0.225
    case Skills => 0.225
  }

  // ----- ranking

  function TiebreakKey(digest: string -> int, salt: string, hotkey: string): int {
    digest(salt + ":" + hotkey)
  }

  /** Higher scores first; equal scores by the salted digest of the hotkey. */
  function RowOrder(digest: string -> int, salt: string): (Row, Row) -> bool {
    (a: Row, b: Row) =>
      a.score > b.score
      || (a.score == b.score && TiebreakKey(digest, salt, a.hotkey) <= TiebreakKey(digest, salt, b.hotkey))
  }

  predicate Passes(r: Row, cut: real) {
    r.score > 0.0 && r.score >= cut
  }

  function Passing(rows: seq<Row>, cut: real): seq<Row> {
    if rows == [] then []
    else (if Passes(rows[0], cut) then [rows[0]] else []) + Passing(rows[1..], cut)
  }

  function RowsOf(b: Ballot, t: Track): seq<Row> {
    if t in b.scores then b.scores[t] else []
  }

  function CutOf(b: Ballot, t: Track): real {
    if t in b.thresholds then b.thresholds[t] else 0.0
  }

  function SaltOf(b: Ballot, t: Track): string {
    b.salt + ":" + TrackName(t)
  }

  /** The agents of a track that clear its threshold, best first. */
  function Ranking(b: Ballot, t: Track): seq<Row> {
    Passing(Sort(RowsOf(b, t), RowOrder(b.digest, SaltOf(b, t))), CutOf(b, t))
  }

  /** The tracks with at least one agent clearing the threshold, with all of those agents. */
  type Standings = map<Track, seq<Row>>

  function StandingsOf(b: Ballot): Standings {
    map t | t in TRACKS && Ranking(b, t) != [] :: Ranking(b, t)
  }

  /** Every hotkey of a ranking. */
  function Hotkeys(rows: seq<Row>): set<string> {
    set r | r in rows :: r.hotkey
  }

  // ----- what a track pays

  function PaidPlaces(rows: seq<Row>): nat {
    if |rows| < TOP_K then |rows| else TOP_K
  }

  function SplitSum(k: nat): real
    requires k <= TOP_K
  {
    if k == 0 then 0.0 else SplitSum(k - 1) + TOP_K_SPLIT[k - 1]
  }

  lemma SplitSums()
    ensures SplitSum(1) == 0.40 && SplitSum(2) == 0.65 && SplitSum(3) == 0.80
    ensures SplitSum(4) == 0.92 && SplitSum(5) == 1.0
    ensures forall k: nat :: 0 < k <= TOP_K ==> SplitSum(k) > 0.0
  {
    assert SplitSum(0) == 0.0;
    assert SplitSum(1) == SplitSum(0) + TOP_K_SPLIT[0];
    assert SplitSum(2) == SplitSum(1) + TOP_K_SPLIT[1];
    assert SplitSum(3) == SplitSum(2) + TOP_K_SPLIT[2];
    assert SplitSum(4) == SplitSum(3) + TOP_K_SPLIT[3];
    assert SplitSum(5) == SplitSum(4) + TOP_K_SPLIT[4];
  }

  /** The fractions of a track paid to its first `k` places: the leading slice of the
      split, renormalised. */
  function Rates(k: nat): (r: seq<real>)
    requires k <= TOP_K
    ensures |r| == k
  {
    SplitSums();
    seq(k, i requires 0 <= i < k => TOP_K_SPLIT[i] / SplitSum(k))
  }

  /** What each paid place of a track collects when the track pays out `payout`. */
  function Prizes(k: nat, payout: real): (r: seq<real>)
    requires k <= TOP_K
    ensures |r| == k
  {
    seq(k, i requires 0 <= i < k => payout * Rates(k)[i])
  }

  function PrizeAt(prizes: seq<real>, place: nat): real {
    if place < |prizes| then prizes[place] else 0.0
  }

  /** What `hotkey` collects from a ranking whose first row is in place `place`. */
  ghost function Pay(rows: seq<Row>, place: nat, prizes: seq<real>, hotkey: string): real {
    if rows == [] then 0.0
    else
      (if rows[0].hotkey == hotkey then PrizeAt(prizes, place) else 0.0)
      + Pay(rows[1..], place + 1, prizes, hotkey)
  }

  // ----- the shares

  function IdlePart(qualified: set<Track>, t: Track): real {
    if t in qualified then 0.0 else Share(t)
  }

  /** The shares of the tracks nobody qualified on. */
  function Idle(qualified: set<Track>): real {
    IdlePart(qualified, Repositories) + IdlePart(qualified, Packages)
    + IdlePart(qualified, McpServers) + IdlePart(qualified, Skills)
  }

  /** A qualified track pays its share and an equal part of the idle shares. */
  function Payout(qualified: set<Track>, t: Track): real
    requires qualified != {}
  {
    Share(t) + Idle(qualified) / |qualified| as real
  }

  /** The performance pool takes 95%; the literal keeps products linear. */
  function PerformancePart(income: real): real {
    0.95 * income
  }

  /** The contribution pool is cut into equal parts. */
  function PoolPart(eligible: set<string>): real {
    if eligible == {} then 0.0 else CONTRIBUTION_SHARE / |eligible| as real
  }

  // ----- the whole vector

  /** One qualified track: its ranking, and what each paid place collects. */
  datatype Ladder = Ladder(rows: seq<Row>, prizes: seq<real>)

  /** The terms of one allocation. */
  datatype Plan = Plan(ladders: map<Track, Ladder>, eligible: set<string>, part: real)

  ghost function FromTrack(p: Plan, t: Track, hotkey: string): real {
    if t in p.ladders then Pay(p.ladders[t].rows, 0, p.ladders[t].prizes, hotkey) else 0.0
  }

  /** The performance income of a hotkey over all tracks, before pooling. */
  ghost function Performance(p: Plan, hotkey: string): real {
    FromTrack(p, Repositories, hotkey) + FromTrack(p, Packages, hotkey)
    + FromTrack(p, McpServers, hotkey) + FromTrack(p, Skills, hotkey)
  }

  /** What a hotkey with this performance income is owed: the income alone when no contributor
      is active, otherwise 95% of it plus an equal part of the contribution pool. */
  function OwedFrom(income: real, eligible: set<string>, part: real, hotkey: string): real {
    if eligible == {} then income
    else PerformancePart(income) + if hotkey in eligible then part else 0.0
  }

  ghost function Owed(p: Plan, hotkey: string): real {
    OwedFrom(Performance(p, hotkey), p.eligible, p.part, hotkey)
  }

  function WinnersOn(p: Plan, t: Track): set<string> {
    if t in p.ladders then
      var l := p.ladders[t];
      Hotkeys(if |l.prizes| <= |l.rows| then l.rows[..|l.prizes|] else l.rows)
    else {}
  }

  /** The hotkeys in a paid place of some track. */
  function Winners(p: Plan): set<string> {
    WinnersOn(p, Repositories) + WinnersOn(p, Packages) + WinnersOn(p, McpServers) + WinnersOn(p, Skills)
  }

  ghost function Allocation(p: Plan): Weights {
    map h | h in Winners(p) + p.eligible :: Owed(p, h)
  }

  function HotkeysOn(s: Standings, t: Track): set<string> {
    if t in s then Hotkeys(s[t]) else {}
  }

  /** Every hotkey that clears some track's threshold, paid or not. */
  function Active(s: Standings): set<string> {
    HotkeysOn(s, Repositories) + HotkeysOn(s, Packages) + HotkeysOn(s, McpServers) + HotkeysOn(s, Skills)
  }

  function LadderOf(s: Standings, t: Track): Ladder
    requires t in s
  {
    Ladder(s[t], Prizes(PaidPlaces(s[t]), Payout(s.Keys, t)))
  }

  function PlanOf(s: Standings, contributors: set<string>): Plan {
    var eligible := Active(s) * contributors;
    Plan(map t | t in s :: LadderOf(s, t), eligible, PoolPart(eligible))
  }

  ghost function EmissionWeights(b: Ballot): Weights {
    Allocation(PlanOf(StandingsOf(b), b.contributors))
  }

  // ----- facts about one ranking

  ghost predicate Positive(prizes: seq<real>) {
    forall i :: 0 <= i < |prizes| ==> prizes[i] > 0.0
  }

  /** A later place never pays more. */
  ghost predicate Falling(prizes: seq<real>) {
    Positive(prizes) && forall i :: 0 <= i < |prizes| - 1 ==> prizes[i + 1] <= prizes[i]
  }

  /** Adding one paid place never raises an already paid one. */
  ghost predicate Diluted(more: seq<real>, prizes: seq<real>) {
    |more| == |prizes| + 1 && forall i :: 0 <= i < |prizes| ==> more[i] <= prizes[i]
  }

  ghost function SumFrom(prizes: seq<real>, place: nat): real
    decreases |prizes| - place
  {
    if place >= |prizes| then 0.0 else prizes[place] + SumFrom(prizes, place + 1)
  }

  lemma RatesValues()
    ensures Rates(1) == [1.0]
    ensures Rates(2) == [0.40 / 0.65, 0.25 / 0.65]
    ensures Rates(3) == [0.40 / 0.80, 0.25 / 0.80, 0.15 / 0.80]
    ensures Rates(4) == [0.40 / 0.92, 0.25 / 0.92, 0.15 / 0.92, 0.12 / 0.92]
    ensures Rates(5) == [0.40, 0.25, 0.15, 0.12, 0.08]
  {
    SplitSums();
  }

  lemma RatesFall(k: nat)
    requires 0 < k <= TOP_K
    ensures Falling(Rates(k))
    ensures k < TOP_K ==> Diluted(Rates(k + 1), Rates(k))
  {
    RatesValues();
    assert k == 1 || k == 2 || k == 3 || k == 4 || k == 5;
  }

  lemma RatesTotalOne(k: nat)
    requires 0 < k <= TOP_K
    ensures SumFrom(Rates(k), 0) == 1.0
  {
    RatesValues();
    var r := Rates(k);
    assert SumFrom(r, k) == 0.0;
    assert SumFrom(r, k - 1) == r[k - 1];
    if k >= 2 { assert SumFrom(r, k - 2) == r[k - 2] + SumFrom(r, k - 1); }
    if k >= 3 { assert SumFrom(r, k - 3) == r[k - 3] + SumFrom(r, k - 2); }
    if k >= 4 { assert SumFrom(r, k - 4) == r[k - 4] + SumFrom(r, k - 3); }
    if k >= 5 { assert SumFrom(r, k - 5) == r[k - 5] + SumFrom(r, k - 4); }
  }

  lemma {:induction false} SumFromScaled(payout: real, rates: seq<real>, prizes: seq<real>, place: nat)
    requires |rates| == |prizes|
    requires forall i :: 0 <= i < |rates| ==> prizes[i] == payout * rates[i]
    ensures SumFrom(prizes, place) == payout * SumFrom(rates, place)
    decreases |rates| - place
  {
    if place < |rates| {
      SumFromScaled(payout, rates, prizes, place + 1);
      var r, rest := rates[place], SumFrom(rates, place + 1);
      assert payout * (r + rest) == payout * r + payout * rest;
    }
  }

  lemma ProductOrder(a: real, b: real, x: real, y: real)
    requires 0.0 < a <= b && 0.0 < x <= y
    ensures 0.0 < a * x <= b * y
  {
    assert a * x <= a * y && a * y <= b * y;
  }

  lemma PrizesTotal(k: nat, payout: real)
    requires 0 < k <= TOP_K
    ensures SumFrom(Prizes(k, payout), 0) == payout
  {
    RatesTotalOne(k);
    SumFromScaled(payout, Rates(k), Prizes(k, payout), 0);
  }

  /** The prizes of a track fall with the place and add up to what the track pays out. */
  lemma PrizesShape(k: nat, payout: real)
    requires 0 < k <= TOP_K
    requires payout > 0.0
    ensures Falling(Prizes(k, payout))
    ensures SumFrom(Prizes(k, payout), 0) == payout
  {
    hide Prizes, Rates, SumFrom;
    RatesFall(k);
    PrizesTotal(k, payout);
    forall i | 0 <= i < k ensures Prizes(k, payout)[i] > 0.0 {
      PrizeEntry(k, payout, i, Rates(k)[i]);
    }
    forall i | 0 <= i < k - 1 ensures Prizes(k, payout)[i + 1] <= Prizes(k, payout)[i] {
      NextPrize(k, payout, i, Rates(k)[i], Rates(k)[i + 1]);
    }
  }

  lemma NextPrize(k: nat, payout: real, i: nat, high: real, low: real)
    requires i + 1 < k <= TOP_K
    requires payout > 0.0 && high == Rates(k)[i] && low == Rates(k)[i + 1]
    requires 0.0 < low <= high
    ensures Prizes(k, payout)[i + 1] <= Prizes(k, payout)[i]
  {
    var a, b := payout * low, payout * high;
    assert Prizes(k, payout)[i + 1] == a && Prizes(k, payout)[i] == b;
    assert b - a == payout * (high - low);
    hide Prizes, Rates;
  }

  lemma PrizeEntry(k: nat, payout: real, i: nat, rate: real)
    requires i < k <= TOP_K
    requires payout > 0.0 && rate == Rates(k)[i] > 0.0
    ensures Prizes(k, payout)[i] == payout * rate > 0.0
  {
    ProductOrder(payout, payout, rate, rate);
  }

  /** A track that pays out no more than before pays no place more than before. */
  lemma PrizesLower(k: nat, less: real, payout: real)
    requires 0 < k <= TOP_K
    requires 0.0 < less <= payout
    ensures forall i :: 0 <= i < k ==> Prizes(k, less)[i] <= Prizes(k, payout)[i]
  {
    RatesFall(k);
    forall i | 0 <= i < k ensures Prizes(k, less)[i] <= Prizes(k, payout)[i] {
      ProductOrder(less, payout, Rates(k)[i], Rates(k)[i]);
    }
  }

  /** Paying one more place of the same track pays no place more than before. */
  lemma PrizesDiluted(k: nat, payout: real)
    requires 0 < k < TOP_K
    requires payout > 0.0
    ensures Diluted(Prizes(k + 1, payout), Prizes(k, payout))
  {
    RatesFall(k);
    RatesFall(k + 1);
    forall i | 0 <= i < k ensures Prizes(k + 1, payout)[i] <= Prizes(k, payout)[i] {
      ProductOrder(payout, payout, Rates(k + 1)[i], Rates(k)[i]);
    }
  }

  lemma {:induction false} PayAppend(a: seq<Row>, b: seq<Row>, place: nat, prizes: seq<real>, hotkey: string)
    ensures Pay(a + b, place, prizes, hotkey) == Pay(a, place, prizes, hotkey) + Pay(b, place + |a|, prizes, hotkey)
  {
    if a == [] {
      assert a + b == b;
    } else {
      assert (a + b)[1..] == a[1..] + b;
      PayAppend(a[1..], b, place + 1, prizes, hotkey);
    }
  }

  lemma {:induction false} PayBounds(rows: seq<Row>, place: nat, prizes: seq<real>, hotkey: string)
    requires Positive(prizes)
    ensures Pay(rows, place, prizes, hotkey) >= 0.0
    ensures hotkey !in Hotkeys(rows) ==> Pay(rows, place, prizes, hotkey) == 0.0
    ensures place >= |prizes| ==> Pay(rows, place, prizes, hotkey) == 0.0
    ensures hotkey in Hotkeys(rows) && place + |rows| <= |prizes| ==> Pay(rows, place, prizes, hotkey) > 0.0
  {
    if rows != [] {
      assert rows == [rows[0]] + rows[1..];
      assert forall r :: r in rows <==> r == rows[0] || r in rows[1..];
      assert Hotkeys(rows) == {rows[0].hotkey} + Hotkeys(rows[1..]);
      PayBounds(rows[1..], place + 1, prizes, hotkey);
    }
  }

  /** Only the paid places pay. */
  lemma TopPays(rows: seq<Row>, prizes: seq<real>, hotkey: string)
    requires Positive(prizes) && |prizes| <= |rows|
    ensures Pay(rows, 0, prizes, hotkey) == Pay(rows[..|prizes|], 0, prizes, hotkey)
  {
    var k := |prizes|;
    assert rows == rows[..k] + rows[k..];
    PayAppend(rows[..k], rows[k..], 0, prizes, hotkey);
    PayBounds(rows[k..], k, prizes, hotkey);
  }
}
