/** The two task draws of a round: the validator's sample of the served listing, the fetch of the
    drawn artifacts, and the second draw over what was fetched. */
module Draw {
  import opened Options
  import opened Sorting

  /** A listed artifact with its id and its label; an empty id stands for a missing one. */
  datatype Entry = Entry(sourceId: string, kind: string)

  datatype Item<A> = Item(ref: string, kind: string, artifact: A)

  // ----- the order of strings

  /** Lexicographic order by code point. */
  predicate Before(a: string, b: string) {
    a == "" || (b != "" && (a[0] < b[0] || (a[0] == b[0] && Before(a[1..], b[1..]))))
  }

  lemma {:induction false} BeforeTotal(a: string, b: string)
    ensures Before(a, b) || Before(b, a)
    ensures Before(a, b) && Before(b, a) ==> a == b
  {
    if a != "" && b != "" && a[0] == b[0] {
      BeforeTotal(a[1..], b[1..]);
      assert a == [a[0]] + a[1..] && b == [b[0]] + b[1..];
    }
  }

  lemma {:induction false} BeforeTransitive(a: string, b: string, c: string)
    requires Before(a, b) && Before(b, c)
    ensures Before(a, c)
  {
    if a != "" && a[0] == b[0] == c[0] {
      BeforeTransitive(a[1..], b[1..], c[1..]);
    }
  }

  function ById(): (Entry, Entry) -> bool {
    (x: Entry, y: Entry) => Before(x.sourceId, y.sourceId)
  }

  function ByRef<A>(): (Item<A>, Item<A>) -> bool {
    (x: Item<A>, y: Item<A>) => Before(x.ref, y.ref)
  }

  lemma ByIdIsTotal()
    ensures TotalPreorder(ById())
  {
    forall a: Entry, b: Entry ensures ById()(a, b) || ById()(b, a) {
      BeforeTotal(a.sourceId, b.sourceId);
    }
    forall a: Entry, b: Entry, c: Entry | ById()(a, b) && ById()(b, c) ensures ById()(a, c) {
      BeforeTransitive(a.sourceId, b.sourceId, c.sourceId);
    }
  }

  lemma ByRefIsTotal<A(!new)>()
    ensures TotalPreorder(ByRef<A>())
  {
    forall a: Item<A>, b: Item<A> ensures ByRef()(a, b) || ByRef()(b, a) {
      BeforeTotal(a.ref, b.ref);
    }
    forall a: Item<A>, b: Item<A>, c: Item<A> | ByRef()(a, b) && ByRef()(b, c) ensures ByRef()(a, c) {
      BeforeTransitive(a.ref, b.ref, c.ref);
    }
  }

  // ----- the first draw

  function Named(entries: seq<Entry>): seq<Entry> {
    if entries == [] then []
    else (if entries[0].sourceId != "" then [entries[0]] else []) + Named(entries[1..])
  }

  /** What the random sampler is known to do: `sample(seed, pool, k)` is `k` elements of the pool,
      and always the same ones. */
  ghost predicate IsSampler<T(!new)>(sample: (string, seq<T>, nat) -> seq<T>) {
    forall seed, pool, k: nat :: k <= |pool| ==>
      && |sample(seed, pool, k)| == k
      && multiset(sample(seed, pool, k)) <= multiset(pool)
  }

  function SelectFromListing(sample: (string, seq<Entry>, nat) -> seq<Entry>,
                             entries: seq<Entry>, seed: string, count: int): seq<Entry> {
    var pool := Sort(Named(entries), ById());
    if seed == "" || count <= 0 || count >= |pool| then pool else sample(seed, pool, count)
  }

  /** No two positions of the listing carry the same nonempty id. */
  ghost predicate DistinctIds(entries: seq<Entry>) {
    forall i, j :: 0 <= i < j < |entries| && entries[i].sourceId != "" ==> entries[i].sourceId != entries[j].sourceId
  }

  lemma {:induction false} NamedKeeps(entries: seq<Entry>, e: Entry)
    ensures multiset(Named(entries))[e] == if e.sourceId != "" then multiset(entries)[e] else 0
  {
    if entries != [] {
      NamedKeeps(entries[1..], e);
      assert entries == [entries[0]] + entries[1..];
    }
  }

  lemma {:induction false} ListedOnce(s: seq<Entry>, e: Entry)
    requires DistinctIds(s)
    requires e.sourceId != ""
    ensures multiset(s)[e] == if e in s then 1 else 0
  {
    if s != [] {
      assert s == [s[0]] + s[1..];
      ListedOnce(s[1..], e);
    }
  }

  /** Listings that name the same entries, each once, draw from the same pool. */
  lemma SameSetSameNamed(s: seq<Entry>, t: seq<Entry>)
    requires DistinctIds(s) && DistinctIds(t)
    requires forall e: Entry :: e.sourceId != "" ==> (e in s <==> e in t)
    ensures multiset(Named(s)) == multiset(Named(t))
  {
    forall e: Entry ensures multiset(Named(s))[e] == multiset(Named(t))[e] {
      NamedKeeps(s, e);
      NamedKeeps(t, e);
      if e.sourceId != "" {
        ListedOnce(s, e);
        ListedOnce(t, e);
      }
    }
  }

  lemma NamedDiscerned(entries: seq<Entry>)
    requires DistinctIds(entries)
    ensures Discerns(ById(), Named(entries))
  {
    forall a, b | a in Named(entries) && b in Named(entries) && ById()(a, b) && ById()(b, a) ensures a == b {
      BeforeTotal(a.sourceId, b.sourceId);
      NamedKeeps(entries, a);
      NamedKeeps(entries, b);
      assert a in multiset(Named(entries)) && b in multiset(Named(entries));
      assert a in entries && b in entries;
      var i :| 0 <= i < |entries| && entries[i] == a;
      var j :| 0 <= j < |entries| && entries[j] == b;
      assert i == j by { assert entries[i].sourceId == entries[j].sourceId != ""; }
    }
  }

  /** The draw depends on the set of listed entries, not on the order the server lists them in. */
  lemma DrawIgnoresListingOrder(sample: (string, seq<Entry>, nat) -> seq<Entry>,
                                s: seq<Entry>, t: seq<Entry>, seed: string, count: int)
    requires DistinctIds(s) && DistinctIds(t)
    requires forall e: Entry :: e.sourceId != "" ==> (e in s <==> e in t)
    ensures SelectFromListing(sample, s, seed, count) == SelectFromListing(sample, t, seed, count)
  {
    SameSetSameNamed(s, t);
    ByIdIsTotal();
    NamedDiscerned(s);
    SortPermutation(Named(s), Named(t), ById());
  }

  /** The draw takes nothing that is not listed, nothing twice, and with a positive count and a
      seed exactly as many as it can. */
  lemma DrawIsSound(sample: (string, seq<Entry>, nat) -> seq<Entry>, entries: seq<Entry>, seed: string, count: int)
    requires IsSampler(sample)
    ensures multiset(SelectFromListing(sample, entries, seed, count)) <= multiset(Named(entries))
    ensures var drawn := |SelectFromListing(sample, entries, seed, count)|;
            drawn == if seed == "" || count <= 0 || count >= |Named(entries)| then |Named(entries)| else count
  {
    SortKeeps(Named(entries), ById());
  }

  // ----- the fetch

  function RefOf(track: string, e: Entry): string {
    track + "/" + e.kind + "/" + e.sourceId
  }

  /** The drawn entries whose artifact the server delivered with files. */
  function Fetched<A>(served: string -> Option<A>, track: string, entries: seq<Entry>): seq<Item<A>> {
    if entries == [] then []
    else
      var last := entries[|entries| - 1];
      Fetched(served, track, entries[..|entries| - 1])
      + (if last.sourceId != "" && served(last.sourceId).Some?
         then [Item(RefOf(track, last), last.kind, served(last.sourceId).value)] else [])
  }

  lemma {:induction false} FetchedNoMore<A>(served: string -> Option<A>, track: string, entries: seq<Entry>)
    ensures |Fetched(served, track, entries)| <= |entries|
  {
    if entries != [] {
      FetchedNoMore(served, track, entries[..|entries| - 1]);
    }
  }

  method FetchCorpus<A>(sample: (string, seq<Entry>, nat) -> seq<Entry>, served: string -> Option<A>, track: string,
                        listing: seq<Entry>, seed: string, count: int)
    returns (items: seq<Item<A>>)
    ensures items == Fetched(served, track, SelectFromListing(sample, listing, seed, count))
  {
    var entries := SelectFromListing(sample, listing, seed, count);
    items := [];
    for i := 0 to |entries|
      invariant items == Fetched(served, track, entries[..i])
    {
      var entry := entries[i];
      assert entries[..i + 1][..i] == entries[..i];
      if entry.sourceId == "" {
        continue;
      }
      var artifact := served(entry.sourceId);
      if artifact.None? {
        continue;
      }
      items := items + [Item(RefOf(track, entry), entry.kind, artifact.value)];
    }
    assert entries[..|entries|] == entries;
  }

  // ----- the second draw

  function SelectTasks<A>(sample: (string, seq<Item<A>>, nat) -> seq<Item<A>>,
                          corpus: seq<Item<A>>, seed: string, count: nat): seq<Item<A>> {
    var items := Sort(corpus, ByRef());
    if count >= |items| then items else sample(seed, items, count)
  }

  /** The second draw drops nothing: for every listing, every pool size and every positive count,
      it is the fetched items in the order of their refs. */
  lemma SecondDrawDropsNothing<A(!new)>(first: (string, seq<Entry>, nat) -> seq<Entry>,
                                        second: (string, seq<Item<A>>, nat) -> seq<Item<A>>,
                                        served: string -> Option<A>, track: string,
                                        listing: seq<Entry>, seed: string, count: nat)
    requires IsSampler(first)
    requires seed != "" && count > 0
    ensures var fetched := Fetched(served, track, SelectFromListing(first, listing, seed, count));
            var tasks := SelectTasks(second, fetched, seed, count);
            && multiset(tasks) == multiset(fetched)
            && |tasks| <= count
            && Sorted(tasks, ByRef())
            && tasks == Sort(fetched, ByRef())
  {
    var drawn := SelectFromListing(first, listing, seed, count);
    var fetched := Fetched(served, track, drawn);
    DrawIsSound(first, listing, seed, count);
    FetchedNoMore(served, track, drawn);
    SortKeeps(fetched, ByRef());
    ByRefIsTotal<A>();
    SortSorted(fetched, ByRef());
  }

  // ----- the draws said of the listing

  /** The order of ids is that of the code points at the first place where they differ; a prefix comes first. */
  lemma {:induction false} BeforeExactly(a: string, b: string)
    ensures Before(a, b)
            <==> a <= b || exists k :: 0 <= k < |a| && k < |b| && a[..k] == b[..k] && a[k] < b[k]
  {
    if a != "" && b != "" {
      BeforeExactly(a[1..], b[1..]);
      if a[0] == b[0] {
        assert a <= b <==> a[1..] <= b[1..];
        forall k | 0 <= k < |a| - 1 && k < |b| - 1 && a[1..][..k] == b[1..][..k] && a[1..][k] < b[1..][k]
          ensures a[..k + 1] == b[..k + 1] && a[k + 1] < b[k + 1]
        {
          assert a[..k + 1] == [a[0]] + a[1..][..k] && b[..k + 1] == [b[0]] + b[1..][..k];
        }
        forall k | 0 < k < |a| && k < |b| && a[..k] == b[..k] && a[k] < b[k]
          ensures a[1..][..k - 1] == b[1..][..k - 1] && a[1..][k - 1] < b[1..][k - 1]
        {
          assert a[1..][..k - 1] == a[..k][1..] && b[1..][..k - 1] == b[..k][1..];
        }
      } else {
        assert forall k :: 0 < k < |a| && k < |b| ==> a[..k][0] == a[0] && b[..k][0] == b[0];
        assert a[..0] == b[..0];
      }
    }
  }

  /** The listed entries that name an id, in the order of their ids. */
  ghost predicate PoolOf(pool: seq<Entry>, entries: seq<Entry>) {
    && (forall e :: multiset(pool)[e] == if e.sourceId == "" then 0 else multiset(entries)[e])
    && forall i, j :: 0 <= i < j < |pool| ==> Before(pool[i].sourceId, pool[j].sourceId)
  }

  /** Where no id is listed twice, the draw is the whole pool in the order of the ids, or the sampler's choice of
      `count` from it under this very seed if there is a seed and a positive count below the size of the pool. */
  lemma DrawExactly(sample: (string, seq<Entry>, nat) -> seq<Entry>, entries: seq<Entry>, seed: string, count: int,
                    pool: seq<Entry>)
    requires DistinctIds(entries) && PoolOf(pool, entries)
    ensures SelectFromListing(sample, entries, seed, count)
            == if seed != "" && 0 < count < |pool| then sample(seed, pool, count) else pool
  {
    var named := Named(entries);
    forall e ensures multiset(named)[e] == multiset(pool)[e] {
      NamedKeeps(entries, e);
    }
    assert multiset(named) == multiset(pool);
    ByIdIsTotal();
    NamedDiscerned(entries);
    SortKeeps(named, ById());
    SortSorted(named, ById());
    MultisetMembers(named, Sort(named, ById()));
    SortedUnique(Sort(named, ById()), pool, ById());
  }

  /** Where no two items share a ref, the tasks are the items in the order of their refs, or the sampler's choice
      of `count` from them under this very seed if there are more than that. */
  lemma SelectTasksExactly<A(!new)>(sample: (string, seq<Item<A>>, nat) -> seq<Item<A>>, corpus: seq<Item<A>>,
                                    seed: string, count: nat, tasks: seq<Item<A>>)
    requires forall i, j :: 0 <= i < j < |corpus| ==> corpus[i].ref != corpus[j].ref
    requires multiset(tasks) == multiset(corpus)
    requires forall i, j :: 0 <= i < j < |tasks| ==> Before(tasks[i].ref, tasks[j].ref)
    ensures SelectTasks(sample, corpus, seed, count)
            == if count < |tasks| then sample(seed, tasks, count) else tasks
  {
    ByRefIsTotal<A>();
    SortKeeps(corpus, ByRef());
    SortSorted(corpus, ByRef());
    RefsDiscerned(corpus);
    MultisetMembers(corpus, Sort(corpus, ByRef()));
    SortedUnique(Sort(corpus, ByRef()), tasks, ByRef());
  }

  lemma RefsDiscerned<A(!new)>(corpus: seq<Item<A>>)
    requires forall i, j :: 0 <= i < j < |corpus| ==> corpus[i].ref != corpus[j].ref
    ensures Discerns(ByRef(), corpus)
  {
    forall a, b | a in corpus && b in corpus && ByRef()(a, b) && ByRef()(b, a) ensures a == b {
      BeforeTotal(a.ref, b.ref);
      var i :| 0 <= i < |corpus| && corpus[i] == a;
      var j :| 0 <= j < |corpus| && corpus[j] == b;
      assert i == j;
    }
  }

  /** The fetch goes through the drawn entries in order; an entry gives one item, with its kind, its artifact and
      the ref `track/kind/id`, if it has an id under which the server delivers an artifact, and none otherwise. */
  lemma {:induction false} FetchedExactly<A>(served: string -> Option<A>, track: string, e: Entry, rest: seq<Entry>)
    ensures Fetched(served, track, []) == []
    ensures Fetched(served, track, [e] + rest)
            == (if e.sourceId == "" || served(e.sourceId) == None then []
                else [Item(track + "/" + e.kind + "/" + e.sourceId, e.kind, served(e.sourceId).value)])
               + Fetched(served, track, rest)
  {
    var all, n := [e] + rest, |rest|;
    if n == 0 {
      assert all[..0] == [] && all == [e];
    } else {
      FetchedExactly(served, track, e, rest[..n - 1]);
      assert all[..n] == [e] + rest[..n - 1];
      assert all[n] == rest[n - 1];
    }
  }
}
