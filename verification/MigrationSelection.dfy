/** Ranking of pending migrations: critical first, then hottest first, ties in the order they were found. */
module MigrationSelection {
  import opened Types

  datatype PendingMigration = PendingMigration(
    chunk: ChunkId,
    fromTier: TierId,
    toTier: TierId,
    priority: TransferPriority,
    size: nat,
    hotness: real,
    identifiedAt: nat)

  predicate Outranks(a: PendingMigration, b: PendingMigration) {
    a.priority.Value() > b.priority.Value() || (a.priority.Value() == b.priority.Value() && a.hotness > b.hotness)
  }

  /** Critical before high before normal before low, and the hotter first within a priority. */
  lemma RankOrder(a: PendingMigration, b: PendingMigration)
    ensures a.priority == b.priority ==> (Outranks(a, b) <==> a.hotness > b.hotness)
    ensures a.priority != b.priority ==>
      (Outranks(a, b) <==>
        || a.priority == Critical
        || (a.priority == High && b.priority != Critical)
        || (a.priority == Normal && b.priority == Low))
  {
  }

  predicate SameRank(a: PendingMigration, b: PendingMigration) {
    !Outranks(a, b) && !Outranks(b, a)
  }

  ghost predicate Sorted(s: seq<PendingMigration>) {
    forall i, j :: 0 <= i < j < |s| ==> !Outranks(s[j], s[i])
  }

  /** The migrations that rank with `m`, in order. */
  function Peers(s: seq<PendingMigration>, m: PendingMigration): seq<PendingMigration> {
    if s == [] then [] else (if SameRank(s[0], m) then [s[0]] else []) + Peers(s[1..], m)
  }

  /** `out` is `s` sorted by rank, with migrations of equal rank in their original order. */
  ghost predicate IsStableSort(s: seq<PendingMigration>, out: seq<PendingMigration>) {
    Sorted(out) && forall m :: Peers(out, m) == Peers(s, m)
  }

  // ---- a stable sort exists ----

  function Insert(x: PendingMigration, s: seq<PendingMigration>): seq<PendingMigration> {
    if s == [] || !Outranks(s[0], x) then [x] + s else [s[0]] + Insert(x, s[1..])
  }

  function StableSort(s: seq<PendingMigration>): seq<PendingMigration> {
    if s == [] then [] else Insert(s[0], StableSort(s[1..]))
  }

  lemma {:induction false} InsertMembers(x: PendingMigration, s: seq<PendingMigration>)
    ensures multiset(Insert(x, s)) == multiset(s) + multiset{x}
  {
    if s == [] || !Outranks(s[0], x) {
    } else {
      InsertMembers(x, s[1..]);
      assert s == [s[0]] + s[1..];
    }
  }

  lemma {:induction false} InsertSorted(x: PendingMigration, s: seq<PendingMigration>)
    requires Sorted(s)
    ensures Sorted(Insert(x, s))
  {
    if s == [] || !Outranks(s[0], x) {
      forall j | 0 <= j < |s| ensures !Outranks(s[j], x) {
        assert j > 0 ==> !Outranks(s[j], s[0]);
      }
    } else {
      var rest := Insert(x, s[1..]);
      InsertSorted(x, s[1..]);
      InsertMembers(x, s[1..]);
      forall j | 0 <= j < |rest| ensures !Outranks(rest[j], s[0]) {
        assert rest[j] in multiset(s[1..]) + multiset{x};
        if rest[j] != x {
          assert rest[j] in s[1..];
        }
      }
    }
  }

  lemma {:induction false} InsertPeers(x: PendingMigration, s: seq<PendingMigration>, m: PendingMigration)
    ensures Peers(Insert(x, s), m) == Peers([x] + s, m)
  {
    assert ([x] + s)[1..] == s;
    if !(s == [] || !Outranks(s[0], x)) {
      InsertPeers(x, s[1..], m);
      assert ([x] + s[1..])[1..] == s[1..];
      assert ([s[0]] + Insert(x, s[1..]))[1..] == Insert(x, s[1..]);
    }
  }

  lemma {:induction false} SortPeers(s: seq<PendingMigration>, m: PendingMigration)
    ensures Peers(StableSort(s), m) == Peers(s, m)
  {
    if s != [] {
      SortPeers(s[1..], m);
      InsertPeers(s[0], StableSort(s[1..]), m);
      assert ([s[0]] + StableSort(s[1..]))[1..] == StableSort(s[1..]);
    }
  }

  lemma {:induction false} SortSorted(s: seq<PendingMigration>)
    ensures Sorted(StableSort(s)) && multiset(StableSort(s)) == multiset(s)
  {
    if s != [] {
      SortSorted(s[1..]);
      InsertSorted(s[0], StableSort(s[1..]));
      InsertMembers(s[0], StableSort(s[1..]));
      assert s == [s[0]] + s[1..];
    }
  }

  lemma SortIsStable(s: seq<PendingMigration>)
    ensures IsStableSort(s, StableSort(s))
  {
    SortSorted(s);
    forall m ensures Peers(StableSort(s), m) == Peers(s, m) {
      SortPeers(s, m);
    }
  }

  // ---- and there is only one ----

  lemma {:induction false} PeersFound(s: seq<PendingMigration>, m: PendingMigration)
    ensures forall p :: p in Peers(s, m) ==> p in s && SameRank(p, m)
    ensures forall p :: p in s && SameRank(p, m) ==> p in Peers(s, m)
  {
    if s != [] {
      PeersFound(s[1..], m);
      assert s == [s[0]] + s[1..];
    }
  }

  /** The best-ranked element of `a` ranks with that of `b`. */
  lemma HeadsRankAlike(a: seq<PendingMigration>, b: seq<PendingMigration>)
    requires Sorted(a) && Sorted(b) && a != [] && b != []
    requires forall m :: Peers(a, m) == Peers(b, m)
    ensures !Outranks(b[0], a[0])
  {
    PeersFound(b, b[0]);
    assert b[0] in Peers(a, b[0]);
    PeersFound(a, b[0]);
    var i :| 0 <= i < |a| && a[i] == b[0];
    assert i > 0 ==> !Outranks(a[i], a[0]);
  }

  lemma {:induction false} SameHead(a: seq<PendingMigration>, b: seq<PendingMigration>)
    requires Sorted(a) && Sorted(b) && a != [] && b != []
    requires forall m :: Peers(a, m) == Peers(b, m)
    ensures a[0] == b[0] && Sorted(a[1..]) && Sorted(b[1..])
    ensures forall m :: Peers(a[1..], m) == Peers(b[1..], m)
  {
    HeadsRankAlike(a, b);
    HeadsRankAlike(b, a);
    assert Peers(a, a[0])[0] == a[0] && Peers(b, a[0])[0] == b[0];
    forall m ensures Peers(a[1..], m) == Peers(b[1..], m) {
      assert Peers(a, m) == Peers(b, m);
      if SameRank(a[0], m) {
        assert Peers(a, m)[1..] == Peers(a[1..], m) && Peers(b, m)[1..] == Peers(b[1..], m);
      } else {
        assert Peers(a, m) == Peers(a[1..], m) && Peers(b, m) == Peers(b[1..], m);
      }
    }
  }

  lemma HeadHasPeers(s: seq<PendingMigration>)
    requires s != []
    ensures Peers(s, s[0]) != Peers([], s[0])
  {
  }

  lemma {:induction false} EqualPeersEqualLists(a: seq<PendingMigration>, b: seq<PendingMigration>)
    requires Sorted(a) && Sorted(b)
    requires forall m :: Peers(a, m) == Peers(b, m)
    ensures a == b
  {
    if a != [] && b != [] {
      SameHead(a, b);
      EqualPeersEqualLists(a[1..], b[1..]);
      assert a == [a[0]] + a[1..] && b == [b[0]] + b[1..];
    } else if a != [] {
      HeadHasPeers(a);
    } else if b != [] {
      HeadHasPeers(b);
    }
  }

  /** Any stable sort of `s` by rank gives the same list, so the result does not depend on the algorithm. */
  lemma StableSortUnique(s: seq<PendingMigration>, out: seq<PendingMigration>)
    requires IsStableSort(s, out)
    ensures out == StableSort(s)
  {
    SortIsStable(s);
    forall m ensures Peers(out, m) == Peers(StableSort(s), m) {
      assert Peers(out, m) == Peers(s, m);
    }
    EqualPeersEqualLists(out, StableSort(s));
  }

  // ---- keeping the best few ----

  /** Sort, then cut off after `limit`. */
  function Best(s: seq<PendingMigration>, limit: nat): seq<PendingMigration> {
    var sorted := StableSort(s);
    if |sorted| <= limit then sorted else sorted[..limit]
  }

  ghost predicate DistinctChunks(s: seq<PendingMigration>) {
    forall i, j :: 0 <= i < j < |s| ==> s[i].chunk != s[j].chunk
  }

  lemma {:induction false} InsertDistinct(x: PendingMigration, s: seq<PendingMigration>)
    requires DistinctChunks(s) && forall p :: p in s ==> p.chunk != x.chunk
    ensures DistinctChunks(Insert(x, s))
  {
    if !(s == [] || !Outranks(s[0], x)) {
      var rest := Insert(x, s[1..]);
      InsertDistinct(x, s[1..]);
      InsertMembers(x, s[1..]);
      forall j | 0 <= j < |rest| ensures rest[j].chunk != s[0].chunk {
        assert rest[j] in multiset(s[1..]) + multiset{x};
        if rest[j] != x {
          assert rest[j] in s[1..];
        }
      }
    }
  }

  lemma {:induction false} SortDistinct(s: seq<PendingMigration>)
    requires DistinctChunks(s)
    ensures DistinctChunks(StableSort(s))
  {
    if s != [] {
      SortDistinct(s[1..]);
      SortSorted(s[1..]);
      forall p | p in StableSort(s[1..]) ensures p.chunk != s[0].chunk {
        assert p in multiset(s[1..]);
        assert p in s[1..];
      }
      InsertDistinct(s[0], StableSort(s[1..]));
    }
  }

  /**
   * The best few are `limit` of the candidates, or all of them if there are fewer; no chunk appears twice; they
   * are in rank order; and no candidate left out outranks one that was chosen.
   */
  lemma BestAreBest(s: seq<PendingMigration>, limit: nat)
    requires DistinctChunks(s)
    ensures |Best(s, limit)| == (if |s| <= limit then |s| else limit)
    ensures multiset(Best(s, limit)) <= multiset(s)
    ensures DistinctChunks(Best(s, limit)) && Sorted(Best(s, limit))
    ensures forall p, q :: p in s && p !in Best(s, limit) && q in Best(s, limit) ==> !Outranks(p, q)
  {
    var sorted, best := StableSort(s), Best(s, limit);
    SortSorted(s);
    SortDistinct(s);
    assert |sorted| == |multiset(sorted)| == |multiset(s)| == |s|;
    assert sorted == best + sorted[|best|..];
    forall p | p in s ensures p in sorted {
      assert p in multiset(sorted);
    }
    LeftOutNotBetter(sorted, |best|);
  }

  /** What a prefix of a sorted list leaves out does not outrank what it holds. */
  lemma LeftOutNotBetter(sorted: seq<PendingMigration>, n: nat)
    requires Sorted(sorted) && n <= |sorted|
    ensures forall p, q :: p in sorted && p !in sorted[..n] && q in sorted[..n] ==> !Outranks(p, q)
  {
    forall p, q | p in sorted && p !in sorted[..n] && q in sorted[..n] ensures !Outranks(p, q) {
      var j :| 0 <= j < |sorted| && sorted[j] == p;
      var i :| 0 <= i < n && sorted[..n][i] == q;
      assert n <= j;
    }
  }
}
