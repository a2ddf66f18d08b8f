/** The tombstoned vector index: lazy deletes over a graph library that cannot delete. The graph is
    modelled by what has been added to it; its search is an oracle. */
module VectorIndex {
  import opened Collections
  import opened CappedMerge
  import opened Domain
  import opened VectorMath

  type Vectors = map<NodeID, Vec>

  datatype Hit = Hit(id: NodeID, distance: real, score: real)

  datatype QueryResult = Failed | Hits(hits: seq<Hit>)

  // ---------------------------------------------------------------- the index as a value

  /** `calls` counts the `Delete` calls so far, `readded` the graph additions their rebuilds did. */
  datatype IndexState = IndexState(vectors: Vectors, tombstones: set<NodeID>, calls: nat, readded: nat)

  /** The map that the index stands for. */
  function Live(s: IndexState): Vectors { s.vectors - s.tombstones }

  predicate Insertable(dim: int, id: NodeID, vec: Vec) {
    id != NoID && |vec| > 0 && (dim > 0 ==> |vec| == dim)
  }

  function Inserted(dim: int, s: IndexState, id: NodeID, vec: Vec): IndexState {
    if Insertable(dim, id, vec) then s.(vectors := s.vectors[id := vec], tombstones := s.tombstones - {id}) else s
  }

  predicate Heavy(s: IndexState) { |s.tombstones| * 5 > |s.vectors| }

  function Compacted(s: IndexState): IndexState {
    s.(vectors := Live(s), tombstones := {}, readded := s.readded + |Live(s)|)
  }

  /** One more tombstone, before the rebuild. */
  function Tombstoned(s: IndexState, id: NodeID): IndexState {
    s.(calls := s.calls + 1, tombstones := s.tombstones + {id})
  }

  function Deleted(s: IndexState, id: NodeID): IndexState {
    if id !in s.vectors then s.(calls := s.calls + 1)
    else if Heavy(Tombstoned(s, id)) then Compacted(Tombstoned(s, id))
    else Tombstoned(s, id)
  }

  const EMPTY_INDEX := IndexState(map[], {}, 0, 0)

  /** Tombstones mark stored vectors, they are at most a fifth of them, and every rebuild has been
      paid for by earlier deletes. */
  predicate Sound(s: IndexState) {
    && s.tombstones <= s.vectors.Keys
    && |s.tombstones| * 5 <= |s.vectors|
    && s.readded + 4 * |s.tombstones| <= 4 * s.calls
  }

  lemma LiveSize(s: IndexState)
    requires s.tombstones <= s.vectors.Keys
    ensures |Live(s)| == |s.vectors| - |s.tombstones|
  {
    assert s.vectors.Keys == Live(s).Keys + s.tombstones;
  }

  lemma InsertSizes(s: IndexState, id: NodeID, vec: Vec)
    requires s.tombstones <= s.vectors.Keys
    ensures s.tombstones - {id} <= s.vectors[id := vec].Keys
    ensures |s.vectors[id := vec]| >= |s.vectors| && |s.tombstones - {id}| <= |s.tombstones|
  {
    var v := s.vectors[id := vec];
    assert v.Keys == s.vectors.Keys + {id};
    SubsetSize(s.vectors.Keys, v.Keys);
    SubsetSize(s.tombstones - {id}, s.tombstones);
    assert |v.Keys| == |v| && |s.vectors.Keys| == |s.vectors|;
  }

  lemma InsertKeepsSound(dim: int, s: IndexState, id: NodeID, vec: Vec)
    requires Sound(s)
    ensures Sound(Inserted(dim, s, id, vec))
    ensures Live(Inserted(dim, s, id, vec)) == if Insertable(dim, id, vec) then Live(s)[id := vec] else Live(s)
  {
    InsertSizes(s, id, vec);
  }

  /** A rebuild is paid for by the tombstones it clears. */
  lemma RebuildIsPaid(stored: nat, before: nat, now: nat, calls: nat, readded: nat)
    requires now <= before + 1 && now <= stored && now * 5 > stored && readded + 4 * before <= 4 * calls
    ensures readded + (stored - now) <= 4 * (calls + 1)
  {
  }

  lemma TombstoneSizes(s: IndexState, id: NodeID)
    requires Sound(s) && id in s.vectors
    ensures var t := Tombstoned(s, id);
      t.tombstones <= t.vectors.Keys && |t.tombstones| <= |s.tombstones| + 1 && Live(t) == Live(s) - {id}
  {
  }

  lemma CompactedIsSound(s: IndexState, id: NodeID)
    requires Sound(s) && id in s.vectors && Heavy(Tombstoned(s, id))
    ensures Sound(Compacted(Tombstoned(s, id))) && Live(Compacted(Tombstoned(s, id))) == Live(Tombstoned(s, id))
  {
    var t := Tombstoned(s, id);
    TombstoneSizes(s, id);
    LiveSize(t);
    RebuildIsPaid(|t.vectors|, |s.tombstones|, |t.tombstones|, s.calls, s.readded);
    assert Live(t) - {} == Live(t);
  }

  lemma DeleteKeepsSound(s: IndexState, id: NodeID)
    requires Sound(s)
    ensures Sound(Deleted(s, id))
    ensures Live(Deleted(s, id)) == Live(s) - {id}
  {
    if id in s.vectors {
      TombstoneSizes(s, id);
      if Heavy(Tombstoned(s, id)) {
        CompactedIsSound(s, id);
      }
    } else {
      assert Live(s) - {id} == Live(s);
    }
  }

  // ---------------------------------------------------------------- whole runs

  datatype Op = Insert(id: NodeID, vec: Vec) | Delete(id: NodeID)

  function Apply(dim: int, s: IndexState, op: Op): IndexState {
    match op
    case Insert(id, vec) => Inserted(dim, s, id, vec)
    case Delete(id) => Deleted(s, id)
  }

  function ApplyAll(dim: int, s: IndexState, ops: seq<Op>): IndexState {
    if ops == [] then s else Apply(dim, ApplyAll(dim, s, ops[..|ops| - 1]), ops[|ops| - 1])
  }

  /** The plain map the same calls would build. */
  function MapAll(dim: int, ops: seq<Op>): Vectors {
    if ops == [] then map[]
    else
      var m := MapAll(dim, ops[..|ops| - 1]);
      match ops[|ops| - 1]
      case Insert(id, vec) => if Insertable(dim, id, vec) then m[id := vec] else m
      case Delete(id) => m - {id}
  }

  function DeleteCalls(ops: seq<Op>): nat {
    if ops == [] then 0
    else DeleteCalls(ops[..|ops| - 1]) + if ops[|ops| - 1].Delete? then 1 else 0
  }

  /** Over every run from the empty index: it refines the plain map, tombstones stay below a fifth of
      the stored vectors, and all rebuilds together add at most four nodes per `Delete` call. */
  lemma {:induction false} EveryRun(dim: int, ops: seq<Op>)
    ensures var s := ApplyAll(dim, EMPTY_INDEX, ops);
      Sound(s) && Live(s) == MapAll(dim, ops)
      && 5 * |s.tombstones| <= |s.vectors| && s.readded <= 4 * DeleteCalls(ops)
    ensures ApplyAll(dim, EMPTY_INDEX, ops).calls == DeleteCalls(ops)
  {
    if ops == [] {
      assert Live(EMPTY_INDEX) == map[];
    } else {
      var front, op := ops[..|ops| - 1], ops[|ops| - 1];
      EveryRun(dim, front);
      var s := ApplyAll(dim, EMPTY_INDEX, front);
      match op {
        case Insert(id, vec) => InsertKeepsSound(dim, s, id, vec);
        case Delete(id) => DeleteKeepsSound(s, id);
      }
    }
  }

  // ---------------------------------------------------------------- queries

  function LiveOnly(found: seq<NodeID>, tombstones: set<NodeID>): (out: seq<NodeID>)
    ensures |out| <= |found|
  {
    if found == [] then []
    else
      var front := LiveOnly(found[..|found| - 1], tombstones);
      var id := found[|found| - 1];
      if id in tombstones then front else front + [id]
  }

  function EffectiveK(k: int): nat { if k <= 0 then 10 else k }

  function Fetch(s: IndexState, k: nat): nat { Min(k + |s.tombstones|, |s.vectors|) }

  /** The cosine distance of every entry from the query. */
  function Ranks(sqrt: real -> real, vectors: Vectors, vec: Vec): map<NodeID, real> {
    map id | id in vectors :: Distance(sqrt, vec, vectors[id])
  }

  /** What any search returns: distinct known ids, at most as many as asked for. */
  predicate IsSearch(known: set<NodeID>, n: nat, found: seq<NodeID>) {
    NoDup(found) && Elems(found) <= known && |found| <= n
  }

  predicate Sorted(rank: map<NodeID, real>, ids: seq<NodeID>)
    requires Elems(ids) <= rank.Keys
  {
    forall i, j :: 0 <= i < j < |ids| ==> rank[ids[i]] <= rank[ids[j]]
  }

  /** `ids` are the `n` entries of least rank, least first. */
  predicate AreNearest(rank: map<NodeID, real>, n: nat, ids: seq<NodeID>) {
    && IsSearch(rank.Keys, n, ids) && |ids| == Min(n, |rank|)
    && Sorted(rank, ids)
    && (forall a, b :: a in ids && b in rank && b !in ids ==> a in rank && rank[a] <= rank[b])
  }

  lemma {:induction false} LiveOnlyMembers(found: seq<NodeID>, tombstones: set<NodeID>)
    ensures forall id :: id in LiveOnly(found, tombstones) <==> id in found && id !in tombstones
    ensures NoDup(found) ==> NoDup(LiveOnly(found, tombstones))
  {
    if found != [] {
      assert found == found[..|found| - 1] + [found[|found| - 1]];
      LiveOnlyMembers(found[..|found| - 1], tombstones);
    }
  }

  lemma LiveOnlyCount(found: seq<NodeID>, tombstones: set<NodeID>)
    requires NoDup(found)
    ensures |LiveOnly(found, tombstones)| >= |found| - |tombstones|
  {
    LiveOnlyMembers(found, tombstones);
    var live := LiveOnly(found, tombstones);
    EnumerationSize(found);
    EnumerationSize(live);
    assert Elems(found) == Elems(live) + (Elems(found) * tombstones);
    SubsetSize(Elems(found) * tombstones, tombstones);
  }

  lemma {:induction false} LiveOnlySorted(rank: map<NodeID, real>, found: seq<NodeID>, tombstones: set<NodeID>)
    requires Elems(found) <= rank.Keys && Sorted(rank, found)
    ensures Elems(LiveOnly(found, tombstones)) <= rank.Keys && Sorted(rank, LiveOnly(found, tombstones))
  {
    if found != [] {
      var front, id := found[..|found| - 1], found[|found| - 1];
      assert found == front + [id];
      LiveOnlySorted(rank, front, tombstones);
      LiveOnlyMembers(front, tombstones);
      var out := LiveOnly(front, tombstones);
      forall i | 0 <= i < |out| ensures rank[out[i]] <= rank[id] {
        assert out[i] in front;
        var k :| 0 <= k < |front| && front[k] == out[i];
        assert found[k] == out[i] && found[|found| - 1] == id;
      }
    }
  }

  /** Over-fetching by the number of tombstones leaves enough live results. */
  lemma EnoughHits(s: IndexState, k: nat, found: seq<NodeID>)
    requires Sound(s) && IsSearch(s.vectors.Keys, Fetch(s, k), found) && |found| == Fetch(s, k)
    ensures |Take(LiveOnly(found, s.tombstones), k)| == Min(k, |Live(s)|)
  {
    LiveSize(s);
    LiveOnlyCount(found, s.tombstones);
    LiveOnlyMembers(found, s.tombstones);
    var live := LiveOnly(found, s.tombstones);
    EnumerationSize(live);
    SubsetSize(Elems(live), Live(s).Keys);
  }

  lemma RankSize(sqrt: real -> real, vectors: Vectors, vec: Vec)
    ensures Ranks(sqrt, vectors, vec).Keys == vectors.Keys && |Ranks(sqrt, vectors, vec)| == |vectors|
  {
    assert Ranks(sqrt, vectors, vec).Keys == vectors.Keys;
    assert |Ranks(sqrt, vectors, vec)| == |Ranks(sqrt, vectors, vec).Keys| == |vectors.Keys|;
  }

  lemma LiveRanks(sqrt: real -> real, s: IndexState, vec: Vec)
    ensures Ranks(sqrt, Live(s), vec) == Ranks(sqrt, s.vectors, vec) - s.tombstones
  {
  }

  /** Dropping the tombstoned results of an exact search leaves the nearest of the rest. */
  lemma FilterIsNearest(rank: map<NodeID, real>, tombstones: set<NodeID>, n: nat, k: nat, found: seq<NodeID>)
    requires AreNearest(rank, n, found) && |Take(LiveOnly(found, tombstones), k)| == Min(k, |rank - tombstones|)
    ensures AreNearest(rank - tombstones, k, Take(LiveOnly(found, tombstones), k))
  {
    RanksFilter(rank, rank - tombstones, tombstones, k, found);
  }

  lemma EnoughRanks(sqrt: real -> real, s: IndexState, vec: Vec, k: nat, found: seq<NodeID>)
    requires Sound(s) && AreNearest(Ranks(sqrt, s.vectors, vec), Fetch(s, k), found)
    ensures |Take(LiveOnly(found, s.tombstones), k)| == Min(k, |Ranks(sqrt, Live(s), vec)|)
  {
    RankSize(sqrt, s.vectors, vec);
    RankSize(sqrt, Live(s), vec);
    EnoughHits(s, k, found);
  }

  /** If the search is exact on the graph, filtering out the tombstones is exact on the live map. */
  lemma QueryIsExact(sqrt: real -> real, s: IndexState, vec: Vec, k: nat, found: seq<NodeID>)
    requires Sound(s) && AreNearest(Ranks(sqrt, s.vectors, vec), Fetch(s, k), found)
    ensures AreNearest(Ranks(sqrt, Live(s), vec), k, Take(LiveOnly(found, s.tombstones), k))
  {
    LiveRanks(sqrt, s, vec);
    EnoughRanks(sqrt, s, vec, k, found);
    FilterIsNearest(Ranks(sqrt, s.vectors, vec), s.tombstones, Fetch(s, k), k, found);
  }

  lemma RanksFilter(rank: map<NodeID, real>, live: map<NodeID, real>, tombstones: set<NodeID>, k: nat,
                    found: seq<NodeID>)
    requires live == rank - tombstones && NoDup(found) && Elems(found) <= rank.Keys && Sorted(rank, found)
    requires forall a, b :: a in found && b in rank && b !in found ==> a in rank && rank[a] <= rank[b]
    ensures var out := Take(LiveOnly(found, tombstones), k);
      NoDup(out) && Elems(out) <= live.Keys && Sorted(live, out)
      && forall a, b :: a in out && b in live && b !in out ==> a in live && live[a] <= live[b]
  {
    LiveOnlyMembers(found, tombstones);
    LiveOnlySorted(rank, found, tombstones);
    var all := LiveOnly(found, tombstones);
    TakenSorted(live, all, k);
    forall a, b | a in Take(all, k) && b in live && b !in Take(all, k) ensures a in live && live[a] <= live[b] {
      TakenMember(all, k, a);
      if b in found {
        TakenFirst(live, all, k, a, b);
      }
    }
  }

  lemma TakenMember(s: seq<NodeID>, k: nat, a: NodeID)
    requires a in Take(s, k)
    ensures a in s
  {
    var i :| 0 <= i < |Take(s, k)| && Take(s, k)[i] == a;
    assert s[i] == a;
  }

  lemma TakenSorted(live: map<NodeID, real>, all: seq<NodeID>, k: nat)
    requires NoDup(all) && Elems(all) <= live.Keys && Sorted(live, all)
    ensures NoDup(Take(all, k)) && Elems(Take(all, k)) <= live.Keys && Sorted(live, Take(all, k))
  {
    forall a | a in Take(all, k) ensures a in Elems(all) {
      TakenMember(all, k, a);
    }
  }

  /** What a sorted list keeps under a cap ranks before what it loses. */
  lemma TakenFirst(live: map<NodeID, real>, all: seq<NodeID>, k: nat, a: NodeID, b: NodeID)
    requires Elems(all) <= live.Keys && Sorted(live, all) && a in Take(all, k) && b in all && b !in Take(all, k)
    ensures a in live && b in live && live[a] <= live[b]
  {
    assert a in Elems(all) by { TakenMember(all, k, a); }
    assert b in Elems(all);
    var i :| 0 <= i < |Take(all, k)| && Take(all, k)[i] == a;
    var j :| 0 <= j < |all| && all[j] == b;
    TakenEarly(all, k, j);
    assert all[i] == a && i < j;
  }

  lemma TakenEarly(s: seq<NodeID>, k: nat, j: nat)
    requires j < |s|
    ensures j < k ==> s[j] in Take(s, k)
  {
    if j < k {
      assert Take(s, k)[j] == s[j];
    }
  }

  function Clamp01(v: real): real {
    if v < 0.0 then 0.0 else if v > 1.0 then 1.0 else v
  }

  function HitFor(sqrt: real -> real, vectors: Vectors, vec: Vec, id: NodeID): Hit
    requires id in vectors
  {
    var d := Distance(sqrt, vec, vectors[id]);
    Hit(id, d, Clamp01(1.0 - d))
  }

  /** Every hit is a live entry, reported with its own distance and score. */
  predicate AreHits(sqrt: real -> real, live: Vectors, vec: Vec, hits: seq<Hit>) {
    forall i :: 0 <= i < |hits| ==> hits[i].id in live && hits[i] == HitFor(sqrt, live, vec, hits[i].id)
  }

  function HitIds(hits: seq<Hit>): seq<NodeID> {
    seq(|hits|, i requires 0 <= i < |hits| => hits[i].id)
  }

  lemma DeletedIs(before: IndexState, id: NodeID, marked: IndexState, after: IndexState)
    requires id in before.vectors && marked == Tombstoned(before, id)
    requires after == if Heavy(marked) then Compacted(marked) else marked
    ensures after == Deleted(before, id)
  {
  }

  /** One more entry is looked at, and dropped if it is tombstoned. */
  lemma DropStep(all: Vectors, rest: set<NodeID>, dead: set<NodeID>, id: NodeID)
    requires id in rest && rest <= all.Keys
    ensures var kept := all - (dead - rest);
      id in kept && kept[id] == all[id]
      && all - (dead - (rest - {id})) == if id in dead then kept - {id} else kept
  {
  }

  lemma OneMoreHit(sqrt: real -> real, live: Vectors, vec: Vec, hits: seq<Hit>, hit: Hit)
    requires AreHits(sqrt, live, vec, hits) && hit.id in live && hit == HitFor(sqrt, live, vec, hit.id)
    ensures AreHits(sqrt, live, vec, hits + [hit]) && HitIds(hits + [hit]) == HitIds(hits) + [hit.id]
  {
  }

  /** One more entry moves into the new graph, unless it is tombstoned. */
  lemma CompactStep(all: Vectors, rest: set<NodeID>, dead: set<NodeID>, id: NodeID)
    requires id in rest && rest <= all.Keys
    ensures id !in (all - rest) - dead
    ensures (all - (rest - {id})) - dead ==
      if id in dead then (all - rest) - dead else ((all - rest) - dead)[id := all[id]]
  {
  }

  // ---------------------------------------------------------------- the mutable index

  class HNSWIndex {
    const dim: int
    var graph: Vectors
    var vectors: Vectors
    var tombstones: set<NodeID>
    ghost var calls: nat
    ghost var readded: nat

    ghost function State(): IndexState
      reads this
    {
      IndexState(vectors, tombstones, calls, readded)
    }

    /** The graph holds exactly the stored vectors, tombstoned ones included. */
    ghost predicate Valid()
      reads this
    {
      graph == vectors && Sound(State())
    }

    constructor (dim: int)
      ensures Valid() && this.dim == dim && State() == EMPTY_INDEX
    {
      this.dim := dim;
      graph, vectors, tombstones := map[], map[], {};
      calls, readded := 0, 0;
    }

    method Insert(id: NodeID, vec: Vec) returns (ok: bool)
      requires Valid()
      modifies this
      ensures Valid() && State() == Inserted(dim, old(State()), id, vec) && ok == Insertable(dim, id, vec)
      ensures Live(State()) == if ok then Live(old(State()))[id := vec] else Live(old(State()))
      ensures ok <==> id != NoID && |vec| > 0 && (dim > 0 ==> |vec| == dim)
    {
      ghost var before := State();
      InsertKeepsSound(dim, before, id, vec);
      ok := false;
      if id != NoID && |vec| != 0 && !(dim > 0 && |vec| != dim) {
        tombstones := tombstones - {id};
        vectors := vectors[id := vec];
        graph := graph[id := vec];
        ok := true;
      }
      assert State() == Inserted(dim, before, id, vec);
    }

    /** True for every stored id, including one that is already tombstoned. */
    method Delete(id: NodeID) returns (stored: bool)
      requires Valid()
      modifies this
      ensures Valid() && State() == Deleted(old(State()), id) && stored == (id in old(vectors))
      ensures Live(State()) == Live(old(State())) - {id}
    {
      ghost var before := State();
      DeleteKeepsSound(before, id);
      calls := calls + 1;
      stored := id in vectors;
      if stored {
        tombstones := tombstones + {id};
        ghost var marked := State();
        CompactIfHeavy();
        DeletedIs(before, id, marked, State());
      }
    }

    /** Rebuilds the graph once tombstones pass a fifth of the stored vectors. */
    method CompactIfHeavy()
      requires tombstones <= vectors.Keys && graph == vectors
      modifies this
      ensures graph == vectors
      ensures State() == if Heavy(old(State())) then Compacted(old(State())) else old(State())
    {
      if |tombstones| * 5 > |vectors| {
        ghost var added := CompactLocked();
        readded := readded + added;
      }
    }

    /** Rebuilds the graph, dropping the tombstoned vectors. */
    method CompactLocked() returns (ghost added: nat)
      requires tombstones <= vectors.Keys
      modifies this`graph, this`vectors, this`tombstones
      ensures vectors == old(vectors) - old(tombstones) && graph == vectors && tombstones == {} && added == |vectors|
    {
      var g: Vectors := map[];
      ghost var all := vectors;
      var rest := vectors.Keys;
      added := 0;
      while rest != {}
        invariant rest <= all.Keys && tombstones == old(tombstones)
        invariant g == (all - rest) - tombstones && |g| == added
        invariant vectors == all - (tombstones - rest)
        decreases rest
      {
        var id :| id in rest;
        CompactStep(all, rest, tombstones, id);
        DropStep(all, rest, tombstones, id);
        if id in tombstones {
          vectors := vectors - {id};
        } else {
          g := g[id := vectors[id]];
          added := added + 1;
        }
        rest := rest - {id};
      }
      assert vectors == all - tombstones;
      assert all - rest == all;
      tombstones := {};
      graph := g;
    }

    method Len() returns (n: int)
      requires Valid()
      ensures n == |Live(State())|
    {
      LiveSize(State());
      n := |vectors| - |tombstones|;
    }

    /** Replaces the contents; entries that could not be inserted are skipped. */
    method RebuildFromVectors(items: Vectors)
      requires Valid()
      modifies this
      ensures Valid() && Live(State()) == map id | id in items && Insertable(dim, id, items[id]) :: items[id]
    {
      Refill(items);
      ghost var kept := vectors;
      tombstones := {};
      ghost var added := CompactLocked();
      calls, readded := 0, 0;
      assert vectors == kept - {} == kept;
      assert Live(State()) == vectors - {} == vectors;
    }

    /** The first loop of `RebuildFromVectors`. */
    method Refill(items: Vectors)
      modifies this`vectors
      ensures vectors == map id | id in items && Insertable(dim, id, items[id]) :: items[id]
    {
      vectors := map[];
      var rest := items.Keys;
      while rest != {}
        invariant rest <= items.Keys
        invariant vectors == map id | id in items && id !in rest && Insertable(dim, id, items[id]) :: items[id]
        decreases rest
      {
        var id :| id in rest;
        rest := rest - {id};
        var vec := items[id];
        if id == NoID || |vec| == 0 || (dim > 0 && |vec| != dim) {
          continue;
        }
        vectors := vectors[id := vec];
      }
    }

    /** The filtering loop of `Query`. */
    method FilterHits(sqrt: real -> real, vec: Vec, k: nat, found: seq<NodeID>) returns (hits: seq<Hit>)
      requires Valid() && IsSquareRoot(sqrt) && k > 0 && Elems(found) <= graph.Keys
      ensures HitIds(hits) == Take(LiveOnly(found, tombstones), k)
      ensures AreHits(sqrt, Live(State()), vec, hits)
    {
      hits := [];
      for i := 0 to |found|
        invariant |hits| < k && HitIds(hits) == LiveOnly(found[..i], tombstones)
        invariant AreHits(sqrt, Live(State()), vec, hits)
      {
        var id := found[i];
        assert id in Elems(found);
        assert found[..i + 1][..i] == found[..i];
        if id in tombstones {
          continue;
        }
        var d := CosineDistance(sqrt, vec, graph[id]);
        var hit := Hit(id, d, Clamp01(1.0 - d));
        OneMoreHit(sqrt, Live(State()), vec, hits, hit);
        hits := hits + [hit];
        if |hits| >= k {
          LiveOnlyPrefix(found, i + 1, tombstones);
          return;
        }
      }
      assert found[..|found|] == found;
    }

    /** When a query is refused. */
    predicate Refuses(vec: Vec)
      reads this
    {
      |vec| == 0 || (|graph| > 0 && dim > 0 && |vec| != dim)
    }

    /** `found` is what the graph library's search returns for this query. */
    method Query(sqrt: real -> real, vec: Vec, k: int, found: seq<NodeID>) returns (r: QueryResult)
      requires Valid() && IsSquareRoot(sqrt)
      requires IsSearch(graph.Keys, Fetch(State(), EffectiveK(k)), found)
      ensures r.Failed? <==> Refuses(vec)
      ensures r.Hits? ==> AreHits(sqrt, Live(State()), vec, r.hits)
      ensures r.Hits? ==> HitIds(r.hits) == Take(LiveOnly(found, tombstones), EffectiveK(k))
      ensures r.Hits? && AreNearest(Ranks(sqrt, graph, vec), Fetch(State(), EffectiveK(k)), found) ==>
        AreNearest(Ranks(sqrt, Live(State()), vec), EffectiveK(k), HitIds(r.hits))
      ensures r.Hits? ==> |r.hits| <= if k > 0 then k else 10
      ensures r.Hits? && k > 0 && AreNearest(Ranks(sqrt, graph, vec), Min(k + |tombstones|, |graph|), found) ==>
        |r.hits| == Min(k, |Live(State())|) && AreNearest(Ranks(sqrt, Live(State()), vec), k, HitIds(r.hits))
    {
      if |vec| == 0 {
        return Failed;
      }
      var kk := if k <= 0 then 10 else k;
      RankSize(sqrt, Live(State()), vec);
      assert Fetch(State(), kk) == Min(kk + |tombstones|, |graph|);
      if AreNearest(Ranks(sqrt, graph, vec), Fetch(State(), kk), found) {
        QueryIsExact(sqrt, State(), vec, kk, found);
      }
      if |graph| == 0 {
        assert LiveOnly(found, tombstones) == [];
        return Hits([]);
      }
      if dim > 0 && |vec| != dim {
        return Failed;
      }
      var hits := FilterHits(sqrt, vec, kk, found);
      r := Hits(hits);
    }
  }

  lemma {:induction false} LiveOnlyPrefix(found: seq<NodeID>, i: nat, tombstones: set<NodeID>)
    requires i <= |found|
    ensures LiveOnly(found[..i], tombstones) <= LiveOnly(found, tombstones)
    decreases |found|
  {
    if i < |found| {
      LiveOnlyPrefix(found[..|found| - 1], i, tombstones);
      assert found[..|found| - 1][..i] == found[..i];
    } else {
      assert found[..i] == found;
    }
  }
}
