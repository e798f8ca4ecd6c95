/** The admission worker of the database: it stores a fetched picture, picks
    the cluster it joins (or opens a new one) and keeps the centrality score
    of every member of that cluster up to date. The key-value store is an
    in-memory map and the distance engine is the arrow `dist`. */
module DatabaseAdder {
  import opened Scoring

  /** The distance engine between two stored pictures. */
  type Distance = (PicId, PicId) -> real

  /** The store's sorted sets: for each cluster, the score of each member. */
  type Clusters = map<ClusterId, map<PicId, real>>

  /** Raised by `top_matching_pictures[0]` on an empty list. */
  datatype AdmissionError = IndexError

  ghost predicate Symmetric(dist: Distance)
  {
    forall a: PicId, b: PicId :: dist(a, b) == dist(b, a)
  }

  ghost predicate ZeroOnDiagonal(dist: Distance)
  {
    forall a: PicId :: dist(a, a) == 0.0
  }

  predicate Distinct<T(==)>(s: seq<T>)
  {
    forall i, j :: 0 <= i < j < |s| ==> s[i] != s[j]
  }

  /** The members of a cluster with their scores; the store answers an empty
      set for a cluster it does not hold. */
  function ScoresOf(clusters: Clusters, cid: ClusterId): map<PicId, real>
  {
    if cid in clusters then clusters[cid] else map[]
  }

  // ---------------------------------------------------------------------
  // Cluster selection
  // ---------------------------------------------------------------------

  /** A candidate may absorb the picture: decision YES and distance within the bound. */
  predicate Acceptable(decision: Decision, distance: real, maxDist: real)
  {
    decision == Yes && distance <= maxDist
  }

  predicate AcceptableCluster(m: ClusterMatch, maxDist: real)
  {
    Acceptable(m.decision, m.distance, maxDist)
  }

  /** First-acceptable policy: the first cluster, in input order, that is acceptable. */
  function ChooseClusterFromClusterMatches(matches: seq<ClusterMatch>, maxDist: real): (r: Option<ClusterId>)
    ensures r.None? <==> forall i :: 0 <= i < |matches| ==> !AcceptableCluster(matches[i], maxDist)
    ensures r.Some? ==>
      exists i :: 0 <= i < |matches| && matches[i].clusterId == r.value && AcceptableCluster(matches[i], maxDist) &&
        forall j :: 0 <= j < i ==> !AcceptableCluster(matches[j], maxDist)
  {
    if matches == [] then None
    else if AcceptableCluster(matches[0], maxDist) then Some(matches[0].clusterId)
    else
      var r := ChooseClusterFromClusterMatches(matches[1..], maxDist);
      assert r.Some? ==> (exists i :: 1 <= i < |matches| && matches[i].clusterId == r.value &&
                                      AcceptableCluster(matches[i], maxDist) &&
                                      forall j :: 0 <= j < i ==> !AcceptableCluster(matches[j], maxDist)) by {
        if r.Some? {
          var i :| 0 <= i < |matches[1..]| && matches[1..][i].clusterId == r.value &&
            AcceptableCluster(matches[1..][i], maxDist) && forall j :: 0 <= j < i ==> !AcceptableCluster(matches[1..][j], maxDist);
          assert forall j :: 1 <= j < i + 1 ==> matches[j] == matches[1..][j - 1];
        }
      }
      r
  }

  /** The size-weighted distance: the distance plus the relative excess of the
      cluster's size over the target size. */
  function PonderatedDistance(distance: real, clusterSize: nat, targetClusterSize: real): (r: real)
    requires targetClusterSize > 0.0
    ensures r > distance <==> clusterSize as real > targetClusterSize
    ensures r == distance <==> clusterSize as real == targetClusterSize
    ensures r < distance <==> (clusterSize as real) < targetClusterSize
  {
    var excess := clusterSize as real - targetClusterSize;
    assert excess / targetClusterSize * targetClusterSize == excess;
    distance + excess / targetClusterSize
  }

  /** A candidate after re-weighting, with its position in the input list. */
  datatype Ranked = Ranked(position: nat, candidate: ImageMatch)

  predicate AcceptableRanked(x: Ranked, maxDist: real)
  {
    Acceptable(x.candidate.decision, x.candidate.distance, maxDist)
  }

  /** `a` precedes `b` in a stable ascending sort on distance. */
  predicate RanksBefore(a: Ranked, b: Ranked)
  {
    a.candidate.distance < b.candidate.distance ||
    (a.candidate.distance == b.candidate.distance && a.position <= b.position)
  }

  ghost predicate SortedStably(s: seq<Ranked>)
  {
    forall p, q :: 0 <= p < q < |s| ==> RanksBefore(s[p], s[q])
  }

  function InsertByDistance(x: Ranked, sorted: seq<Ranked>): seq<Ranked>
  {
    if sorted == [] then [x]
    else if x.candidate.distance < sorted[0].candidate.distance then [x] + sorted
    else [sorted[0]] + InsertByDistance(x, sorted[1..])
  }

  /** Python's stable `list.sort` keyed on distance, as an insertion sort. */
  function SortByDistance(s: seq<Ranked>): seq<Ranked>
  {
    if s == [] then [] else InsertByDistance(s[|s| - 1], SortByDistance(s[..|s| - 1]))
  }

  lemma {:induction false} InsertByDistanceSorted(x: Ranked, s: seq<Ranked>)
    requires SortedStably(s)
    requires forall e :: e in s ==> e.position < x.position
    ensures SortedStably(InsertByDistance(x, s))
    ensures multiset(InsertByDistance(x, s)) == multiset(s) + multiset{x}
  {
    if s == [] {
    } else if x.candidate.distance < s[0].candidate.distance {
      var r := [x] + s;
      forall p, q | 0 <= p < q < |r| ensures RanksBefore(r[p], r[q]) {
        if p == 0 && q > 1 { assert RanksBefore(s[0], s[q - 1]); }
      }
    } else {
      var rest := InsertByDistance(x, s[1..]);
      InsertByDistanceSorted(x, s[1..]);
      assert s == [s[0]] + s[1..];
      var r := [s[0]] + rest;
      forall p, q | 0 <= p < q < |r| ensures RanksBefore(r[p], r[q]) {
        if p == 0 {
          assert r[q] in multiset(rest);
          if r[q] != x {
            assert r[q] in multiset(s[1..]);
            var k :| 0 <= k < |s[1..]| && s[1..][k] == r[q];
            assert RanksBefore(s[0], s[k + 1]);
          }
        } else {
          assert RanksBefore(rest[p - 1], rest[q - 1]);
        }
      }
    }
  }

  lemma {:induction false} SortByDistanceSorted(s: seq<Ranked>)
    requires forall i, j :: 0 <= i < j < |s| ==> s[i].position < s[j].position
    ensures SortedStably(SortByDistance(s))
    ensures multiset(SortByDistance(s)) == multiset(s)
  {
    if s != [] {
      var init, last := s[..|s| - 1], s[|s| - 1];
      SortByDistanceSorted(init);
      forall e | e in SortByDistance(init) ensures e.position < last.position {
        assert e in multiset(init);
      }
      InsertByDistanceSorted(last, SortByDistance(init));
      assert s == init + [last];
    }
  }

  /** The first acceptable element of the sorted list is acceptable, and it
      precedes every acceptable element of the input in the stable order. */
  lemma FirstAcceptableIsBest(ranked: seq<Ranked>, sorted: seq<Ranked>, k: nat, maxDist: real)
    requires forall i :: 0 <= i < |ranked| ==> ranked[i].position == i
    requires SortedStably(sorted) && multiset(sorted) == multiset(ranked)
    requires k < |sorted| && AcceptableRanked(sorted[k], maxDist)
    requires forall p :: 0 <= p < k ==> !AcceptableRanked(sorted[p], maxDist)
    ensures sorted[k].position < |ranked| && ranked[sorted[k].position] == sorted[k]
    ensures forall j :: 0 <= j < |ranked| && AcceptableRanked(ranked[j], maxDist) ==> RanksBefore(sorted[k], ranked[j])
  {
    assert sorted[k] in multiset(ranked);
    forall j | 0 <= j < |ranked| && AcceptableRanked(ranked[j], maxDist) ensures RanksBefore(sorted[k], ranked[j]) {
      assert ranked[j] in multiset(sorted);
      var q :| 0 <= q < |sorted| && sorted[q] == ranked[j];
      if q != k {
        assert RanksBefore(sorted[k], sorted[q]);
      }
    }
  }

  lemma NoAcceptableInSorted(ranked: seq<Ranked>, sorted: seq<Ranked>, maxDist: real)
    requires multiset(sorted) == multiset(ranked)
    requires forall p :: 0 <= p < |sorted| ==> !AcceptableRanked(sorted[p], maxDist)
    ensures forall j :: 0 <= j < |ranked| ==> !AcceptableRanked(ranked[j], maxDist)
  {
    forall j | 0 <= j < |ranked| ensures !AcceptableRanked(ranked[j], maxDist) {
      assert ranked[j] in multiset(sorted);
    }
  }

  // ---------------------------------------------------------------------
  // Centrality
  // ---------------------------------------------------------------------

  /** The sum of the distances from `pic` to every id of the list. */
  function Centrality(dist: Distance, pic: PicId, ids: seq<PicId>): real
  {
    if ids == [] then 0.0 else dist(pic, ids[0]) + Centrality(dist, pic, ids[1..])
  }

  lemma CentralityOfEmpty(dist: Distance, pic: PicId)
    ensures Centrality(dist, pic, []) == 0.0
  {
  }

  lemma {:induction false} CentralityAppend(dist: Distance, pic: PicId, a: seq<PicId>, b: seq<PicId>)
    ensures Centrality(dist, pic, a + b) == Centrality(dist, pic, a) + Centrality(dist, pic, b)
  {
    if a == [] {
      assert a + b == b;
    } else {
      assert (a + b)[1..] == a[1..] + b;
      CentralityAppend(dist, pic, a[1..], b);
    }
  }

  ghost function Pick(s: set<PicId>): PicId
    requires s != {}
  {
    var x :| x in s; x
  }

  /** The sum of the distances from `pic` to every member of a set. */
  ghost function SetCentrality(dist: Distance, pic: PicId, members: set<PicId>): real
    decreases members
  {
    if members == {} then 0.0
    else
      var x := Pick(members);
      dist(pic, x) + SetCentrality(dist, pic, members - {x})
  }

  lemma {:induction false} SetCentralityPick(dist: Distance, pic: PicId, members: set<PicId>, y: PicId)
    requires y in members
    ensures SetCentrality(dist, pic, members) == dist(pic, y) + SetCentrality(dist, pic, members - {y})
    decreases members
  {
    var x := Pick(members);
    if x != y {
      SetCentralityPick(dist, pic, members - {x}, y);
      SetCentralityPick(dist, pic, members - {y}, x);
      assert members - {x} - {y} == members - {y} - {x};
    }
  }

  /** Summing over a duplicate-free listing of a set gives the set's sum,
      whatever the order of the listing. */
  lemma {:induction false} ListCentralityIsSetCentrality(dist: Distance, pic: PicId, ids: seq<PicId>, members: set<PicId>)
    requires Distinct(ids)
    requires forall p :: p in ids <==> p in members
    ensures Centrality(dist, pic, ids) == SetCentrality(dist, pic, members)
  {
    if ids == [] {
      assert members == {};
    } else {
      SetCentralityPick(dist, pic, members, ids[0]);
      assert forall p :: p in ids[1..] <==> p in members - {ids[0]} by {
        assert ids == [ids[0]] + ids[1..];
        assert forall j :: 0 <= j < |ids[1..]| ==> ids[1..][j] == ids[j + 1];
      }
      ListCentralityIsSetCentrality(dist, pic, ids[1..], members - {ids[0]});
    }
  }

  /** What the full re-evaluation writes: every member scored over all members. */
  ghost function FullScores(dist: Distance, members: set<PicId>): map<PicId, real>
  {
    map m | m in members :: SetCentrality(dist, m, members)
  }

  /** What the incremental re-evaluation writes from a snapshot of the cluster:
      the new picture scored over the snapshot's members, every other member
      its snapshot score plus its distance from the new picture. */
  ghost function IncrementalScores(dist: Distance, snapshot: map<PicId, real>, newPic: PicId): map<PicId, real>
  {
    map m | m in snapshot.Keys + {newPic} ::
      if m == newPic then SetCentrality(dist, newPic, snapshot.Keys) else snapshot[m] + dist(newPic, m)
  }

  /** Every member's score is its centrality in the cluster. */
  ghost predicate Consistent(dist: Distance, scores: map<PicId, real>)
  {
    scores == FullScores(dist, scores.Keys)
  }

  /** With a symmetric distance, adding a picture that is not yet a member and
      updating incrementally yields exactly the full re-evaluation of the new
      membership, whatever placeholder score the insertion gave it. */
  lemma IncrementalMatchesFull(dist: Distance, scores: map<PicId, real>, newPic: PicId, placeholder: real)
    requires Symmetric(dist)
    requires Consistent(dist, scores)
    requires newPic !in scores
    ensures IncrementalScores(dist, scores[newPic := placeholder], newPic) == FullScores(dist, scores.Keys + {newPic})
  {
    var inc := IncrementalScores(dist, scores[newPic := placeholder], newPic);
    var full := FullScores(dist, scores.Keys + {newPic});
    assert (scores[newPic := placeholder]).Keys == scores.Keys + {newPic};
    forall m | m in scores.Keys + {newPic} ensures inc[m] == full[m] {
      if m != newPic {
        SetCentralityPick(dist, m, scores.Keys + {newPic}, newPic);
        assert scores.Keys + {newPic} - {newPic} == scores.Keys;
        assert scores[m] == SetCentrality(dist, m, scores.Keys);
        assert dist(newPic, m) == dist(m, newPic);
      }
    }
    assert inc.Keys == full.Keys;
  }

  /** A new cluster whose sole member scores 0 is consistent when the distance
      from a picture to itself is 0. */
  lemma SingletonConsistent(dist: Distance, pic: PicId)
    requires ZeroOnDiagonal(dist)
    ensures Consistent(dist, map[pic := 0.0])
  {
    SetCentralityPick(dist, pic, {pic}, pic);
    assert {pic} - {pic} == {};
    assert SetCentrality(dist, pic, {}) == 0.0;
    assert SetCentrality(dist, pic, {pic}) == 0.0;
    var full := FullScores(dist, {pic});
    assert full.Keys == {pic} && full[pic] == 0.0;
    assert map[pic := 0.0] == full;
  }

  /** No picture in two clusters. */
  ghost predicate Disjoint(clusters: Clusters)
  {
    forall c1, c2, p :: c1 in clusters && c2 in clusters && p in clusters[c1] && p in clusters[c2] ==> c1 == c2
  }

  /** The store invariant: every cluster is non-empty and consistent, and no
      picture belongs to two clusters. */
  ghost predicate StoreInvariant(dist: Distance, clusters: Clusters)
  {
    (forall c :: c in clusters ==> clusters[c] != map[] && Consistent(dist, clusters[c])) &&
    Disjoint(clusters)
  }

  ghost predicate Unassigned(clusters: Clusters, pic: PicId)
  {
    forall c :: c in clusters ==> pic !in clusters[c]
  }

  lemma JoinPreservesStoreInvariant(dist: Distance, clusters: Clusters, cid: ClusterId, newPic: PicId)
    requires Symmetric(dist)
    requires StoreInvariant(dist, clusters)
    requires Unassigned(clusters, newPic)
    ensures StoreInvariant(dist, clusters[cid := IncrementalScores(dist, ScoresOf(clusters, cid)[newPic := 0.0], newPic)])
  {
    var before := ScoresOf(clusters, cid);
    assert Consistent(dist, before) by {
      if cid !in clusters { assert FullScores(dist, {}) == map[]; }
    }
    IncrementalMatchesFull(dist, before, newPic, 0.0);
    var after := IncrementalScores(dist, before[newPic := 0.0], newPic);
    assert after.Keys == before.Keys + {newPic};
    assert newPic in after;
    forall c, p | c in clusters && c != cid && p in clusters[c] ensures p !in after {
      assert p != newPic;
      assert cid in clusters ==> p !in clusters[cid];
    }
  }

  lemma NewClusterPreservesStoreInvariant(dist: Distance, clusters: Clusters, newId: ClusterId, newPic: PicId)
    requires ZeroOnDiagonal(dist)
    requires StoreInvariant(dist, clusters)
    requires newId !in clusters
    requires Unassigned(clusters, newPic)
    ensures StoreInvariant(dist, clusters[newId := map[newPic := 0.0]])
  {
    SingletonConsistent(dist, newPic);
    var next := clusters[newId := map[newPic := 0.0]];
    assert newPic in next[newId] && next[newId].Keys == {newPic};
    assert forall c, p :: c in clusters && p in clusters[c] ==> p != newPic;
  }

  /** The full re-evaluation after `k` members of the listing have been written. */
  ghost function PartlyRecomputed(dist: Distance, before: map<PicId, real>, done: seq<PicId>): map<PicId, real>
  {
    map m | m in before :: if m in done then SetCentrality(dist, m, before.Keys) else before[m]
  }

  /** The incremental re-evaluation after the new picture and `done` have been written. */
  ghost function PartlyIncremented(dist: Distance, snapshot: map<PicId, real>, newPic: PicId, done: seq<PicId>): map<PicId, real>
  {
    map m | m in snapshot.Keys + {newPic} ::
      if m == newPic then SetCentrality(dist, newPic, snapshot.Keys)
      else if m in done then snapshot[m] + dist(newPic, m)
      else snapshot[m]
  }

  lemma RecomputeStart(dist: Distance, before: map<PicId, real>)
    ensures PartlyRecomputed(dist, before, []) == before
  {
  }

  lemma RecomputeStep(dist: Distance, before: map<PicId, real>, ids: seq<PicId>, k: nat)
    requires k < |ids| && ids[k] in before
    ensures PartlyRecomputed(dist, before, ids[..k])[ids[k] := SetCentrality(dist, ids[k], before.Keys)]
         == PartlyRecomputed(dist, before, ids[..k + 1])
  {
    assert ids[..k + 1] == ids[..k] + [ids[k]];
  }

  lemma RecomputeFinish(dist: Distance, before: map<PicId, real>, ids: seq<PicId>)
    requires forall p :: p in ids <==> p in before
    ensures PartlyRecomputed(dist, before, ids) == FullScores(dist, before.Keys)
  {
  }

  lemma IncrementStart(dist: Distance, snapshot: map<PicId, real>, newPic: PicId)
    ensures snapshot[newPic := SetCentrality(dist, newPic, snapshot.Keys)] == PartlyIncremented(dist, snapshot, newPic, [])
  {
  }

  lemma IncrementStep(dist: Distance, snapshot: map<PicId, real>, newPic: PicId, ids: seq<PicId>, k: nat)
    requires k < |ids| && ids[k] in snapshot
    ensures ids[k] == newPic ==>
      PartlyIncremented(dist, snapshot, newPic, ids[..k + 1]) == PartlyIncremented(dist, snapshot, newPic, ids[..k])
    ensures ids[k] != newPic ==>
      PartlyIncremented(dist, snapshot, newPic, ids[..k])[ids[k] := snapshot[ids[k]] + dist(newPic, ids[k])]
      == PartlyIncremented(dist, snapshot, newPic, ids[..k + 1])
  {
    assert ids[..k + 1] == ids[..k] + [ids[k]];
  }

  lemma IncrementFinish(dist: Distance, snapshot: map<PicId, real>, newPic: PicId, ids: seq<PicId>)
    requires forall p :: p in ids <==> p in snapshot
    ensures PartlyIncremented(dist, snapshot, newPic, ids) == IncrementalScores(dist, snapshot, newPic)
  {
  }

  // ---------------------------------------------------------------------
  // The worker
  // ---------------------------------------------------------------------

  class Adder {
    const dist: Distance
    const maxDistForNewCluster: real
    var storage: map<PicId, FeatureBundle>
    var clusters: Clusters

    constructor (dist: Distance, maxDistForNewCluster: real)
      ensures this.dist == dist && this.maxDistForNewCluster == maxDistForNewCluster
      ensures storage == map[] && clusters == map[]
    {
      this.dist := dist;
      this.maxDistForNewCluster := maxDistForNewCluster;
      storage := map[];
      clusters := map[];
    }

    function ClusterSize(cid: ClusterId): nat
      reads this
    {
      |ScoresOf(clusters, cid)|
    }

    // Store primitives (the database utilities are not part of this model).

    method AddPictureToStorage(id: PicId, bundle: FeatureBundle)
      modifies this
      ensures storage == old(storage)[id := bundle] && clusters == old(clusters)
    {
      storage := storage[id := bundle];
    }

    method AddPictureToCluster(pic: PicId, cid: ClusterId)
      modifies this
      ensures clusters == old(clusters)[cid := ScoresOf(old(clusters), cid)[pic := 0.0]]
      ensures storage == old(storage)
    {
      clusters := clusters[cid := ScoresOf(clusters, cid)[pic := 0.0]];
    }

    method AddPictureToNewCluster(pic: PicId, score: real, newId: ClusterId) returns (cid: ClusterId)
      requires newId !in clusters
      modifies this
      ensures cid == newId && clusters == old(clusters)[newId := map[pic := score]]
      ensures storage == old(storage)
    {
      clusters := clusters[newId := map[pic := score]];
      cid := newId;
    }

    method UpdatePictureScoreOfCluster(cid: ClusterId, pic: PicId, score: real)
      modifies this
      ensures clusters == old(clusters)[cid := ScoresOf(old(clusters), cid)[pic := score]]
      ensures storage == old(storage)
    {
      clusters := clusters[cid := ScoresOf(clusters, cid)[pic := score]];
    }

    /** The members of a cluster, once each, in an order the store chooses. */
    method PicturesOfCluster(cid: ClusterId) returns (ids: seq<PicId>)
      ensures Distinct(ids)
      ensures forall p :: p in ids <==> p in ScoresOf(clusters, cid)
    {
      var rest := ScoresOf(clusters, cid).Keys;
      ids := [];
      while rest != {}
        invariant Distinct(ids)
        invariant forall p :: p in ids ==> p !in rest
        invariant forall p :: p in ScoresOf(clusters, cid) <==> p in ids || p in rest
        decreases rest
      {
        var p :| p in rest;
        ids := ids + [p];
        rest := rest - {p};
      }
    }

    /** The centrality of `pic` over the list: the sum of its distances to each id. */
    method ComputeCentrality(ids: seq<PicId>, pic: PicId) returns (sum: real)
      ensures sum == Centrality(dist, pic, ids)
    {
      sum := 0.0;
      for k := 0 to |ids|
        invariant sum == Centrality(dist, pic, ids[..k])
      {
        CentralityAppend(dist, pic, ids[..k], [ids[k]]);
        assert ids[..k + 1] == ids[..k] + [ids[k]];
        sum := sum + dist(pic, ids[k]);
      }
      assert ids[..|ids|] == ids;
    }

    /** Re-scores the members of a cluster: a full re-evaluation when the last
        added picture is unknown, an incremental one from a snapshot otherwise. */
    method ReevaluateRepresentativePictureOrder(cid: ClusterId, fetchedId: Option<PicId>)
      modifies this
      ensures storage == old(storage)
      ensures fetchedId.None? ==>
        clusters == if cid in old(clusters) then old(clusters)[cid := FullScores(dist, old(clusters)[cid].Keys)]
                    else old(clusters)
      ensures fetchedId.Some? ==>
        clusters == old(clusters)[cid := IncrementalScores(dist, ScoresOf(old(clusters), cid), fetchedId.value)]
    {
      if fetchedId.None? {
        ReevaluateAll(cid);
      } else {
        ReevaluateWithNewPicture(cid, fetchedId.value);
      }
    }

    /** Full path: every member gets its centrality over the whole member list. */
    method ReevaluateAll(cid: ClusterId)
      modifies this
      ensures storage == old(storage)
      ensures clusters == if cid in old(clusters) then old(clusters)[cid := FullScores(dist, old(clusters)[cid].Keys)]
                          else old(clusters)
    {
      var ids := PicturesOfCluster(cid);
      ghost var before := ScoresOf(clusters, cid);
      RecomputeStart(dist, before);
      for k := 0 to |ids|
        invariant storage == old(storage)
        invariant clusters == if cid in old(clusters) then old(clusters)[cid := PartlyRecomputed(dist, before, ids[..k])]
                              else old(clusters)
      {
        var pic := ids[k];
        var centrality := ComputeCentrality(ids, pic);
        ListCentralityIsSetCentrality(dist, pic, ids, before.Keys);
        RecomputeStep(dist, before, ids, k);
        UpdatePictureScoreOfCluster(cid, pic, centrality);
      }
      assert ids[..|ids|] == ids;
      RecomputeFinish(dist, before, ids);
    }

    /** Stores the centrality of the new picture over the listed members. */
    method ScoreNewPicture(cid: ClusterId, newPic: PicId, ids: seq<PicId>)
      requires Distinct(ids)
      requires forall p :: p in ids <==> p in ScoresOf(clusters, cid)
      modifies this
      ensures storage == old(storage)
      ensures clusters == old(clusters)[cid := PartlyIncremented(dist, ScoresOf(old(clusters), cid), newPic, [])]
    {
      var centrality := ComputeCentrality(ids, newPic);
      ListCentralityIsSetCentrality(dist, newPic, ids, ScoresOf(clusters, cid).Keys);
      IncrementStart(dist, ScoresOf(clusters, cid), newPic);
      UpdatePictureScoreOfCluster(cid, newPic, centrality);
    }

    /** Incremental path: the new picture gets its centrality over the snapshot
        list, every other member its snapshot score plus its distance from the
        new picture. */
    method ReevaluateWithNewPicture(cid: ClusterId, newPic: PicId)
      modifies this
      ensures storage == old(storage)
      ensures clusters == old(clusters)[cid := IncrementalScores(dist, ScoresOf(old(clusters), cid), newPic)]
    {
      var ids := PicturesOfCluster(cid);
      // The scores are read once, before any update: the snapshot.
      var snapshot := ScoresOf(clusters, cid);
      ScoreNewPicture(cid, newPic, ids);
      AddDistancesFromNewPicture(cid, newPic, ids, snapshot);
      IncrementFinish(dist, snapshot, newPic, ids);
    }

    /** The loop of the incremental path: every listed member other than the
        new picture gets its snapshot score plus its distance from the new
        picture. */
    method AddDistancesFromNewPicture(cid: ClusterId, newPic: PicId, ids: seq<PicId>, snapshot: map<PicId, real>)
      requires forall p :: p in ids ==> p in snapshot
      requires cid in clusters && clusters[cid] == PartlyIncremented(dist, snapshot, newPic, [])
      modifies this
      ensures storage == old(storage)
      ensures clusters == old(clusters)[cid := PartlyIncremented(dist, snapshot, newPic, ids)]
    {
      for k := 0 to |ids|
        invariant storage == old(storage)
        invariant clusters == old(clusters)[cid := PartlyIncremented(dist, snapshot, newPic, ids[..k])]
      {
        var pic := ids[k];
        IncrementStep(dist, snapshot, newPic, ids, k);
        if pic == newPic {
          continue;
        }
        UpdatePictureScoreOfCluster(cid, pic, snapshot[pic] + dist(newPic, pic));
      }
      assert ids[..|ids|] == ids;
    }

    /** A candidate re-weighted by its cluster's size against the target size. */
    function Reweighted(m: ImageMatch, targetClusterSize: real): ImageMatch
      reads this
      requires targetClusterSize > 0.0
    {
      m.(distance := PonderatedDistance(m.distance, ClusterSize(m.clusterId), targetClusterSize))
    }

    /** Candidate `i` is acceptable after re-weighting and comes first, among the
        acceptable ones, in ascending re-weighted distance with ties broken by
        input position. */
    predicate IsBestCandidate(candidates: seq<ImageMatch>, i: nat, targetClusterSize: real)
      reads this
      requires targetClusterSize > 0.0 && i < |candidates|
    {
      var best := Reweighted(candidates[i], targetClusterSize);
      Acceptable(best.decision, best.distance, maxDistForNewCluster) &&
      forall j ::
        (0 <= j < |candidates| &&
         Acceptable(candidates[j].decision, Reweighted(candidates[j], targetClusterSize).distance, maxDistForNewCluster))
        ==>
        (best.distance < Reweighted(candidates[j], targetClusterSize).distance ||
         (best.distance == Reweighted(candidates[j], targetClusterSize).distance && i <= j))
    }

    /** Size-weighted policy: re-weight every candidate, sort stably by the new
        distance and return the cluster of the first acceptable one. */
    method ChooseClusterFromPicsMatches(topMatchingPictures: seq<ImageMatch>, targetClusterSize: real)
      returns (r: Option<ClusterId>)
      requires targetClusterSize > 0.0
      ensures r.None? <==> forall j :: 0 <= j < |topMatchingPictures| ==>
        !Acceptable(topMatchingPictures[j].decision, Reweighted(topMatchingPictures[j], targetClusterSize).distance, maxDistForNewCluster)
      ensures r.Some? ==>
        (exists i :: 0 <= i < |topMatchingPictures| && topMatchingPictures[i].clusterId == r.value &&
                     IsBestCandidate(topMatchingPictures, i, targetClusterSize))
    {
      var ranked: seq<Ranked> := [];
      for k := 0 to |topMatchingPictures|
        invariant |ranked| == k
        invariant forall i :: 0 <= i < k ==> ranked[i] == Ranked(i, Reweighted(topMatchingPictures[i], targetClusterSize))
      {
        var normalized := Reweighted(topMatchingPictures[k], targetClusterSize);
        ranked := ranked + [Ranked(k, normalized)];
      }
      SortByDistanceSorted(ranked);
      var sorted := SortByDistance(ranked);
      for k := 0 to |sorted|
        invariant forall p :: 0 <= p < k ==> !AcceptableRanked(sorted[p], maxDistForNewCluster)
      {
        if AcceptableRanked(sorted[k], maxDistForNewCluster) {
          FirstAcceptableIsBest(ranked, sorted, k, maxDistForNewCluster);
          var i := sorted[k].position;
          assert IsBestCandidate(topMatchingPictures, i, targetClusterSize) by {
            forall j | 0 <= j < |topMatchingPictures| &&
              Acceptable(topMatchingPictures[j].decision, Reweighted(topMatchingPictures[j], targetClusterSize).distance, maxDistForNewCluster)
              ensures RanksBefore(ranked[i], ranked[j])
            {
              assert AcceptableRanked(ranked[j], maxDistForNewCluster);
            }
          }
          return Some(sorted[k].candidate.clusterId);
        }
      }
      NoAcceptableInSorted(ranked, sorted, maxDistForNewCluster);
      assert forall j :: 0 <= j < |topMatchingPictures| ==> !AcceptableRanked(ranked[j], maxDistForNewCluster);
      return None;
    }

    /** Adds a picture to an existing cluster and re-scores that cluster
        incrementally. */
    method JoinCluster(pic: PicId, cid: ClusterId)
      modifies this
      ensures storage == old(storage)
      ensures clusters == old(clusters)[cid := IncrementalScores(dist, ScoresOf(old(clusters), cid)[pic := 0.0], pic)]
      ensures (StoreInvariant(dist, old(clusters)) && Unassigned(old(clusters), pic) && Symmetric(dist)) ==>
        StoreInvariant(dist, clusters)
    {
      AddPictureToCluster(pic, cid);
      ReevaluateRepresentativePictureOrder(cid, Some(pic));
      assert ScoresOf(old(clusters)[cid := ScoresOf(old(clusters), cid)[pic := 0.0]], cid)
        == ScoresOf(old(clusters), cid)[pic := 0.0];
      if StoreInvariant(dist, old(clusters)) && Unassigned(old(clusters), pic) && Symmetric(dist) {
        JoinPreservesStoreInvariant(dist, old(clusters), cid, pic);
      }
    }

    /** Admits one fetched picture: stores it, then either adds it to the
        cluster of the best matching picture (when the first-acceptable policy
        finds a cluster) and updates that cluster incrementally, or opens a new
        cluster holding it alone with score 0. */
    method ProcessFetchedData(fetchedId: PicId, fetchedDict: FeatureBundle,
                              topMatchingPictures: seq<ImageMatch>, listMatchingClusters: seq<ClusterMatch>,
                              newClusterId: ClusterId)
      returns (r: Result<ClusterId, AdmissionError>)
      requires newClusterId !in clusters
      modifies this
      ensures storage == old(storage)[fetchedId := fetchedDict]
      ensures ChooseClusterFromClusterMatches(listMatchingClusters, maxDistForNewCluster).None? ==>
        r == Ok(newClusterId) && clusters == old(clusters)[newClusterId := map[fetchedId := 0.0]]
      ensures (ChooseClusterFromClusterMatches(listMatchingClusters, maxDistForNewCluster).Some? &&
               topMatchingPictures == []) ==>
        r == Err(IndexError) && clusters == old(clusters)
      ensures (ChooseClusterFromClusterMatches(listMatchingClusters, maxDistForNewCluster).Some? &&
               topMatchingPictures != []) ==>
        var cid := topMatchingPictures[0].clusterId;
        r == Ok(cid) &&
        clusters == old(clusters)[cid := IncrementalScores(dist, ScoresOf(old(clusters), cid)[fetchedId := 0.0], fetchedId)]
      ensures (StoreInvariant(dist, old(clusters)) && Unassigned(old(clusters), fetchedId) &&
               Symmetric(dist) && ZeroOnDiagonal(dist)) ==>
        StoreInvariant(dist, clusters)
    {
      AddPictureToStorage(fetchedId, fetchedDict);
      var chosen := ChooseClusterFromClusterMatches(listMatchingClusters, maxDistForNewCluster);
      if chosen.Some? {
        if topMatchingPictures == [] {
          return Err(IndexError);
        }
        // The picture joins the best matching picture's cluster, which need
        // not be the cluster the policy chose.
        var cid := topMatchingPictures[0].clusterId;
        JoinCluster(fetchedId, cid);
        r := Ok(cid);
      } else {
        var cid := AddPictureToNewCluster(fetchedId, 0.0, newClusterId);
        if StoreInvariant(dist, old(clusters)) && Unassigned(old(clusters), fetchedId) && ZeroOnDiagonal(dist) {
          NewClusterPreservesStoreInvariant(dist, old(clusters), newClusterId, fetchedId);
        }
        r := Ok(cid);
      }
    }
  }
}
