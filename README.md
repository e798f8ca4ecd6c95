# Near-duplicate picture clustering: admission, centrality and distance rules

This Dafny project models the core of douglas-quaid, a service that groups
near-duplicate pictures into clusters. Each cluster keeps a centrality score per
member, and the most central member is the cluster's representative.

The model covers five parts of the source:

- **The admission worker** (`DatabaseAdder`, `database_adder.dfy`):
  - it stores a fetched picture;
  - it picks a cluster with the first-acceptable policy, or scores candidates with the size-weighted ("ponderated") policy;
  - it then adds the picture to a cluster or opens a new one;
  - it keeps every member's centrality score up to date, either by a full O(N²) re-evaluation or by the incremental O(N) update from a snapshot of the scores.

  The score store is a map from cluster id to a map from member to score. The distance engine is a function `dist` fixed when the worker is built. The main result is `IncrementalMatchesFull`. Take a symmetric distance, a cluster where every prior score is already its full centrality, and a picture that is not yet a member. Then the incremental path writes exactly what a full re-evaluation would. With a distance that is also zero on the diagonal, admitting a picture that is in no cluster yet preserves the store invariant: clusters are non-empty, scores are consistent, and no picture is in two clusters. Re-admitting a picture that is already clustered is not covered. If it is in the target cluster, the incremental update counts its distances twice; if it is in another cluster, the clusters stop being disjoint.
- **The ORB distance rules** (`DistanceOrb`, `distance_orb.dfy`):
  - the edge cases around missing descriptors;
  - the strict `< 64` good-match filter;
  - the ratio `1 - good / max(all, good)`;
  - the missing-feature error and the answer dict.

  A match list is the sequence of raw Hamming distances the matcher returns.
- **The cluster value of the graph export** (`Graph`, `cluster.dfy`): a class holding a set of member ids and a group name. Export yields a strictly sorted member list, and loading the export gives back the same cluster.
- **The box-size schedules of the scalability benchmark** (`ScalabilityConf`, `scalability_conf.dfy`): a geometric schedule with cycling multipliers and a linear schedule. Both have their stopping rule and length bound.
- **The snapshot committer** (`DockerCommitter`, `docker_committer.dfy`):
  - save names are `save_<number>_<date>`, with the date's separators replaced by underscores;
  - the FIFO of retained names evicts its oldest entry once there are more than the limit.

`scoring.dfy` (module `Scoring`) holds the shared value types: `Option`, `Result`, the closed `Decision` datatype, the match records and the feature bundle.

Where the source's docstrings or design notes and its code disagree, the model follows the code:

- **Where an admitted picture goes.** The picture joins the cluster of the best matching *picture* (`top_matching_pictures[0]`), not the cluster the policy returned.
  - The two can differ.
  - When the policy accepts a cluster but the picture list is empty, the worker fails with an index error. The model returns it as `Err(IndexError)`, and the picture stays stored.
- **What centrality sums over.** Centrality is summed over the whole member list, *including* the member itself. It equals "the sum over the other members" only when `dist(x, x) = 0`.
- **The docstring examples of the schedules.**
  - `generate_boxes` never emits the start value when the start is positive and every multiplier is at least 2: its first box is already `start × multiplier[0]` (`GeometricBoxAboveStart`). With other multipliers, such as `[1]`, it can.
  - `generate_boxes_linear` ignores the start value: box k is `increment × (k + 1)`.
  - `DefaultSchedules` pins both down for the defaults.

## Model

| member | source | states |
|---|---|---|
| DatabaseAdder.ChooseClusterFromClusterMatches | carlhauser_server/DatabaseAccessor/database_adder.py:92-108 | None exactly when no match has decision YES and distance within the bound. Otherwise the id of an acceptable match such that no earlier match is acceptable (the first in input order). |
| DatabaseAdder.PonderatedDistance | carlhauser_server/DatabaseAccessor/database_adder.py:129-137 | For a positive target size, the re-weighted distance is above, equal to, or below the raw distance exactly when the cluster's size is above, equal to, or below the target. |
| DatabaseAdder.InsertByDistanceSorted | carlhauser_server/DatabaseAccessor/database_adder.py:118 | Inserting a candidate with a later input position into a stably sorted list keeps it sorted by (distance, position). The result is the old list plus that one candidate, as multisets. |
| DatabaseAdder.SortByDistanceSorted | carlhauser_server/DatabaseAccessor/database_adder.py:118 | The sort keyed on distance is stable: ascending by distance, ties in input order, and a permutation of its input. |
| DatabaseAdder.FirstAcceptableIsBest | carlhauser_server/DatabaseAccessor/database_adder.py:121-125 | In the stably sorted list, the first acceptable candidate is one of the input's candidates. It precedes every acceptable input candidate by (distance, position). |
| DatabaseAdder.NoAcceptableInSorted | carlhauser_server/DatabaseAccessor/database_adder.py:121-127 | If no candidate of the sorted list is acceptable, no candidate of the input is. |
| DatabaseAdder.Adder.ChooseClusterFromPicsMatches | carlhauser_server/DatabaseAccessor/database_adder.py:110-127 | None exactly when no candidate is acceptable after re-weighting. Otherwise the cluster of an acceptable candidate with the least re-weighted distance; among equal distances, the earliest in the input. |
| DatabaseAdder.CentralityOfEmpty | carlhauser_server/DatabaseAccessor/database_adder.py:206-219 | The centrality over an empty list is 0. |
| DatabaseAdder.CentralityAppend | carlhauser_server/DatabaseAccessor/database_adder.py:209-215 | Centrality is additive over list concatenation. |
| DatabaseAdder.Adder.ComputeCentrality | carlhauser_server/DatabaseAccessor/database_adder.py:197-219 | The accumulating loop returns the sum of `dist(picture, x)` over the id list. |
| DatabaseAdder.SetCentralityPick | carlhauser_server/DatabaseAccessor/database_adder.py:209-215 | The sum over a set of members can be split off at any member. The result does not depend on the order of summation. |
| DatabaseAdder.ListCentralityIsSetCentrality | carlhauser_server/DatabaseAccessor/database_adder.py:153-161 | Summing over any duplicate-free listing of a cluster gives that cluster's set sum. The order in which the store lists members does not matter. |
| DatabaseAdder.Adder.PicturesOfCluster | carlhauser_server/DatabaseAccessor/database_adder.py:153-154 | Lists every member of the cluster exactly once. An absent cluster gives the empty list. |
| DatabaseAdder.Adder.ReevaluateAll | carlhauser_server/DatabaseAccessor/database_adder.py:148-165 | Full path: each member's score becomes its centrality over all members. No other cluster changes, and an absent cluster is left absent. |
| DatabaseAdder.Adder.ScoreNewPicture | carlhauser_server/DatabaseAccessor/database_adder.py:174-180 | The new picture's score becomes its centrality over the listed members. Every other score is unchanged. |
| DatabaseAdder.Adder.AddDistancesFromNewPicture | carlhauser_server/DatabaseAccessor/database_adder.py:183-193 | Every listed member other than the new picture gets its snapshot score plus `dist(new, member)`. The new picture is skipped. |
| DatabaseAdder.Adder.ReevaluateWithNewPicture | carlhauser_server/DatabaseAccessor/database_adder.py:166-193 | Incremental path, from scores read once before any write. The new picture gets its centrality over the snapshot's members. Every other member gets its snapshot score plus its distance from the new picture. No other cluster changes. |
| DatabaseAdder.Adder.ReevaluateRepresentativePictureOrder | carlhauser_server/DatabaseAccessor/database_adder.py:139-193 | Without a fetched id, the full path; with one, the incremental path. The picture store is untouched. |
| DatabaseAdder.IncrementalMatchesFull | carlhauser_server/DatabaseAccessor/database_adder.py:139-193 | Take scores equal to the full centralities of the prior members and a symmetric distance. After inserting a new picture with any placeholder score, the incremental update equals the full re-evaluation of the new membership. |
| DatabaseAdder.SingletonConsistent | carlhauser_server/DatabaseAccessor/database_adder.py:80-82 | When `dist(x, x) = 0`, a new cluster whose only member scores 0 has consistent scores. |
| DatabaseAdder.JoinPreservesStoreInvariant | carlhauser_server/DatabaseAccessor/database_adder.py:67-73 | Adding an unassigned picture to a cluster and updating it incrementally keeps the store invariant, for a symmetric distance. |
| DatabaseAdder.NewClusterPreservesStoreInvariant | carlhauser_server/DatabaseAccessor/database_adder.py:77-82 | Opening a fresh cluster holding an unassigned picture alone, with score 0, keeps the store invariant. |
| DatabaseAdder.Adder.AddPictureToStorage | carlhauser_server/DatabaseAccessor/database_adder.py:43-46 | The feature dict is stored under the picture's id. The clusters are unchanged. |
| DatabaseAdder.Adder.AddPictureToCluster | carlhauser_server/DatabaseAccessor/database_adder.py:69 | The picture is added to the cluster with a placeholder score. Nothing else changes. |
| DatabaseAdder.Adder.AddPictureToNewCluster | carlhauser_server/DatabaseAccessor/database_adder.py:81-82 | A new cluster id is bound to a cluster holding only the picture, with the given score. |
| DatabaseAdder.Adder.UpdatePictureScoreOfCluster | carlhauser_server/DatabaseAccessor/database_adder.py:164-165 | Exactly one member's score changes. |
| DatabaseAdder.Adder.JoinCluster | carlhauser_server/DatabaseAccessor/database_adder.py:67-73 | The cluster becomes the incremental update of its prior scores plus the picture. The store invariant is preserved for a symmetric distance. |
| DatabaseAdder.Adder.ProcessFetchedData | carlhauser_server/DatabaseAccessor/database_adder.py:30-84 | The picture is always stored first. If no cluster qualifies, it becomes the sole member of a new cluster, scored 0. Otherwise it joins `top_matching_pictures[0]`'s cluster, which is updated incrementally; with no top picture the result is an index error. For a symmetric, zero-diagonal distance and an unassigned picture, the store invariant is preserved. |
| DistanceOrb.GoodMatches | carlhauser_server/DistanceEngine/distance_orb.py:115-130 | The good matches are never more than the matches. |
| DistanceOrb.GoodMatchesKeepsExactlyGood | carlhauser_server/DistanceEngine/distance_orb.py:123-128 | Every kept match is strictly below 64. Each distance below 64 is kept as often as it occurs, and any other distance not at all. |
| DistanceOrb.GoodMatchesAppend | carlhauser_server/DistanceEngine/distance_orb.py:126-128 | Filtering distributes over concatenation, so the original order is kept. |
| DistanceOrb.GoodMatchesAllGood | carlhauser_server/DistanceEngine/distance_orb.py:126-128 | Nothing is dropped exactly when every match is below 64. |
| DistanceOrb.GoodMatchesNoneGood | carlhauser_server/DistanceEngine/distance_orb.py:126-128 | Everything is dropped exactly when no match is below 64. |
| DistanceOrb.ThresholdDistanceFilter | carlhauser_server/DistanceEngine/distance_orb.py:115-130 | The appending loop returns exactly the good matches, in order. |
| DistanceOrb.MaxDist | carlhauser_server/DistanceEngine/distance_orb.py:132-142 | For a non-zero denominator the result lies in [0, 1]. It is 0 exactly when there are at least as many good matches as matches, and 1 exactly when there are no good matches. |
| DistanceOrb.ComputeOrbDistance | carlhauser_server/DistanceEngine/distance_orb.py:89-111 | Both descriptor sets None gives 0; exactly one None gives 1; a raising matcher is an error. Otherwise the distance is in [0, 1]: it is 1 exactly when no match is good (zero matches included), 0 exactly when there are matches and all are good, and else `1 - good / all`. |
| DistanceOrb.AddResults | carlhauser_server/DistanceEngine/distance_orb.py:65-85 | A missing descriptor key is an error. Otherwise, when the distance is computed, the answer gains exactly the entry `algo_name`, holding that distance and its decision. Every other entry is kept. |
| DistanceOrb.OrbDistance | carlhauser_server/DistanceEngine/distance_orb.py:34-63 | `AlgoFeatureNotPresent` exactly when a bundle lacks ORB descriptors or holds None. Otherwise the answer is empty when ORB is disabled or the computation fails. When not empty, it is exactly one entry under the algorithm's name: the ORB distance of the two descriptor sets, which lies in [0, 1], and that distance's decision. |
| Graph.StrLessIrreflexive | common/Graph/cluster.py:58 | Python's string order, used by `sorted`, is irreflexive. |
| Graph.StrLessTransitive | common/Graph/cluster.py:58 | Python's string order is transitive. |
| Graph.StrLessTotal | common/Graph/cluster.py:58 | Any two distinct strings are ordered one way or the other. |
| Graph.StrictlySortedDistinct | common/Graph/cluster.py:58 | A strictly sorted list has no duplicates. |
| Graph.Least | common/Graph/cluster.py:58 | Returns a member of a non-empty set that is below every other member. |
| Graph.SortedMembers | common/Graph/cluster.py:58 | `sorted(list(members))`: strictly increasing, with exactly the set's elements and the set's size. |
| Graph.Cluster.constructor | common/Graph/cluster.py:17-22 | A new cluster has the given node fields, no members and the group `""`. |
| Graph.Cluster.NbMembers | common/Graph/cluster.py:27-28 | The member count is zero exactly when the cluster has no members. |
| Graph.Cluster.AddMemberId | common/Graph/cluster.py:24-25 | The members become the old members plus the id, which makes a repeated add change nothing. The count grows by one exactly when the id is new. |
| Graph.Cluster.UpdateMemberId | common/Graph/cluster.py:30-40 | If the old id is a member, it is replaced by the new id; otherwise nothing changes. The count never grows. |
| Graph.Cluster.AreInSameCluster | common/Graph/cluster.py:44-52 | True exactly when both ids are members. |
| Graph.Cluster.ExportAsDict | common/Graph/cluster.py:56-61 | Copies the node fields and the group. The members come out strictly sorted, with exactly the member set's elements and as many as `get_nb_members`. |
| Graph.Cluster.LoadFromDict | common/Graph/cluster.py:63-81 | A new cluster whose node fields and group are the dict's, and whose members are exactly the ids listed. |
| Graph.ExportLoadRoundTrip | common/Graph/cluster.py:56-81 | Loading a cluster's export gives a cluster with the same node fields, members and group. |
| ScalabilityConf.DefaultConfig | common/Scalability_evaluator/scalability_conf.py:11-20 | The default values of the configuration. |
| ScalabilityConf.GenerateBoxes | common/Scalability_evaluator/scalability_conf.py:22-47 | With a non-positive box limit the result is empty; otherwise it has between 1 and that many boxes. Box k is `multiplier[k mod len] ×` box k-1, with the start value standing before box 0. Every box but the last is below the maximum. A result shorter than the limit ends with a box at or above the maximum. |
| ScalabilityConf.GenerateBoxesLinear | common/Scalability_evaluator/scalability_conf.py:49-70 | The same length bounds and stopping rule, with box k equal to `increment × (k + 1)` and the start value unused. |
| ScalabilityConf.GeometricBoxAboveStart | common/Scalability_evaluator/scalability_conf.py:29-38 | With start ≥ 1 and every multiplier ≥ 2, every box exceeds the start value, so the start value is never emitted. |
| ScalabilityConf.GeometricBoxGrows | common/Scalability_evaluator/scalability_conf.py:36 | Under the same conditions, each box exceeds the one before it. |
| ScalabilityConf.GeometricScheduleIncreasing | common/Scalability_evaluator/scalability_conf.py:34-45 | Under the same conditions, the geometric schedule is strictly increasing. |
| ScalabilityConf.LinearScheduleIncreasing | common/Scalability_evaluator/scalability_conf.py:60-64 | With a positive increment, the linear schedule is strictly increasing. |
| ScalabilityConf.DefaultSchedules | common/Scalability_evaluator/scalability_conf.py:22-70 | With the defaults, the schedules start 10, 50, 100, 500 and 20, 40, 60. No box of either schedule, at any position, is the start value 5, unlike the docstrings' examples. |
| DockerCommitter.ParseNatToString | common/HumanHash/docker_committer.py:49 | The decimal rendering of the save number reads back as that number. |
| DockerCommitter.ReplaceChar | common/HumanHash/docker_committer.py:49 | `str.replace` of one character: same length, with every occurrence replaced and every other character kept. |
| DockerCommitter.DateSuffix | common/HumanHash/docker_committer.py:49 | Every space, colon, hyphen and dot of the date becomes an underscore. No other character changes, and no separator remains. |
| DockerCommitter.CommitNamesDistinct | common/HumanHash/docker_committer.py:46-51 | Different save numbers never give the same name, whatever the dates. |
| DockerCommitter.CommitNamesAt | common/HumanHash/docker_committer.py:23-34 | The name of round j is built from save number `first + j` and reading j. The names of any series of rounds are pairwise distinct. |
| DockerCommitter.RetainedLength | common/HumanHash/docker_committer.py:27-31 | The number of retained saves never shrinks over rounds and grows by at most one per round. If it starts within the limit, it stays within the limit. |
| DockerCommitter.Committer.RetainedNamesDistinct | common/HumanHash/docker_committer.py:42-56 | Under the committer's invariant, the names retained in the FIFO are pairwise distinct, because each was built from a different save number. |
| DockerCommitter.Committer.constructor | common/HumanHash/docker_committer.py:17-21 | An empty FIFO, the given limit and save number 0. |
| DockerCommitter.Committer.GetCommitName | common/HumanHash/docker_committer.py:46-51 | The name is `save_<current number>_<date suffix>`, and the save number grows by exactly one. |
| DockerCommitter.Committer.CommitDocker | common/HumanHash/docker_committer.py:36-44 | The new name is appended at the back of the FIFO, so names stay in commit order. |
| DockerCommitter.Committer.RemoveTooOldImages | common/HumanHash/docker_committer.py:53-61 | When the FIFO is longer than the limit, exactly its front (oldest) entry is removed and returned. Otherwise nothing changes. |
| DockerCommitter.Committer.CommitRound | common/HumanHash/docker_committer.py:27-31 | One commit-then-remove round. The FIFO ends as the newest entries of the old FIFO plus the new name, with its length following the retention rule. |
| DockerCommitter.Committer.CommitRounds | common/HumanHash/docker_committer.py:23-34 | After one round per clock reading, the FIFO holds the newest names of the whole history, as many as the retention rule allows, and the save number has advanced by the number of rounds. |

`Graph.Cluster.NbMembers` is the size of the member set. `AddMemberId`, `UpdateMemberId` and `ExportAsDict` state how it relates to their results.

## Left out

- The key-value store is a pair of in-memory maps. Key layout, pickling and `get_dict_from_key` are out of scope.
- `db_utils` is not part of this model. Each store operation it or the shared database base class provides is modelled on its evident meaning:
  - `add_picture_to_storage` (database_adder.py:45) is `Adder.AddPictureToStorage`;
  - `db_utils.add_picture_to_cluster` (:69) is `Adder.AddPictureToCluster`;
  - `db_utils.add_picture_to_new_cluster` (:81) is `Adder.AddPictureToNewCluster`;
  - `db_utils.update_picture_score_of_cluster` (:164, :179, :192) is `Adder.UpdatePictureScoreOfCluster`;
  - `db_utils.get_pictures_of_cluster` (:153, :171) is `Adder.PicturesOfCluster`, read with the scores in the incremental path;
  - `len(db_utils.get_pictures_of_cluster(...))` (:134) is `Adder.ClusterSize`;
  - `db_utils.get_nb_stored_pictures` (:132) enters only through the `targetClusterSize` parameter, its square root.
- The store adds a picture to a cluster with some score. The model writes a placeholder 0, which the incremental update overwrites anyway.
- The new cluster id the store generates is a parameter, required to be fresh.
- The order in which the store lists a cluster's members is arbitrary in the model. Every result is proved for any order.
- The distance engine (`get_dist_and_decision_picture_to_picture`) is the function `dist`. Its decision output is unused by centrality, as in the source.
- The worker loop, queue fetching, logging and `print` are left out. So are concurrency and atomicity across worker replicas: the model is one worker against a store nobody else writes.
- `get_top_matching_pictures` is left out: its two result lists are inputs to `ProcessFetchedData`.
- Floating point and `math.sqrt`: distances are Dafny reals. The target cluster size `sqrt(number of stored pictures)` is a positive parameter.
- DatabaseAdder.Adder.ChooseClusterFromPicsMatches: does not model that the source overwrites each candidate's `distance` in place. Callers holding the same match objects would see re-weighted distances afterwards. The model returns only the chosen cluster.
- `choose_cluster_from_pics_matches` is not called by admission (the call at line 62 is commented out). It is modelled on its own.
- The OpenCV brute-force matcher, with its `CROSSCHECK` setting, is a parameter returning the list of match distances, or None when it raises.
- `Distance_Hash.compute_decision_from_distance` is a parameter from distance to decision.
- The ORB configuration dict is a record with a name and an enabled flag; a missing `is_enabled` reads as false. A missing `algo_name`, which Python would read as None, is not modelled.
- In `orb_distance` only the matcher can raise inside the `try`, because the decision rule is total. The swallowed error is therefore always a matcher failure.
- node.py is not part of this model. A cluster's id, label and image are taken to be exported and loaded unchanged, and `create_from_parent` is folded into `LoadFromDict`.
- `__repr__`, `__str__` and `get_str` are left out.
- `parse_from_dict` is left out: its `__dict__.update` may set any field, so the configuration is a record holding any values.
- The Docker client is left out: listing containers, `commit`, `images.remove`. Every commit and removal is taken to succeed. In the source, a failing commit would have advanced the save number without recording the name.
- `datetime.now()` becomes the date's string form, passed in. The exact format of `str(datetime)` is not modelled.
- `time.sleep` is left out.
- The infinite loop becomes one round per element of a finite sequence of clock readings.
- ScalabilityConf.GenerateBoxes: requires a non-empty multiplier list whenever boxes are to be generated. With an empty list, the source's indexing at line 36 raises `IndexError`; the model does not return that error.
- DockerCommitter.Committer.RemoveTooOldImages: requires a non-empty FIFO whenever it is longer than the limit. With a negative limit and an empty FIFO, the source's `popleft` raises; in the commit loop this cannot happen, because a commit always precedes the removal.
- `main` and argument parsing are left out.
