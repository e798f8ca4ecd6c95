/** The ORB distance rules of the distance engine: the edge cases around
    missing descriptors, the good-match filter, the ratio turned into a
    distance, and the per-algorithm answer dict. The OpenCV brute-force
    matcher is a parameter that yields the raw match distances (or fails). */
module DistanceOrb {
  import opened Scoring

  /** Key of the ORB descriptors in a picture's feature dict. */
  const OrbDescriptorsKey: string := "ORB_DESCRIPTORS"

  /** Matches strictly below this Hamming distance are "good". */
  const GoodMatchThreshold: nat := 64

  datatype OrbError =
    | AlgoFeatureNotPresent   // a bundle lacks ORB descriptors, or holds None
    | KeyMissing              // indexing a bundle without the descriptor key
    | MatcherFailure          // the matcher raised

  /** The ORB entry of the feature-extractor configuration; a missing
      "is_enabled" key reads as false. */
  datatype AlgoConf = AlgoConf(algoName: string, isEnabled: bool)

  /** Brute-force Hamming matcher: the distance of every match it returns,
      or None when it raises. */
  type Matcher = (Descriptors, Descriptors) -> Option<seq<nat>>

  /** The decision rule shared with the hash distances, for this algorithm's
      configuration. */
  type DecisionRule = real -> Decision

  predicate IsGood(distance: nat) {
    distance < GoodMatchThreshold
  }

  /** The good matches, in their original order. */
  function GoodMatches(matches: seq<nat>): (r: seq<nat>)
    ensures |r| <= |matches|
  {
    if |matches| == 0 then []
    else
      var last := matches[|matches| - 1];
      assert matches == matches[..|matches| - 1] + [last];
      GoodMatches(matches[..|matches| - 1]) + (if IsGood(last) then [last] else [])
  }

  /** The filter keeps only good matches, and each good match as many times
      as it occurs. */
  lemma {:induction false} GoodMatchesKeepsExactlyGood(matches: seq<nat>)
    ensures forall i :: 0 <= i < |GoodMatches(matches)| ==> IsGood(GoodMatches(matches)[i])
    ensures forall v :: multiset(GoodMatches(matches))[v] == if IsGood(v) then multiset(matches)[v] else 0
  {
    if |matches| > 0 {
      var init := matches[..|matches| - 1];
      var last := matches[|matches| - 1];
      GoodMatchesKeepsExactlyGood(init);
      assert matches == init + [last];
      assert multiset(matches) == multiset(init) + multiset{last};
    }
  }

  /** Filtering distributes over concatenation: the order is kept. */
  lemma {:induction false} GoodMatchesAppend(a: seq<nat>, b: seq<nat>)
    ensures GoodMatches(a + b) == GoodMatches(a) + GoodMatches(b)
    decreases |b|
  {
    if |b| == 0 {
      assert a + b == a;
    } else {
      var b' := b[..|b| - 1];
      assert a + b == (a + b') + [b[|b| - 1]];
      assert (a + b)[..|a + b| - 1] == a + b';
      GoodMatchesAppend(a, b');
    }
  }

  /** Nothing is filtered out exactly when every match is good. */
  lemma {:induction false} GoodMatchesAllGood(matches: seq<nat>)
    ensures |GoodMatches(matches)| == |matches| <==> forall i :: 0 <= i < |matches| ==> IsGood(matches[i])
  {
    if |matches| > 0 {
      var init := matches[..|matches| - 1];
      GoodMatchesAllGood(init);
      assert forall i :: 0 <= i < |init| ==> init[i] == matches[i];
    }
  }

  /** Everything is filtered out exactly when no match is good. */
  lemma {:induction false} GoodMatchesNoneGood(matches: seq<nat>)
    ensures GoodMatches(matches) == [] <==> forall i :: 0 <= i < |matches| ==> !IsGood(matches[i])
  {
    if |matches| > 0 {
      var init := matches[..|matches| - 1];
      GoodMatchesNoneGood(init);
      assert forall i :: 0 <= i < |init| ==> init[i] == matches[i];
    }
  }

  /** The filter loop: appends each good match to the result. */
  method ThresholdDistanceFilter(matches: seq<nat>) returns (good: seq<nat>)
    ensures good == GoodMatches(matches)
  {
    good := [];
    for k := 0 to |matches|
      invariant good == GoodMatches(matches[..k])
    {
      assert matches[..k + 1][..k] == matches[..k];
      if matches[k] < GoodMatchThreshold {
        good := good + [matches[k]];
      }
    }
    assert matches[..|matches|] == matches;
  }

  /** `1 - good / max(all, good)`: the share of matches that are not good. */
  function MaxDist(all: seq<nat>, good: seq<nat>): (r: real)
    requires |all| > 0 || |good| > 0
    ensures 0.0 <= r <= 1.0
    ensures r == 0.0 <==> |good| >= |all|
    ensures r == 1.0 <==> |good| == 0
  {
    var denominator := if |all| >= |good| then |all| else |good|;
    var share := (|good| as real) / (denominator as real);
    assert share * (denominator as real) == |good| as real;
    1.0 - share
  }

  /** Distance between two descriptor sets. */
  function ComputeOrbDistance(descriptors1: Option<Descriptors>, descriptors2: Option<Descriptors>,
                              matcher: Matcher): (r: Result<real, OrbError>)
    ensures r.Ok? ==> 0.0 <= r.value <= 1.0
    ensures descriptors1.None? && descriptors2.None? ==> r == Ok(0.0)
    ensures descriptors1.None? != descriptors2.None? ==> r == Ok(1.0)
    ensures r.Err? <==>
      (descriptors1.Some? && descriptors2.Some? && matcher(descriptors1.value, descriptors2.value).None?)
    ensures r.Ok? && descriptors1.Some? && descriptors2.Some? ==>
      (var matches := matcher(descriptors1.value, descriptors2.value).value;
       (r.value == 1.0 <==> forall i :: 0 <= i < |matches| ==> !IsGood(matches[i])) &&
       (r.value == 0.0 <==> (|matches| > 0 && forall i :: 0 <= i < |matches| ==> IsGood(matches[i]))) &&
       (|matches| > 0 ==> r.value == 1.0 - (|GoodMatches(matches)| as real) / (|matches| as real)))
  {
    match (descriptors1, descriptors2)
    case (None, None) => Ok(0.0)
    case (None, Some(_)) => Ok(1.0)
    case (Some(_), None) => Ok(1.0)
    case (Some(d1), Some(d2)) =>
      match matcher(d1, d2)
      case None => Err(MatcherFailure)
      case Some(matches) =>
        if |matches| == 0 then Ok(1.0)
        else
          GoodMatchesAllGood(matches);
          GoodMatchesNoneGood(matches);
          Ok(MaxDist(matches, GoodMatches(matches)))
  }

  /** A bundle passes the sanity check when it holds non-None ORB descriptors. */
  predicate HasOrbDescriptors(bundle: FeatureBundle) {
    OrbDescriptorsKey in bundle && bundle[OrbDescriptorsKey].Some?
  }

  /** Computes the ORB distance and records it under the algorithm's name,
      leaving every other entry of the answer as it was. */
  method AddResults(conf: AlgoConf, packageFrom: FeatureBundle, packageTo: FeatureBundle,
                    answer: map<string, AlgoMatch>, matcher: Matcher, decide: DecisionRule)
    returns (r: Result<map<string, AlgoMatch>, OrbError>)
    ensures (OrbDescriptorsKey !in packageFrom || OrbDescriptorsKey !in packageTo) ==> r == Err(KeyMissing)
    ensures (OrbDescriptorsKey in packageFrom && OrbDescriptorsKey in packageTo) ==>
      (var d := ComputeOrbDistance(packageFrom[OrbDescriptorsKey], packageTo[OrbDescriptorsKey], matcher);
       (r.Ok? <==> d.Ok?) &&
       (r.Ok? ==>
          conf.algoName in r.value &&
          r.value[conf.algoName] == AlgoMatch(conf.algoName, d.value, decide(d.value)) &&
          r.value.Keys == answer.Keys + {conf.algoName} &&
          forall k :: k in answer && k != conf.algoName ==> r.value[k] == answer[k]))
    ensures r.Err? ==> r.error != AlgoFeatureNotPresent
  {
    if OrbDescriptorsKey !in packageFrom || OrbDescriptorsKey !in packageTo {
      return Err(KeyMissing);
    }
    var distance := ComputeOrbDistance(packageFrom[OrbDescriptorsKey], packageTo[OrbDescriptorsKey], matcher);
    if distance.Err? {
      return Err(distance.error);
    }
    var updated := answer;
    updated := updated[conf.algoName := AlgoMatch(conf.algoName, distance.value, decide(distance.value))];
    r := Ok(updated);
  }

  /** The ORB answer for two pictures: the error when a bundle fails the
      sanity check, otherwise the answer dict, left empty when ORB is
      disabled or when the computation fails. */
  method OrbDistance(conf: AlgoConf, packageFrom: FeatureBundle, packageTo: FeatureBundle,
                     matcher: Matcher, decide: DecisionRule)
    returns (r: Result<map<string, AlgoMatch>, OrbError>)
    ensures r.Err? <==> !(HasOrbDescriptors(packageFrom) && HasOrbDescriptors(packageTo))
    ensures r.Err? ==> r.error == AlgoFeatureNotPresent
    ensures r.Ok? ==> r.value.Keys <= {conf.algoName}
    ensures r.Ok? ==>
      (r.value != map[] <==>
         conf.isEnabled &&
         matcher(packageFrom[OrbDescriptorsKey].value, packageTo[OrbDescriptorsKey].value).Some?)
    ensures r.Ok? && conf.algoName in r.value ==>
      (var m := r.value[conf.algoName];
       m.name == conf.algoName && 0.0 <= m.distance <= 1.0 && m.decision == decide(m.distance))
    ensures r.Ok? && r.value != map[] ==>
      (var d := ComputeOrbDistance(packageFrom[OrbDescriptorsKey], packageTo[OrbDescriptorsKey], matcher);
       d.Ok? && r.value == map[conf.algoName := AlgoMatch(conf.algoName, d.value, decide(d.value))])
  {
    if !HasOrbDescriptors(packageFrom) || !HasOrbDescriptors(packageTo) {
      return Err(AlgoFeatureNotPresent);
    }
    var answer: map<string, AlgoMatch> := map[];
    if conf.isEnabled {
      var added := AddResults(conf, packageFrom, packageTo, answer, matcher, decide);
      // A failure inside the computation is logged and swallowed.
      if added.Ok? {
        answer := added.value;
      }
    }
    r := Ok(answer);
  }
}
