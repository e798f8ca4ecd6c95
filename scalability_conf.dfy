/** The scalability benchmark's configuration and its two box-size
    schedules: a geometric one with cycling multipliers and a linear one.
    Each schedule grows until a box reaches the requested maximum, and never
    holds more than the configured number of boxes. */
module ScalabilityConf {

  datatype Config = Config(
    nbPicsToRequest: int,
    startingNbPicsInDb: int,
    multiplierList: seq<int>,
    linearIncrement: int,
    maxNbPicsToSend: int,
    maxNbBoxes: int)

  /** The configuration's defaults. */
  function DefaultConfig(): (c: Config)
    ensures c.startingNbPicsInDb == 5 && c.multiplierList == [2, 5] && c.linearIncrement == 20
    ensures c.maxNbBoxes == 100 && c.maxNbPicsToSend == 100000 && c.nbPicsToRequest == 10
  {
    Config(10, 5, [2, 5], 20, 100000, 100)
  }

  /** Box k of the geometric schedule: the previous box (the start value
      before box 0) times the multiplier at k, cycling through the list. */
  function GeometricBox(start: int, multipliers: seq<int>, k: nat): int
    requires |multipliers| > 0
  {
    multipliers[k % |multipliers|] * (if k == 0 then start else GeometricBox(start, multipliers, k - 1))
  }

  /** Box k of the linear schedule; the start value plays no part. */
  function LinearBox(increment: int, k: nat): int {
    increment * (k + 1)
  }

  /** Stops once a box reaches the maximum or the box limit is hit. */
  method GenerateBoxes(conf: Config, maxNbPictures: int) returns (boxes: seq<int>)
    requires conf.maxNbBoxes > 0 ==> |conf.multiplierList| > 0
    ensures conf.maxNbBoxes <= 0 ==> boxes == []
    ensures conf.maxNbBoxes > 0 ==> 0 < |boxes| <= conf.maxNbBoxes
    ensures forall k :: 0 <= k < |boxes| ==>
      boxes[k] == GeometricBox(conf.startingNbPicsInDb, conf.multiplierList, k)
    ensures forall k :: 0 <= k < |boxes| - 1 ==> boxes[k] < maxNbPictures
    ensures 0 < |boxes| < conf.maxNbBoxes ==> boxes[|boxes| - 1] >= maxNbPictures
  {
    boxes := [];
    var currBox := conf.startingNbPicsInDb;
    var i := 0;
    var boxReachedMax := false;
    while |boxes| < conf.maxNbBoxes && !boxReachedMax
      invariant |boxes| <= conf.maxNbBoxes || boxes == []
      invariant |conf.multiplierList| > 0 ==> i == |boxes| % |conf.multiplierList|
      invariant currBox == if boxes == [] then conf.startingNbPicsInDb else boxes[|boxes| - 1]
      invariant forall k :: 0 <= k < |boxes| ==>
        boxes[k] == GeometricBox(conf.startingNbPicsInDb, conf.multiplierList, k)
      invariant forall k :: 0 <= k < |boxes| - 1 ==> boxes[k] < maxNbPictures
      invariant boxReachedMax <==> (boxes != [] && boxes[|boxes| - 1] >= maxNbPictures)
      decreases conf.maxNbBoxes - |boxes|
    {
      ghost var n := |boxes|;
      assert GeometricBox(conf.startingNbPicsInDb, conf.multiplierList, n)
        == conf.multiplierList[i] * currBox;
      currBox := conf.multiplierList[i] * currBox;
      boxes := boxes + [currBox];
      if currBox >= maxNbPictures {
        boxReachedMax := true;
      }
      ModSucc(n, |conf.multiplierList|);
      i := (i + 1) % |conf.multiplierList|;
    }
  }

  // Arithmetic helpers for the cycling multiplier index.

  lemma MulNonneg(d: int, n: int)
    requires d >= 1 && n > 0
    ensures d * n >= n
  {
    if d > 1 {
      MulNonneg(d - 1, n);
      assert d * n == (d - 1) * n + n;
    }
  }

  lemma ModUnique(x: int, n: int, q: int, r: int)
    requires n > 0 && 0 <= r < n && x == q * n + r
    ensures x % n == r
  {
    var q' := x / n;
    var r' := x % n;
    assert x == q' * n + r';
    var d := q - q';
    assert d * n == q * n - q' * n;
    assert d * n == r' - r;
    if d >= 1 {
      MulNonneg(d, n);
    }
    assert d == 0;
  }

  lemma ModSucc(a: nat, n: nat)
    requires n > 0
    ensures (a % n + 1) % n == (a + 1) % n
  {
    var q := a / n;
    var r := a % n;
    assert a == q * n + r;
    if r + 1 == n {
      assert a + 1 == (q + 1) * n + 0;
      ModUnique(a + 1, n, q + 1, 0);
    } else {
      ModUnique(a + 1, n, q, r + 1);
    }
  }

  /** Same stopping rule, with box k equal to the increment times k + 1. */
  method GenerateBoxesLinear(conf: Config, maxNbPictures: int) returns (boxes: seq<int>)
    ensures conf.maxNbBoxes <= 0 ==> boxes == []
    ensures conf.maxNbBoxes > 0 ==> 0 < |boxes| <= conf.maxNbBoxes
    ensures forall k :: 0 <= k < |boxes| ==> boxes[k] == LinearBox(conf.linearIncrement, k)
    ensures forall k :: 0 <= k < |boxes| - 1 ==> boxes[k] < maxNbPictures
    ensures 0 < |boxes| < conf.maxNbBoxes ==> boxes[|boxes| - 1] >= maxNbPictures
  {
    boxes := [];
    var currBox := conf.startingNbPicsInDb;
    var boxReachedMax := false;
    while |boxes| < conf.maxNbBoxes && !boxReachedMax
      invariant |boxes| <= conf.maxNbBoxes || boxes == []
      invariant forall k :: 0 <= k < |boxes| ==> boxes[k] == LinearBox(conf.linearIncrement, k)
      invariant forall k :: 0 <= k < |boxes| - 1 ==> boxes[k] < maxNbPictures
      invariant boxReachedMax <==> (boxes != [] && boxes[|boxes| - 1] >= maxNbPictures)
      decreases conf.maxNbBoxes - |boxes|
    {
      currBox := conf.linearIncrement * (|boxes| + 1);
      boxes := boxes + [currBox];
      if currBox >= maxNbPictures {
        boxReachedMax := true;
      }
    }
  }

  predicate AllAtLeastTwo(multipliers: seq<int>) {
    forall j :: 0 <= j < |multipliers| ==> multipliers[j] >= 2
  }

  lemma {:induction false} MulAtLeastTwo(m: int, b: int)
    requires m >= 2 && b >= 1
    ensures m * b > b
    decreases m
  {
    if m > 2 {
      MulAtLeastTwo(m - 1, b);
      assert m * b == (m - 1) * b + b;
    }
  }

  /** With a positive start and multipliers of at least 2, box 0 already
      exceeds the start value: the start value itself is never part of the
      schedule. */
  lemma {:induction false} GeometricBoxAboveStart(start: int, multipliers: seq<int>, k: nat)
    requires |multipliers| > 0 && AllAtLeastTwo(multipliers) && start >= 1
    ensures GeometricBox(start, multipliers, k) > start
  {
    var m := multipliers[k % |multipliers|];
    if k == 0 {
      MulAtLeastTwo(m, start);
    } else {
      GeometricBoxAboveStart(start, multipliers, k - 1);
      MulAtLeastTwo(m, GeometricBox(start, multipliers, k - 1));
    }
  }

  /** ... and every box exceeds the one before it. */
  lemma GeometricBoxGrows(start: int, multipliers: seq<int>, k: nat)
    requires |multipliers| > 0 && AllAtLeastTwo(multipliers) && start >= 1
    ensures GeometricBox(start, multipliers, k + 1) > GeometricBox(start, multipliers, k)
  {
    GeometricBoxAboveStart(start, multipliers, k);
    MulAtLeastTwo(multipliers[(k + 1) % |multipliers|], GeometricBox(start, multipliers, k));
  }

  /** Hence the geometric schedule is strictly increasing. */
  lemma {:induction false} GeometricScheduleIncreasing(start: int, multipliers: seq<int>, i: nat, j: nat)
    requires |multipliers| > 0 && AllAtLeastTwo(multipliers) && start >= 1
    requires i < j
    ensures GeometricBox(start, multipliers, i) < GeometricBox(start, multipliers, j)
    decreases j - i
  {
    GeometricBoxGrows(start, multipliers, i);
    if i + 1 < j {
      GeometricScheduleIncreasing(start, multipliers, i + 1, j);
    }
  }

  /** With a positive increment the linear schedule is strictly increasing. */
  lemma LinearScheduleIncreasing(increment: int, i: nat, j: nat)
    requires increment >= 1 && i < j
    ensures LinearBox(increment, i) < LinearBox(increment, j)
  {
    assert LinearBox(increment, j) - LinearBox(increment, i) == increment * (j - i);
  }

  /** With the defaults the geometric schedule starts 10, 50, 100, 500 and
      the linear one 20, 40, 60, and no box of either is the start value 5. */
  lemma DefaultSchedules()
    ensures var c := DefaultConfig();
      GeometricBox(c.startingNbPicsInDb, c.multiplierList, 0) == 10 &&
      GeometricBox(c.startingNbPicsInDb, c.multiplierList, 1) == 50 &&
      GeometricBox(c.startingNbPicsInDb, c.multiplierList, 2) == 100 &&
      GeometricBox(c.startingNbPicsInDb, c.multiplierList, 3) == 500 &&
      LinearBox(c.linearIncrement, 0) == 20 && LinearBox(c.linearIncrement, 1) == 40 &&
      LinearBox(c.linearIncrement, 2) == 60
    ensures var c := DefaultConfig();
      forall k: nat :: GeometricBox(c.startingNbPicsInDb, c.multiplierList, k) != c.startingNbPicsInDb
    ensures var c := DefaultConfig();
      forall k: nat :: LinearBox(c.linearIncrement, k) != c.startingNbPicsInDb
  {
    var c := DefaultConfig();
    forall k: nat
      ensures GeometricBox(c.startingNbPicsInDb, c.multiplierList, k) != c.startingNbPicsInDb
    {
      GeometricBoxAboveStart(c.startingNbPicsInDb, c.multiplierList, k);
    }
  }
}
