/** Periodic snapshots of a container: each save gets a name built from a
    running save number and the current date, the names are kept in a FIFO
    in commit order, and the oldest snapshot is dropped once there are more
    than the configured limit. The Docker client and the clock are left
    out: the date arrives as its string form. */
module DockerCommitter {
  import opened Scoring

  // ---- Decimal rendering of the save number, as Python's str(int) ----

  predicate IsDigit(c: char) {
    '0' <= c <= '9'
  }

  predicate AllDigits(s: string) {
    forall i :: 0 <= i < |s| ==> IsDigit(s[i])
  }

  function DigitChar(d: nat): (c: char)
    requires d < 10
    ensures IsDigit(c)
  {
    ('0' as int + d) as char
  }

  function DigitValue(c: char): nat
    requires IsDigit(c)
  {
    c as int - '0' as int
  }

  function NatToString(n: nat): (s: string)
    ensures |s| > 0 && AllDigits(s)
    decreases n
  {
    if n < 10 then [DigitChar(n)] else NatToString(n / 10) + [DigitChar(n % 10)]
  }

  /** Reads a string of decimal digits back as a number. */
  function ParseDecimal(s: string): nat
    requires AllDigits(s)
  {
    if |s| == 0 then 0 else ParseDecimal(s[..|s| - 1]) * 10 + DigitValue(s[|s| - 1])
  }

  lemma {:induction false} ParseNatToString(n: nat)
    ensures ParseDecimal(NatToString(n)) == n
    decreases n
  {
    var s := NatToString(n);
    if n >= 10 {
      ParseNatToString(n / 10);
      assert s[..|s| - 1] == NatToString(n / 10);
    }
  }

  // ---- Commit names ----

  /** `s` with every `from` replaced by `to`. */
  function ReplaceChar(s: string, from: char, to: char): (r: string)
    ensures |r| == |s|
    ensures forall i :: 0 <= i < |s| ==> r[i] == if s[i] == from then to else s[i]
  {
    if |s| == 0 then []
    else [if s[0] == from then to else s[0]] + ReplaceChar(s[1..], from, to)
  }

  predicate IsDateSeparator(c: char) {
    c == ' ' || c == ':' || c == '-' || c == '.'
  }

  /** The date's string form with its separators turned into underscores. */
  function DateSuffix(now: string): (r: string)
    ensures |r| == |now|
    ensures forall i :: 0 <= i < |now| ==> r[i] == if IsDateSeparator(now[i]) then '_' else now[i]
    ensures forall i :: 0 <= i < |r| ==> !IsDateSeparator(r[i])
  {
    ReplaceChar(ReplaceChar(ReplaceChar(ReplaceChar(now, ' ', '_'), ':', '_'), '-', '_'), '.', '_')
  }

  function CommitName(saveId: nat, now: string): string {
    "save_" + NatToString(saveId) + "_" + DateSuffix(now)
  }

  /** The digits between "save_" and the next underscore are the same in two
      equal names. */
  lemma IdDigitsAgree(d1: string, d2: string, x1: string, x2: string)
    requires AllDigits(d1) && AllDigits(d2)
    requires "save_" + d1 + "_" + x1 == "save_" + d2 + "_" + x2
    ensures d1 == d2
  {
    var s1 := "save_" + d1 + "_" + x1;
    var s2 := "save_" + d2 + "_" + x2;
    assert forall i :: 0 <= i < |d1| ==> s1[5 + i] == d1[i];
    assert s1[5 + |d1|] == '_';
    assert forall i :: 0 <= i < |d2| ==> s2[5 + i] == d2[i];
    assert s2[5 + |d2|] == '_';
    assert |d1| == |d2|;
    assert d1 == s1[5..5 + |d1|];
    assert d2 == s2[5..5 + |d2|];
  }

  /** A commit name determines its save number: saves with different
      numbers never share a name, whatever the clock said. */
  lemma CommitNamesDistinct(a: nat, b: nat, now1: string, now2: string)
    requires a != b
    ensures CommitName(a, now1) != CommitName(b, now2)
  {
    if CommitName(a, now1) == CommitName(b, now2) {
      IdDigitsAgree(NatToString(a), NatToString(b), DateSuffix(now1), DateSuffix(now2));
      ParseNatToString(a);
      ParseNatToString(b);
    }
  }

  /** The names given by successive saves numbered from `firstId`, one per
      clock reading. */
  function CommitNames(firstId: nat, clock: seq<string>): (r: seq<string>)
    ensures |r| == |clock|
  {
    if |clock| == 0 then []
    else CommitNames(firstId, clock[..|clock| - 1]) + [CommitName(firstId + |clock| - 1, clock[|clock| - 1])]
  }

  /** Name j is the one built from save number firstId + j and reading j. */
  lemma {:induction false} CommitNamesIndex(firstId: nat, clock: seq<string>)
    ensures forall j :: 0 <= j < |clock| ==> CommitNames(firstId, clock)[j] == CommitName(firstId + j, clock[j])
  {
    if |clock| > 0 {
      var init := clock[..|clock| - 1];
      CommitNamesIndex(firstId, init);
      assert CommitNames(firstId, clock) == CommitNames(firstId, init) + [CommitName(firstId + |init|, clock[|init|])];
    }
  }

  /** ... so the names of successive saves are pairwise distinct. */
  lemma CommitNamesAt(firstId: nat, clock: seq<string>)
    ensures forall j :: 0 <= j < |clock| ==> CommitNames(firstId, clock)[j] == CommitName(firstId + j, clock[j])
    ensures forall i, j :: 0 <= i < j < |clock| ==> CommitNames(firstId, clock)[i] != CommitNames(firstId, clock)[j]
  {
    CommitNamesIndex(firstId, clock);
    forall i, j | 0 <= i < j < |clock|
      ensures CommitNames(firstId, clock)[i] != CommitNames(firstId, clock)[j]
    {
      CommitNamesDistinct(firstId + i, firstId + j, clock[i], clock[j]);
    }
  }

  // ---- Retention ----

  /** How many saves the FIFO holds after `rounds` commit-then-remove
      rounds, starting from `len` saves. */
  function RetainedLength(len: nat, limit: int, rounds: nat): (r: nat)
    ensures len <= limit ==> r <= limit
    ensures len <= r <= len + rounds
  {
    if len < limit then (if len + rounds <= limit then len + rounds else limit) else len
  }

  /** One more round extends the count as one round after the others. */
  lemma RetainedLengthStep(len: nat, limit: int, rounds: nat)
    ensures RetainedLength(len, limit, rounds + 1)
      == RetainedLength(RetainedLength(len, limit, rounds), limit, 1)
  {
  }

  class Committer {
    var dequeSaves: seq<string>
    var savesLimit: int
    var currentSaveId: nat
    /** The save number and date each retained name was built from. */
    ghost var savedIds: seq<nat>
    ghost var savedDates: seq<string>

    /** Retained names are commit names in increasing save-number order,
        all below the next save number. */
    ghost predicate Valid()
      reads this
    {
      |savedIds| == |dequeSaves| && |savedDates| == |dequeSaves| &&
      (forall j :: 0 <= j < |dequeSaves| ==> dequeSaves[j] == CommitName(savedIds[j], savedDates[j])) &&
      (forall i, j :: 0 <= i < j < |savedIds| ==> savedIds[i] < savedIds[j]) &&
      (forall j :: 0 <= j < |savedIds| ==> savedIds[j] < currentSaveId)
    }

    /** The retained names are pairwise distinct: each was built from a
        different save number. */
    lemma RetainedNamesDistinct()
      requires Valid()
      ensures forall i, j :: 0 <= i < j < |dequeSaves| ==> dequeSaves[i] != dequeSaves[j]
    {
      forall i, j | 0 <= i < j < |dequeSaves|
        ensures dequeSaves[i] != dequeSaves[j]
      {
        CommitNamesDistinct(savedIds[i], savedIds[j], savedDates[i], savedDates[j]);
      }
    }

    constructor (savesLimit: int)
      ensures Valid()
      ensures dequeSaves == [] && this.savesLimit == savesLimit && currentSaveId == 0
    {
      dequeSaves := [];
      this.savesLimit := savesLimit;
      currentSaveId := 0;
      savedIds := [];
      savedDates := [];
    }

    method GetCommitName(now: string) returns (name: string)
      modifies this
      ensures name == CommitName(old(currentSaveId), now)
      ensures currentSaveId == old(currentSaveId) + 1
      ensures dequeSaves == old(dequeSaves) && savesLimit == old(savesLimit)
      ensures savedIds == old(savedIds) && savedDates == old(savedDates)
    {
      name := CommitName(currentSaveId, now);
      currentSaveId := currentSaveId + 1;
    }

    /** Commits the container under a fresh name, appended at the back. */
    method CommitDocker(dockerName: string, now: string) returns (name: string)
      requires Valid()
      modifies this
      ensures Valid()
      ensures name == CommitName(old(currentSaveId), now)
      ensures currentSaveId == old(currentSaveId) + 1
      ensures dequeSaves == old(dequeSaves) + [name] && savesLimit == old(savesLimit)
    {
      name := GetCommitName(now);
      dequeSaves := dequeSaves + [name];
      savedIds := savedIds + [currentSaveId - 1];
      savedDates := savedDates + [now];
    }

    /** Drops the oldest save, and only that one, when there are too many.
        Popping from an empty FIFO raises, so a negative limit needs a save
        to drop. */
    method RemoveTooOldImages() returns (removed: Option<string>)
      requires Valid()
      requires |dequeSaves| > savesLimit ==> |dequeSaves| > 0
      modifies this
      ensures Valid()
      ensures currentSaveId == old(currentSaveId) && savesLimit == old(savesLimit)
      ensures |old(dequeSaves)| > savesLimit ==>
        removed == Some(old(dequeSaves)[0]) && dequeSaves == old(dequeSaves)[1..]
      ensures |old(dequeSaves)| <= savesLimit ==> removed == None && dequeSaves == old(dequeSaves)
    {
      if |dequeSaves| > savesLimit {
        removed := Some(dequeSaves[0]);
        dequeSaves := dequeSaves[1..];
        savedIds := savedIds[1..];
        savedDates := savedDates[1..];
      } else {
        removed := None;
      }
    }

    /** One round of the commit loop: commit, then drop the oldest save if
        there are now too many. */
    method CommitRound(dockerName: string, now: string) returns (name: string)
      requires Valid()
      modifies this
      ensures Valid()
      ensures name == CommitName(old(currentSaveId), now)
      ensures currentSaveId == old(currentSaveId) + 1 && savesLimit == old(savesLimit)
      ensures |dequeSaves| == RetainedLength(|old(dequeSaves)|, savesLimit, 1)
      ensures dequeSaves == (old(dequeSaves) + [name])[|old(dequeSaves)| + 1 - |dequeSaves|..]
    {
      name := CommitDocker(dockerName, now);
      var _ := RemoveTooOldImages();
    }

    /** Successive rounds of the commit loop, one per clock reading: the
        FIFO ends up holding the newest names, as many as the retention
        rule allows. */
    method CommitRounds(dockerName: string, clock: seq<string>) returns (names: seq<string>)
      requires Valid()
      modifies this
      ensures Valid()
      ensures currentSaveId == old(currentSaveId) + |clock| && savesLimit == old(savesLimit)
      ensures names == CommitNames(old(currentSaveId), clock)
      ensures |dequeSaves| == RetainedLength(|old(dequeSaves)|, savesLimit, |clock|)
      ensures dequeSaves == (old(dequeSaves) + names)[|old(dequeSaves)| + |clock| - |dequeSaves|..]
    {
      names := [];
      assert clock[..0] == [];
      ghost var before := dequeSaves;
      for k := 0 to |clock|
        invariant Valid()
        invariant currentSaveId == old(currentSaveId) + k && savesLimit == old(savesLimit)
        invariant names == CommitNames(old(currentSaveId), clock[..k])
        invariant |dequeSaves| == RetainedLength(|before|, savesLimit, k)
        invariant dequeSaves == (before + names)[|before| + k - |dequeSaves|..]
      {
        ghost var full := before + names;
        ghost var kept := dequeSaves;
        var name := CommitRound(dockerName, clock[k]);
        RetainedLengthStep(|before|, savesLimit, k);
        SuffixStep(full, kept, name, dequeSaves);
        names := names + [name];
        assert before + names == full + [name];
        assert clock[..k + 1][..k] == clock[..k];
        assert names == CommitNames(old(currentSaveId), clock[..k + 1]);
      }
      assert clock[..|clock|] == clock;
    }
  }

  /** If the FIFO holds the newest entries of a history, then after
      appending one entry and trimming the front it holds the newest entries
      of the extended history. */
  lemma SuffixStep<T>(history: seq<T>, kept: seq<T>, x: T, next: seq<T>)
    requires |kept| <= |history| && kept == history[|history| - |kept|..]
    requires |next| <= |kept| + 1 && next == (kept + [x])[|kept| + 1 - |next|..]
    ensures next == (history + [x])[|history| + 1 - |next|..]
  {
    assert kept + [x] == (history + [x])[|history| - |kept|..];
  }
}
