/** A cluster of the similarity graph: a node (id, label, image) holding a
    set of member ids and a group name, with its dict export and import. */
module Graph {

  /** Python's string order: lexicographic on code points, a proper prefix
      first. */
  predicate StrLess(a: string, b: string)
    decreases |a|
  {
    if |a| == 0 then |b| > 0
    else if |b| == 0 then false
    else a[0] < b[0] || (a[0] == b[0] && StrLess(a[1..], b[1..]))
  }

  lemma {:induction false} StrLessIrreflexive(a: string)
    ensures !StrLess(a, a)
    decreases |a|
  {
    if |a| > 0 {
      StrLessIrreflexive(a[1..]);
    }
  }

  lemma {:induction false} StrLessTransitive(a: string, b: string, c: string)
    requires StrLess(a, b) && StrLess(b, c)
    ensures StrLess(a, c)
    decreases |a|
  {
    if |a| > 0 && a[0] == b[0] && b[0] == c[0] {
      StrLessTransitive(a[1..], b[1..], c[1..]);
    }
  }

  lemma {:induction false} StrLessTotal(a: string, b: string)
    ensures a == b || StrLess(a, b) || StrLess(b, a)
    decreases |a|
  {
    if |a| > 0 && |b| > 0 && a[0] == b[0] {
      StrLessTotal(a[1..], b[1..]);
      assert a == [a[0]] + a[1..];
      assert b == [b[0]] + b[1..];
    }
  }

  /** Increasing, hence also free of duplicates. */
  predicate StrictlySorted(s: seq<string>) {
    forall i, j :: 0 <= i < j < |s| ==> StrLess(s[i], s[j])
  }

  lemma StrictlySortedDistinct(s: seq<string>)
    requires StrictlySorted(s)
    ensures forall i, j :: 0 <= i < j < |s| ==> s[i] != s[j]
  {
    forall i, j | 0 <= i < j < |s|
      ensures s[i] != s[j]
    {
      StrLessIrreflexive(s[i]);
    }
  }

  /** The least element of a non-empty set of strings. */
  method Least(s: set<string>) returns (m: string)
    requires s != {}
    ensures m in s
    ensures forall x :: x in s && x != m ==> StrLess(m, x)
  {
    m :| m in s;
    var rest := s - {m};
    while rest != {}
      invariant m in s && m !in rest && rest <= s
      invariant forall x :: x in s - rest && x != m ==> StrLess(m, x)
      decreases rest
    {
      var x :| x in rest;
      StrLessTotal(x, m);
      if StrLess(x, m) {
        forall y | y in s - rest && y != x
          ensures StrLess(x, y)
        {
          if y != m {
            StrLessTransitive(x, m, y);
          }
        }
        m := x;
      }
      rest := rest - {x};
    }
  }

  /** The members in ascending order, each once. */
  method SortedMembers(members: set<string>) returns (r: seq<string>)
    ensures StrictlySorted(r)
    ensures forall x :: x in r <==> x in members
    ensures |r| == |members|
  {
    r := [];
    var rest := members;
    while rest != {}
      invariant StrictlySorted(r)
      invariant rest <= members
      invariant forall x :: x in r <==> x in members - rest
      invariant forall i, x :: 0 <= i < |r| && x in rest ==> StrLess(r[i], x)
      invariant |r| + |rest| == |members|
      decreases rest
    {
      var m := Least(rest);
      r := r + [m];
      rest := rest - {m};
    }
  }

  /** The dict form of a cluster. */
  datatype ClusterDict = ClusterDict(id: string, nodeLabel: string, image: string, members: seq<string>, group: string)

  class Cluster {
    var id: string
    var nodeLabel: string
    var image: string
    var members: set<string>
    var group: string

    /** A new cluster has no members and an empty group. */
    constructor (nodeLabel: string, tmpId: string, image: string)
      ensures this.id == tmpId && this.nodeLabel == nodeLabel && this.image == image
      ensures members == {} && group == ""
    {
      this.id := tmpId;
      this.nodeLabel := nodeLabel;
      this.image := image;
      members := {};
      group := "";
    }

    /** The number of members; zero exactly for an empty cluster. */
    function NbMembers(): (n: nat)
      reads this
      ensures n == 0 <==> members == {}
    {
      |members|
    }

    method AddMemberId(nodeId: string)
      modifies this
      ensures members == old(members) + {nodeId}
      ensures NbMembers() == old(NbMembers()) + if nodeId in old(members) then 0 else 1
      ensures id == old(id) && nodeLabel == old(nodeLabel) && image == old(image) && group == old(group)
    {
      if nodeId in members {
        assert members + {nodeId} == members;
      } else {
        assert |members + {nodeId}| == |members| + |{nodeId}|;
      }
      members := members + {nodeId};
    }

    /** Replaces a member id by another; a non-member id changes nothing. */
    method UpdateMemberId(oldId: string, newId: string)
      modifies this
      ensures members == if oldId in old(members) then old(members) - {oldId} + {newId} else old(members)
      ensures NbMembers() <= old(NbMembers())
      ensures id == old(id) && nodeLabel == old(nodeLabel) && image == old(image) && group == old(group)
    {
      if oldId in members {
        var without := members - {oldId};
        assert |without| == |members| - 1;
        members := without + {newId};
      }
    }

    method AreInSameCluster(id1: string, id2: string) returns (r: bool)
      ensures r <==> id1 in members && id2 in members
    {
      r := {id1, id2} <= members;
    }

    /** The members come out sorted, so that the export is reproducible. */
    method ExportAsDict() returns (d: ClusterDict)
      ensures d.id == id && d.nodeLabel == nodeLabel && d.image == image && d.group == group
      ensures StrictlySorted(d.members)
      ensures forall x :: x in d.members <==> x in members
      ensures |d.members| == NbMembers()
    {
      var sorted := SortedMembers(members);
      d := ClusterDict(id, nodeLabel, image, sorted, group);
    }

    /** Builds a cluster from its dict form; repeated member ids collapse. */
    static method LoadFromDict(d: ClusterDict) returns (c: Cluster)
      ensures fresh(c)
      ensures c.id == d.id && c.nodeLabel == d.nodeLabel && c.image == d.image && c.group == d.group
      ensures forall x :: x in c.members <==> x in d.members
    {
      c := new Cluster(d.nodeLabel, d.id, d.image);
      for k := 0 to |d.members|
        invariant c.id == d.id && c.nodeLabel == d.nodeLabel && c.image == d.image
        invariant forall x :: x in c.members <==> x in d.members[..k]
      {
        c.AddMemberId(d.members[k]);
      }
      assert d.members[..|d.members|] == d.members;
      c.group := d.group;
    }
  }

  /** Exporting a cluster and loading the dict back gives a cluster with the
      same node fields, members and group. */
  method ExportLoadRoundTrip(c: Cluster) returns (loaded: Cluster)
    ensures loaded.id == c.id && loaded.nodeLabel == c.nodeLabel && loaded.image == c.image
    ensures loaded.members == c.members && loaded.group == c.group
  {
    var d := c.ExportAsDict();
    loaded := Cluster.LoadFromDict(d);
  }
}
