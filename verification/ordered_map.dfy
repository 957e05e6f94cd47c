/** A Python `dict` from file path to code, as the sequence of its entries
    in insertion order. Paths are distinct. */
module OrderedMap {
  import opened Results

  datatype Entry = Entry(path: string, code: string)

  predicate DistinctPaths(d: seq<Entry>) {
    forall i, j :: 0 <= i < j < |d| ==> d[i].path != d[j].path
  }

  function Paths(d: seq<Entry>): (ks: set<string>)
    ensures forall i :: 0 <= i < |d| ==> d[i].path in ks
    ensures forall k :: k in ks ==> exists i :: 0 <= i < |d| && d[i].path == k
  {
    set i | 0 <= i < |d| :: d[i].path
  }

  /** The position of key `k`, if it is present. */
  function IndexOf(d: seq<Entry>, k: string): (r: Option<nat>)
    ensures r.Some? ==> r.value < |d| && d[r.value].path == k
    ensures r.None? ==> k !in Paths(d)
  {
    if d == [] then None
    else if d[0].path == k then Some(0)
    else match IndexOf(d[1..], k)
      case Some(i) => Some(i + 1)
      case None => None
  }

  /** `d[k] = v`: an existing key keeps its position and takes the new
      value; a new key goes at the end. */
  function Put(d: seq<Entry>, k: string, v: string): (r: seq<Entry>)
    requires DistinctPaths(d)
    ensures DistinctPaths(r)
    ensures Paths(r) == Paths(d) + {k}
    ensures k in Paths(d) ==> |r| == |d|
    ensures k in Paths(d) ==> forall i :: 0 <= i < |d| ==>
      r[i].path == d[i].path && r[i].code == (if d[i].path == k then v else d[i].code)
    ensures k !in Paths(d) ==> r == d + [Entry(k, v)]
  {
    match IndexOf(d, k)
    case Some(i) => ReplaceKeepsPaths(d, i, v); d[i := Entry(k, v)]
    case None => AppendAddsPath(d, k, v); d + [Entry(k, v)]
  }

  lemma ReplaceKeepsPaths(d: seq<Entry>, i: nat, v: string)
    requires DistinctPaths(d) && i < |d|
    ensures var r := d[i := Entry(d[i].path, v)];
      DistinctPaths(r) && Paths(r) == Paths(d)
  {
    var r := d[i := Entry(d[i].path, v)];
    assert forall j :: 0 <= j < |d| ==> r[j].path == d[j].path;
    assert Paths(r) == Paths(d) by {
      forall x | x in Paths(r) ensures x in Paths(d) {
        var j :| 0 <= j < |r| && r[j].path == x;
      }
      forall x | x in Paths(d) ensures x in Paths(r) {
        var j :| 0 <= j < |d| && d[j].path == x;
        assert r[j].path == x;
      }
    }
  }

  lemma AppendAddsPath(d: seq<Entry>, k: string, v: string)
    requires DistinctPaths(d) && k !in Paths(d)
    ensures var r := d + [Entry(k, v)];
      DistinctPaths(r) && Paths(r) == Paths(d) + {k}
  {
    var r := d + [Entry(k, v)];
    assert forall j :: 0 <= j < |d| ==> r[j] == d[j];
    assert Paths(r) == Paths(d) + {k} by {
      forall x | x in Paths(r) ensures x in Paths(d) + {k} {
        var j :| 0 <= j < |r| && r[j].path == x;
      }
      forall x | x in Paths(d) ensures x in Paths(r) {
        var j :| 0 <= j < |d| && d[j].path == x;
        assert r[j].path == x;
      }
      assert r[|d|].path == k;
    }
  }
}
