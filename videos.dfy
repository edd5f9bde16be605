/**
 * Pure operations over the list of stored videos: the `find` and
 * `findIndex` lookups by id, the id-assignment rule, the effect of
 * `splice(k, 1)`, and the ordering invariant on ids.
 */
module Videos {
  import opened Wrappers
  import opened Db

  /**
   * `v.id === videoId`. The path id arrives parsed by `parseInt`; `None`
   * stands for the NaN it yields on a non-numeric id, which equals no id.
   */
  predicate Matches(v: Video, videoId: Option<int>) {
    videoId == Some(v.id)
  }

  /** Ids strictly increase in list order. */
  predicate IdsIncreasing(vs: seq<Video>) {
    forall i, j :: 0 <= i < j < |vs| ==> vs[i].id < vs[j].id
  }

  /** `vs.findIndex(v => v.id === videoId)`: the first matching position, or -1 if there is none. */
  function FindIndex(vs: seq<Video>, videoId: Option<int>): (k: int)
    ensures -1 <= k < |vs|
    ensures k == -1 <==> forall i :: 0 <= i < |vs| ==> !Matches(vs[i], videoId)
    ensures k != -1 ==> Matches(vs[k], videoId) && forall i :: 0 <= i < k ==> !Matches(vs[i], videoId)
  {
    if vs == [] then -1
    else if Matches(vs[0], videoId) then 0
    else
      var k := FindIndex(vs[1..], videoId);
      if k == -1 then -1 else k + 1
  }

  /** `vs.find(v => v.id === videoId)`: the first matching record, if any. */
  function Find(vs: seq<Video>, videoId: Option<int>): (r: Option<Video>)
    ensures r.None? <==> forall i :: 0 <= i < |vs| ==> !Matches(vs[i], videoId)
    ensures r.Some? ==> Matches(r.value, videoId) && r.value in vs
    ensures r.Some? ==> exists k :: 0 <= k < |vs| && r.value == vs[k] && forall i :: 0 <= i < k ==> !Matches(vs[i], videoId)
  {
    var k := FindIndex(vs, videoId);
    if k == -1 then None else Some(vs[k])
  }

  /** The id a new record gets: one more than the LAST record's id, or 1 for an empty list. */
  function NextId(vs: seq<Video>): (r: int)
    ensures vs == [] ==> r == 1
    ensures IdsIncreasing(vs) ==> forall i :: 0 <= i < |vs| ==> vs[i].id < r
  {
    if |vs| > 0 then vs[|vs| - 1].id + 1 else 1
  }

  /** `vs.splice(k, 1)`: position k is dropped and every later record moves down by one. */
  function RemoveAt(vs: seq<Video>, k: int): (r: seq<Video>)
    requires 0 <= k < |vs|
    ensures |r| == |vs| - 1
    ensures forall i :: 0 <= i < k ==> r[i] == vs[i]
    ensures forall i :: k <= i < |r| ==> r[i] == vs[i + 1]
    ensures multiset(r) + multiset{vs[k]} == multiset(vs)
  {
    assert vs == vs[..k] + [vs[k]] + vs[k + 1..];
    vs[..k] + vs[k + 1..]
  }

  /** Strictly increasing ids are unique, so at most one record matches a given id. */
  lemma IdsIncreasingMeansUnique(vs: seq<Video>, i: int, videoId: Option<int>)
    requires IdsIncreasing(vs)
    requires 0 <= i < |vs| && Matches(vs[i], videoId)
    ensures FindIndex(vs, videoId) == i
    ensures forall j :: 0 <= j < |vs| && j != i ==> !Matches(vs[j], videoId)
  {
  }

  /** Appending a record with the next id keeps the ids increasing. */
  lemma AppendKeepsIdsIncreasing(vs: seq<Video>, v: Video)
    requires IdsIncreasing(vs)
    requires v.id == NextId(vs)
    ensures IdsIncreasing(vs + [v])
  {
  }

  /** Overwriting a record with one that carries the same id keeps the ids increasing. */
  lemma OverwriteKeepsIdsIncreasing(vs: seq<Video>, k: int, v: Video)
    requires IdsIncreasing(vs)
    requires 0 <= k < |vs| && v.id == vs[k].id
    ensures IdsIncreasing(vs[k := v])
  {
  }

  /** Removing any record keeps the ids increasing. */
  lemma RemoveKeepsIdsIncreasing(vs: seq<Video>, k: int)
    requires IdsIncreasing(vs)
    requires 0 <= k < |vs|
    ensures IdsIncreasing(RemoveAt(vs, k))
  {
  }

  /** Once removed, a record's id no longer matches anything: a second lookup of it fails. */
  lemma RemovedIdIsGone(vs: seq<Video>, k: int)
    requires IdsIncreasing(vs)
    requires 0 <= k < |vs|
    ensures FindIndex(RemoveAt(vs, k), Some(vs[k].id)) == -1
  {
  }

  /** A record appended with the next id is what a lookup of that id finds. */
  lemma FindAppended(vs: seq<Video>, v: Video)
    requires IdsIncreasing(vs)
    requires v.id == NextId(vs)
    ensures FindIndex(vs + [v], Some(v.id)) == |vs|
    ensures Find(vs + [v], Some(v.id)) == Some(v)
  {
    var ws := vs + [v];
    assert ws[|vs|] == v;
    assert forall i :: 0 <= i < |vs| ==> ws[i] == vs[i] && !Matches(ws[i], Some(v.id));
  }

  /**
   * Ids are not reserved: if the last record got its id from the id rule
   * and is then removed, the rule hands out that same id again.
   */
  lemma RemovingLastFreesItsId(vs: seq<Video>)
    requires |vs| > 0
    requires vs[|vs| - 1].id == NextId(vs[..|vs| - 1])
    ensures NextId(RemoveAt(vs, |vs| - 1)) == vs[|vs| - 1].id
  {
    assert RemoveAt(vs, |vs| - 1) == vs[..|vs| - 1];
  }
}
