/**
 * Python dicts as the flattener uses them: insertion-ordered, keys distinct,
 * and `d[k] = v` overwrites an existing key where it stands or else appends.
 * `json.dumps` keeps that order, so it is part of the output.
 */
module OrderedDicts {
  import opened Values

  type Dict = seq<(string, Json)>

  function Keys(d: Dict): (ks: seq<string>)
    ensures |ks| == |d| && forall i :: 0 <= i < |d| ==> ks[i] == d[i].0
  {
    if d == [] then [] else [d[0].0] + Keys(d[1..])
  }

  ghost predicate UniqueKeys(d: Dict)
  {
    forall i, j :: 0 <= i < j < |d| ==> d[i].0 != d[j].0
  }

  /** `d.get(k)`: the value of the first entry with key `k`. */
  function Get(d: Dict, k: string): Option<Json>
  {
    if d == [] then None
    else if d[0].0 == k then Some(d[0].1)
    else Get(d[1..], k)
  }

  /** Position of the first entry whose key is `k`. */
  function IndexOf(d: Dict, k: string): (i: nat)
    requires k in Keys(d)
    ensures i < |d| && d[i].0 == k
    ensures forall j :: 0 <= j < i ==> d[j].0 != k
  {
    if d[0].0 == k then 0
    else 1 + IndexOf(d[1..], k)
  }

  /** `d[k] = v`. */
  function Put(d: Dict, k: string, v: Json): (r: Dict)
    ensures k in Keys(d) ==>
              var i := IndexOf(d, k);
              && |r| == |d|
              && r[i] == (k, v)
              && forall j :: 0 <= j < |d| && j != i ==> r[j] == d[j]
    ensures k !in Keys(d) ==> r == d + [(k, v)]
  {
    if d == [] then [(k, v)]
    else if d[0].0 == k then [(k, v)] + d[1..]
    else [d[0]] + Put(d[1..], k, v)
  }

  /** After `d[k] = v`, `k` reads back `v` and every other key reads what it read before. */
  lemma {:induction false} PutGet(d: Dict, k: string, v: Json, k': string)
    ensures Get(Put(d, k, v), k') == if k' == k then Some(v) else Get(d, k')
  {
    if d != [] && d[0].0 != k {
      PutGet(d[1..], k, v, k');
    }
  }

  /** `d[k] = v` adds `k` to the keys and no other key. */
  lemma PutKeys(d: Dict, k: string, v: Json)
    ensures forall x :: x in Keys(Put(d, k, v)) <==> x in Keys(d) || x == k
  {
  }

  /** `d[k] = v` keeps the keys of a dict distinct. */
  lemma PutUnique(d: Dict, k: string, v: Json)
    requires UniqueKeys(d)
    ensures UniqueKeys(Put(d, k, v))
  {
  }

  /** A dict object whose entries are updated in place. */
  class PyDict {
    var entries: Dict

    ghost predicate Valid()
      reads this
    {
      UniqueKeys(entries)
    }

    /** `{}` */
    constructor ()
      ensures Valid() && entries == []
    {
      entries := [];
    }

    /** A dict display `{k1: v1, ...}` with distinct keys. */
    constructor Of(d: Dict)
      requires UniqueKeys(d)
      ensures Valid() && entries == d
    {
      entries := d;
    }

    /** `self[k] = v` */
    method Set(k: string, v: Json)
      requires Valid()
      modifies this
      ensures Valid()
      ensures entries == Put(old(entries), k, v)
    {
      PutUnique(entries, k, v);
      entries := Put(entries, k, v);
    }
  }
}
