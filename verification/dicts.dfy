/** Python's `dict`: an insertion-ordered association list with distinct keys.
    Assigning to a present key keeps its position; a new key goes to the end;
    `del` keeps the order of the remaining entries. The order matters to the
    model because digests, `list_sessions` and `get_available_templates`
    render or return entries in dict order. */
module Dicts {
  import opened Wrappers

  predicate DistinctKeys<K(==, !new), V>(s: seq<(K, V)>) {
    forall i, j :: 0 <= i < j < |s| ==> s[i].0 != s[j].0
  }

  type Dict<K(==, !new), V> = s: seq<(K, V)> | DistinctKeys(s) witness []

  function Empty<K(==, !new), V>(): (d: Dict<K, V>)
    ensures |d| == 0
  {
    []
  }

  predicate HasKey<K(==, !new), V>(d: seq<(K, V)>, k: K) {
    exists i :: 0 <= i < |d| && d[i].0 == k
  }

  /** The keys in insertion order: `list(d.keys())`. */
  function Keys<K(==, !new), V>(d: Dict<K, V>): (ks: seq<K>)
    ensures |ks| == |d|
    ensures forall i :: 0 <= i < |d| ==> ks[i] == d[i].0
    ensures forall k :: k in ks <==> HasKey(d, k)
  {
    seq(|d|, i requires 0 <= i < |d| => d[i].0)
  }

  function IndexFrom<K(==, !new), V>(d: seq<(K, V)>, k: K, i: nat): (r: Option<nat>)
    requires i <= |d|
    ensures r.Some? ==> i <= r.value < |d| && d[r.value].0 == k
    ensures r.None? ==> forall j :: i <= j < |d| ==> d[j].0 != k
    decreases |d| - i
  {
    if i == |d| then None
    else if d[i].0 == k then Some(i)
    else IndexFrom(d, k, i + 1)
  }

  /** `d.get(k)`. */
  function Get<K(==, !new), V>(d: Dict<K, V>, k: K): (r: Option<V>)
    ensures r.Some? <==> HasKey(d, k)
    ensures forall i :: 0 <= i < |d| && d[i].0 == k ==> r == Some(d[i].1)
  {
    match IndexFrom(d, k, 0)
    case Some(i) => Some(d[i].1)
    case None => None
  }

  /** `d[k] = v`. */
  function Put<K(==, !new), V>(d: Dict<K, V>, k: K, v: V): (r: Dict<K, V>)
    ensures Get(r, k) == Some(v)
    ensures forall k' :: k' != k ==> Get(r, k') == Get(d, k')
    ensures HasKey(d, k) ==> Keys(r) == Keys(d)
    ensures !HasKey(d, k) ==> Keys(r) == Keys(d) + [k]
  {
    match IndexFrom(d, k, 0)
    case Some(i) =>
      var r := d[i := (k, v)];
      assert forall j :: 0 <= j < |r| ==> r[j].0 == d[j].0;
      r
    case None =>
      var r := d + [(k, v)];
      assert Keys(r) == Keys(d) + [k];
      r
  }

  /** `del d[k]` when present; nothing otherwise. */
  function Remove<K(==, !new), V>(d: Dict<K, V>, k: K): (r: Dict<K, V>)
    ensures Get(r, k) == None
    ensures forall k' :: k' != k ==> Get(r, k') == Get(d, k')
    ensures !HasKey(d, k) ==> r == d
    ensures HasKey(d, k) ==> exists i :: 0 <= i < |d| && r == d[..i] + d[i + 1..]
  {
    match IndexFrom(d, k, 0)
    case Some(i) =>
      var r := d[..i] + d[i + 1..];
      assert forall j :: 0 <= j < |r| ==> r[j] == (if j < i then d[j] else d[j + 1]);
      forall k' | k' != k ensures Get(r, k') == Get(d, k') {
        if HasKey(d, k') {
          var j :| 0 <= j < |d| && d[j].0 == k';
          assert r[if j < i then j else j - 1] == d[j];
        }
      }
      r
    case None => d
  }

  /** `d.update(e)`, and equally `{**d, **e}`: entries of `e` are put into
      `d` one after another, in `e`'s order. */
  function Update<K(==, !new), V>(d: Dict<K, V>, e: Dict<K, V>): (r: Dict<K, V>)
    ensures forall k :: Get(r, k) == if HasKey(e, k) then Get(e, k) else Get(d, k)
    ensures Keys(d) <= Keys(r)
    decreases |e|
  {
    if |e| == 0 then d
    else
      var rest: Dict<K, V> := e[1..];
      TailEntries(e);
      assert !HasKey(rest, e[0].0);
      var step := Put(d, e[0].0, e[0].1);
      assert Keys(d) <= Keys(step);
      Update(step, rest)
  }

  /** Dropping the first entry loses exactly its key and keeps every other
      lookup. */
  lemma TailEntries<K(!new), V>(e: Dict<K, V>)
    requires |e| > 0
    ensures forall k :: HasKey(e, k) <==> k == e[0].0 || HasKey(e[1..], k)
    ensures forall k :: HasKey(e[1..], k) ==> Get(e[1..], k) == Get(e, k)
    ensures !HasKey(e[1..], e[0].0)
  {
    var rest: Dict<K, V> := e[1..];
    forall k | HasKey(e, k) && k != e[0].0 ensures HasKey(rest, k) {
      var i :| 0 <= i < |e| && e[i].0 == k;
      assert rest[i - 1] == e[i];
    }
    forall k | HasKey(rest, k) ensures HasKey(e, k) && Get(rest, k) == Get(e, k) {
      var i :| 0 <= i < |rest| && rest[i].0 == k;
      assert e[i + 1] == rest[i];
    }
  }

  /** The stored pairs are exactly the entries of the list. */
  lemma GetIffEntry<K(!new), V>(d: Dict<K, V>, k: K, v: V)
    ensures Get(d, k) == Some(v) <==> (k, v) in d
  {
    if (k, v) in d {
      var i :| 0 <= i < |d| && d[i] == (k, v);
    }
  }
}
