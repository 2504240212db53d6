/**
 * The tag and field maps of a line-protocol record, modelled as an
 * insertion-ordered map: a sequence of (key, value) entries with distinct
 * keys. Insert has Rust's `HashMap::insert` meaning (a new key is added, an
 * existing key gets the new value); the order only fixes the iteration order.
 */
module Pairs {
  import opened Wrappers

  type Entry = (string, string)

  predicate UniqueKeys(ps: seq<Entry>) {
    forall i, j :: 0 <= i < j < |ps| ==> ps[i].0 != ps[j].0
  }

  /** Position of key k, or |ps| when k is not a key. */
  function KeyIndex(ps: seq<Entry>, k: string): (i: nat)
    ensures i <= |ps|
    ensures i < |ps| ==> ps[i].0 == k
    ensures forall j :: 0 <= j < i ==> ps[j].0 != k
  {
    if ps == [] || ps[0].0 == k then 0 else 1 + KeyIndex(ps[1..], k)
  }

  /** `HashMap::get`. */
  function Lookup(ps: seq<Entry>, k: string): Option<string>
  {
    var i := KeyIndex(ps, k);
    if i == |ps| then None else Some(ps[i].1)
  }

  /** `HashMap::insert`: overwrite the value of an existing key in place, or append a new entry. */
  function Insert(ps: seq<Entry>, k: string, v: string): seq<Entry>
  {
    var i := KeyIndex(ps, k);
    if i == |ps| then ps + [(k, v)] else ps[i := (k, v)]
  }

  /**
   * Insert behaves as a map update: afterwards k maps to v and every other
   * key to what it mapped to before; keys stay distinct; existing entries keep
   * their positions and only an absent key adds an entry, at the end.
   */
  lemma InsertLookup(ps: seq<Entry>, k: string, v: string)
    requires UniqueKeys(ps)
    ensures UniqueKeys(Insert(ps, k, v))
    ensures Lookup(Insert(ps, k, v), k) == Some(v)
    ensures forall k' :: k' != k ==> Lookup(Insert(ps, k, v), k') == Lookup(ps, k')
    ensures |Insert(ps, k, v)| == if Lookup(ps, k).Some? then |ps| else |ps| + 1
    ensures forall i :: 0 <= i < |ps| ==> Insert(ps, k, v)[i].0 == ps[i].0
  {
    var r := Insert(ps, k, v);
    var i := KeyIndex(ps, k);
    assert r[i] == (k, v);
    assert forall j :: 0 <= j < i ==> r[j] == ps[j];
    assert KeyIndex(r, k) == i;
    forall k' | k' != k
      ensures Lookup(r, k') == Lookup(ps, k')
    {
      var j := KeyIndex(ps, k');
      var j' := KeyIndex(r, k');
      if j < |ps| {
        assert r[j].0 == k';
        assert j' == j;
      } else {
        assert j' == |r|;
      }
    }
  }

  /** Every entry of Insert(ps, k, v) is (k, v) or an entry of ps. */
  lemma InsertEntries(ps: seq<Entry>, k: string, v: string)
    ensures forall i :: 0 <= i < |Insert(ps, k, v)| ==> Insert(ps, k, v)[i] == (k, v) || Insert(ps, k, v)[i] in ps
  {
  }
}
