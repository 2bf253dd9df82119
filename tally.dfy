/**
 * Per-key totals of weighted entries, the shape of the dashboard's analytics:
 * each fetched row contributes a weight (1 for a meal, `total_price` for an
 * expense) to the total of its key (a person's name, a buyer, an item).
 */
module Tally {
  import opened Lists

  /** A key and the amount one row adds to that key's total. */
  datatype Entry = Entry(key: string, weight: int)

  /** The total that `entries` add up to under `key`. */
  function Weight(entries: seq<Entry>, key: string): int
  {
    if entries == [] then 0
    else
      var last := entries[|entries| - 1];
      Weight(entries[..|entries| - 1], key) + (if last.key == key then last.weight else 0)
  }

  /** The sum of all weights. */
  function Total(entries: seq<Entry>): int
  {
    if entries == [] then 0 else Total(entries[..|entries| - 1]) + entries[|entries| - 1].weight
  }

  /** The sum of the per-key totals over `keys`. */
  function SumOver(entries: seq<Entry>, keys: seq<string>): int
  {
    if keys == [] then 0 else Weight(entries, keys[0]) + SumOver(entries, keys[1..])
  }

  /** Whether some entry has key `key`. */
  predicate HasKey(entries: seq<Entry>, key: string)
  {
    exists j :: 0 <= j < |entries| && entries[j].key == key
  }

  /**
   * Conservation: when `keys` lists every key that occurs, each once, the
   * per-key totals add up to the sum of all weights.
   */
  lemma {:induction false} SumOverIsTotal(entries: seq<Entry>, keys: seq<string>)
    requires NoDuplicates(keys)
    requires forall j :: 0 <= j < |entries| ==> entries[j].key in keys
    ensures SumOver(entries, keys) == Total(entries)
  {
    if entries == [] {
      SumOverNothing(keys);
    } else {
      var n := |entries| - 1;
      var init, last := entries[..n], entries[n];
      assert forall j :: 0 <= j < |init| ==> init[j] == entries[j];
      SumOverIsTotal(init, keys);
      SumOverSnoc(init, last, keys);
      assert entries == init + [last];
    }
  }

  lemma {:induction false} SumOverNothing(keys: seq<string>)
    ensures SumOver([], keys) == 0
  {
    if keys != [] {
      SumOverNothing(keys[1..]);
    }
  }

  /** Adding one entry raises the sum over distinct keys by its weight exactly when its key is listed. */
  lemma {:induction false} SumOverSnoc(entries: seq<Entry>, e: Entry, keys: seq<string>)
    requires NoDuplicates(keys)
    ensures SumOver(entries + [e], keys) == SumOver(entries, keys) + (if e.key in keys then e.weight else 0)
  {
    var more := entries + [e];
    assert more[..|more| - 1] == entries;
    if keys != [] {
      assert NoDuplicates(keys[1..]);
      SumOverSnoc(entries, e, keys[1..]);
      assert e.key in keys <==> e.key == keys[0] || e.key in keys[1..];
      assert e.key == keys[0] ==> e.key !in keys[1..];
    }
  }

  function SumInts(xs: seq<int>): int
  {
    if xs == [] then 0 else xs[0] + SumInts(xs[1..])
  }

  /** Listing each key's total and adding the list up gives the sum over the keys. */
  lemma {:induction false} SumIntsOfWeights(xs: seq<int>, entries: seq<Entry>, keys: seq<string>)
    requires |xs| == |keys|
    requires forall k :: 0 <= k < |xs| ==> xs[k] == Weight(entries, keys[k])
    ensures SumInts(xs) == SumOver(entries, keys)
  {
    if xs != [] {
      SumIntsOfWeights(xs[1..], entries, keys[1..]);
    }
  }

  lemma WeightSnoc(entries: seq<Entry>, e: Entry, key: string)
    ensures Weight(entries + [e], key) == Weight(entries, key) + (if e.key == key then e.weight else 0)
  {
    assert (entries + [e])[..|entries|] == entries;
  }

  /** A key that no entry has weighs nothing. */
  lemma {:induction false} WeightAbsent(entries: seq<Entry>, key: string)
    requires !HasKey(entries, key)
    ensures Weight(entries, key) == 0
  {
    if entries != [] {
      var n := |entries| - 1;
      assert !HasKey(entries[..n], key) by {
        assert forall j :: 0 <= j < n ==> entries[..n][j] == entries[j];
      }
      WeightAbsent(entries[..n], key);
    }
  }

  /**
   * The keys of `entries` in the order they first occur: the order in which
   * `Object.entries` lists a dictionary that gained one key per new row.
   */
  function KeysInOrder(entries: seq<Entry>): seq<string>
  {
    if entries == [] then []
    else
      var keys := KeysInOrder(entries[..|entries| - 1]);
      var key := entries[|entries| - 1].key;
      if key in keys then keys else keys + [key]
  }

  /** Some entry has key `x` before any entry has key `y`. */
  predicate SeenBefore(entries: seq<Entry>, x: string, y: string)
  {
    exists a :: 0 <= a < |entries| && entries[a].key == x && forall b :: 0 <= b <= a ==> entries[b].key != y
  }

  /** The keys in order of first occurrence list every key once. */
  lemma {:induction false} KeysInOrderListed(entries: seq<Entry>)
    ensures KeysListed(entries, KeysInOrder(entries))
  {
    if entries != [] {
      var n := |entries| - 1;
      var init, e := entries[..n], entries[n];
      assert entries == init + [e];
      KeysInOrderListed(init);
      KeysListedSnoc(init, KeysInOrder(init), e);
    }
  }

  /** Of any two keys listed in order of first occurrence, the earlier one occurs before the later one does. */
  lemma {:induction false} KeysInOrderFirstSeen(entries: seq<Entry>)
    ensures forall i, j :: 0 <= i < j < |KeysInOrder(entries)| ==>
              SeenBefore(entries, KeysInOrder(entries)[i], KeysInOrder(entries)[j])
  {
    if entries != [] {
      var n := |entries| - 1;
      var init, e := entries[..n], entries[n];
      assert entries == init + [e];
      var keys := KeysInOrder(init);
      KeysInOrderFirstSeen(init);
      var keys' := KeysInOrder(entries);
      forall i, j | 0 <= i < j < |keys'| ensures SeenBefore(entries, keys'[i], keys'[j]) {
        if j < |keys| {
          SeenBeforeSnoc(init, e, keys[i], keys[j]);
        } else {
          KeysInOrderListed(init);
          SeenBeforeNewKey(init, e, keys, keys[i]);
        }
      }
    }
  }

  /** Every key already listed occurs before a key that is new. */
  lemma SeenBeforeNewKey(entries: seq<Entry>, e: Entry, keys: seq<string>, x: string)
    requires KeysListed(entries, keys) && x in keys && e.key !in keys
    ensures SeenBefore(entries + [e], x, e.key)
  {
    var a :| 0 <= a < |entries| && entries[a].key == x;
    assert forall b :: 0 <= b <= a ==> (entries + [e])[b] == entries[b];
    assert forall b :: 0 <= b <= a ==> entries[b].key in keys;
  }

  lemma KeysInOrderSnoc(entries: seq<Entry>, e: Entry)
    ensures KeysInOrder(entries + [e]) ==
              if e.key in KeysInOrder(entries) then KeysInOrder(entries) else KeysInOrder(entries) + [e.key]
  {
    assert (entries + [e])[..|entries|] == entries;
  }

  lemma SeenBeforeSnoc(entries: seq<Entry>, e: Entry, x: string, y: string)
    requires SeenBefore(entries, x, y)
    ensures SeenBefore(entries + [e], x, y)
  {
    var a :| 0 <= a < |entries| && entries[a].key == x && forall b :: 0 <= b <= a ==> entries[b].key != y;
    assert forall b :: 0 <= b <= a ==> (entries + [e])[b] == entries[b];
  }

  /** `keys` lists every key of `entries` once, and nothing else: the keys of the totals dictionary. */
  predicate KeysListed(entries: seq<Entry>, keys: seq<string>)
  {
    && NoDuplicates(keys)
    && (forall j :: 0 <= j < |entries| ==> entries[j].key in keys)
    && (forall k :: k in keys ==> HasKey(entries, k))
  }

  /** Appending an entry appends its key to the listing when the key is new. */
  lemma KeysListedSnoc(entries: seq<Entry>, keys: seq<string>, e: Entry)
    requires KeysListed(entries, keys)
    ensures KeysListed(entries + [e], if e.key in keys then keys else keys + [e.key])
  {
    var more := entries + [e];
    assert forall j :: 0 <= j < |entries| ==> more[j] == entries[j];
    assert more[|entries|] == e;
    var keys' := if e.key in keys then keys else keys + [e.key];
    forall k | k in keys' ensures HasKey(more, k) {
      if k in keys {
        var j :| 0 <= j < |entries| && entries[j].key == k;
        assert more[j].key == k;
      }
    }
  }

  /** The totals dictionary after the rows in `entries`: its keys, in insertion order, and each key's total. */
  ghost predicate Tallied(entries: seq<Entry>, keys: seq<string>, totals: map<string, int>)
  {
    && KeysListed(entries, keys)
    && (forall k :: k in totals <==> k in keys)
    && (forall k :: k in totals ==> totals[k] == Weight(entries, k))
  }

  /** `totals[key] = (totals[key] || 0) + weight`, registering `key` when it is new. */
  function Add(totals: map<string, int>, e: Entry): map<string, int>
  {
    totals[e.key := (if e.key in totals then totals[e.key] else 0) + e.weight]
  }

  /** The dictionary and its keys, in insertion order, after the rows in `entries` were added one by one. */
  function TallyEntries(entries: seq<Entry>): (seq<string>, map<string, int>)
  {
    if entries == [] then ([], map[])
    else
      var (keys, totals) := TallyEntries(entries[..|entries| - 1]);
      var e := entries[|entries| - 1];
      (if e.key in totals then keys else keys + [e.key], Add(totals, e))
  }

  /** Adding the rows one by one lists the keys in order of first occurrence, each with its total. */
  lemma {:induction false} TallyEntriesTallied(entries: seq<Entry>)
    ensures TallyEntries(entries).0 == KeysInOrder(entries)
    ensures Tallied(entries, TallyEntries(entries).0, TallyEntries(entries).1)
  {
    if entries == [] {
      assert KeysListed(entries, []);
    } else {
      var n := |entries| - 1;
      var init, e := entries[..n], entries[n];
      assert init + [e] == entries;
      var (keys, totals) := TallyEntries(init);
      TallyEntriesTallied(init);
      TallyStep(init, keys, totals, e);
      KeysInOrderSnoc(init, e);
    }
  }

  /** One more row keeps the dictionary in step with the rows read so far. */
  lemma TallyStep(entries: seq<Entry>, keys: seq<string>, totals: map<string, int>, e: Entry)
    requires Tallied(entries, keys, totals)
    ensures Tallied(entries + [e], if e.key in totals then keys else keys + [e.key], Add(totals, e))
  {
    KeysListedSnoc(entries, keys, e);
    if e.key !in totals {
      WeightAbsent(entries, e.key);
    }
    forall k | k in Add(totals, e) ensures Add(totals, e)[k] == Weight(entries + [e], k) {
      WeightSnoc(entries, e, k);
    }
  }

  /** The listed totals of a finished dictionary add up to the sum of all weights. */
  lemma ListedTotalsAddUp(entries: seq<Entry>, keys: seq<string>, xs: seq<int>)
    requires KeysListed(entries, keys)
    requires |xs| == |keys|
    requires forall k :: 0 <= k < |xs| ==> xs[k] == Weight(entries, keys[k])
    ensures SumInts(xs) == Total(entries)
  {
    SumIntsOfWeights(xs, entries, keys);
    SumOverIsTotal(entries, keys);
  }
}
