/** The keys of a keyed vector: a sequence in ascending order. */
module SortedKeys {
  type Key = int

  function InsertKey(keys: seq<Key>, s: Key): seq<Key> {
    if |keys| == 0 then [s]
    else if keys[|keys| - 1] == s then keys
    else if keys[|keys| - 1] < s then keys + [s]
    else InsertKey(keys[..|keys| - 1], s) + [keys[|keys| - 1]]
  }

  ghost predicate Ascending(keys: seq<Key>) {
    forall j, k | 0 <= j < k < |keys| :: keys[j] < keys[k]
  }

  lemma AscendingAppend(keys: seq<Key>, last: Key)
    requires Ascending(keys) && forall t | t in keys :: t < last
    ensures Ascending(keys + [last])
    ensures forall t :: t in keys + [last] <==> t in keys || t == last
  {
    forall j, k | 0 <= j < k < |keys + [last]|
      ensures (keys + [last])[j] < (keys + [last])[k]
    {
      if k == |keys| {
        assert keys[j] in keys;
      }
    }
  }

  lemma {:induction false} InsertKeySorts(keys: seq<Key>, s: Key)
    requires Ascending(keys)
    ensures Ascending(InsertKey(keys, s))
    ensures forall t :: t in InsertKey(keys, s) <==> t in keys || t == s
  {
    if |keys| > 0 {
      var front, last := keys[..|keys| - 1], keys[|keys| - 1];
      assert keys == front + [last];
      assert forall t | t in front :: t < last;
      if last < s {
        assert forall t | t in keys :: t <= last;
        AscendingAppend(keys, s);
      } else if s < last {
        InsertKeySorts(front, s);
        AscendingAppend(InsertKey(front, s), last);
      }
    }
  }
}
