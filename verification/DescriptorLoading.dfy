/**
 * The loop that loads the unstable descriptors (load_unstable_descriptors in src/recovery/mod.rs): it
 * sorts the entries of one ordered scan into groups and decodes every group. It finds exactly what
 * the specification of recovery reads from the index.
 */
module DescriptorLoading {
  import opened Basics
  import opened Index
  import opened CommitProtocol
  import opened Recovery
  import opened TxKeys

  datatype TxEntry = TxEntry(key: TxKey, value: TxValue)

  /** What the ordered scan above the durable sequence yields. */
  predicate ScanOf(entries: seq<TxEntry>, txs: map<TxKey, TxValue>, durable: nat) {
    && (forall i :: 0 <= i < |entries| ==> entries[i].key in txs && txs[entries[i].key] == entries[i].value)
    && (forall k :: k in txs && k.seqNo > durable ==> exists i :: 0 <= i < |entries| && entries[i].key == k)
    && (forall i, j :: 0 <= i < j < |entries| ==> TxKeyLess(entries[i].key, entries[j].key))
  }

  /** The entries of one transaction, in scan order. */
  datatype Group = Group(meta: Option<TxValue>, mutations: seq<TxEntry>)

  const EMPTY_GROUP := Group(None, [])

  /** The group of transaction `n` after the first `i` entries. */
  function GroupAfter(entries: seq<TxEntry>, n: nat, i: nat): Group
    requires i <= |entries|
  {
    if i == 0 then EMPTY_GROUP
    else
      var earlier, e := GroupAfter(entries, n, i - 1), entries[i - 1];
      if e.key.seqNo != n then earlier
      else if e.key.MetaKey? then earlier.(meta := Some(e.value))
      else earlier.(mutations := earlier.mutations + [e])
  }

  /** decode_descriptor on a group: ordinals in order without a gap, values of the right kind, all valid. */
  function DecodeGroup(group: Group, n: nat): Option<Descriptor> {
    if group.meta.None? || !group.meta.value.MetaValue? || group.meta.value.meta.keyCount != |group.mutations|
       || exists i :: 0 <= i < |group.mutations| &&
            (group.mutations[i].key != MutationKey(n, i) || !group.mutations[i].value.MutationValue?)
    then None
    else
      var d := Descriptor(group.meta.value.meta,
                          seq(|group.mutations|, i requires 0 <= i < |group.mutations| => group.mutations[i].value.mutation));
      if d.meta.seqNo == n && DescriptorValid(d) then Some(d) else None
  }

  /** The first loop: one group per unstable transaction. */
  method CollectGroups(entries: seq<TxEntry>, durable: nat, head: nat) returns (groups: Option<seq<Group>>)
    requires durable <= head && forall i, j :: 0 <= i < j < |entries| ==> TxKeyLess(entries[i].key, entries[j].key)
    ensures groups.None? <==> exists i :: 0 <= i < |entries| && entries[i].key.seqNo > head
    ensures groups.Some? ==> |groups.value| == head - durable
    ensures groups.Some? ==> forall g :: 0 <= g < |groups.value| ==> groups.value[g] == GroupAfter(entries, durable + 1 + g, |entries|)
  {
    var r := seq(head - durable, _ => EMPTY_GROUP);
    for i := 0 to |entries|
      invariant |r| == head - durable && forall j :: 0 <= j < i ==> entries[j].key.seqNo <= head
      invariant forall g :: 0 <= g < |r| ==> r[g] == GroupAfter(entries, durable + 1 + g, i)
    {
      var e := entries[i];
      if e.key.seqNo > head {
        return None;
      }
      if e.key.seqNo > durable {
        var at := e.key.seqNo - durable - 1;
        if e.key.MetaKey? {
          r := r[at := r[at].(meta := Some(e.value))];
        } else {
          r := r[at := r[at].(mutations := r[at].mutations + [e])];
        }
      }
    }
    return Some(r);
  }

  method LoadUnstableDescriptors(entries: seq<TxEntry>, ghost txs: map<TxKey, TxValue>, durable: nat, head: nat)
    returns (r: Option<seq<Descriptor>>)
    requires durable <= head && ScanOf(entries, txs, durable)
    ensures r.Some? <==> LoadDescriptors(txs, durable, head).Some? && forall k :: k in txs ==> k.seqNo <= head
    ensures r.Some? ==> r == LoadDescriptors(txs, durable, head)
  {
    var groups := CollectGroups(entries, durable, head);
    BeyondHeadIsSeen(entries, txs, durable, head);
    if groups.None? {
      return None;
    }
    var loaded: seq<Descriptor> := [];
    for i := 0 to |groups.value|
      invariant LoadDescriptors(txs, durable, durable + i) == Some(loaded)
    {
      GroupLoads(entries, txs, durable, durable + 1 + i);
      var d := DecodeGroup(groups.value[i], durable + 1 + i);
      if d.None? {
        MissingStaysMissing(txs, durable, durable + 1 + i, head);
        return None;
      }
      loaded := loaded + [d.value];
    }
    return Some(loaded);
  }

  lemma {:induction false} BeyondHeadIsSeen(entries: seq<TxEntry>, txs: map<TxKey, TxValue>, durable: nat, head: nat)
    requires durable <= head && ScanOf(entries, txs, durable)
    ensures (exists i :: 0 <= i < |entries| && entries[i].key.seqNo > head) <==> !(forall k :: k in txs ==> k.seqNo <= head)
  {
    if exists i :: 0 <= i < |entries| && entries[i].key.seqNo > head {
      var i :| 0 <= i < |entries| && entries[i].key.seqNo > head;
      assert entries[i].key in txs;
    }
  }

  lemma {:induction false} MissingStaysMissing(txs: map<TxKey, TxValue>, lo: nat, n: nat, hi: nat)
    requires lo < n <= hi && LoadDescriptor(txs, n).None?
    ensures LoadDescriptors(txs, lo, hi).None?
    decreases hi
  {
    if n < hi { MissingStaysMissing(txs, lo, n, hi - 1); }
  }

  // ---------------------------------------------------------------- a group is the transaction

  /** The group after a prefix: its meta entry, and its mutation entries in increasing ordinal order. */
  predicate GroupIs(group: Group, entries: seq<TxEntry>, n: nat, i: nat)
    requires i <= |entries|
  {
    && (group.meta.Some? <==> exists j :: 0 <= j < i && entries[j].key == MetaKey(n))
    && (group.meta.Some? ==> exists j :: 0 <= j < i && entries[j] == TxEntry(MetaKey(n), group.meta.value))
    && (forall m :: 0 <= m < |group.mutations| ==>
          group.mutations[m].key.MutationKey? && group.mutations[m].key.seqNo == n && group.mutations[m] in entries[..i])
    && (forall j :: 0 <= j < i && entries[j].key.MutationKey? && entries[j].key.seqNo == n ==> entries[j] in group.mutations)
    && (forall a, b :: 0 <= a < b < |group.mutations| ==> TxKeyLess(group.mutations[a].key, group.mutations[b].key))
  }

  lemma {:induction false} GroupAfterIs(entries: seq<TxEntry>, n: nat, i: nat)
    requires i <= |entries| && forall a, b :: 0 <= a < b < |entries| ==> TxKeyLess(entries[a].key, entries[b].key)
    ensures GroupIs(GroupAfter(entries, n, i), entries, n, i)
  {
    if i > 0 {
      GroupAfterIs(entries, n, i - 1);
      GroupGrows(entries, n, i, GroupAfter(entries, n, i - 1));
    }
  }

  lemma {:induction false} GroupGrows(entries: seq<TxEntry>, n: nat, i: nat, earlier: Group)
    requires 0 < i <= |entries| && forall a, b :: 0 <= a < b < |entries| ==> TxKeyLess(entries[a].key, entries[b].key)
    requires GroupIs(earlier, entries, n, i - 1)
    ensures var e := entries[i - 1];
            GroupIs(if e.key.seqNo != n then earlier
                    else if e.key.MetaKey? then earlier.(meta := Some(e.value))
                    else earlier.(mutations := earlier.mutations + [e]), entries, n, i)
  {
    var e := entries[i - 1];
    assert entries[..i] == entries[..i - 1] + [e];
    if e.key == MetaKey(n) {
      assert entries[i - 1] == TxEntry(MetaKey(n), e.value);
    }
    forall m | 0 <= m < |earlier.mutations| ensures TxKeyLess(earlier.mutations[m].key, e.key) {
      var j :| 0 <= j < |entries[..i - 1]| && entries[..i - 1][j] == earlier.mutations[m];
      assert entries[j] == earlier.mutations[m];
    }
  }

  /** Increasing ordinals that are exactly 0..count are 0, 1, 2 and so on. */
  lemma {:induction false} IncreasingIsCounting(s: seq<nat>, count: nat, i: nat)
    requires (forall a, b :: 0 <= a < b < |s| ==> s[a] < s[b]) && (forall a :: 0 <= a < |s| ==> s[a] < count)
    requires (forall x :: 0 <= x < count ==> x in s) && i < |s|
    ensures s[i] == i
    decreases i
  {
    if i > 0 { IncreasingIsCounting(s, count, i - 1); }
    assert i <= s[i] && i in s;
    var j :| 0 <= j < |s| && s[j] == i;
    if j < i { IncreasingIsCounting(s, count, j); }
  }

  lemma {:induction false} CountingIsComplete(s: seq<nat>, count: nat)
    requires (forall a, b :: 0 <= a < b < |s| ==> s[a] < s[b]) && (forall a :: 0 <= a < |s| ==> s[a] < count)
    requires forall x :: 0 <= x < count ==> x in s
    ensures |s| == count
  {
    forall i | 0 <= i < |s| ensures s[i] == i {
      IncreasingIsCounting(s, count, i);
    }
    assert |s| !in s;
    assert |s| > 0 ==> s[|s| - 1] < count;
  }

  /** What the full group says about the index: the entries of the transaction, all of them, in order. */
  predicate GroupMirrors(group: Group, txs: map<TxKey, TxValue>, n: nat) {
    && (group.meta.Some? <==> MetaKey(n) in txs) && (group.meta.Some? ==> group.meta.value == txs[MetaKey(n)])
    && (forall m :: 0 <= m < |group.mutations| ==>
          && group.mutations[m].key.MutationKey? && group.mutations[m].key.seqNo == n
          && group.mutations[m].key in txs && txs[group.mutations[m].key] == group.mutations[m].value)
    && (forall k :: k in txs && k.MutationKey? && k.seqNo == n ==> exists m :: 0 <= m < |group.mutations| && group.mutations[m].key == k)
    && (forall a, b :: 0 <= a < b < |group.mutations| ==> TxKeyLess(group.mutations[a].key, group.mutations[b].key))
  }

  lemma {:induction false} GroupMirrorsIndex(entries: seq<TxEntry>, txs: map<TxKey, TxValue>, durable: nat, n: nat)
    requires ScanOf(entries, txs, durable) && durable < n
    ensures GroupMirrors(GroupAfter(entries, n, |entries|), txs, n)
  {
    GroupAfterIs(entries, n, |entries|);
    var group := GroupAfter(entries, n, |entries|);
    assert entries[..|entries|] == entries;
    if MetaKey(n) in txs {
      var i :| 0 <= i < |entries| && entries[i].key == MetaKey(n);
    }
    forall k | k in txs && k.MutationKey? && k.seqNo == n
      ensures exists m :: 0 <= m < |group.mutations| && group.mutations[m].key == k
    {
      var i :| 0 <= i < |entries| && entries[i].key == k;
      assert entries[i] in group.mutations;
    }
  }

  /** If the index holds exactly the entries of the transaction, they are in place in the group. */
  lemma {:induction false} CompleteIsInPlace(group: Group, txs: map<TxKey, TxValue>, n: nat)
    requires GroupMirrors(group, txs, n) && EntriesComplete(txs, n)
    ensures |group.mutations| == txs[MetaKey(n)].meta.keyCount
    ensures forall i :: 0 <= i < |group.mutations| ==> group.mutations[i].key == MutationKey(n, i)
  {
    var count := txs[MetaKey(n)].meta.keyCount;
    var s := seq(|group.mutations|, i requires 0 <= i < |group.mutations| => group.mutations[i].key.ordinal);
    forall x | 0 <= x < count ensures x in s {
      var m :| 0 <= m < |group.mutations| && group.mutations[m].key == MutationKey(n, x);
      assert s[m] == x;
    }
    forall a, b | 0 <= a < b < |s| ensures s[a] < s[b] {
      assert TxKeyLess(group.mutations[a].key, group.mutations[b].key);
    }
    CountingIsComplete(s, count);
    forall i | 0 <= i < |s| ensures group.mutations[i].key == MutationKey(n, i) {
      IncreasingIsCounting(s, count, i);
    }
  }

  /** If the group is in place, the index holds exactly the entries of the transaction. */
  lemma {:induction false} InPlaceIsComplete(group: Group, txs: map<TxKey, TxValue>, n: nat)
    requires GroupMirrors(group, txs, n) && group.meta.Some? && group.meta.value.MetaValue?
    requires group.meta.value.meta.keyCount == |group.mutations|
    requires forall i :: 0 <= i < |group.mutations| ==>
               group.mutations[i].key == MutationKey(n, i) && group.mutations[i].value.MutationValue?
    ensures EntriesComplete(txs, n)
  {
    forall k | k in txs && k.MutationKey? && k.seqNo == n ensures k.ordinal < |group.mutations| {
      var m :| 0 <= m < |group.mutations| && group.mutations[m].key == k;
    }
    forall i | 0 <= i < |group.mutations| ensures MutationKey(n, i) in txs && txs[MutationKey(n, i)].MutationValue? {
      assert group.mutations[i].key == MutationKey(n, i);
    }
  }

  /** Decoding the group of a transaction is loading its descriptor from the index. */
  lemma {:induction false} GroupLoads(entries: seq<TxEntry>, txs: map<TxKey, TxValue>, durable: nat, n: nat)
    requires ScanOf(entries, txs, durable) && durable < n
    ensures DecodeGroup(GroupAfter(entries, n, |entries|), n) == LoadDescriptor(txs, n)
  {
    GroupMirrorsIndex(entries, txs, durable, n);
    MirrorLoads(GroupAfter(entries, n, |entries|), txs, n);
  }

  lemma {:induction false} MirrorLoads(group: Group, txs: map<TxKey, TxValue>, n: nat)
    requires GroupMirrors(group, txs, n)
    ensures DecodeGroup(group, n) == LoadDescriptor(txs, n)
  {
    if EntriesComplete(txs, n) {
      CompleteIsInPlace(group, txs, n);
      var m := txs[MetaKey(n)].meta;
      forall i | 0 <= i < m.keyCount ensures group.mutations[i].value == txs[MutationKey(n, i)] {
        assert group.mutations[i].key == MutationKey(n, i);
      }
      assert seq(|group.mutations|, i requires 0 <= i < |group.mutations| => group.mutations[i].value.mutation)
          == seq(m.keyCount, i requires 0 <= i < m.keyCount => txs[MutationKey(n, i)].mutation);
    } else if DecodeGroup(group, n).Some? {
      InPlaceIsComplete(group, txs, n);
    }
  }
}
