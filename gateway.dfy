/**
 * The contact store: a Redis list of ids under "contactlist" (newest first) and a
 * Redis hash from id to contact under "contactlist_Map", with the three gateway
 * operations save, findById and findAll.
 */
module Gateway {
  import opened Nullable
  import opened Contacts

  /** The two Redis structures: the id list and the id-to-contact hash. */
  datatype Store = Store(list: seq<string>, hash: map<string, ContactRecord>)

  const EmptyStore := Store([], map[])

  /** The stop index `findAll` passes to the range read, whatever the start index. */
  const PageStop := 10

  function Min(a: int, b: int): int { if a <= b then a else b }
  function Max(a: int, b: int): int { if a <= b then b else a }

  /**
   * Redis LRANGE list start stop: both ends inclusive, a negative index counts from
   * the end of the list, a stop past the end is clipped and an empty range is empty.
   */
  function LRange<T>(list: seq<T>, start: int, stop: int): (r: seq<T>)
    ensures |r| <= |list|
    ensures 0 <= start && 0 <= stop ==>
      |r| == Max(0, Min(stop + 1, |list|) - start) &&
      forall k :: 0 <= k < |r| ==> r[k] == list[start + k]
  {
    var n := |list|;
    var s := if start < 0 then Max(n + start, 0) else start;
    var e := if stop < 0 then n + stop else stop;
    if s > e || s >= n then [] else list[s .. Min(e, n - 1) + 1]
  }

  /** A negative start index counts back from the end of the list. */
  lemma LRangeFromEnd<T>(list: seq<T>, start: int, stop: int)
    requires start < 0
    ensures LRange(list, start, stop) == LRange(list, Max(|list| + start, 0), stop)
  {
  }

  /** Redis HGET: the value of a field, or nil. */
  function HGet(hash: map<string, ContactRecord>, field: string): (r: Option<ContactRecord>)
    ensures r.Some? <==> field in hash
    ensures r.Some? ==> r.value == hash[field]
  {
    if field in hash then Some(hash[field]) else None
  }

  /** Redis HMGET: one answer per requested field, in order, nil for a missing field. */
  function HMGet(hash: map<string, ContactRecord>, fields: seq<string>): (r: seq<Option<ContactRecord>>)
    ensures |r| == |fields|
    ensures forall k :: 0 <= k < |r| ==> r[k] == HGet(hash, fields[k])
  {
    if fields == [] then []
    else HMGet(hash, fields[.. |fields| - 1]) + [HGet(hash, fields[|fields| - 1])]
  }

  /** The `filter(Contact.class::isInstance).map(Contact.class::cast)` step: drop the nils. */
  function Present(xs: seq<Option<ContactRecord>>): (r: seq<ContactRecord>)
    ensures |r| <= |xs|
    ensures (forall k :: 0 <= k < |xs| ==> xs[k].Some?) ==>
      |r| == |xs| && forall k :: 0 <= k < |r| ==> r[k] == xs[k].value
  {
    if xs == [] then []
    else (if xs[0].Some? then [xs[0].value] else []) + Present(xs[1 ..])
  }

  /**
   * The two structures agree: every listed id has an entry, every entry is listed,
   * and every entry is stored under its own id.
   */
  predicate Consistent(st: Store)
    ensures Consistent(st) ==>
      forall i :: 0 <= i < |st.list| ==> st.list[i] in st.hash && st.hash[st.list[i]].id == st.list[i]
  {
    && (forall i :: 0 <= i < |st.list| ==> st.list[i] in st.hash)
    && (forall id :: id in st.hash ==> id in st.list && st.hash[id].id == id)
  }

  /** The ids `findAll(startIndex)` reads: LRANGE contactlist startIndex 10. */
  function Window(st: Store, startIndex: int): (w: seq<string>)
    ensures |w| <= PageStop + 1
    ensures startIndex >= 0 ==>
      |w| == Max(0, Min(PageStop + 1, |st.list|) - startIndex) &&
      forall k :: 0 <= k < |w| ==> w[k] == st.list[startIndex + k]
    ensures startIndex > PageStop || startIndex >= |st.list| ==> w == []
  {
    LRange(st.list, startIndex, PageStop)
  }

  /** `findById(contactId)`: HGET contactlist_Map contactId. */
  function FindById(st: Store, contactId: string): (r: Option<ContactRecord>)
    ensures r.Some? <==> contactId in st.hash
    ensures r.Some? ==> r.value == st.hash[contactId]
    ensures Consistent(st) && r.Some? ==> r.value.id == contactId
  {
    HGet(st.hash, contactId)
  }

  /**
   * `findAll(startIndex)`: the window's ids looked up in one HMGET, the missing ones
   * dropped.
   */
  function FindAll(st: Store, startIndex: int): (r: seq<ContactRecord>)
    ensures |r| <= |Window(st, startIndex)| <= PageStop + 1
    ensures startIndex > PageStop || startIndex >= |st.list| ==> r == []
    ensures Consistent(st) ==>
      var w := Window(st, startIndex);
      |r| == |w| && forall k :: 0 <= k < |r| ==> r[k] == st.hash[w[k]] && r[k].id == w[k]
  {
    Present(HMGet(st.hash, Window(st, startIndex)))
  }

  /**
   * The records of the ids that have an entry, in the order of the ids: the meaning
   * of the HMGET-then-filter pipeline, stated without it.
   */
  function Kept(hash: map<string, ContactRecord>, ids: seq<string>): seq<ContactRecord> {
    if ids == [] then []
    else if ids[|ids| - 1] in hash then Kept(hash, ids[.. |ids| - 1]) + [hash[ids[|ids| - 1]]]
    else Kept(hash, ids[.. |ids| - 1])
  }

  lemma {:induction false} PresentOfHMGet(hash: map<string, ContactRecord>, ids: seq<string>)
    ensures Present(HMGet(hash, ids)) == Kept(hash, ids)
    decreases |ids|
  {
    if ids != [] {
      var last := ids[|ids| - 1];
      var front := ids[.. |ids| - 1];
      PresentOfHMGet(hash, front);
      assert ids == front + [last];
      PresentAppend(HMGet(hash, front), [HGet(hash, last)]);
    }
  }

  lemma {:induction false} PresentAppend(xs: seq<Option<ContactRecord>>, ys: seq<Option<ContactRecord>>)
    ensures Present(xs + ys) == Present(xs) + Present(ys)
    decreases |xs|
  {
    if xs != [] {
      assert (xs + ys)[0] == xs[0];
      assert (xs + ys)[1 ..] == xs[1 ..] + ys;
      PresentAppend(xs[1 ..], ys);
    } else {
      assert xs + ys == ys;
    }
  }

  /** `findAll` keeps the window's order and drops exactly the ids without an entry. */
  lemma FindAllKeepsOrder(st: Store, startIndex: int)
    ensures FindAll(st, startIndex) == Kept(st.hash, Window(st, startIndex))
  {
    PresentOfHMGet(st.hash, Window(st, startIndex));
  }

  /**
   * `save(contact)`: LPUSH the id onto the list, then HSET the contact under its id.
   * No check for an id already saved: the list grows by one whatever it holds.
   */
  function Saved(st: Store, c: ContactRecord): (r: Store)
    ensures |r.list| == |st.list| + 1 && r.list[0] == c.id && r.list[1 ..] == st.list
    ensures r.hash.Keys == st.hash.Keys + {c.id} && r.hash[c.id] == c
    ensures forall id :: id in st.hash && id != c.id ==> r.hash[id] == st.hash[id]
    ensures Consistent(st) ==> Consistent(r)
  {
    Store([c.id] + st.list, st.hash[c.id := c])
  }

  /** A saved contact is found under its id; every other id finds what it found before. */
  lemma FindByIdAfterSave(st: Store, c: ContactRecord, contactId: string)
    ensures FindById(Saved(st, c), contactId)
      == if contactId == c.id then Some(c) else FindById(st, contactId)
  {
  }

  /** The contacts saved one after the other, first `cs[0]`, last `cs[|cs| - 1]`. */
  function SavedAll(st: Store, cs: seq<ContactRecord>): Store {
    if cs == [] then st else Saved(SavedAll(st, cs[.. |cs| - 1]), cs[|cs| - 1])
  }

  function Ids(cs: seq<ContactRecord>): (ids: seq<string>)
    ensures |ids| == |cs| && forall k :: 0 <= k < |cs| ==> ids[k] == cs[k].id
  {
    seq(|cs|, k requires 0 <= k < |cs| => cs[k].id)
  }

  function Reverse<T>(s: seq<T>): (r: seq<T>)
    ensures |r| == |s| && forall k :: 0 <= k < |s| ==> r[k] == s[|s| - 1 - k]
  {
    if s == [] then [] else [s[|s| - 1]] + Reverse(s[.. |s| - 1])
  }

  /** After a run of saves the list holds their ids newest first, then what it held. */
  lemma {:induction false} ListAfterSaves(st: Store, cs: seq<ContactRecord>)
    ensures SavedAll(st, cs).list == Reverse(Ids(cs)) + st.list
    decreases |cs|
  {
    if cs != [] {
      var front := cs[.. |cs| - 1];
      ListAfterSaves(st, front);
      assert Ids(cs)[.. |cs| - 1] == Ids(front);
    }
  }

  /** Saves keep the two structures consistent. */
  lemma {:induction false} SavesKeepConsistent(st: Store, cs: seq<ContactRecord>)
    requires Consistent(st)
    ensures Consistent(SavedAll(st, cs))
    decreases |cs|
  {
    if cs != [] {
      SavesKeepConsistent(st, cs[.. |cs| - 1]);
    }
  }

  /** The entry of an id is the contact saved last under it. */
  lemma {:induction false} HashAfterSaves(st: Store, cs: seq<ContactRecord>, i: nat)
    requires i < |cs|
    requires forall j :: i < j < |cs| ==> cs[j].id != cs[i].id
    ensures cs[i].id in SavedAll(st, cs).hash
    ensures SavedAll(st, cs).hash[cs[i].id] == cs[i]
    decreases |cs|
  {
    if i < |cs| - 1 {
      HashAfterSaves(st, cs[.. |cs| - 1], i);
    }
  }

  /** No two of the contacts share an id. */
  predicate DistinctIds(cs: seq<ContactRecord>) {
    forall i, j :: 0 <= i < j < |cs| ==> cs[i].id != cs[j].id
  }

  /** `Kept` of two id runs is `Kept` of each, one after the other. */
  lemma {:induction false} KeptAppend(hash: map<string, ContactRecord>, a: seq<string>, b: seq<string>)
    ensures Kept(hash, a + b) == Kept(hash, a) + Kept(hash, b)
    decreases |b|
  {
    if b == [] {
      assert a + b == a;
    } else {
      var front := b[.. |b| - 1];
      assert (a + b)[.. |a + b| - 1] == a + front;
      KeptAppend(hash, a, front);
    }
  }

  /** When every id has an entry, `Kept` maps each id to its entry and drops none. */
  lemma {:induction false} KeptAll(hash: map<string, ContactRecord>, ids: seq<string>)
    requires forall i :: 0 <= i < |ids| ==> ids[i] in hash
    ensures |Kept(hash, ids)| == |ids|
    ensures forall k :: 0 <= k < |ids| ==> Kept(hash, ids)[k] == hash[ids[k]]
    decreases |ids|
  {
    if ids != [] {
      KeptAll(hash, ids[.. |ids| - 1]);
    }
  }

  /**
   * Up to eleven contacts with distinct ids saved into any store, whether or not
   * its list and hash agree, come back at the head of `findAll(0)`, all of them,
   * the most recently saved first.
   */
  lemma FirstPageAfterSaves(st: Store, cs: seq<ContactRecord>)
    requires |cs| <= PageStop + 1
    requires DistinctIds(cs)
    ensures |cs| <= |FindAll(SavedAll(st, cs), 0)|
    ensures FindAll(SavedAll(st, cs), 0)[.. |cs|] == Reverse(cs)
  {
    var after := SavedAll(st, cs);
    var w := Window(after, 0);
    var n := |cs|;
    if n > 0 {
      WindowAfterSaves(st, cs, n - 1);
    }
    var head := w[.. n];
    forall i | 0 <= i < n
      ensures head[i] in after.hash && after.hash[head[i]] == Reverse(cs)[i]
    {
      FirstPageAt(st, cs, i);
    }
    KeptAll(after.hash, head);
    assert w == head + w[n ..];
    KeptAppend(after.hash, head, w[n ..]);
    FindAllKeepsOrder(after, 0);
  }

  /** Into an empty store, the first page after those saves is exactly them, newest first. */
  lemma FirstPageAfterSavesIntoEmpty(cs: seq<ContactRecord>)
    requires |cs| <= PageStop + 1
    requires DistinctIds(cs)
    ensures FindAll(SavedAll(EmptyStore, cs), 0) == Reverse(cs)
  {
    FirstPageAfterSaves(EmptyStore, cs);
    ListAfterSaves(EmptyStore, cs);
  }

  /** Position k of the first window after the saves names the contact saved k saves ago. */
  lemma FirstPageAt(st: Store, cs: seq<ContactRecord>, k: nat)
    requires k < |cs| <= PageStop + 1
    requires DistinctIds(cs)
    ensures k < |Window(SavedAll(st, cs), 0)|
    ensures Window(SavedAll(st, cs), 0)[k] in SavedAll(st, cs).hash
    ensures SavedAll(st, cs).hash[Window(SavedAll(st, cs), 0)[k]] == Reverse(cs)[k]
  {
    WindowAfterSaves(st, cs, k);
    HashAfterSaves(st, cs, |cs| - 1 - k);
  }

  /** Position k of the first window after the saves holds the id saved k saves ago. */
  lemma WindowAfterSaves(st: Store, cs: seq<ContactRecord>, k: nat)
    requires k < |cs| <= PageStop + 1
    ensures k < |Window(SavedAll(st, cs), 0)|
    ensures Window(SavedAll(st, cs), 0)[k] == cs[|cs| - 1 - k].id
  {
    ListAfterSaves(st, cs);
    assert SavedAll(st, cs).list[k] == Reverse(Ids(cs))[k];
  }

  /**
   * Saving under an id already saved lists the id twice; both places show the
   * newer contact.
   */
  lemma ResaveListsTwice(c: ContactRecord, newer: ContactRecord)
    requires newer.id == c.id
    ensures FindAll(SavedAll(EmptyStore, [c, newer]), 0) == [newer, newer]
  {
    var st := SavedAll(EmptyStore, [c, newer]);
    assert [c, newer][.. 1] == [c] && [c][.. 0] == [];
    assert SavedAll(EmptyStore, [c]) == Saved(EmptyStore, c);
    assert st == Saved(Saved(EmptyStore, c), newer);
    assert st.list == [c.id, c.id];
  }

  /** The store object: the two Redis structures, changed in place by `save`. */
  class ContactsRedis {
    var list: seq<string>
    var hash: map<string, ContactRecord>

    /** A gateway over whatever the Redis server already holds. */
    constructor (initial: Store)
      ensures State() == initial
    {
      list, hash := initial.list, initial.hash;
    }

    function State(): Store
      reads this
    {
      Store(list, hash)
    }

    /** `save(ctc)`: the contact's fields as they are now, under its current id. */
    method Save(ctc: Contact)
      modifies this
      ensures State() == Saved(old(State()), ctc.Snapshot())
      ensures list == [ctc.id] + old(list)
      ensures old(Consistent(State())) ==> Consistent(State())
    {
      list := [ctc.id] + list;
      hash := hash[ctc.id := ctc.Snapshot()];
    }
  }
}
