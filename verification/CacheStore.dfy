/** The cache of a.yanin/waxy as one thread sees it under the cache lock: URL map, recency list and
    byte total, updated in place, refining a plain sequence of items, least recently used first. */
module CacheStore {

  import opened CacheEntries

  /** An entry as the list sees it. */
  datatype Stored = Stored(url: Url, len: nat, st: EntryState, committed: bool, attached: bool)

  /** An item of the abstract cache: an entry number, its URL and its bytes. */
  datatype Item = Item(id: nat, url: Url, len: nat)

  function Total(items: seq<Item>): nat
  {
    if items == [] then 0 else items[0].len + Total(items[1..])
  }

  /** Eviction: drop items from the front until the rest fits the limit. */
  function Trim(items: seq<Item>, limit: nat): seq<Item>
  {
    if items == [] || Total(items) <= limit then items else Trim(items[1..], limit)
  }

  /** A hit makes the item at `k` the most recently used. */
  function Touch<T>(items: seq<T>, k: nat): seq<T>
    requires k < |items|
  {
    Cut(items, k) + [items[k]]
  }

  /** Trimming removes the shortest prefix whose removal brings the total within the limit. */
  lemma {:induction false} TrimIsShortestPrefix(items: seq<Item>, limit: nat) returns (k: nat)
    ensures k <= |items| && Trim(items, limit) == items[k..]
    ensures Total(items[k..]) <= limit
    ensures forall j :: 0 <= j < k ==> Total(items[j..]) > limit
  {
    if items == [] || Total(items) <= limit {
      k := 0;
    } else {
      var rest := TrimIsShortestPrefix(items[1..], limit);
      k := rest + 1;
      assert items[k..] == items[1..][rest..];
      forall j | 0 <= j < k
        ensures Total(items[j..]) > limit
      {
        if j > 0 {
          assert items[j..] == items[1..][j - 1..];
        } else {
          assert items[j..] == items;
        }
      }
    }
  }

  lemma {:induction false} TotalSplit(a: seq<Item>, b: seq<Item>)
    ensures Total(a + b) == Total(a) + Total(b)
  {
    if a == [] {
      assert a + b == b;
    } else {
      TotalSplit(a[1..], b);
      assert (a + b)[1..] == a[1..] + b;
    }
  }

  function ItemOf(entries: seq<Stored>, e: nat): Item
    requires e < |entries|
  {
    Item(e, entries[e].url, entries[e].len)
  }

  function ItemsOf(entries: seq<Stored>, list: seq<nat>): seq<Item>
    requires forall k :: 0 <= k < |list| ==> list[k] < |entries|
  {
    seq(|list|, k requires 0 <= k < |list| => ItemOf(entries, list[k]))
  }

  /** Sequence with position `k` taken out. */
  function Cut<T>(s: seq<T>, k: nat): (r: seq<T>)
    requires k < |s|
    ensures |r| == |s| - 1
    ensures forall i :: 0 <= i < |r| ==> r[i] == s[if i < k then i else i + 1]
  {
    s[..k] + s[k + 1..]
  }

  lemma CutHead<T>(s: seq<T>)
    requires s != []
    ensures Cut(s, 0) == s[1..]
  {
  }

  lemma TrimHead(items: seq<Item>, limit: nat)
    requires Total(items) > limit
    ensures items != [] && Trim(items, limit) == Trim(items[1..], limit)
  {
  }

  lemma TotalCut(items: seq<Item>, k: nat)
    requires k < |items|
    ensures Total(items) == Total(Cut(items, k)) + items[k].len
  {
    var tail := items[k..];
    assert items == items[..k] + tail && tail[1..] == items[k + 1..];
    TotalSplit(items[..k], tail);
    TotalSplit(items[..k], items[k + 1..]);
  }

  predicate Listed(index: map<Url, nat>, entries: seq<Stored>, e: nat)
  {
    && e < |entries| && entries[e].committed && entries[e].attached
    && entries[e].url in index && index[entries[e].url] == e
  }

  /** The list holds live entries, each once, and the map leads to exactly these. */
  ghost predicate Consistent(index: map<Url, nat>, list: seq<nat>, entries: seq<Stored>)
  {
    && (forall k :: 0 <= k < |list| ==> Listed(index, entries, list[k]))
    && Distinct(list)
    && (forall u :: u in index ==> index[u] in list && index[u] < |entries| && entries[index[u]].url == u)
    && (forall e :: 0 <= e < |entries| ==>
          && (entries[e].committed && entries[e].attached ==> e in list)
          && (!entries[e].committed ==> entries[e].attached))
  }

  ghost predicate Distinct(list: seq<nat>) { forall k, l :: 0 <= k < l < |list| ==> list[k] != list[l] }

  /** Cutting takes exactly one element out. */
  lemma CutMembers(list: seq<nat>, k: nat)
    requires Distinct(list) && k < |list|
    ensures Distinct(Cut(list, k)) && forall x :: x in Cut(list, k) <==> x in list && x != list[k]
  {
    var list' := Cut(list, k);
    forall x | x in list && x != list[k]
      ensures x in list'
    {
      var j :| 0 <= j < |list| && list[j] == x;
      assert list'[if j < k then j else j - 1] == x;
    }
  }

  lemma CutItems(entries: seq<Stored>, entries': seq<Stored>, list: seq<nat>, k: nat)
    requires k < |list| && |entries'| == |entries| && forall i :: 0 <= i < |list| ==> list[i] < |entries|
    requires forall x :: 0 <= x < |entries| ==> entries'[x].url == entries[x].url && entries'[x].len == entries[x].len
    ensures ItemsOf(entries', Cut(list, k)) == Cut(ItemsOf(entries, list), k)
  {
  }

  lemma ListedAreDistinct(index: map<Url, nat>, list: seq<nat>, entries: seq<Stored>)
    requires Consistent(index, list, entries)
    ensures Distinct(list) && forall k :: 0 <= k < |list| ==> list[k] < |entries|
  {
    forall k | 0 <= k < |list|
      ensures list[k] < |entries|
    {
      assert Listed(index, entries, list[k]);
    }
  }

  /** Entries other than the removed one stay listed. */
  lemma OthersStayListed(index: map<Url, nat>, entries: seq<Stored>, e: nat, x: nat)
    requires Listed(index, entries, e) && Listed(index, entries, x) && x != e
    ensures Listed(index - {entries[e].url}, entries[e := entries[e].(attached := false)], x)
  {
  }

  lemma RemoveListed(index: map<Url, nat>, list: seq<nat>, entries: seq<Stored>, k: nat)
    requires Consistent(index, list, entries) && k < |list| && Listed(index, entries, list[k])
    ensures var e := list[k];
            var index', entries' := index - {entries[e].url}, entries[e := entries[e].(attached := false)];
            forall i :: 0 <= i < |list| - 1 ==> Listed(index', entries', Cut(list, k)[i])
  {
    forall i | 0 <= i < |list| - 1
      ensures var e := list[k];
              var index', entries' := index - {entries[e].url}, entries[e := entries[e].(attached := false)];
              Listed(index', entries', Cut(list, k)[i])
    {
      var j := if i < k then i else i + 1;
      assert Cut(list, k)[i] == list[j] && list[j] != list[k];
      assert Listed(index, entries, list[j]);
      OthersStayListed(index, entries, list[k], list[j]);
    }
  }

  lemma RemoveConsistent(index: map<Url, nat>, list: seq<nat>, entries: seq<Stored>, k: nat)
    requires Consistent(index, list, entries) && k < |list|
    ensures Listed(index, entries, list[k])
    ensures var e := list[k];
            Consistent(index - {entries[e].url}, Cut(list, k), entries[e := entries[e].(attached := false)])
  {
    assert Listed(index, entries, list[k]);
    RemoveListed(index, list, entries, k);
    CutMembers(list, k);
  }

  /** `items'` is `items` with the one at `k` moved behind all others, which keep their order. */
  ghost predicate MovedToEnd<T(!new)>(items: seq<T>, items': seq<T>, k: nat)
    requires k < |items|
  {
    && |items'| == |items| && items'[|items| - 1] == items[k]
    && (forall i :: 0 <= i < k ==> items'[i] == items[i])
    && (forall i :: k <= i < |items| - 1 ==> items'[i] == items[i + 1])
  }

  lemma TouchMovesToEnd<T(!new)>(items: seq<T>, k: nat)
    requires k < |items|
    ensures MovedToEnd(items, Touch(items, k), k)
  {
  }

  lemma TouchItems(entries: seq<Stored>, list: seq<nat>, k: nat)
    requires k < |list| && forall i :: 0 <= i < |list| ==> list[i] < |entries|
    ensures ItemsOf(entries, Touch(list, k)) == Touch(ItemsOf(entries, list), k)
    ensures Total(ItemsOf(entries, Touch(list, k))) == Total(ItemsOf(entries, list))
  {
    var items := ItemsOf(entries, list);
    TotalCut(items, k);
    TotalSplit(Cut(items, k), [items[k]]);
    assert ItemsOf(entries, Touch(list, k)) == Touch(items, k);
  }

  lemma TouchConsistent(index: map<Url, nat>, list: seq<nat>, entries: seq<Stored>, k: nat)
    requires Consistent(index, list, entries) && k < |list|
    ensures Consistent(index, Touch(list, k), entries)
  {
    var list' := Touch(list, k);
    forall i | 0 <= i < |list'|
      ensures list'[i] == list[Origin(k, |list|, i)] && Listed(index, entries, list'[i])
    {
      assert Listed(index, entries, list[Origin(k, |list|, i)]);
    }
    forall i, j | 0 <= i < j < |list'|
      ensures list'[i] != list'[j]
    {
      assert Origin(k, |list|, i) != Origin(k, |list|, j);
    }
    forall x | x in list
      ensures x in list'
    {
      var j :| 0 <= j < |list| && list[j] == x;
      assert list'[if j < k then j else if j == k then |list| - 1 else j - 1] == x;
    }
  }

  /** Where the element at position `i` stood before position `k` was moved to the end. */
  function Origin(k: nat, n: nat, i: nat): nat
    requires k < n && i < n
    ensures Origin(k, n, i) < n
  {
    if i == n - 1 then k else if i < k then i else i + 1
  }

  /** Creating, growing or ending an entry that is not listed does not concern the list. */
  lemma NewConsistent(index: map<Url, nat>, list: seq<nat>, entries: seq<Stored>, en: Stored)
    requires Consistent(index, list, entries) && !en.committed && en.attached
    ensures Consistent(index, list, entries + [en])
    ensures ItemsOf(entries + [en], list) == ItemsOf(entries, list)
  {
    forall k | 0 <= k < |list|
      ensures Listed(index, entries + [en], list[k])
    {
      assert Listed(index, entries, list[k]);
    }
  }

  lemma AppendMembers(list: seq<nat>, e: nat)
    requires Distinct(list) && e !in list
    ensures Distinct(list + [e]) && forall x :: x in list + [e] <==> x in list || x == e
  {
  }

  lemma CommitConsistent(index: map<Url, nat>, list: seq<nat>, entries: seq<Stored>, e: nat)
    requires Consistent(index, list, entries) && e < |entries| && !entries[e].committed
    requires entries[e].url !in index
    ensures Consistent(index[entries[e].url := e], list + [e], entries[e := entries[e].(committed := true)])
  {
    var entries', index' := entries[e := entries[e].(committed := true)], index[entries[e].url := e];
    forall k | 0 <= k < |list|
      ensures list[k] != e && Listed(index', entries', list[k])
    {
      assert Listed(index, entries, list[k]);
    }
    AppendMembers(list, e);
  }

  lemma CommitItems(entries: seq<Stored>, list: seq<nat>, e: nat)
    requires e < |entries| && forall k :: 0 <= k < |list| ==> list[k] < |entries|
    ensures var entries' := entries[e := entries[e].(committed := true)];
            && ItemsOf(entries', list + [e]) == ItemsOf(entries, list) + [ItemOf(entries, e)]
            && Total(ItemsOf(entries', list + [e])) == Total(ItemsOf(entries, list)) + entries[e].len
  {
    TotalSplit(ItemsOf(entries, list), [ItemOf(entries, e)]);
  }

  /** `n` more bytes for the item with number `id`. */
  function Grown(items: seq<Item>, id: nat, n: nat): seq<Item>
  {
    seq(|items|, k requires 0 <= k < |items| =>
      if items[k].id == id then items[k].(len := items[k].len + n) else items[k])
  }

  lemma GrownByNothing(items: seq<Item>, id: nat)
    ensures Grown(items, id, 0) == items
  {
  }

  lemma {:induction false} GrownTotal(items: seq<Item>, id: nat, n: nat)
    requires forall k, l :: 0 <= k < l < |items| ==> items[k].id != items[l].id
    ensures Total(Grown(items, id, n)) ==
            Total(items) + if exists k :: 0 <= k < |items| && items[k].id == id then n else 0
  {
    if items != [] {
      var rest := items[1..];
      assert Grown(items, id, n)[1..] == Grown(rest, id, n);
      GrownTotal(rest, id, n);
      if exists k :: 0 <= k < |rest| && rest[k].id == id {
        var k :| 0 <= k < |rest| && rest[k].id == id;
        assert items[k + 1].id == id && items[0].id != items[k + 1].id;
      } else if items[0].id != id {
        assert forall k :: 0 <= k < |items| ==> items[k].id != id by {
          forall k | 1 <= k < |items| ensures items[k].id != id { assert rest[k - 1] == items[k]; }
        }
      }
    }
  }

  lemma WriteConsistent(index: map<Url, nat>, list: seq<nat>, entries: seq<Stored>, e: nat, n: nat)
    requires Consistent(index, list, entries) && e < |entries|
    ensures var entries' := entries[e := entries[e].(len := entries[e].len + n)];
            && Consistent(index, list, entries')
            && ItemsOf(entries', list) == Grown(ItemsOf(entries, list), e, n)
  {
    var entries' := entries[e := entries[e].(len := entries[e].len + n)];
    forall k | 0 <= k < |list|
      ensures Listed(index, entries', list[k])
    {
      assert Listed(index, entries, list[k]);
    }
  }

  lemma WriteTotal(index: map<Url, nat>, list: seq<nat>, entries: seq<Stored>, e: nat, n: nat)
    requires Consistent(index, list, entries) && e < |entries|
    ensures Total(Grown(ItemsOf(entries, list), e, n)) ==
            Total(ItemsOf(entries, list)) + if entries[e].committed && entries[e].attached then n else 0
  {
    var items := ItemsOf(entries, list);
    GrownTotal(items, e, n);
    if entries[e].committed && entries[e].attached {
      var k :| 0 <= k < |list| && list[k] == e;
      assert items[k].id == e;
    } else {
      forall k | 0 <= k < |items|
        ensures items[k].id != e
      {
        assert Listed(index, entries, list[k]);
      }
    }
  }

  /** The map, the list, the entries and the byte count agree. */
  ghost predicate Sound(index: map<Url, nat>, list: seq<nat>, entries: seq<Stored>, size: nat)
  {
    && Consistent(index, list, entries)
    && (forall k :: 0 <= k < |list| ==> list[k] < |entries|)
    && size == Total(ItemsOf(entries, list))
  }

  /** What a write does to a cache that is sound. */
  lemma WriteSound(index: map<Url, nat>, list: seq<nat>, entries: seq<Stored>, size: nat, e: nat, n: nat)
    requires Sound(index, list, entries, size) && e < |entries|
    ensures var entries' := entries[e := entries[e].(len := entries[e].len + n)];
            && Sound(index, list, entries', size + if entries[e].committed && entries[e].attached then n else 0)
            && ItemsOf(entries', list) == Grown(ItemsOf(entries, list), e, n)
  {
    WriteConsistent(index, list, entries, e, n);
    WriteTotal(index, list, entries, e, n);
  }

  /** What a removal does to a cache that is sound. */
  lemma RemoveSound(index: map<Url, nat>, list: seq<nat>, entries: seq<Stored>, size: nat, k: nat)
    requires Sound(index, list, entries, size) && k < |list|
    ensures var e := list[k];
            var entries', list' := entries[e := entries[e].(attached := false)], Cut(list, k);
            && entries[e].len <= size && Sound(index - {entries[e].url}, list', entries', size - entries[e].len)
            && ItemsOf(entries', list') == Cut(ItemsOf(entries, list), k)
  {
    var e := list[k];
    var entries' := entries[e := entries[e].(attached := false)];
    RemoveConsistent(index, list, entries, k);
    CutItems(entries, entries', list, k);
    TotalCut(ItemsOf(entries, list), k);
    ListedAreDistinct(index - {entries[e].url}, Cut(list, k), entries');
  }

  /** What a commit does to a cache that is sound and has no entry for the URL. */
  lemma CommitSound(index: map<Url, nat>, list: seq<nat>, entries: seq<Stored>, size: nat, e: nat)
    requires Sound(index, list, entries, size) && e < |entries| && !entries[e].committed && entries[e].url !in index
    ensures var entries', list' := entries[e := entries[e].(committed := true)], list + [e];
            && Sound(index[entries[e].url := e], list', entries', size + entries[e].len)
            && ItemsOf(entries', list') == ItemsOf(entries, list) + [ItemOf(entries, e)]
  {
    CommitConsistent(index, list, entries, e);
    CommitItems(entries, list, e);
  }

  /** What a hit does to a cache that is sound. */
  lemma TouchSound(index: map<Url, nat>, list: seq<nat>, entries: seq<Stored>, size: nat, k: nat)
    requires Sound(index, list, entries, size) && k < |list|
    ensures Sound(index, Touch(list, k), entries, size)
    ensures ItemsOf(entries, Touch(list, k)) == Touch(ItemsOf(entries, list), k)
  {
    TouchConsistent(index, list, entries, k);
    TouchItems(entries, list, k);
    ListedAreDistinct(index, Touch(list, k), entries);
  }

  // ---------- the order of use ----------

  /** When entry `e` was last used, counting the uses from 1; 0 if never. */
  function LastUse(uses: seq<nat>, e: nat): (n: nat)
    ensures n <= |uses|
  {
    if uses == [] then 0
    else if uses[|uses| - 1] == e then |uses|
    else LastUse(uses[..|uses| - 1], e)
  }

  lemma LastUseAfter(uses: seq<nat>, e: nat)
    ensures forall x :: LastUse(uses + [e], x) == if x == e then |uses| + 1 else LastUse(uses, x)
  {
    assert (uses + [e])[..|uses|] == uses;
  }

  /** The list runs from the entry whose last use is the oldest to the one used last. */
  ghost predicate ByUse(list: seq<nat>, uses: seq<nat>)
  {
    forall k, l {:trigger LastUse(uses, list[k]), LastUse(uses, list[l])} ::
      0 <= k < l < |list| ==> LastUse(uses, list[k]) < LastUse(uses, list[l])
  }

  lemma CutByUse(list: seq<nat>, uses: seq<nat>, k: nat)
    requires ByUse(list, uses) && k < |list|
    ensures ByUse(Cut(list, k), uses)
  {
    forall i, j | 0 <= i < j < |list| - 1
      ensures LastUse(uses, Cut(list, k)[i]) < LastUse(uses, Cut(list, k)[j])
    {
      assert LastUse(uses, list[if i < k then i else i + 1]) < LastUse(uses, list[if j < k then j else j + 1]);
    }
  }

  /** The entry used last belongs at the end. */
  lemma AppendByUse(list: seq<nat>, uses: seq<nat>, e: nat)
    requires ByUse(list, uses) && e !in list
    ensures ByUse(list + [e], uses + [e])
  {
    LastUseAfter(uses, e);
  }

  lemma TouchByUse(list: seq<nat>, uses: seq<nat>, k: nat)
    requires ByUse(list, uses) && Distinct(list) && k < |list|
    ensures ByUse(Touch(list, k), uses + [list[k]])
  {
    CutByUse(list, uses, k);
    CutMembers(list, k);
    AppendByUse(Cut(list, k), uses, list[k]);
  }

  lemma NotYetListed(index: map<Url, nat>, list: seq<nat>, entries: seq<Stored>, e: nat)
    requires Consistent(index, list, entries) && e < |entries| && !entries[e].committed
    ensures e !in list
  {
    forall k | 0 <= k < |list|
      ensures list[k] != e
    {
      assert Listed(index, entries, list[k]);
    }
  }

  /** Everything that went from `list` was last used before everything that stayed in `kept`. */
  ghost predicate EvictsOldest(list: seq<nat>, kept: seq<nat>, uses: seq<nat>)
  {
    forall e, f {:trigger LastUse(uses, e), LastUse(uses, f)} ::
      e in list && e !in kept && f in kept ==> LastUse(uses, e) < LastUse(uses, f)
  }

  /** The entries are the same but for those that have lost their place in the cache. */
  ghost predicate OnlyDetached(entries: seq<Stored>, entries': seq<Stored>)
  {
    && |entries'| == |entries|
    && forall e :: 0 <= e < |entries| ==> entries'[e] == entries[e].(attached := entries'[e].attached)
  }

  /** Whatever stands in front was last used before everything behind it. */
  lemma EvictedBefore(list: seq<nat>, uses: seq<nat>, n: nat)
    requires ByUse(list, uses) && n <= |list|
    ensures EvictsOldest(list, list[n..], uses)
  {
    forall e, f | e in list && e !in list[n..] && f in list[n..]
      ensures LastUse(uses, e) < LastUse(uses, f)
    {
      assert list == list[..n] + list[n..];
      var k :| 0 <= k < n && list[..n][k] == e;
      var l :| 0 <= l < |list[n..]| && list[n..][l] == f;
      assert LastUse(uses, list[k]) < LastUse(uses, list[n + l]);
    }
  }

  class Cache {
    var index: map<Url, nat>
    var list: seq<nat>
    var entries: seq<Stored>
    var currentSize: nat
    const sizeLimit: nat
    ghost var uses: seq<nat> // the entries hit or committed so far, one after the other

    ghost predicate Valid()
      reads this
    {
      Sound(index, list, entries, currentSize) && ByUse(list, uses)
    }

    ghost function View(): seq<Item>
      requires Valid()
      reads this
    {
      ItemsOf(entries, list)
    }

    constructor (limit: nat)
      ensures Valid() && View() == [] && entries == [] && sizeLimit == limit && uses == []
    {
      index, list, entries, currentSize, sizeLimit, uses := map[], [], [], 0, limit, [];
    }

    /** `cache_remove_entry_unsync` on the node at position `k`. */
    method RemoveAt(k: nat) returns (size: nat)
      requires Valid() && k < |list|
      modifies this
      ensures Valid()
      ensures View() == Cut(old(View()), k)
      ensures list == Cut(old(list), k)
      ensures entries == old(entries[list[k] := entries[list[k]].(attached := false)])
      ensures index == old(index - {entries[list[k]].url}) && uses == old(uses)
    {
      RemoveSound(index, list, entries, currentSize, k);
      CutByUse(list, uses, k);
      var e := list[k];
      list := Cut(list, k);
      entries := entries[e := entries[e].(attached := false)];
      size := entries[e].len;
      index := index - {entries[e].url};
      assert size <= currentSize;
      currentSize := currentSize - size;
    }

    /** One turn of the eviction loop: the entry whose last use is the oldest goes. */
    method EvictHead()
      requires Valid() && currentSize > sizeLimit
      modifies this
      ensures Valid() && old(list) != [] && list == old(list)[1..] && uses == old(uses)
      ensures Trim(View(), sizeLimit) == Trim(old(View()), sizeLimit)
      ensures OnlyDetached(old(entries), entries)
    {
      TrimHead(View(), sizeLimit);
      CutHead(View());
      CutHead(list);
      var size := RemoveAt(0);
    }

    /** `cache_evict_if_necessary_unsync`: whatever goes was last used before everything that stays. */
    method EvictIfNecessary()
      requires Valid()
      modifies this
      ensures Valid() && View() == Trim(old(View()), sizeLimit) && uses == old(uses)
      ensures EvictsOldest(old(list), list, uses) && OnlyDetached(old(entries), entries)
    {
      ghost var n := 0;
      while currentSize > sizeLimit
        invariant Valid() && Trim(View(), sizeLimit) == Trim(old(View()), sizeLimit)
        invariant uses == old(uses) && n <= |old(list)| && list == old(list)[n..]
        invariant OnlyDetached(old(entries), entries)
        decreases |list|
      {
        EvictHead();
        n := n + 1;
      }
      EvictedBefore(old(list), uses, n);
    }

    /** `cache_create_handle_unsync` on the live entry at position `k`: it moves behind all others. */
    method Hit(k: nat)
      requires Valid() && k < |list|
      modifies this`list, this`uses
      ensures Valid() && MovedToEnd(old(View()), View(), k) && uses == old(uses + [list[k]])
    {
      TouchSound(index, list, entries, currentSize, k);
      TouchMovesToEnd(View(), k);
      TouchByUse(list, uses, k);
      uses := uses + [list[k]];
      list := Cut(list, k) + [list[k]];
    }

    /** `cache_create_entry_unsync`. */
    method CreateEntry(url: Url) returns (e: nat)
      requires Valid()
      modifies this`entries
      ensures Valid() && View() == old(View())
      ensures e == old(|entries|) && entries == old(entries) + [Stored(url, 0, Partial, false, true)]
    {
      e := |entries|;
      NewConsistent(index, list, entries, Stored(url, 0, Partial, false, true));
      entries := entries + [Stored(url, 0, Partial, false, true)];
    }

    /** `cache_fetch`: a hit on a live entry, or a new entry after eviction. */
    method Fetch(url: Url) returns (hit: bool, e: nat)
      requires Valid()
      modifies this
      ensures Valid() && e < |entries| && entries[e].url == url
      ensures hit <==> old(url in index && index[url] < |entries| && entries[index[url]].st != Invalid)
      ensures hit ==>
                && entries == old(entries)
                && uses == old(uses) + [e]
                && exists k :: 0 <= k < |old(list)| && old(list)[k] == e && MovedToEnd(old(View()), View(), k)
      ensures !hit ==>
                && View() == Trim(old(View()), sizeLimit) && uses == old(uses)
                && EvictsOldest(old(list), list, uses)
                && e == old(|entries|) && |entries| == e + 1 && entries[e] == Stored(url, 0, Partial, false, true)
    {
      hit := url in index && entries[index[url]].st != Invalid;
      if hit {
        e := index[url];
        var k :| 0 <= k < |list| && list[k] == e;
        Hit(k);
      } else {
        EvictIfNecessary();
        e := CreateEntry(url);
      }
    }

    /** Appending to the buffer of an entry: the total follows only while the entry is in the cache. */
    method Grow(e: nat, n: nat)
      requires Valid() && e < |entries|
      modifies this`entries, this`currentSize
      ensures Valid() && View() == Grown(old(View()), e, n)
      ensures entries == old(entries[e := entries[e].(len := entries[e].len + n)])
    {
      WriteSound(index, list, entries, currentSize, e, n);
      if entries[e].committed && entries[e].attached {
        currentSize := currentSize + n;
      }
      entries := entries[e := entries[e].(len := entries[e].len + n)];
    }

    /** `cache_wr_write`: an empty write does nothing and succeeds, any other is refused on a
        complete entry. */
    method Write(e: nat, n: nat) returns (ok: bool)
      requires Valid() && e < |entries|
      modifies this`entries, this`currentSize
      ensures Valid() && ok == (n == 0 || old(entries[e].st) != Complete)
      ensures n == 0 || !ok ==> entries == old(entries) && View() == old(View())
      ensures ok ==> entries == old(entries[e := entries[e].(len := entries[e].len + n)])
      ensures ok ==> View() == Grown(old(View()), e, n)
    {
      ok := n == 0 || entries[e].st != Complete;
      if n == 0 {
        GrownByNothing(View(), e);
      } else if ok {
        Grow(e, n);
      }
    }

    /** The end of `cache_wr_commit`, when no entry is stored under the URL. */
    method Append(e: nat)
      requires Valid() && e < |entries| && !entries[e].committed && entries[e].url !in index
      modifies this
      ensures Valid() && View() == old(View() + [ItemOf(entries, e)]) && uses == old(uses) + [e]
      ensures entries == old(entries[e := entries[e].(committed := true)])
    {
      CommitSound(index, list, entries, currentSize, e);
      NotYetListed(index, list, entries, e);
      AppendByUse(list, uses, e);
      uses := uses + [e];
      list := list + [e];
      index := index[entries[e].url := e];
      currentSize := currentSize + entries[e].len;
      entries := entries[e := entries[e].(committed := true)];
    }

    /** The new entry takes the place of the stored one for its URL, at position `k`. */
    method Replace(k: nat, e: nat)
      requires Valid() && k < |list| && e < |entries| && !entries[e].committed && list[k] < |entries|
      requires entries[list[k]].url == entries[e].url && list[k] != e
      modifies this
      ensures Valid() && View() == Cut(old(View()), k) + [old(ItemOf(entries, e))] && uses == old(uses) + [e]
    {
      var size := RemoveAt(k);
      Append(e);
    }

    /** `cache_wr_commit`: the stored entry stays when it is the shorter one, otherwise the new one
        takes its place as the most recently used. */
    method Commit(e: nat)
      requires Valid() && e < |entries|
      modifies this
      ensures Valid()
      ensures old(entries[e].committed) || Beaten(old(View()), old(entries)[e]) ==>
                View() == old(View()) && entries == old(entries) && uses == old(uses)
      ensures !old(entries[e].committed) && !Beaten(old(View()), old(entries)[e]) ==>
                && View() == Displaced(old(View()), old(entries)[e].url) + [old(ItemOf(entries, e))]
                && uses == old(uses) + [e]
    {
      if entries[e].committed { return; }
      ghost var items := View();
      var url := entries[e].url;
      if url in index {
        var f := index[url];
        var k :| 0 <= k < |list| && list[k] == f;
        OneItemPerUrl(index, list, entries, k);
        assert items[k] == Item(f, url, entries[f].len);
        if entries[f].len < entries[e].len { return; }
        DisplacedIsCut(items, k);
        NotYetListed(index, list, entries, e);
        Replace(k, e);
      } else {
        NoItemForUrl(index, list, entries, url);
        DisplacedNothing(items, url);
        Append(e);
      }
    }
  }

  /** An item for the same URL that is shorter than the entry being committed. */
  ghost predicate Beaten(items: seq<Item>, en: Stored)
  {
    exists k :: 0 <= k < |items| && items[k].url == en.url && items[k].len < en.len
  }

  /** The items without those for `url`. */
  function Displaced(items: seq<Item>, url: Url): seq<Item>
  {
    if items == [] then []
    else if items[0].url == url then Displaced(items[1..], url)
    else [items[0]] + Displaced(items[1..], url)
  }

  lemma OneItemPerUrl(index: map<Url, nat>, list: seq<nat>, entries: seq<Stored>, k: nat)
    requires Consistent(index, list, entries) && k < |list|
    ensures forall l :: 0 <= l < |list| && l != k ==>
              && list[l] < |entries| && list[k] < |entries|
              && entries[list[l]].url != entries[list[k]].url
  {
    assert Listed(index, entries, list[k]);
    forall l | 0 <= l < |list| && l != k
      ensures list[l] < |entries| && entries[list[l]].url != entries[list[k]].url
    {
      assert Listed(index, entries, list[l]);
    }
  }

  lemma NoItemForUrl(index: map<Url, nat>, list: seq<nat>, entries: seq<Stored>, url: Url)
    requires Consistent(index, list, entries) && url !in index
    ensures forall l :: 0 <= l < |list| ==> list[l] < |entries| && entries[list[l]].url != url
  {
    forall l | 0 <= l < |list|
      ensures list[l] < |entries| && entries[list[l]].url != url
    {
      assert Listed(index, entries, list[l]);
    }
  }

  lemma {:induction false} DisplacedNothing(items: seq<Item>, url: Url)
    requires forall l :: 0 <= l < |items| ==> items[l].url != url
    ensures Displaced(items, url) == items
  {
    if items != [] {
      DisplacedNothing(items[1..], url);
    }
  }

  lemma {:induction false} DisplacedIsCut(items: seq<Item>, k: nat)
    requires k < |items| && forall l :: 0 <= l < |items| && l != k ==> items[l].url != items[k].url
    ensures Displaced(items, items[k].url) == Cut(items, k)
  {
    if k == 0 {
      DisplacedNothing(items[1..], items[0].url);
      assert Cut(items, 0) == items[1..];
    } else {
      DisplacedIsCut(items[1..], k - 1);
      assert Cut(items, k) == [items[0]] + Cut(items[1..], k - 1);
    }
  }
}
