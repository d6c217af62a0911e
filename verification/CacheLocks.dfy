/** The two-level locking of the cache in a.yanin/waxy: one mutex for the map and the recency
    list, one for every entry, and a byte total that writers update with only their entry locked.

    A thread is a program counter that says which lock it waits for and which it holds; taking a
    lock is a step of its own. Entries are numbered in the order of their creation. */
module CacheLocks {
  import opened CacheEntries
  import opened Counting
  import Runs

  /** `attached` is a non-null `cache` pointer, `published` says that the fetch that created the
      entry has returned its handles, `used` is the time of the last commit or hit, and `owner`
      is the thread that holds the entry's mutex. */
  datatype Entry = Entry(url: Url, len: nat, st: EntryState, committed: bool, attached: bool,
                         published: bool, used: nat, owner: int)

  datatype Action = Write(bytes: nat) | MarkComplete | Abandon | Look

  /** What a removal goes on with: the eviction loop of a fetch, or the commit of an entry. */
  datatype Then = ThenFetch(url: Url) | ThenCommit(e: nat)

  datatype Pc =
    | Idle
    // write, complete, free and the reader operations: one entry lock
    | ActWant(e: nat, act: Action) | ActIn(e: nat, act: Action)
    // cache_fetch
    | FetchWant(url: Url) | FetchIn(url: Url)
    | HitWant(url: Url, e: nat) | HitIn(url: Url, e: nat) | HitMove(e: nat)
    | Evicting(url: Url) | NewWant(e: nat) | NewIn(e: nat) | FetchOut(e: nat)
    // cache_remove_entry_unsync, the node already unlinked
    | RemWant(e: nat, k: Then) | RemIn(e: nat, k: Then) | RemOut(e: nat, size: nat, k: Then)
    // cache_wr_commit
    | ComWant(e: nat) | ComIn(e: nat) | ComCache(e: nat) | ComBoth(e: nat)
    | OldWant(e: nat, f: nat) | OldIn(e: nat, f: nat) | ComAdd(e: nat) | ComOut(e: nat) | ComLast(e: nat)

  datatype State = State(
    entries: seq<Entry>, list: seq<nat>, map_: map<Url, nat>, size: int, limit: nat,
    cacheOwner: int, clock: nat, threads: seq<Pc>)

  const NOBODY := -1

  datatype Lock = NoLock | CacheLock | EntryLock(e: nat)

  /** The lock a thread is waiting for. */
  function Wants(pc: Pc): Lock
  {
    match pc
    case ActWant(e, _) => EntryLock(e)
    case FetchWant(_) => CacheLock
    case HitWant(_, e) => EntryLock(e)
    case NewWant(e) => EntryLock(e)
    case RemWant(e, _) => EntryLock(e)
    case ComWant(e) => EntryLock(e)
    case ComCache(_) => CacheLock
    case OldWant(_, f) => EntryLock(f)
    case _ => NoLock
  }

  predicate HoldsCache(pc: Pc)
  {
    pc.FetchIn? || pc.HitWant? || pc.HitIn? || pc.HitMove? || pc.Evicting? || pc.NewWant? || pc.NewIn? || pc.FetchOut?
    || pc.RemWant? || pc.RemIn? || pc.RemOut? || pc.ComBoth? || pc.OldWant? || pc.OldIn? || pc.ComAdd? || pc.ComOut?
  }

  /** The entry being committed, whose mutex is held throughout. */
  predicate Committing(pc: Pc, e: nat)
  {
    || ((pc.ComIn? || pc.ComCache? || pc.ComBoth? || pc.OldWant? || pc.OldIn? || pc.ComAdd? || pc.ComOut?
       || pc.ComLast?) && pc.e == e)
    || ((pc.RemWant? || pc.RemIn? || pc.RemOut?) && pc.k == ThenCommit(e))
  }

  predicate Holds(pc: Pc, e: nat)
  {
    || ((pc.ActIn? || pc.HitIn? || pc.NewIn? || pc.RemIn?) && pc.e == e)
    || (pc.OldIn? && pc.f == e)
    || Committing(pc, e)
  }

  predicate Free(s: State, l: Lock)
  {
    match l
    case NoLock => true
    case CacheLock => s.cacheOwner == NOBODY
    case EntryLock(e) => e < |s.entries| && s.entries[e].owner == NOBODY
  }

  // ---------- the steps ----------

  /** Operations a thread may start, on handles it has been given. */
  datatype Request = Act(e: nat, act: Action) | Fetch(url: Url) | Commit(e: nat)

  datatype Step = Start(i: nat, req: Request) | Go(i: nat)

  function At(s: State, i: nat, pc: Pc): State
    requires i < |s.threads|
  {
    s.(threads := s.threads[i := pc])
  }

  function SetOwner(s: State, e: nat, owner: int): State
    requires e < |s.entries|
  {
    s.(entries := s.entries[e := s.entries[e].(owner := owner)])
  }

  function Resume(k: Then): Pc
  {
    match k
    case ThenFetch(url) => Evicting(url)
    case ThenCommit(e) => ComAdd(e)
  }

  /** The effect of a write, completion or release on an entry. */
  function Acted(en: Entry, act: Action): Entry
  {
    match act
    case Write(n) => if en.st == Complete then en else en.(len := en.len + n)
    case MarkComplete => if en.st == Partial then en.(st := Complete) else en
    case Abandon => if en.st == Partial then en.(st := Invalid) else en
    case Look => en
  }

  function Weight(en: Entry): nat { if en.committed && en.attached then en.len else 0 }

  /** Taking the awaited lock. */
  function Acquired(pc: Pc): Pc
    requires Wants(pc) != NoLock
  {
    match pc
    case ActWant(e, act) => ActIn(e, act)
    case FetchWant(url) => FetchIn(url)
    case HitWant(url, e) => HitIn(url, e)
    case NewWant(e) => NewIn(e)
    case RemWant(e, k) => RemIn(e, k)
    case ComWant(e) => ComIn(e)
    case ComCache(e) => ComBoth(e)
    case OldWant(e, f) => OldIn(e, f)
  }

  function Without(list: seq<nat>, e: nat): seq<nat>
  {
    if list == [] then []
    else if list[0] == e then Without(list[1..], e)
    else [list[0]] + Without(list[1..], e)
  }

  predicate Enabled(s: State, step: Step)
  {
    && step.i < |s.threads|
    && match step
       case Start(i, req) =>
         && s.threads[i].Idle?
         && (req.Act? ==> req.e < |s.entries| && s.entries[req.e].published)
         && (req.Commit? ==> req.e < |s.entries| && s.entries[req.e].published)
       case Go(i) => !s.threads[i].Idle? && Free(s, Wants(s.threads[i]))
  }

  /** Entry numbers mentioned by a program counter exist. */
  predicate InRange(s: State, pc: Pc)
  {
    && (pc.Idle? || pc.FetchWant? || pc.FetchIn? || pc.Evicting? || pc.e < |s.entries|)
    && (pc.OldWant? || pc.OldIn? ==> pc.f < |s.entries|)
    && ((pc.RemWant? || pc.RemIn? || pc.RemOut?) && pc.k.ThenCommit? ==> pc.k.e < |s.entries|)
  }

  function Do(s: State, step: Step): State
    requires Enabled(s, step) && InRange(s, s.threads[step.i])
  {
    match step
    case Start(i, req) =>
      At(s, i, match req
               case Act(e, act) => ActWant(e, act)
               case Fetch(url) => FetchWant(url)
               case Commit(e) => ComWant(e))
    case Go(i) =>
      if Wants(s.threads[i]) != NoLock then Take(s, i) else Advance(s, i)
  }

  function Take(s: State, i: nat): State
    requires i < |s.threads| && InRange(s, s.threads[i]) && Wants(s.threads[i]) != NoLock
  {
    var pc := s.threads[i];
    var s1 := At(s, i, Acquired(pc));
    match Wants(pc)
    case CacheLock => s1.(cacheOwner := i)
    case EntryLock(e) => SetOwner(s1, e, i)
  }

  predicate InFetch(pc: Pc)
  {
    pc.FetchIn? || pc.HitIn? || pc.HitMove? || pc.Evicting? || pc.NewIn? || pc.FetchOut?
  }

  predicate InRemove(pc: Pc) { pc.RemIn? || pc.RemOut? }

  predicate InCommit(pc: Pc)
  {
    pc.ComIn? || pc.ComBoth? || pc.OldIn? || pc.ComAdd? || pc.ComOut? || pc.ComLast?
  }

  /** A step that needs no lock. */
  function Advance(s: State, i: nat): State
    requires i < |s.threads| && InRange(s, s.threads[i])
    requires !s.threads[i].Idle? && Wants(s.threads[i]) == NoLock
  {
    var pc := s.threads[i];
    if pc.ActIn? then AdvanceAct(s, i)
    else if InFetch(pc) then AdvanceFetch(s, i)
    else if InRemove(pc) then AdvanceRemove(s, i)
    else AdvanceCommit(s, i)
  }

  /** `cache_wr_write`, `cache_wr_complete`, `cache_wr_free` and the readers, with the entry locked. */
  function AdvanceAct(s: State, i: nat): State
    requires i < |s.threads| && InRange(s, s.threads[i]) && s.threads[i].ActIn?
  {
    var e := s.threads[i].e;
    var en := s.entries[e];
    var en' := Acted(en, s.threads[i].act);
    At(s, i, Idle).(entries := s.entries[e := en'.(owner := NOBODY)], size := s.size + Weight(en') - Weight(en))
  }

  /** `cache_fetch`, `cache_create_handle_unsync` and `cache_create_entry_unsync`. */
  function AdvanceFetch(s: State, i: nat): State
    requires i < |s.threads| && InRange(s, s.threads[i]) && InFetch(s.threads[i])
  {
    match s.threads[i]
    case FetchIn(url) =>
      At(s, i, if url in s.map_ then HitWant(url, s.map_[url]) else Evicting(url))
    case HitIn(url, e) =>
      SetOwner(At(s, i, if s.entries[e].st == Invalid then Evicting(url) else HitMove(e)), e, NOBODY)
    case HitMove(e) =>
      At(s, i, FetchOut(e)).(list := Without(s.list, e) + [e], clock := s.clock + 1,
                             entries := s.entries[e := s.entries[e].(used := s.clock)])
    case Evicting(url) =>
      if s.size > s.limit && s.list != [] then
        At(s, i, RemWant(s.list[0], ThenFetch(url))).(list := s.list[1..])
      else
        At(s, i, NewWant(|s.entries|)).(
          entries := s.entries + [Entry(url, 0, Partial, false, true, false, 0, NOBODY)])
    case NewIn(e) => SetOwner(At(s, i, FetchOut(e)), e, NOBODY)
    case FetchOut(e) =>
      At(s, i, Idle).(cacheOwner := NOBODY, entries := s.entries[e := s.entries[e].(published := true)])
  }

  /** `cache_remove_entry_unsync`. */
  function AdvanceRemove(s: State, i: nat): State
    requires i < |s.threads| && InRange(s, s.threads[i]) && InRemove(s.threads[i])
  {
    match s.threads[i]
    case RemIn(e, k) =>
      At(s, i, RemOut(e, s.entries[e].len, k)).(
        entries := s.entries[e := s.entries[e].(attached := false, owner := NOBODY)])
    case RemOut(e, size, k) =>
      At(s, i, Resume(k)).(map_ := s.map_ - {s.entries[e].url}, size := s.size - size)
  }

  /** `cache_wr_commit`; the stored entry stays when it is the shorter one. */
  function AdvanceCommit(s: State, i: nat): State
    requires i < |s.threads| && InRange(s, s.threads[i]) && InCommit(s.threads[i])
  {
    match s.threads[i]
    case ComIn(e) =>
      if s.entries[e].committed then At(s, i, ComLast(e)) else At(s, i, ComCache(e))
    case ComBoth(e) =>
      At(s, i, if s.entries[e].url in s.map_ then OldWant(e, s.map_[s.entries[e].url]) else ComAdd(e))
    case OldIn(e, f) =>
      if s.entries[f].len < s.entries[e].len then SetOwner(At(s, i, ComOut(e)), f, NOBODY)
      else SetOwner(At(s, i, RemWant(f, ThenCommit(e))).(list := Without(s.list, f)), f, NOBODY)
    case ComAdd(e) =>
      At(s, i, ComOut(e)).(list := s.list + [e], map_ := s.map_[s.entries[e].url := e],
                           size := s.size + s.entries[e].len, clock := s.clock + 1,
                           entries := s.entries[e := s.entries[e].(committed := true, used := s.clock)])
    case ComOut(e) => At(s, i, ComLast(e)).(cacheOwner := NOBODY)
    case ComLast(e) => SetOwner(At(s, i, Idle), e, NOBODY)
  }

  ghost predicate Next(s: State, s': State)
  {
    exists step :: Enabled(s, step) && InRange(s, s.threads[step.i]) && s' == Do(s, step)
  }

  ghost predicate Init(s: State)
  {
    && s.entries == [] && s.list == [] && s.map_ == map[] && s.size == 0 && s.cacheOwner == NOBODY && s.clock == 0
    && forall i :: 0 <= i < |s.threads| ==> s.threads[i] == Idle
  }

  ghost predicate Reachable(s: State) { Runs.Reachable(Init, Next, s) }

  // ---------- the invariant ----------

  /** Owners are exactly the threads whose program counter says that they hold the lock. */
  ghost predicate LockInv(s: State)
  {
    && (s.cacheOwner == NOBODY || 0 <= s.cacheOwner < |s.threads|)
    && (forall i :: 0 <= i < |s.threads| ==> (HoldsCache(s.threads[i]) <==> s.cacheOwner == i))
    && (forall e :: 0 <= e < |s.entries| ==> s.entries[e].owner == NOBODY || 0 <= s.entries[e].owner < |s.threads|)
    && (forall i, e :: 0 <= i < |s.threads| && 0 <= e < |s.entries| ==>
          (Holds(s.threads[i], e) <==> s.entries[e].owner == i))
  }

  /** What a program counter says about the entries it mentions. */
  predicate LocalInv(s: State, pc: Pc)
  {
    && InRange(s, pc)
    && (pc.ActWant? || pc.ActIn? || pc.ComWant? || pc.ComIn? || pc.ComCache? || pc.ComBoth? || pc.OldWant?
        || pc.OldIn? || pc.ComAdd? || pc.ComOut? || pc.ComLast? ==>
          s.entries[pc.e].published)
    && (pc.ComCache? || pc.ComBoth? || pc.OldWant? || pc.OldIn? || pc.ComAdd? ==> !s.entries[pc.e].committed)
    && ((pc.RemWant? || pc.RemIn? || pc.RemOut?) && pc.k.ThenCommit? ==>
          s.entries[pc.k.e].published && !s.entries[pc.k.e].committed && s.entries[pc.k.e].url == s.entries[pc.e].url)
    && (pc.NewWant? || pc.NewIn? ==> !s.entries[pc.e].published && !s.entries[pc.e].committed)
  }

  ghost predicate LocalsInv(s: State)
  {
    forall i :: 0 <= i < |s.threads| ==> LocalInv(s, s.threads[i])
  }

  /** The program counter of the thread inside the cache lock. */
  function Current(s: State): Pc
  {
    if 0 <= s.cacheOwner < |s.threads| then s.threads[s.cacheOwner] else Idle
  }

  predicate Leaving(cur: Pc, e: nat) { (cur.RemWant? || cur.RemIn? || cur.RemOut?) && cur.e == e }

  /** A listed entry is committed, attached to the cache, and the one its URL leads to. */
  predicate ListedOk(s: State, e: nat)
  {
    && e < |s.entries|
    && var en := s.entries[e];
       en.committed && en.attached && en.used < s.clock && en.url in s.map_ && s.map_[en.url] == e
  }

  predicate Older(s: State, a: nat, b: nat)
  {
    a < |s.entries| && b < |s.entries| && s.entries[a].used < s.entries[b].used
  }

  /** Least recently used first. */
  ghost predicate InOrder(s: State, list: seq<nat>)
  {
    forall k, l :: 0 <= k < l < |list| ==> Older(s, list[k], list[l])
  }

  /** The recency list: live entries of the cache, each once, least recently used first. */
  ghost predicate ListInv(s: State)
  {
    (forall e :: e in s.list ==> ListedOk(s, e)) && InOrder(s, s.list)
  }

  /** The map leads to listed entries, or to the one being removed. */
  ghost predicate MapInv(s: State, cur: Pc)
  {
    forall u :: u in s.map_ ==>
      && s.map_[u] < |s.entries| && s.entries[s.map_[u]].url == u
      && (s.map_[u] in s.list || Leaving(cur, s.map_[u]))
  }

  /** A committed entry keeps its cache pointer exactly while it is listed or about to be detached. */
  ghost predicate EntriesInv(s: State, cur: Pc)
  {
    forall e :: 0 <= e < |s.entries| ==>
      && var en := s.entries[e];
         && (en.committed ==> en.published)
         && (!en.committed ==> en.attached)
         && (en.committed && en.attached <==> e in s.list || (Leaving(cur, e) && !cur.RemOut?))
  }

  /** What the thread inside the cache lock relies on. */
  ghost predicate OwnerInv(s: State, cur: Pc)
  {
    && InRange(s, cur)
    && (cur.HitWant? || cur.HitIn? || cur.HitMove? ==> cur.e in s.list)
    && (cur.OldWant? || cur.OldIn? ==> cur.f in s.list && s.entries[cur.f].url == s.entries[cur.e].url)
    && (cur.RemWant? || cur.RemIn? || cur.RemOut? ==>
          && cur.e !in s.list && s.entries[cur.e].committed
          && s.entries[cur.e].url in s.map_ && s.map_[s.entries[cur.e].url] == cur.e)
    && (cur.ComAdd? ==> s.entries[cur.e].url !in s.map_)
  }

  ghost predicate StoreInv(s: State, cur: Pc)
  {
    ListInv(s) && MapInv(s, cur) && EntriesInv(s, cur) && OwnerInv(s, cur)
  }

  /** Bytes already read off an entry being removed and not yet taken from the total. */
  function Pending(cur: Pc): nat { if cur.RemOut? then cur.size else 0 }

  ghost predicate SizeInv(s: State, cur: Pc)
  {
    s.size == Sum(s.entries, Weight) + Pending(cur)
  }

  ghost predicate Inv(s: State)
  {
    LockInv(s) && LocalsInv(s) && StoreInv(s, Current(s)) && SizeInv(s, Current(s))
  }

  // ---------- every step keeps it ----------

  function NewOwner(owner: int, held: bool, holds: bool, i: nat): int
  {
    if holds then i else if held then NOBODY else owner
  }

  /** Thread `i` moves to `pc'`, taking and releasing just the locks that distinguish the two. */
  ghost predicate LockEffect(s: State, s': State, i: nat, pc': Pc)
    requires i < |s.threads|
  {
    var pc := s.threads[i];
    && s'.threads == s.threads[i := pc'] && |s.entries| <= |s'.entries|
    && s'.cacheOwner == NewOwner(s.cacheOwner, HoldsCache(pc), HoldsCache(pc'), i)
    && (HoldsCache(pc') && !HoldsCache(pc) ==> s.cacheOwner == NOBODY)
    && (forall e :: 0 <= e < |s.entries| ==>
          s'.entries[e].owner == NewOwner(s.entries[e].owner, Holds(pc, e), Holds(pc', e), i))
    && (forall e :: 0 <= e < |s.entries| && Holds(pc', e) && !Holds(pc, e) ==> s.entries[e].owner == NOBODY)
    && (forall e :: |s.entries| <= e < |s'.entries| ==> s'.entries[e].owner == NOBODY && !Holds(pc', e))
  }

  lemma LocksKept(s: State, s': State, i: nat, pc': Pc)
    requires LockInv(s) && LocalsInv(s) && i < |s.threads| && LockEffect(s, s', i, pc')
    ensures LockInv(s')
  {
    forall j, e | 0 <= j < |s'.threads| && 0 <= e < |s'.entries|
      ensures Holds(s'.threads[j], e) <==> s'.entries[e].owner == j
    {
      if e < |s.entries| {
        assert Holds(s.threads[j], e) <==> s.entries[e].owner == j;
        assert Holds(s.threads[i], e) <==> s.entries[e].owner == i;
      } else if j != i {
        assert LocalInv(s, s.threads[j]);
      }
    }
    forall j | 0 <= j < |s'.threads|
      ensures HoldsCache(s'.threads[j]) <==> s'.cacheOwner == j
    {
      assert HoldsCache(s.threads[j]) <==> s.cacheOwner == j;
      assert HoldsCache(s.threads[i]) <==> s.cacheOwner == i;
    }
  }

  /** `LockInv` as thread `i` sees it. */
  ghost predicate OwnLocks(s: State, i: nat)
    requires i < |s.threads|
  {
    && (HoldsCache(s.threads[i]) <==> s.cacheOwner == i)
    && (forall e :: 0 <= e < |s.entries| ==> (Holds(s.threads[i], e) <==> s.entries[e].owner == i))
  }

  lemma TakeEffect(s: State, i: nat)
    requires i < |s.threads| && OwnLocks(s, i) && InRange(s, s.threads[i])
    requires Wants(s.threads[i]) != NoLock && Free(s, Wants(s.threads[i]))
    ensures LockEffect(s, Take(s, i), i, Acquired(s.threads[i]))
  {
  }

  /** What one step inside the cache lock needs to know about the map and the list. */
  predicate NearInv(s: State, pc: Pc)
  {
    && InRange(s, pc)
    && (pc.FetchIn? && pc.url in s.map_ ==> s.map_[pc.url] < |s.entries|)
    && (pc.ComBoth? && s.entries[pc.e].url in s.map_ ==>
          var f := s.map_[s.entries[pc.e].url]; f < |s.entries| && s.entries[f].url == s.entries[pc.e].url)
    && (pc.Evicting? && s.list != [] ==> s.list[0] < |s.entries|)
    && (pc.OldIn? ==> s.entries[pc.f].committed && s.entries[pc.f].url == s.entries[pc.e].url)
    && (IsRemoving(pc) ==> s.entries[pc.e].committed)
  }

  lemma NearFromStore(s: State, pc: Pc)
    requires StoreInv(s, pc) && LocalInv(s, pc)
    ensures NearInv(s, pc)
  {
    assert pc.OldIn? ==> ListedOk(s, pc.f);
    assert pc.Evicting? && s.list != [] ==> ListedOk(s, s.list[0]);
  }

  lemma ActEffect(s: State, i: nat)
    requires i < |s.threads| && OwnLocks(s, i) && LocalInv(s, s.threads[i]) && NearInv(s, s.threads[i])
    requires s.threads[i].ActIn?
    ensures var s' := AdvanceAct(s, i); LockEffect(s, s', i, s'.threads[i])
  {
  }

  lemma LookupEffect(s: State, i: nat)
    requires i < |s.threads| && OwnLocks(s, i) && LocalInv(s, s.threads[i]) && NearInv(s, s.threads[i])
    requires s.threads[i].FetchIn? || s.threads[i].HitIn?
    ensures var s' := AdvanceFetch(s, i); LockEffect(s, s', i, s'.threads[i])
  {
  }

  lemma HitEffect(s: State, i: nat)
    requires i < |s.threads| && OwnLocks(s, i) && LocalInv(s, s.threads[i]) && NearInv(s, s.threads[i])
    requires s.threads[i].HitMove?
    ensures var s' := AdvanceFetch(s, i); LockEffect(s, s', i, s'.threads[i])
  {
  }

  lemma EvictEffect(s: State, i: nat)
    requires i < |s.threads| && OwnLocks(s, i) && LocalInv(s, s.threads[i]) && NearInv(s, s.threads[i])
    requires s.threads[i].Evicting?
    ensures var s' := AdvanceFetch(s, i); LockEffect(s, s', i, s'.threads[i])
  {
  }

  lemma NewEffect(s: State, i: nat)
    requires i < |s.threads| && OwnLocks(s, i) && LocalInv(s, s.threads[i]) && NearInv(s, s.threads[i])
    requires s.threads[i].NewIn? || s.threads[i].FetchOut?
    ensures var s' := AdvanceFetch(s, i); LockEffect(s, s', i, s'.threads[i])
  {
  }

  lemma RemoveEffect(s: State, i: nat)
    requires i < |s.threads| && OwnLocks(s, i) && LocalInv(s, s.threads[i]) && NearInv(s, s.threads[i])
    requires InRemove(s.threads[i])
    ensures var s' := AdvanceRemove(s, i); LockEffect(s, s', i, s'.threads[i])
  {
  }

  lemma CommitEndsEffect(s: State, i: nat)
    requires i < |s.threads| && OwnLocks(s, i) && LocalInv(s, s.threads[i]) && NearInv(s, s.threads[i])
    requires s.threads[i].ComIn? || s.threads[i].ComOut? || s.threads[i].ComLast?
    ensures var s' := AdvanceCommit(s, i); LockEffect(s, s', i, s'.threads[i])
  {
  }

  lemma CommitLookupEffect(s: State, i: nat)
    requires i < |s.threads| && OwnLocks(s, i) && LocalInv(s, s.threads[i]) && NearInv(s, s.threads[i])
    requires s.threads[i].ComBoth? || s.threads[i].OldIn?
    ensures var s' := AdvanceCommit(s, i); LockEffect(s, s', i, s'.threads[i])
  {
  }

  lemma CommitAddEffect(s: State, i: nat)
    requires i < |s.threads| && OwnLocks(s, i) && LocalInv(s, s.threads[i]) && NearInv(s, s.threads[i])
    requires s.threads[i].ComAdd?
    ensures var s' := AdvanceCommit(s, i); LockEffect(s, s', i, s'.threads[i])
  {
  }

  /** How one step of thread `i` may change the entries, as far as other threads can tell. */
  ghost predicate Evolves(s: State, s': State, i: nat)
    requires i < |s.threads|
  {
    && |s.entries| <= |s'.entries|
    && forall e :: 0 <= e < |s.entries| ==>
         var en, en' := s.entries[e], s'.entries[e];
         && en'.url == en.url
         && (en.published ==> en'.published)
         && (en'.published && !en.published ==> HoldsCache(s.threads[i]))
         && (en'.committed && !en.committed ==> Holds(s.threads[i], e) && en.published)
  }

  lemma LocalsKept(s: State, s': State, i: nat, pc': Pc)
    requires LockInv(s) && LocalsInv(s) && i < |s.threads| && Evolves(s, s', i)
    requires s'.threads == s.threads[i := pc'] && LocalInv(s', pc')
    ensures LocalsInv(s')
  {
    forall j | 0 <= j < |s'.threads|
      ensures LocalInv(s', s'.threads[j])
    {
      if j != i {
        var pc := s.threads[j];
        assert LocalInv(s, pc);
        assert HoldsCache(pc) ==> !HoldsCache(s.threads[i]);
        forall e | 0 <= e < |s.entries| && Holds(pc, e)
          ensures !Holds(s.threads[i], e)
        {
          assert s.entries[e].owner == j;
        }
      }
    }
  }

  lemma ActEvolves(s: State, i: nat)
    requires i < |s.threads| && LocalInv(s, s.threads[i]) && NearInv(s, s.threads[i])
    requires s.threads[i].ActIn?
    ensures var s' := AdvanceAct(s, i); Evolves(s, s', i) && LocalInv(s', s'.threads[i])
  {
  }

  lemma FetchEvolves(s: State, i: nat)
    requires i < |s.threads| && LocalInv(s, s.threads[i]) && NearInv(s, s.threads[i])
    requires InFetch(s.threads[i])
    ensures var s' := AdvanceFetch(s, i); Evolves(s, s', i) && LocalInv(s', s'.threads[i])
  {
  }

  lemma RemoveEvolves(s: State, i: nat)
    requires i < |s.threads| && LocalInv(s, s.threads[i]) && NearInv(s, s.threads[i])
    requires InRemove(s.threads[i])
    ensures var s' := AdvanceRemove(s, i); Evolves(s, s', i) && LocalInv(s', s'.threads[i])
  {
  }

  lemma CommitEvolves(s: State, i: nat)
    requires i < |s.threads| && LocalInv(s, s.threads[i]) && NearInv(s, s.threads[i])
    requires InCommit(s.threads[i])
    ensures var s' := AdvanceCommit(s, i); Evolves(s, s', i) && LocalInv(s', s'.threads[i])
  {
  }

  /** Lengths, states and lock owners of entries do not matter to the map and the list. */
  ghost predicate SameShape(s: State, s': State)
  {
    && s'.list == s.list && s'.map_ == s.map_ && s'.clock == s.clock && |s'.entries| == |s.entries|
    && forall e :: 0 <= e < |s.entries| ==>
         s'.entries[e] == s.entries[e].(len := s'.entries[e].len, st := s'.entries[e].st, owner := s'.entries[e].owner)
  }

  /** A change of program counter inside the cache lock that leaves the data alone. */
  predicate SameLeaving(cur: Pc, cur': Pc)
  {
    || (!IsRemoving(cur) && !IsRemoving(cur'))
    || (IsRemoving(cur) && IsRemoving(cur') && cur.e == cur'.e && cur.RemOut? == cur'.RemOut?)
  }

  predicate IsRemoving(cur: Pc) { cur.RemWant? || cur.RemIn? || cur.RemOut? }

  lemma ListFrame(s: State, s': State)
    requires ListInv(s) && SameShape(s, s')
    ensures ListInv(s')
  {
  }

  lemma MapFrame(s: State, s': State, cur: Pc, cur': Pc)
    requires MapInv(s, cur) && SameShape(s, s') && SameLeaving(cur, cur')
    ensures MapInv(s', cur')
  {
  }

  lemma EntriesFrame(s: State, s': State, cur: Pc, cur': Pc)
    requires EntriesInv(s, cur) && SameShape(s, s') && SameLeaving(cur, cur')
    ensures EntriesInv(s', cur')
  {
  }

  lemma StoreFrame(s: State, s': State, cur: Pc, cur': Pc)
    requires StoreInv(s, cur) && SameShape(s, s')
    requires SameLeaving(cur, cur') && OwnerInv(s, cur')
    ensures StoreInv(s', cur')
  {
    ListFrame(s, s');
    MapFrame(s, s', cur, cur');
    EntriesFrame(s, s', cur, cur');
  }

  lemma {:induction false} WithoutMembers(list: seq<nat>, e: nat)
    ensures forall x :: x in Without(list, e) <==> x in list && x != e
  {
    if list != [] {
      WithoutMembers(list[1..], e);
      assert list == [list[0]] + list[1..];
    }
  }

  lemma {:induction false} WithoutInOrder(s: State, list: seq<nat>, e: nat)
    requires InOrder(s, list)
    ensures InOrder(s, Without(list, e))
  {
    if list != [] {
      var rest := list[1..];
      forall k, l | 0 <= k < l < |rest|
        ensures Older(s, rest[k], rest[l])
      {
        assert Older(s, list[k + 1], list[l + 1]);
      }
      WithoutInOrder(s, rest, e);
      WithoutMembers(rest, e);
      var w := Without(rest, e);
      forall k | 0 <= k < |w|
        ensures Older(s, list[0], w[k])
      {
        assert w[k] in rest;
        var l :| 0 <= l < |rest| && rest[l] == w[k];
        assert Older(s, list[0], list[l + 1]);
      }
    }
  }

  lemma WithoutList(s: State, s': State, e: nat)
    requires ListInv(s) && s'.list == Without(s.list, e)
    requires s'.map_ == s.map_ && s'.clock == s.clock && |s'.entries| == |s.entries|
    requires forall x :: 0 <= x < |s.entries| ==> s'.entries[x] == s.entries[x].(owner := s'.entries[x].owner)
    ensures ListInv(s')
  {
    WithoutInOrder(s, s.list, e);
    WithoutMembers(s.list, e);
    var r := s'.list;
    forall k, l | 0 <= k < l < |r|
      ensures Older(s', r[k], r[l])
    {
      assert Older(s, r[k], r[l]);
    }
  }

  lemma MoveList(s: State, i: nat)
    requires ListInv(s) && i < |s.threads| && InRange(s, s.threads[i]) && s.threads[i].HitMove?
             && s.threads[i].e in s.list
    ensures ListInv(AdvanceFetch(s, i))
  {
    var e := s.threads[i].e;
    var s' := AdvanceFetch(s, i);
    var w := Without(s.list, e);
    WithoutInOrder(s, s.list, e);
    WithoutMembers(s.list, e);
    forall k, l | 0 <= k < l < |s'.list|
      ensures Older(s', s'.list[k], s'.list[l])
    {
      assert s'.list[k] == w[k] && w[k] in w;
      assert ListedOk(s, w[k]);
      if l < |w| {
        assert w[l] in w && Older(s, w[k], w[l]);
      }
    }
  }

  lemma HitMoveStore(s: State, i: nat)
    requires i < |s.threads| && s.threads[i].HitMove? && StoreInv(s, s.threads[i])
    ensures var s' := AdvanceFetch(s, i); StoreInv(s', s'.threads[i])
  {
    WithoutMembers(s.list, s.threads[i].e);
    MoveList(s, i);
    var s' := AdvanceFetch(s, i);
    assert forall x :: x in s'.list <==> x in s.list;
  }

  lemma UnlinkHeadStore(s: State, i: nat)
    requires i < |s.threads| && s.threads[i].Evicting? && StoreInv(s, s.threads[i])
    requires s.size > s.limit && s.list != []
    ensures var s' := AdvanceFetch(s, i); StoreInv(s', s'.threads[i])
  {
    var s' := AdvanceFetch(s, i);
    var head := s.list[0];
    assert head in s.list;
    assert s.list == [head] + s'.list;
    TailInOrder(s, s.list);
    assert InOrder(s', s'.list);
  }

  lemma TailInOrder(s: State, list: seq<nat>)
    requires InOrder(s, list) && list != []
    ensures InOrder(s, list[1..]) && list[0] !in list[1..]
  {
    forall l | 0 <= l < |list| - 1
      ensures list[1..][l] != list[0]
    {
      assert Older(s, list[0], list[l + 1]);
    }
    forall k, l | 0 <= k < l < |list| - 1
      ensures Older(s, list[1..][k], list[1..][l])
    {
      assert Older(s, list[k + 1], list[l + 1]);
    }
  }

  lemma NewEntryStore(s: State, i: nat)
    requires i < |s.threads| && s.threads[i].Evicting? && StoreInv(s, s.threads[i])
    requires !(s.size > s.limit && s.list != [])
    ensures var s' := AdvanceFetch(s, i); StoreInv(s', s'.threads[i])
  {
  }

  lemma FetchOutStore(s: State, i: nat)
    requires i < |s.threads| && s.threads[i].FetchOut? && StoreInv(s, s.threads[i])
    ensures StoreInv(AdvanceFetch(s, i), Idle)
  {
  }

  lemma RemInStore(s: State, i: nat)
    requires i < |s.threads| && s.threads[i].RemIn? && StoreInv(s, s.threads[i])
    ensures var s' := AdvanceRemove(s, i); StoreInv(s', s'.threads[i])
  {
  }

  lemma RemOutStore(s: State, i: nat)
    requires i < |s.threads| && s.threads[i].RemOut? && StoreInv(s, s.threads[i]) && LocalInv(s, s.threads[i])
    ensures var s' := AdvanceRemove(s, i); StoreInv(s', s'.threads[i])
  {
    var s' := AdvanceRemove(s, i);
    forall e | e in s'.list
      ensures ListedOk(s', e)
    {
      assert ListedOk(s, e);
    }
  }

  lemma OldOutStore(s: State, i: nat)
    requires i < |s.threads| && s.threads[i].OldIn? && StoreInv(s, s.threads[i]) && LocalInv(s, s.threads[i])
    ensures var s' := AdvanceCommit(s, i); StoreInv(s', s'.threads[i])
  {
    var s' := AdvanceCommit(s, i);
    var f := s.threads[i].f;
    assert ListedOk(s, f);
    if s'.threads[i].ComOut? {
      StoreFrame(s, s', s.threads[i], s'.threads[i]);
    } else {
      WithoutList(s, s', f);
      WithoutMembers(s.list, f);
    }
  }

  lemma ComAddStore(s: State, i: nat)
    requires i < |s.threads| && s.threads[i].ComAdd? && StoreInv(s, s.threads[i]) && LocalInv(s, s.threads[i])
    ensures var s' := AdvanceCommit(s, i); StoreInv(s', s'.threads[i])
  {
    var s' := AdvanceCommit(s, i);
    var e := s.threads[i].e;
    forall x | x in s'.list
      ensures ListedOk(s', x)
    {
      assert x != e ==> ListedOk(s, x);
    }
    forall k, l | 0 <= k < l < |s'.list|
      ensures Older(s', s'.list[k], s'.list[l])
    {
      assert s.list[k] in s.list && ListedOk(s, s.list[k]);
      if l < |s.list| {
        assert s.list[l] in s.list && Older(s, s.list[k], s.list[l]);
      }
    }
  }

  /** Who is inside the cache lock after a step. */
  lemma CurrentAfter(s: State, s': State, i: nat, pc': Pc)
    requires LockInv(s) && i < |s.threads| && LockEffect(s, s', i, pc')
    ensures Current(s') ==
            if HoldsCache(pc') then pc' else if HoldsCache(s.threads[i]) then Idle else Current(s)
    ensures HoldsCache(s.threads[i]) ==> Current(s) == s.threads[i]
    ensures HoldsCache(pc') && !HoldsCache(s.threads[i]) ==> Current(s) == Idle
  {
    assert HoldsCache(s.threads[i]) <==> s.cacheOwner == i;
  }

  /** Steps inside the cache lock keep the map, the list and the entries consistent. */
  lemma InsideStore(s: State, i: nat)
    requires i < |s.threads| && LocalInv(s, s.threads[i]) && StoreInv(s, s.threads[i])
    requires HoldsCache(s.threads[i]) && Wants(s.threads[i]) == NoLock
    ensures var s' := Advance(s, i);
            StoreInv(s', if HoldsCache(s'.threads[i]) then s'.threads[i] else Idle)
  {
    var s' := Advance(s, i);
    match s.threads[i] {
      case HitMove(_) => HitMoveStore(s, i);
      case Evicting(_) =>
        if s.size > s.limit && s.list != [] { UnlinkHeadStore(s, i); } else { NewEntryStore(s, i); }
      case FetchOut(_) => FetchOutStore(s, i);
      case RemIn(_, _) => RemInStore(s, i);
      case RemOut(_, _, _) => RemOutStore(s, i);
      case OldIn(_, _) => OldOutStore(s, i);
      case ComAdd(_) => ComAddStore(s, i);
      case _ => QuietStore(s, i);
    }
  }

  lemma QuietStore(s: State, i: nat)
    requires i < |s.threads| && LocalInv(s, s.threads[i]) && StoreInv(s, s.threads[i])
    requires s.threads[i].FetchIn? || s.threads[i].HitIn? || s.threads[i].NewIn? || s.threads[i].ComBoth?
             || s.threads[i].ComOut?
    ensures var s' := Advance(s, i);
            StoreInv(s', if HoldsCache(s'.threads[i]) then s'.threads[i] else Idle)
  {
    var s' := Advance(s, i);
    QuietShape(s, i);
    StoreFrame(s, s', s.threads[i], if HoldsCache(s'.threads[i]) then s'.threads[i] else Idle);
  }

  lemma QuietShape(s: State, i: nat)
    requires i < |s.threads| && LocalInv(s, s.threads[i]) && StoreInv(s, s.threads[i])
    requires s.threads[i].FetchIn? || s.threads[i].HitIn? || s.threads[i].NewIn? || s.threads[i].ComBoth?
             || s.threads[i].ComOut?
    ensures var s' := Advance(s, i);
            var cur := if HoldsCache(s'.threads[i]) then s'.threads[i] else Idle;
            SameShape(s, s') && SameLeaving(s.threads[i], cur) && OwnerInv(s, cur)
  {
  }

  lemma OutsideStore(s: State, i: nat, cur: Pc)
    requires i < |s.threads| && LocalInv(s, s.threads[i]) && StoreInv(s, cur)
    requires s.threads[i].ActIn? || s.threads[i].ComIn? || s.threads[i].ComLast?
    ensures StoreInv(Advance(s, i), cur)
  {
    OutsideShape(s, i);
    StoreFrame(s, Advance(s, i), cur, cur);
  }

  lemma OutsideShape(s: State, i: nat)
    requires i < |s.threads| && InRange(s, s.threads[i])
    requires s.threads[i].ActIn? || s.threads[i].ComIn? || s.threads[i].ComLast?
    ensures SameShape(s, Advance(s, i))
  {
  }

  lemma TakeStore(s: State, i: nat, cur: Pc, cur': Pc)
    requires i < |s.threads| && InRange(s, s.threads[i]) && StoreInv(s, cur)
    requires Wants(s.threads[i]) != NoLock
    requires var pc := s.threads[i];
             if HoldsCache(pc) then cur == pc && cur' == Acquired(pc)
             else if HoldsCache(Acquired(pc)) then cur == Idle && cur' == Acquired(pc)
             else cur' == cur
    ensures StoreInv(Take(s, i), cur')
  {
    StoreFrame(s, Take(s, i), cur, cur');
  }

  /** Who is inside the cache lock after thread `i` has moved, if it was `cur` before. */
  function CurAfter(s: State, i: nat, s': State, cur: Pc): Pc
    requires i < |s.threads| == |s'.threads|
  {
    if HoldsCache(s'.threads[i]) then s'.threads[i] else if HoldsCache(s.threads[i]) then Idle else cur
  }

  lemma ActSize(s: State, i: nat, cur: Pc)
    requires i < |s.threads| && LocalInv(s, s.threads[i]) && SizeInv(s, cur) && s.threads[i].ActIn?
    ensures SizeInv(AdvanceAct(s, i), cur)
  {
    var e := s.threads[i].e;
    SumUpdate(s.entries, Weight, e, AdvanceAct(s, i).entries[e]);
  }

  lemma SameWeight(entries: seq<Entry>, e: nat, en: Entry)
    requires e < |entries| && Weight(en) == Weight(entries[e])
    ensures Sum(entries[e := en], Weight) == Sum(entries, Weight)
  {
    SumUpdate(entries, Weight, e, en);
  }

  /** A fetch adds an empty entry, or changes nothing that an entry weighs. */
  lemma FetchWeighsNothing(s: State, i: nat)
    requires i < |s.threads| && InRange(s, s.threads[i]) && InFetch(s.threads[i])
    ensures Sum(AdvanceFetch(s, i).entries, Weight) == Sum(s.entries, Weight)
  {
    match s.threads[i] {
      case HitIn(_, e) => SameWeight(s.entries, e, s.entries[e].(owner := NOBODY));
      case HitMove(e) => SameWeight(s.entries, e, s.entries[e].(used := s.clock));
      case Evicting(url) => SumAppend(s.entries, Weight, Entry(url, 0, Partial, false, true, false, 0, NOBODY));
      case NewIn(e) => SameWeight(s.entries, e, s.entries[e].(owner := NOBODY));
      case FetchOut(e) => SameWeight(s.entries, e, s.entries[e].(published := true));
      case FetchIn(_) =>
    }
  }

  lemma FetchSize(s: State, i: nat, cur: Pc)
    requires i < |s.threads| && InRange(s, s.threads[i]) && SizeInv(s, cur) && InFetch(s.threads[i])
             && cur == s.threads[i]
    ensures SizeInv(AdvanceFetch(s, i), CurAfter(s, i, AdvanceFetch(s, i), cur))
  {
    FetchWeighsNothing(s, i);
    var s' := AdvanceFetch(s, i);
    assert s'.size == s.size && Pending(s'.threads[i]) == 0;
  }

  lemma RemoveSize(s: State, i: nat, cur: Pc)
    requires i < |s.threads| && LocalInv(s, s.threads[i]) && SizeInv(s, cur) && InRemove(s.threads[i])
    requires Wants(s.threads[i]) == NoLock && (HoldsCache(s.threads[i]) ==> cur == s.threads[i] && StoreInv(s, cur))
    ensures SizeInv(AdvanceRemove(s, i), CurAfter(s, i, AdvanceRemove(s, i), cur))
  {
    var s', pc := AdvanceRemove(s, i), s.threads[i];
    if pc.RemIn? {
      SumUpdate(s.entries, Weight, pc.e, s'.entries[pc.e]);
    }
  }

  lemma CommitSize(s: State, i: nat, cur: Pc)
    requires i < |s.threads| && LocalInv(s, s.threads[i]) && SizeInv(s, cur) && InCommit(s.threads[i])
    requires Wants(s.threads[i]) == NoLock && (HoldsCache(s.threads[i]) ==> cur == s.threads[i] && StoreInv(s, cur))
    ensures SizeInv(AdvanceCommit(s, i), CurAfter(s, i, AdvanceCommit(s, i), cur))
  {
    var s', pc := AdvanceCommit(s, i), s.threads[i];
    if pc.OldIn? {
      SumUpdate(s.entries, Weight, pc.f, s'.entries[pc.f]);
    } else if pc.ComAdd? || pc.ComLast? {
      SumUpdate(s.entries, Weight, pc.e, s'.entries[pc.e]);
    }
  }

  /** The byte total follows every write, commit and removal. */
  lemma AdvanceSize(s: State, i: nat, cur: Pc)
    requires i < |s.threads| && LocalInv(s, s.threads[i]) && SizeInv(s, cur)
    requires !s.threads[i].Idle? && Wants(s.threads[i]) == NoLock
    requires HoldsCache(s.threads[i]) ==> cur == s.threads[i] && StoreInv(s, cur)
    ensures SizeInv(Advance(s, i), CurAfter(s, i, Advance(s, i), cur))
  {
    var pc := s.threads[i];
    if pc.ActIn? {
      ActSize(s, i, cur);
    } else if InFetch(pc) {
      FetchSize(s, i, cur);
    } else if InRemove(pc) {
      RemoveSize(s, i, cur);
    } else {
      CommitSize(s, i, cur);
    }
  }

  lemma TakeSize(s: State, i: nat)
    requires i < |s.threads| && InRange(s, s.threads[i]) && Wants(s.threads[i]) != NoLock
    ensures Take(s, i).size == s.size && Sum(Take(s, i).entries, Weight) == Sum(s.entries, Weight)
  {
    if Wants(s.threads[i]).EntryLock? {
      var e := Wants(s.threads[i]).e;
      SumUpdate(s.entries, Weight, e, s.entries[e].(owner := i));
    }
  }

  lemma AdvanceKeepsInv(s: State, i: nat)
    requires Inv(s) && i < |s.threads| && !s.threads[i].Idle? && Wants(s.threads[i]) == NoLock
    ensures InRange(s, s.threads[i]) && Inv(Advance(s, i))
  {
    var pc := s.threads[i];
    assert LocalInv(s, pc);
    var s' := Advance(s, i);
    var pc' := s'.threads[i];
    assert HoldsCache(pc) <==> s.cacheOwner == i;
    if HoldsCache(pc) { NearFromStore(s, pc); }
    AdvanceEffects(s, i);
    CurrentAfter(s, s', i, pc');
    LocksKept(s, s', i, pc');
    LocalsKept(s, s', i, pc');
    if HoldsCache(pc) { InsideStore(s, i); } else { OutsideStore(s, i, Current(s)); }
    AdvanceSize(s, i, Current(s));
  }

  lemma AdvanceEffects(s: State, i: nat)
    requires LockInv(s) && i < |s.threads| && LocalInv(s, s.threads[i]) && NearInv(s, s.threads[i])
    requires !s.threads[i].Idle? && Wants(s.threads[i]) == NoLock
    ensures var s' := Advance(s, i);
            LockEffect(s, s', i, s'.threads[i]) && Evolves(s, s', i) && LocalInv(s', s'.threads[i])
  {
    assert OwnLocks(s, i);
    match s.threads[i] {
      case ActIn(_, _) => ActEffect(s, i); ActEvolves(s, i);
      case FetchIn(_) => LookupEffect(s, i); FetchEvolves(s, i);
      case HitIn(_, _) => LookupEffect(s, i); FetchEvolves(s, i);
      case HitMove(_) => HitEffect(s, i); FetchEvolves(s, i);
      case Evicting(_) => EvictEffect(s, i); FetchEvolves(s, i);
      case NewIn(_) => NewEffect(s, i); FetchEvolves(s, i);
      case FetchOut(_) => NewEffect(s, i); FetchEvolves(s, i);
      case RemIn(_, _) => RemoveEffect(s, i); RemoveEvolves(s, i);
      case RemOut(_, _, _) => RemoveEffect(s, i); RemoveEvolves(s, i);
      case ComBoth(_) => CommitLookupEffect(s, i); CommitEvolves(s, i);
      case OldIn(_, _) => CommitLookupEffect(s, i); CommitEvolves(s, i);
      case ComAdd(_) => CommitAddEffect(s, i); CommitEvolves(s, i);
      case _ => CommitEndsEffect(s, i); CommitEvolves(s, i);
    }
  }

  lemma TakeKeepsInv(s: State, i: nat)
    requires Inv(s) && i < |s.threads| && Wants(s.threads[i]) != NoLock && Free(s, Wants(s.threads[i]))
    ensures InRange(s, s.threads[i]) && Inv(Take(s, i))
  {
    var pc := s.threads[i];
    assert LocalInv(s, pc);
    var s' := Take(s, i);
    assert OwnLocks(s, i);
    TakeEffect(s, i);
    CurrentAfter(s, s', i, Acquired(pc));
    LocksKept(s, s', i, Acquired(pc));
    TakeLocals(s, i);
    TakeStore(s, i, Current(s), Current(s'));
    TakeSize(s, i);
  }

  lemma TakeLocals(s: State, i: nat)
    requires LockInv(s) && LocalsInv(s) && i < |s.threads| && InRange(s, s.threads[i]) && Wants(s.threads[i]) != NoLock
    ensures LocalsInv(Take(s, i))
  {
    var pc := s.threads[i];
    var s' := Take(s, i);
    assert LocalInv(s, pc);
    assert LocalInv(s', Acquired(pc));
    LocalsKept(s, s', i, Acquired(pc));
  }

  lemma StartKeepsInv(s: State, step: Step)
    requires Inv(s) && Enabled(s, step) && step.Start?
    ensures InRange(s, s.threads[step.i]) && Inv(Do(s, step))
  {
    var s' := Do(s, step);
    var i := step.i;
    var pc' := s'.threads[i];
    assert s'.entries == s.entries && s'.threads == s.threads[i := pc'];
    assert OwnLocks(s, i);
    CurrentAfter(s, s', i, pc');
    LocksKept(s, s', i, pc');
    LocalsKept(s, s', i, pc');
    StoreFrame(s, s', Current(s), Current(s));
  }

  lemma StepKeepsInv(s: State, step: Step)
    requires Inv(s) && Enabled(s, step)
    ensures InRange(s, s.threads[step.i]) && Inv(Do(s, step))
  {
    if step.Start? {
      StartKeepsInv(s, step);
    } else if Wants(s.threads[step.i]) != NoLock {
      TakeKeepsInv(s, step.i);
    } else {
      AdvanceKeepsInv(s, step.i);
    }
  }

  lemma InvIsInductive()
    ensures Runs.Inductive(Init, Next, Inv)
  {
    forall s, s' | Inv(s) && Next(s, s') ensures Inv(s')
    {
      var step :| Enabled(s, step) && InRange(s, s.threads[step.i]) && s' == Do(s, step);
      StepKeepsInv(s, step);
    }
  }

  lemma ReachableHasInv(s: State)
    requires Reachable(s)
    ensures Inv(s)
  {
    InvIsInductive();
    Runs.HoldsWhenReachable(Init, Next, Inv, s);
  }

  // ---------- the theorems ----------

  /** Whoever holds an entry that the thread inside the cache lock waits for, can go on. */
  lemma AwaitedEntryHolderRuns(s: State, c: nat, e: nat)
    requires Inv(s) && c < |s.threads| && HoldsCache(s.threads[c])
    requires Wants(s.threads[c]) == EntryLock(e) && !Free(s, EntryLock(e))
    ensures e < |s.entries| && 0 <= s.entries[e].owner < |s.threads|
    ensures Wants(s.threads[s.entries[e].owner]) == NoLock
  {
    var pc := s.threads[c];
    assert LocalInv(s, pc);
    assert s.cacheOwner == c;
    var h := s.entries[e].owner;
    assert Holds(s.threads[h], e);
    assert LocalInv(s, s.threads[h]);
    assert HoldsCache(s.threads[h]) ==> h == c;
    assert !pc.NewWant? ==> s.entries[e].committed by {
      assert pc.HitWant? ==> ListedOk(s, pc.e);
      assert pc.OldWant? ==> ListedOk(s, pc.f);
    }
  }

  /** Thread `j` owns the lock that thread `i` waits for. */
  predicate Blocks(s: State, i: nat, j: nat)
  {
    && i < |s.threads| && j < |s.threads|
    && match Wants(s.threads[i])
       case NoLock => false
       case CacheLock => s.cacheOwner == j
       case EntryLock(e) => e < |s.entries| && s.entries[e].owner == j
  }

  /** Each thread of the chain is blocked by the next, and the last one can step. */
  predicate LeadsOut(s: State, chain: seq<nat>)
  {
    && chain != [] && (forall k :: 0 <= k < |chain| - 1 ==> Blocks(s, chain[k], chain[k + 1]))
    && Enabled(s, Go(chain[|chain| - 1]))
  }

  lemma OneMoreLink(s: State, i: nat, chain: seq<nat>)
    requires LeadsOut(s, chain) && Blocks(s, i, chain[0])
    ensures LeadsOut(s, [i] + chain)
  {
    var longer := [i] + chain;
    forall k | 0 <= k < |longer| - 1
      ensures Blocks(s, longer[k], longer[k + 1])
    {
      if k > 0 {
        assert Blocks(s, chain[k - 1], chain[k - 1 + 1]);
      }
    }
  }

  /** From a thread inside the cache lock at most one lock leads out. */
  lemma OutOfCache(s: State, c: nat) returns (chain: seq<nat>)
    requires Inv(s) && c < |s.threads| && HoldsCache(s.threads[c])
    ensures |chain| <= 2 && LeadsOut(s, chain) && chain[0] == c
  {
    chain := [c];
    assert LocalInv(s, s.threads[c]);
    if !Free(s, Wants(s.threads[c])) {
      var e := Wants(s.threads[c]).e;
      AwaitedEntryHolderRuns(s, c, e);
      var h := s.entries[e].owner;
      assert Holds(s.threads[h], e);
      OneMoreLink(s, c, [h]);
      chain := [c] + [h];
    }
  }

  lemma WantsCacheOut(s: State, i: nat) returns (chain: seq<nat>)
    requires Inv(s) && i < |s.threads| && Wants(s.threads[i]) == CacheLock
    ensures |chain| <= 3 && LeadsOut(s, chain) && chain[0] == i
  {
    chain := [i];
    if s.cacheOwner != NOBODY {
      assert HoldsCache(s.threads[s.cacheOwner]);
      chain := OutOfCache(s, s.cacheOwner);
      OneMoreLink(s, i, chain);
      chain := [i] + chain;
    }
  }

  /** A thread that holds an entry waits for nothing, for the cache lock, or inside the cache lock. */
  lemma HolderOut(s: State, h: nat, e: nat) returns (chain: seq<nat>)
    requires Inv(s) && h < |s.threads| && Holds(s.threads[h], e)
    ensures |chain| <= 3 && LeadsOut(s, chain) && chain[0] == h
  {
    assert LocalInv(s, s.threads[h]);
    if Wants(s.threads[h]) == CacheLock {
      chain := WantsCacheOut(s, h);
    } else if HoldsCache(s.threads[h]) {
      chain := OutOfCache(s, h);
    } else {
      chain := [h];
    }
  }

  /** The cache never deadlocks: from any thread inside an operation, following at most three
      locks, each to the thread that owns it, leads to a thread that can step. */
  lemma NoDeadlock(s: State, i: nat) returns (chain: seq<nat>)
    requires Reachable(s) && i < |s.threads| && !s.threads[i].Idle?
    ensures |chain| <= 4 && LeadsOut(s, chain) && chain[0] == i
  {
    ReachableHasInv(s);
    assert LocalInv(s, s.threads[i]);
    if Wants(s.threads[i]) == CacheLock {
      chain := WantsCacheOut(s, i);
    } else if Free(s, Wants(s.threads[i])) {
      chain := [i];
    } else {
      var e := Wants(s.threads[i]).e;
      var h := s.entries[e].owner;
      assert Holds(s.threads[h], e);
      chain := HolderOut(s, h, e);
      OneMoreLink(s, i, chain);
      chain := [i] + chain;
    }
  }

  /** The comments at the two nested lock calls, made precise: a thread that waits for the cache
      lock with an entry locked has one that no list contains and no other thread inside the
      cache lock waits for. */
  lemma NestedLocksAreSafe(s: State, i: nat, e: nat)
    requires Reachable(s) && i < |s.threads| && e < |s.entries|
    requires Wants(s.threads[i]) == CacheLock && Holds(s.threads[i], e)
    ensures e !in s.list && !s.entries[e].committed && s.entries[e].attached
    ensures forall c :: 0 <= c < |s.threads| && HoldsCache(s.threads[c]) ==> Wants(s.threads[c]) != EntryLock(e)
  {
    ReachableHasInv(s);
    assert LocalInv(s, s.threads[i]);
    assert s.entries[e].owner == i;
    assert e in s.list ==> ListedOk(s, e);
    forall c | 0 <= c < |s.threads| && HoldsCache(s.threads[c])
      ensures Wants(s.threads[c]) != EntryLock(e)
    {
      if Wants(s.threads[c]) == EntryLock(e) {
        AwaitedEntryHolderRuns(s, c, e);
      }
    }
  }

  /** Bytes of the entries on a list. */
  ghost function ListedBytes(entries: seq<Entry>, list: seq<nat>): nat
    requires forall k :: 0 <= k < |list| ==> list[k] < |entries|
  {
    if list == [] then 0 else ListedBytes(entries, list[..|list| - 1]) + entries[list[|list| - 1]].len
  }

  lemma {:induction false} ListedBytesSame(entries: seq<Entry>, entries': seq<Entry>, list: seq<nat>)
    requires forall k :: 0 <= k < |list| ==> list[k] < |entries|
    requires |entries'| == |entries|
    requires forall k :: 0 <= k < |list| ==> entries'[list[k]].len == entries[list[k]].len
    ensures ListedBytes(entries', list) == ListedBytes(entries, list)
  {
    if list != [] {
      ListedBytesSame(entries, entries', list[..|list| - 1]);
    }
  }

  lemma LastDetached(entries: seq<Entry>, list: seq<nat>)
    requires list != [] && forall k :: 0 <= k < |list| ==> list[k] < |entries|
    requires forall k, l :: 0 <= k < l < |list| ==> list[k] != list[l]
    requires forall e :: 0 <= e < |entries| ==> (entries[e].committed && entries[e].attached <==> e in list)
    ensures var front, e := list[..|list| - 1], list[|list| - 1];
            var entries' := entries[e := entries[e].(attached := false)];
            && entries[e].committed && entries[e].attached && e !in front
            && forall x :: 0 <= x < |entries'| ==> (entries'[x].committed && entries'[x].attached <==> x in front)
  {
    var front, e := list[..|list| - 1], list[|list| - 1];
    assert list == front + [e];
    assert e in list;
  }

  /** The total weight is that of the listed entries, when these are the attached committed ones. */
  lemma {:induction false} WeightIsListedBytes(entries: seq<Entry>, list: seq<nat>)
    requires forall k :: 0 <= k < |list| ==> list[k] < |entries|
    requires forall k, l :: 0 <= k < l < |list| ==> list[k] != list[l]
    requires forall e :: 0 <= e < |entries| ==> (entries[e].committed && entries[e].attached <==> e in list)
    ensures Sum(entries, Weight) == ListedBytes(entries, list)
    decreases |list|
  {
    if list == [] {
      NoWeight(entries);
    } else {
      var front, e := list[..|list| - 1], list[|list| - 1];
      var entries' := entries[e := entries[e].(attached := false)];
      LastDetached(entries, list);
      SumUpdate(entries, Weight, e, entries'[e]);
      WeightIsListedBytes(entries', front);
      ListedBytesSame(entries, entries', front);
    }
  }

  lemma {:induction false} NoWeight(entries: seq<Entry>)
    requires forall e :: 0 <= e < |entries| ==> Weight(entries[e]) == 0
    ensures Sum(entries, Weight) == 0
  {
    if entries != [] {
      NoWeight(entries[..|entries| - 1]);
    }
  }

  /** Whenever the cache lock is free, the map and the list are in bijection, an entry is listed
      exactly when it is committed with a non-null cache pointer, and the byte total is the sum of
      the listed buffers, however many writers are active. */
  lemma BooksBalance(s: State)
    requires Reachable(s) && s.cacheOwner == NOBODY
    ensures forall u :: u in s.map_ ==> s.map_[u] in s.list && s.map_[u] < |s.entries| && s.entries[s.map_[u]].url == u
    ensures forall e :: e in s.list ==> e < |s.entries| && s.entries[e].url in s.map_ && s.map_[s.entries[e].url] == e
    ensures forall e :: 0 <= e < |s.entries| ==> (e in s.list <==> s.entries[e].committed && s.entries[e].attached)
    ensures forall k, l :: 0 <= k < l < |s.list| ==> s.list[k] != s.list[l]
    ensures (forall k :: 0 <= k < |s.list| ==> s.list[k] < |s.entries|) && s.size == ListedBytes(s.entries, s.list)
  {
    ReachableHasInv(s);
    ListIsDistinct(s);
    WeightIsListedBytes(s.entries, s.list);
  }

  lemma ListIsDistinct(s: State)
    requires ListInv(s)
    ensures forall k, l :: 0 <= k < l < |s.list| ==> s.list[k] != s.list[l]
    ensures forall k :: 0 <= k < |s.list| ==> s.list[k] < |s.entries|
  {
    forall k | 0 <= k < |s.list|
      ensures s.list[k] < |s.entries|
    {
      assert ListedOk(s, s.list[k]);
    }
    forall k, l | 0 <= k < l < |s.list|
      ensures s.list[k] != s.list[l]
    {
      assert Older(s, s.list[k], s.list[l]);
    }
  }

  /** The source's asserts hold in every run: a removal finds its own node in the map and no more
      bytes than the total, a commit finds a non-null cache pointer, and the eviction loop never
      meets an empty list. */
  lemma AssertsHold(s: State, i: nat)
    requires Reachable(s) && i < |s.threads|
    ensures var pc := s.threads[i];
            && (pc.RemOut? ==>
                  && pc.size <= s.size && pc.e < |s.entries|
                  && s.entries[pc.e].url in s.map_ && s.map_[s.entries[pc.e].url] == pc.e)
            && (pc.ComCache? ==> pc.e < |s.entries| && s.entries[pc.e].attached)
            && (pc.Evicting? && s.size > s.limit ==> s.list != [])
  {
    ReachableHasInv(s);
    var pc := s.threads[i];
    assert LocalInv(s, pc);
    assert HoldsCache(pc) ==> Current(s) == pc;
    if pc.Evicting? && s.list == [] {
      NoWeight(s.entries);
    }
  }

  /** The list is always in order of last commit or hit, so what the eviction loop unlinks is the
      least recently used entry, and it does so only while the total exceeds the limit. */
  lemma EvictsLeastRecentlyUsed(s: State, i: nat)
    requires Reachable(s) && i < |s.threads| && s.threads[i].Evicting?
    requires Advance(s, i).list != s.list
    ensures s.size > s.limit && s.list != [] && Advance(s, i).list == s.list[1..]
    ensures Advance(s, i).threads[i] == RemWant(s.list[0], ThenFetch(s.threads[i].url))
    ensures forall k :: 1 <= k < |s.list| ==> Older(s, s.list[0], s.list[k])
  {
    ReachableHasInv(s);
    FirstIsOldest(s);
  }

  lemma FirstIsOldest(s: State)
    requires InOrder(s, s.list)
    ensures forall k :: 1 <= k < |s.list| ==> Older(s, s.list[0], s.list[k])
  {
  }

  /** Only a hit or a commit refreshes an entry, and either puts it at the end of the list. */
  lemma UseMovesToEnd(s: State, step: Step, e: nat)
    requires Reachable(s) && Enabled(s, step) && e < |s.entries|
    ensures InRange(s, s.threads[step.i])
    ensures var s' := Do(s, step);
            && e < |s'.entries|
            && (s'.entries[e].used != s.entries[e].used ==>
                  && (s.threads[step.i] == HitMove(e) || s.threads[step.i] == ComAdd(e))
                  && s'.entries[e].used == s.clock && s'.clock == s.clock + 1
                  && s'.list != [] && s'.list[|s'.list| - 1] == e)
  {
    assert InRange(s, s.threads[step.i]) by {
      ReachableHasInv(s);
      assert LocalInv(s, s.threads[step.i]);
    }
    UseEffect(s, step, e);
  }

  lemma UseEffect(s: State, step: Step, e: nat)
    requires Enabled(s, step) && InRange(s, s.threads[step.i]) && e < |s.entries|
    ensures var s' := Do(s, step);
            && e < |s'.entries|
            && (s'.entries[e].used != s.entries[e].used ==>
                  && (s.threads[step.i] == HitMove(e) || s.threads[step.i] == ComAdd(e))
                  && s'.entries[e].used == s.clock && s'.clock == s.clock + 1
                  && s'.list != [] && s'.list[|s'.list| - 1] == e)
  {
    var pc := s.threads[step.i];
    if pc.HitMove? || pc.ComAdd? {
      return;
    } else if InFetch(pc) || InRemove(pc) {
      return;
    } else if InCommit(pc) {
      return;
    }
  }
}
