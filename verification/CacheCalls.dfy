/** What the operations on the cache of a.yanin/waxy do for their callers, in any interleaving: each
    thread of the locking model is followed together with the request it was started for. */
module CacheCalls {
  import opened CacheEntries
  import opened CacheLocks
  import Runs

  /** `reqs` holds the request each thread was last started for. `shorter` records that the thread,
      with both locks in hand, has found a stored entry shorter than the one it commits. */
  datatype Tracked = Tracked(s: State, reqs: seq<Request>, shorter: seq<bool>)

  predicate MeetsShorter(s: State, pc: Pc)
  {
    pc.OldIn? && InRange(s, pc) && s.entries[pc.f].len < s.entries[pc.e].len
  }

  ghost predicate NextStep(t: Tracked, t': Tracked, step: Step)
  {
    && |t.reqs| == |t.shorter| == |t.s.threads|
    && Enabled(t.s, step) && InRange(t.s, t.s.threads[step.i]) && t'.s == Do(t.s, step)
    && match step
       case Start(i, req) => t'.reqs == t.reqs[i := req] && t'.shorter == t.shorter[i := false]
       case Go(i) =>
         t'.reqs == t.reqs && t'.shorter == t.shorter[i := t.shorter[i] || MeetsShorter(t.s, t.s.threads[i])]
  }

  ghost predicate Next(t: Tracked, t': Tracked) { exists step :: NextStep(t, t', step) }

  ghost predicate Init(t: Tracked) { CacheLocks.Init(t.s) && |t.reqs| == |t.shorter| == |t.s.threads| }

  ghost predicate Reachable(t: Tracked) { Runs.Reachable(Init, Next, t) }

  // ---------- what every step keeps of an entry ----------

  /** An entry keeps its URL, grows until it is complete, changes its state once, and is committed,
      published and detached once and for all. */
  predicate Kept(a: Entry, b: Entry)
  {
    && b.url == a.url && a.len <= b.len && (a.st == Complete ==> b.len == a.len) && (a.st != Partial ==> b.st == a.st)
    && (a.committed ==> b.committed) && (a.published ==> b.published) && (b.attached ==> a.attached)
  }

  ghost predicate AllKept(s: State, s': State)
  {
    |s.entries| <= |s'.entries| && forall e :: 0 <= e < |s.entries| ==> Kept(s.entries[e], s'.entries[e])
  }

  lemma FetchKeeps(s: State, i: nat)
    requires i < |s.threads| && InRange(s, s.threads[i]) && InFetch(s.threads[i])
    ensures AllKept(s, AdvanceFetch(s, i))
  {
  }

  lemma CommitKeeps(s: State, i: nat)
    requires i < |s.threads| && InRange(s, s.threads[i]) && InCommit(s.threads[i])
    requires s.threads[i].OldIn? ==> s.threads[i].f < |s.entries|
    ensures AllKept(s, AdvanceCommit(s, i))
  {
  }

  lemma EntriesAreKept(s: State, step: Step)
    requires Enabled(s, step) && InRange(s, s.threads[step.i])
    ensures AllKept(s, Do(s, step))
  {
    var pc := s.threads[step.i];
    if step.Start? || Wants(pc) != NoLock || pc.ActIn? || InRemove(pc) {
      return;
    } else if InFetch(pc) {
      FetchKeeps(s, step.i);
      return;
    }
    CommitKeeps(s, step.i);
  }

  lemma MapIsKept(s: State, step: Step)
    requires Enabled(s, step) && InRange(s, s.threads[step.i]) && !HoldsCache(s.threads[step.i])
    ensures Do(s, step).map_ == s.map_
  {
  }

  /** Only the thread that adds an entry to the list marks it as committed. */
  ghost predicate CommitsAt(s: State, s': State, pc: Pc)
  {
    |s.entries| <= |s'.entries| && forall e :: 0 <= e < |s.entries| ==>
      (s'.entries[e].committed != s.entries[e].committed ==> pc == ComAdd(e))
  }

  lemma FetchCommitsNothing(s: State, i: nat)
    requires i < |s.threads| && InRange(s, s.threads[i]) && InFetch(s.threads[i])
    ensures CommitsAt(s, AdvanceFetch(s, i), s.threads[i])
  {
  }

  lemma CommitCommitsOne(s: State, i: nat)
    requires i < |s.threads| && InRange(s, s.threads[i]) && InCommit(s.threads[i])
    ensures CommitsAt(s, AdvanceCommit(s, i), s.threads[i])
  {
  }

  lemma CommittedByAdd(s: State, step: Step)
    requires Enabled(s, step) && InRange(s, s.threads[step.i])
    ensures CommitsAt(s, Do(s, step), s.threads[step.i])
  {
    var pc := s.threads[step.i];
    if step.Start? || Wants(pc) != NoLock || pc.ActIn? || InRemove(pc) {
      return;
    } else if InFetch(pc) {
      FetchCommitsNothing(s, step.i);
      return;
    }
    CommitCommitsOne(s, step.i);
  }

  // ---------- what a program counter says about its request ----------

  /** No entry that could still be used is stored under the URL. */
  predicate NoneUsable(s: State, url: Url)
  {
    url in s.map_ ==> s.map_[url] < |s.entries| && s.entries[s.map_[url]].st == Invalid
  }

  predicate HasUrl(s: State, e: nat, req: Request) { e < |s.entries| && req == Fetch(s.entries[e].url) }

  /** A fetch works for its URL: it looks at the entry stored under it, makes a new one only if there
      is none to use, and comes out with an entry for that URL. */
  predicate FetchServes(s: State, pc: Pc, req: Request)
  {
    match pc
    case FetchWant(url) => req == Fetch(url)
    case FetchIn(url) => req == Fetch(url)
    case HitWant(url, e) => req == Fetch(url) && url in s.map_ && s.map_[url] == e && HasUrl(s, e, req)
    case HitIn(url, e) => req == Fetch(url) && url in s.map_ && s.map_[url] == e && HasUrl(s, e, req)
    case HitMove(e) => HasUrl(s, e, req)
    case Evicting(url) => req == Fetch(url) && NoneUsable(s, url)
    case NewWant(e) => HasUrl(s, e, req)
    case NewIn(e) => HasUrl(s, e, req)
    case FetchOut(e) => HasUrl(s, e, req)
    case _ => true
  }

  predicate ThenServes(s: State, k: Then, req: Request, shorter: bool)
  {
    match k
    case ThenFetch(url) => req == Fetch(url) && NoneUsable(s, url)
    case ThenCommit(e) => req == Commit(e) && !shorter
  }

  /** A commit works for its entry, which ends up committed unless a shorter one was found stored. */
  predicate CommitServes(s: State, pc: Pc, req: Request, shorter: bool)
  {
    if pc.ComWant? || pc.ComIn? || pc.ComCache? || pc.ComBoth? || pc.OldWant? || pc.OldIn? || pc.ComAdd? then
      req == Commit(pc.e) && !shorter
    else if pc.ComOut? || pc.ComLast? then
      req == Commit(pc.e) && pc.e < |s.entries| && (s.entries[pc.e].committed <==> !shorter)
    else true
  }

  predicate Serves(s: State, pc: Pc, req: Request, shorter: bool)
  {
    && (pc.ActWant? || pc.ActIn? ==> req == Act(pc.e, pc.act))
    && FetchServes(s, pc, req) && CommitServes(s, pc, req, shorter)
    && (IsRemoving(pc) ==> ThenServes(s, pc.k, req, shorter))
  }

  lemma StartServes(s: State, i: nat, req: Request)
    requires Enabled(s, Start(i, req))
    ensures var s' := Do(s, Start(i, req)); |s'.threads| == |s.threads| && Serves(s', s'.threads[i], req, false)
  {
  }

  lemma TakeServes(s: State, i: nat, req: Request, shorter: bool)
    requires i < |s.threads| && InRange(s, s.threads[i]) && Wants(s.threads[i]) != NoLock
    requires Serves(s, s.threads[i], req, shorter)
    ensures var s' := Take(s, i); |s'.threads| == |s.threads| && Serves(s', s'.threads[i], req, shorter)
  {
  }

  lemma LookupServes(s: State, i: nat, req: Request, shorter: bool)
    requires i < |s.threads| && InRange(s, s.threads[i]) && (s.threads[i].FetchIn? || s.threads[i].HitIn?)
    requires Serves(s, s.threads[i], req, shorter) && MapInv(s, s.threads[i])
    ensures var s' := AdvanceFetch(s, i); |s'.threads| == |s.threads| && Serves(s', s'.threads[i], req, shorter)
  {
    if s.threads[i].FetchIn? {
      return;
    }
  }

  lemma EvictingServes(s: State, i: nat, req: Request, shorter: bool)
    requires i < |s.threads| && InRange(s, s.threads[i]) && s.threads[i].Evicting?
    requires Serves(s, s.threads[i], req, shorter)
    ensures var s' := AdvanceFetch(s, i); |s'.threads| == |s.threads| && Serves(s', s'.threads[i], req, shorter)
  {
  }

  lemma FetchAdvanceServes(s: State, i: nat, req: Request, shorter: bool)
    requires i < |s.threads| && InRange(s, s.threads[i]) && InFetch(s.threads[i])
    requires Serves(s, s.threads[i], req, shorter) && MapInv(s, s.threads[i])
    ensures var s' := AdvanceFetch(s, i); |s'.threads| == |s.threads| && Serves(s', s'.threads[i], req, shorter)
  {
    var pc := s.threads[i];
    if pc.FetchIn? || pc.HitIn? {
      LookupServes(s, i, req, shorter);
      return;
    } else if pc.Evicting? {
      EvictingServes(s, i, req, shorter);
      return;
    }
  }

  lemma RemoveAdvanceServes(s: State, i: nat, req: Request, shorter: bool)
    requires i < |s.threads| && InRange(s, s.threads[i]) && InRemove(s.threads[i])
    requires Serves(s, s.threads[i], req, shorter)
    ensures var s' := AdvanceRemove(s, i); |s'.threads| == |s.threads| && Serves(s', s'.threads[i], req, shorter)
  {
  }

  lemma CommitAdvanceServes(s: State, i: nat, req: Request, shorter: bool)
    requires i < |s.threads| && LocalInv(s, s.threads[i]) && InCommit(s.threads[i])
    requires Serves(s, s.threads[i], req, shorter)
    ensures var s' := AdvanceCommit(s, i);
            && |s'.threads| == |s.threads|
            && Serves(s', s'.threads[i], req, shorter || MeetsShorter(s, s.threads[i]))
  {
  }

  lemma AdvanceServes(s: State, i: nat, req: Request, shorter: bool)
    requires Inv(s) && Enabled(s, Go(i)) && InRange(s, s.threads[i]) && Serves(s, s.threads[i], req, shorter)
    ensures var s' := Do(s, Go(i));
            && |s'.threads| == |s.threads|
            && Serves(s', s'.threads[i], req, shorter || MeetsShorter(s, s.threads[i]))
  {
    var pc := s.threads[i];
    assert LocalInv(s, pc);
    if Wants(pc) != NoLock {
      TakeServes(s, i, req, shorter);
      return;
    } else if pc.ActIn? {
      return;
    } else if InFetch(pc) {
      assert Current(s) == pc;
      FetchAdvanceServes(s, i, req, shorter);
      return;
    } else if InRemove(pc) {
      RemoveAdvanceServes(s, i, req, shorter);
      return;
    }
    CommitAdvanceServes(s, i, req, shorter);
  }

  lemma ServesFrame(s: State, s': State, pc: Pc, req: Request, shorter: bool)
    requires Serves(s, pc, req, shorter) && AllKept(s, s') && (HoldsCache(pc) ==> s'.map_ == s.map_)
    requires (pc.ComOut? || pc.ComLast?) && pc.e < |s.entries| ==>
               s'.entries[pc.e].committed == s.entries[pc.e].committed
    ensures Serves(s', pc, req, shorter)
  {
  }

  /** The steps of others do not come between a thread and its request. */
  lemma OthersServe(s: State, step: Step, j: nat, req: Request, shorter: bool)
    requires Inv(s) && Enabled(s, step) && InRange(s, s.threads[step.i])
    requires j < |s.threads| && j != step.i && Serves(s, s.threads[j], req, shorter)
    ensures Serves(Do(s, step), s.threads[j], req, shorter)
  {
    var pc := s.threads[j];
    EntriesAreKept(s, step);
    CommittedByAdd(s, step);
    assert HoldsCache(pc) <==> s.cacheOwner == j;
    assert HoldsCache(s.threads[step.i]) <==> s.cacheOwner == step.i;
    if HoldsCache(pc) {
      MapIsKept(s, step);
    }
    if (pc.ComOut? || pc.ComLast?) && pc.e < |s.entries| {
      assert Holds(pc, pc.e) <==> s.entries[pc.e].owner == j;
      assert Holds(s.threads[step.i], pc.e) <==> s.entries[pc.e].owner == step.i;
    }
    ServesFrame(s, Do(s, step), pc, req, shorter);
  }

  // ---------- every reachable state ----------

  ghost predicate AllServe(t: Tracked)
  {
    && |t.reqs| == |t.shorter| == |t.s.threads| && Inv(t.s)
    && forall i :: 0 <= i < |t.s.threads| ==> Serves(t.s, t.s.threads[i], t.reqs[i], t.shorter[i])
  }

  lemma OnlyOneMoves(s: State, step: Step)
    requires Enabled(s, step) && InRange(s, s.threads[step.i])
    ensures var s' := Do(s, step);
            && |s'.threads| == |s.threads|
            && forall j :: 0 <= j < |s.threads| && j != step.i ==> s'.threads[j] == s.threads[j]
  {
  }

  lemma StepKeepsServing(t: Tracked, t': Tracked, step: Step)
    requires AllServe(t) && NextStep(t, t', step)
    ensures AllServe(t')
  {
    StepKeepsInv(t.s, step);
    OnlyOneMoves(t.s, step);
    forall j | 0 <= j < |t'.s.threads|
      ensures Serves(t'.s, t'.s.threads[j], t'.reqs[j], t'.shorter[j])
    {
      if j != step.i {
        OthersServe(t.s, step, j, t.reqs[j], t.shorter[j]);
      } else if step.Start? {
        StartServes(t.s, j, step.req);
      } else {
        AdvanceServes(t.s, j, t.reqs[j], t.shorter[j]);
      }
    }
  }

  lemma ReachableServes(t: Tracked)
    requires Reachable(t)
    ensures AllServe(t)
  {
    forall t | Init(t)
      ensures AllServe(t)
    {
      CacheLocks.InvIsInductive();
    }
    forall t, t' | AllServe(t) && Next(t, t')
      ensures AllServe(t')
    {
      var step :| NextStep(t, t', step);
      StepKeepsServing(t, t', step);
    }
    Runs.HoldsWhenReachable(Init, Next, AllServe, t);
  }

  lemma NewFrom(s: State, step: Step)
    requires Enabled(s, step) && InRange(s, s.threads[step.i]) && |Do(s, step).entries| != |s.entries|
    ensures s.threads[step.i].Evicting? && |Do(s, step).entries| == |s.entries| + 1
    ensures s.size <= s.limit || s.list == []
    ensures var en := Do(s, step).entries[|s.entries|];
            en.url == s.threads[step.i].url && en.len == 0 && en.st == Partial && !en.committed && !en.published
  {
  }

  /** An empty list leaves no bytes to count, so the limit is met when an entry is made. */
  lemma EmptyWeighsNothing(s: State, i: nat)
    requires Inv(s) && i < |s.threads| && s.threads[i].Evicting? && s.list == []
    ensures s.size <= s.limit
  {
    assert HoldsCache(s.threads[i]) <==> s.cacheOwner == i;
    assert Current(s) == s.threads[i];
    NoWeight(s.entries);
  }

  lemma HitFrom(s: State, step: Step)
    requires Enabled(s, step) && InRange(s, s.threads[step.i])
    requires |Do(s, step).threads| == |s.threads| && Do(s, step).threads[step.i].HitMove?
    ensures var pc := s.threads[step.i];
            && pc.HitIn? && pc.e == Do(s, step).threads[step.i].e && pc.e < |s.entries|
            && s.entries[pc.e].st != Invalid
  {
  }

  /** The caller of a fetch is given an entry for the URL it asked for. */
  lemma FetchGivesItsUrl(t: Tracked, i: nat)
    requires Reachable(t) && i < |t.s.threads| && t.s.threads[i].FetchOut?
    ensures |t.reqs| == |t.s.threads| && t.s.threads[i].e < |t.s.entries|
    ensures t.reqs[i] == Fetch(t.s.entries[t.s.threads[i].e].url)
  {
    ReachableServes(t);
    assert Serves(t.s, t.s.threads[i], t.reqs[i], t.shorter[i]);
  }

  /** The caller gets its handles when the fetch returns, and the cache lock is free again. */
  lemma FetchReturns(t: Tracked, t': Tracked, i: nat)
    requires Reachable(t) && NextStep(t, t', Go(i)) && t.s.threads[i].FetchOut?
    ensures var e := t.s.threads[i].e;
            && |t'.s.threads| == |t.s.threads| && t'.s.threads[i].Idle? && t'.s.cacheOwner == NOBODY
            && e < |t'.s.entries| && t'.s.entries[e].published && t'.reqs[i] == Fetch(t'.s.entries[e].url)
  {
    FetchGivesItsUrl(t, i);
  }

  /** A new entry is made only by a fetch that finds none for its URL, or an invalid one, at the very
      moment it makes it, and only after the cache has been brought within its limit; it is partial
      and empty and for that URL. */
  lemma NewOnlyIfNoneUsable(t: Tracked, t': Tracked, step: Step)
    requires Reachable(t) && NextStep(t, t', step) && |t'.s.entries| != |t.s.entries|
    ensures |t'.s.entries| == |t.s.entries| + 1
    ensures var en := t'.s.entries[|t.s.entries|];
            && t.reqs[step.i] == Fetch(en.url) && NoneUsable(t.s, en.url) && t.s.size <= t.s.limit
            && en.len == 0 && en.st == Partial && !en.committed && !en.published
  {
    NewFrom(t.s, step);
    ReachableServes(t);
    if t.s.list == [] {
      EmptyWeighsNothing(t.s, step.i);
    }
    assert Serves(t.s, t.s.threads[step.i], t.reqs[step.i], t.shorter[step.i]);
  }

  /** A fetch hands out a stored entry only if it is the one stored under its URL and, with its lock
      in hand, the fetch has not found it invalid. */
  lemma HitOnlyIfUsable(t: Tracked, t': Tracked, step: Step)
    requires Reachable(t) && NextStep(t, t', step)
    requires step.i < |t'.s.threads| && t'.s.threads[step.i].HitMove?
    ensures var e := t'.s.threads[step.i].e;
            && e < |t.s.entries| && t.reqs[step.i] == Fetch(t.s.entries[e].url)
            && t.s.entries[e].url in t.s.map_ && t.s.map_[t.s.entries[e].url] == e
            && t.s.entries[e].st != Invalid && Holds(t.s.threads[step.i], e)
  {
    OnlyOneMoves(t.s, step);
    HitFrom(t.s, step);
    ReachableServes(t);
    assert Serves(t.s, t.s.threads[step.i], t.reqs[step.i], t.shorter[step.i]);
  }

  /** A commit comes back with its entry committed, unless it has found a shorter one stored. */
  lemma CommitTakesEffect(t: Tracked, i: nat)
    requires Reachable(t) && i < |t.s.threads| && t.s.threads[i].ComLast?
    ensures |t.reqs| == |t.shorter| == |t.s.threads| && t.s.threads[i].e < |t.s.entries|
    ensures t.reqs[i] == Commit(t.s.threads[i].e)
    ensures t.s.entries[t.s.threads[i].e].committed <==> !t.shorter[i]
  {
    ReachableServes(t);
    assert Serves(t.s, t.s.threads[i], t.reqs[i], t.shorter[i]);
  }

  /** A write, completion or release acts on the entry it was asked for: a write adds its bytes
      unless the entry is complete, and a partial entry becomes complete or invalid. */
  lemma ActTakesEffect(t: Tracked, t': Tracked, i: nat)
    requires Reachable(t) && NextStep(t, t', Go(i)) && t.s.threads[i].ActIn?
    ensures |t'.s.threads| == |t.s.threads| && t'.s.threads[i].Idle? && t.reqs[i].Act?
    ensures t.reqs[i].e < |t.s.entries| == |t'.s.entries|
    ensures var act, en, en' := t.reqs[i].act, t.s.entries[t.reqs[i].e], t'.s.entries[t.reqs[i].e];
            && en'.len == en.len + (if act.Write? && en.st != Complete then act.bytes else 0)
            && en'.st == (if en.st != Partial then en.st
                          else if act.MarkComplete? then Complete else if act.Abandon? then Invalid else Partial)
    ensures forall e :: 0 <= e < |t.s.entries| && e != t.reqs[i].e ==> t'.s.entries[e] == t.s.entries[e]
  {
    ReachableServes(t);
    assert Serves(t.s, t.s.threads[i], t.reqs[i], t.shorter[i]);
  }
}
