/** The interruptible parallel sum of a.yanin/09: workers take blocks of four terms in turn, stop
    where an interrupt finds them, and the main thread fills the gaps up to the farthest stop. */
module SeriesSum {
  import opened Modular

  const TERMS_PER_UNIT := 4
  const ITERATIONS_BETWEEN_CHECKS := 1_000_000

  function InitialIteration(worker: nat): nat { worker * TERMS_PER_UNIT }

  function NextIteration(k: nat, workers: nat): nat
    requires workers > 0
  {
    k + 1 + if k % 4 == 3 then TERMS_PER_UNIT * (workers - 1) else 0
  }

  /** The worker whose block holds index `k`. */
  function Owner(k: nat, workers: nat): nat
    requires workers > 0
  {
    k / TERMS_PER_UNIT % workers
  }

  // ---------- who owns what ----------

  /** The successor is the next index with the same owner. */
  lemma NextIsNextOwned(k: nat, workers: nat)
    requires workers > 0
    ensures var k' := NextIteration(k, workers);
            && k < k' && Owner(k', workers) == Owner(k, workers)
            && forall j :: k < j < k' ==> Owner(j, workers) != Owner(k, workers)
  {
    var k', a := NextIteration(k, workers), k / 4;
    if k % 4 == 3 {
      assert k' / 4 == a + workers;
      if workers > 1 {
        NoRepeat(a, a + 1, workers);
      } else {
        assert (a + 1) % 1 == a % 1;
      }
      forall j | k < j < k'
        ensures Owner(j, workers) != Owner(k, workers)
      {
        assert a < j / 4 < a + workers;
        NoRepeat(a, j / 4, workers);
      }
    } else {
      assert k' / 4 == a;
    }
  }

  lemma InitialIsFirstOwned(worker: nat, workers: nat)
    requires worker < workers
    ensures Owner(InitialIteration(worker), workers) == worker
    ensures forall j :: 0 <= j < InitialIteration(worker) ==> Owner(j, workers) != worker
  {
    DivModUnique(worker, workers, 0, worker);
    forall j | 0 <= j < InitialIteration(worker)
      ensures Owner(j, workers) != worker
    {
      DivModUnique(j / 4, workers, 0, j / 4);
    }
  }

  // ---------- sums ----------

  /** The first `n` terms. */
  function Partial(f: nat -> real, n: nat): real
  {
    if n == 0 then 0.0 else Partial(f, n - 1) + f(n - 1)
  }

  /** Those of the first `n` terms that belong to one worker. */
  function Owned(f: nat -> real, workers: nat, worker: nat, n: nat): real
    requires workers > 0
  {
    if n == 0 then 0.0
    else Owned(f, workers, worker, n - 1) + if Owner(n - 1, workers) == worker then f(n - 1) else 0.0
  }

  /** Indices of other workers add nothing. */
  lemma {:induction false} OwnedSkips(f: nat -> real, workers: nat, worker: nat, lo: nat, hi: nat)
    requires workers > 0 && lo <= hi && forall j :: lo <= j < hi ==> Owner(j, workers) != worker
    ensures Owned(f, workers, worker, hi) == Owned(f, workers, worker, lo)
    decreases hi
  {
    if lo < hi {
      OwnedSkips(f, workers, worker, lo, hi - 1);
    }
  }

  /** One turn of either loop. */
  lemma OwnedNext(f: nat -> real, workers: nat, k: nat)
    requires workers > 0
    ensures var worker, k' := Owner(k, workers), NextIteration(k, workers);
            Owned(f, workers, worker, k') == Owned(f, workers, worker, k) + f(k)
  {
    NextIsNextOwned(k, workers);
    OwnedSkips(f, workers, Owner(k, workers), k + 1, NextIteration(k, workers));
  }

  /** The owned sums of workers below `m`. */
  function AllOwned(f: nat -> real, workers: nat, m: nat, n: nat): real
    requires workers > 0
  {
    if m == 0 then 0.0 else AllOwned(f, workers, m - 1, n) + Owned(f, workers, m - 1, n)
  }

  lemma {:induction false} AllOwnedStep(f: nat -> real, workers: nat, m: nat, n: nat)
    requires workers > 0 && n > 0
    ensures AllOwned(f, workers, m, n)
            == AllOwned(f, workers, m, n - 1) + if Owner(n - 1, workers) < m then f(n - 1) else 0.0
  {
    if m > 0 {
      AllOwnedStep(f, workers, m - 1, n);
    }
  }

  lemma {:induction false} AllOwnedNone(f: nat -> real, workers: nat, m: nat)
    requires workers > 0
    ensures AllOwned(f, workers, m, 0) == 0.0
  {
    if m > 0 {
      AllOwnedNone(f, workers, m - 1);
    }
  }

  /** Every index belongs to exactly one worker, so the owned sums make up the whole. */
  lemma {:induction false} OwnedMakeUpTheWhole(f: nat -> real, workers: nat, n: nat)
    requires workers > 0
    ensures AllOwned(f, workers, workers, n) == Partial(f, n)
  {
    if n == 0 {
      AllOwnedNone(f, workers, workers);
    } else {
      OwnedMakeUpTheWhole(f, workers, n - 1);
      AllOwnedStep(f, workers, workers, n);
    }
  }

  /** With the indicator of one index for terms, a sum counts how often that index is taken: once if
      it is below the limit and never otherwise. */
  lemma {:induction false} IndexTakenOnce(m: nat, n: nat)
    ensures Partial(Indicator(m), n) == if m < n then 1.0 else 0.0
  {
    if n > 0 {
      IndexTakenOnce(m, n - 1);
    }
  }

  function Indicator(m: nat): nat -> real { k => if k == m then 1.0 else 0.0 }

  // ---------- when the flag is looked at ----------

  /** How many indices of its owner come before `k`. */
  function Turn(k: nat, workers: nat): nat
    requires workers > 0
  {
    k / TERMS_PER_UNIT / workers * TERMS_PER_UNIT + k % TERMS_PER_UNIT
  }

  lemma TurnsFollow(k: nat, workers: nat)
    requires workers > 0
    ensures Turn(NextIteration(k, workers), workers) == Turn(k, workers) + 1
  {
    var k', a := NextIteration(k, workers), k / 4;
    if k % 4 == 3 {
      assert k' / 4 == a + workers;
      NextBlock(a, workers);
    } else {
      assert k' / 4 == a;
    }
  }

  lemma FirstTurn(worker: nat, workers: nat)
    requires worker < workers
    ensures Turn(InitialIteration(worker), workers) == 0
  {
    DivModUnique(worker, workers, 0, worker);
  }

  /** A worker looks at the flag once every `ITERATIONS_BETWEEN_CHECKS + 1` of its own terms. */
  predicate ChecksAt(k: nat, workers: nat)
    requires workers > 0
  {
    (Turn(k, workers) + 1) % (ITERATIONS_BETWEEN_CHECKS + 1) == 0
  }

  /** What is left of the countdown when the worker comes to its term number `m`. */
  function Countdown(m: nat): nat { ITERATIONS_BETWEEN_CHECKS - m % (ITERATIONS_BETWEEN_CHECKS + 1) }

  lemma CountdownFalls(m: nat)
    ensures Countdown(m) == 0 <==> (m + 1) % (ITERATIONS_BETWEEN_CHECKS + 1) == 0
    ensures Countdown(m + 1) == if Countdown(m) == 0 then ITERATIONS_BETWEEN_CHECKS else Countdown(m) - 1
  {
  }

  // ---------- the threads ----------

  /** `worker_thread`. Whether a check at index `k` finds the interrupt flag set is `seen(k)`. */
  method Worker(worker: nat, workers: nat, count: nat, seen: nat -> bool, f: nat -> real) returns (sum: real, stop: nat)
    requires worker < workers
    ensures Owner(stop, workers) == worker && sum == Owned(f, workers, worker, stop)
    ensures stop < count ==> ChecksAt(stop, workers) && seen(stop)
    ensures forall k :: 0 <= k < stop && k < count && Owner(k, workers) == worker && ChecksAt(k, workers) ==> !seen(k)
    ensures count <= stop ==> sum == Owned(f, workers, worker, count)
  {
    InitialIsFirstOwned(worker, workers);
    FirstTurn(worker, workers);
    stop, sum := InitialIteration(worker), 0.0;
    OwnedSkips(f, workers, worker, 0, stop);
    if count <= stop {
      OwnedSkips(f, workers, worker, 0, count);
    }
    var nextCheck := ITERATIONS_BETWEEN_CHECKS;
    while stop < count
      invariant Owner(stop, workers) == worker && sum == Owned(f, workers, worker, stop)
      invariant count <= stop ==> sum == Owned(f, workers, worker, count)
      invariant nextCheck == Countdown(Turn(stop, workers))
      invariant forall k :: 0 <= k < stop && k < count && Owner(k, workers) == worker && ChecksAt(k, workers) ==>
                  !seen(k)
      decreases count - stop
    {
      CountdownFalls(Turn(stop, workers));
      if nextCheck == 0 {
        nextCheck := ITERATIONS_BETWEEN_CHECKS;
        if seen(stop) {
          return;
        }
      } else {
        nextCheck := nextCheck - 1;
      }
      sum := sum + f(stop);
      OwnedNext(f, workers, stop);
      NextIsNextOwned(stop, workers);
      TurnsFollow(stop, workers);
      ghost var k := stop;
      stop := NextIteration(stop, workers);
      if count <= stop {
        OwnedSkips(f, workers, worker, k + 1, count);
        OwnedSkips(f, workers, worker, count, stop);
      }
    }
  }

  /** The finalisation of one worker's terms: from where it stopped to the farthest stop. */
  method FillGap(workers: nat, stop: nat, final: nat, f: nat -> real, result: real) returns (sum: real)
    requires workers > 0 && stop <= final
    ensures var worker := Owner(stop, workers);
            sum == result + Owned(f, workers, worker, final) - Owned(f, workers, worker, stop)
  {
    ghost var worker := Owner(stop, workers);
    sum := result;
    var k := stop;
    while k < final
      invariant stop <= k && Owner(k, workers) == worker
      invariant k <= final ==> sum == result + Owned(f, workers, worker, k) - Owned(f, workers, worker, stop)
      invariant k >= final ==> sum == result + Owned(f, workers, worker, final) - Owned(f, workers, worker, stop)
      decreases final - k
    {
      sum := sum + f(k);
      OwnedNext(f, workers, k);
      NextIsNextOwned(k, workers);
      var k' := NextIteration(k, workers);
      if k' > final {
        OwnedSkips(f, workers, worker, final, k');
      }
      k := k';
    }
  }

  function Farthest(stops: seq<nat>): (m: nat)
    ensures forall i :: 0 <= i < |stops| ==> stops[i] <= m
    ensures m == 0 || m in stops
  {
    if stops == [] then 0
    else
      var m := Farthest(stops[..|stops| - 1]);
      if stops[|stops| - 1] > m then stops[|stops| - 1] else m
  }

  /** What the workers have added up by the time they stop. */
  ghost function StoppedSum(f: nat -> real, workers: nat, stops: seq<nat>): real
    requires workers > 0
  {
    if stops == [] then 0.0
    else
      var last := |stops| - 1;
      StoppedSum(f, workers, stops[..last]) + Owned(f, workers, last, stops[last])
  }

  /** Each stop is an index of its own worker. */
  predicate OwnStops(workers: nat, stops: seq<nat>)
    requires workers > 0
  {
    forall j :: 0 <= j < |stops| ==> Owner(stops[j], workers) == j
  }

  /** The workers, one after the other: they share nothing but the flag. */
  method RunWorkers(workers: nat, count: nat, seen: nat -> nat -> bool, f: nat -> real)
      returns (result: real, stops: seq<nat>)
    requires workers > 0
    ensures |stops| == workers && OwnStops(workers, stops) && result == StoppedSum(f, workers, stops)
    ensures forall j :: 0 <= j < workers && stops[j] < count ==> seen(j)(stops[j])
    ensures forall j :: 0 <= j < workers && count <= stops[j] ==>
              Owned(f, workers, j, stops[j]) == Owned(f, workers, j, count)
  {
    result, stops := 0.0, [];
    for i := 0 to workers
      invariant |stops| == i && OwnStops(workers, stops) && result == StoppedSum(f, workers, stops)
      invariant forall j :: 0 <= j < i && stops[j] < count ==> seen(j)(stops[j])
      invariant forall j :: 0 <= j < i && count <= stops[j] ==>
                  Owned(f, workers, j, stops[j]) == Owned(f, workers, j, count)
    {
      var sum, stop := Worker(i, workers, count, seen(i), f);
      assert (stops + [stop])[..i] == stops;
      result, stops := result + sum, stops + [stop];
    }
  }

  /** Workers that have all reached the limit have added up everything below it. */
  lemma {:induction false} UnstoppedSum(f: nat -> real, workers: nat, stops: seq<nat>, count: nat)
    requires workers > 0
    requires forall j :: 0 <= j < |stops| ==> Owned(f, workers, j, stops[j]) == Owned(f, workers, j, count)
    ensures StoppedSum(f, workers, stops) == AllOwned(f, workers, |stops|, count)
  {
    if stops != [] {
      UnstoppedSum(f, workers, stops[..|stops| - 1], count);
    }
  }

  method FarthestStop(stops: seq<nat>) returns (final: nat)
    ensures final == Farthest(stops)
  {
    final := 0;
    for i := 0 to |stops|
      invariant final == Farthest(stops[..i])
    {
      assert stops[..i + 1][..i] == stops[..i];
      if stops[i] > final {
        final := stops[i];
      }
    }
    assert stops[..|stops|] == stops;
  }

  /** The finalisation: every worker's terms from its stop to the final index. */
  method FillGaps(workers: nat, stops: seq<nat>, final: nat, f: nat -> real, sum: real) returns (result: real)
    requires workers > 0 && OwnStops(workers, stops) && forall j :: 0 <= j < |stops| ==> stops[j] <= final
    ensures result == sum + AllOwned(f, workers, |stops|, final) - StoppedSum(f, workers, stops)
  {
    result := sum;
    for i := 0 to |stops|
      invariant result == sum + AllOwned(f, workers, i, final) - StoppedSum(f, workers, stops[..i])
    {
      assert stops[..i + 1][..i] == stops[..i];
      result := FillGap(workers, stops[i], final, f, result);
    }
    assert stops[..|stops|] == stops;
  }

  /** The whole program. `seen(i)(k)` is what worker `i` finds at a check at index `k`, and
      `interrupted` is the flag when everyone has been joined. The result is the sum of the first
      `terms` terms, each taken exactly once, for every choice of terms `f`. */
  method Compute(workers: nat, count: nat, seen: nat -> nat -> bool, interrupted: bool, f: nat -> real)
      returns (result: real, terms: nat, stops: seq<nat>)
    requires workers > 0 && ((exists i, k :: seen(i)(k)) ==> interrupted)
    ensures result == Partial(f, terms) && |stops| == workers
    ensures terms == if interrupted then Farthest(stops) else count
  {
    result, stops := RunWorkers(workers, count, seen, f);
    if interrupted {
      terms := FarthestStop(stops);
      result := FillGaps(workers, stops, terms, f, result);
    } else {
      terms := count;
      UnstoppedSum(f, workers, stops, count);
    }
    OwnedMakeUpTheWhole(f, workers, terms);
  }

  /** How often the program takes index `m`: with the indicator of `m` for terms the result counts
      it. It is taken exactly once below the final index and never beyond. */
  method TimesTaken(workers: nat, count: nat, seen: nat -> nat -> bool, interrupted: bool, m: nat)
      returns (times: real, terms: nat)
    requires workers > 0 && ((exists i, k :: seen(i)(k)) ==> interrupted)
    ensures times == if m < terms then 1.0 else 0.0
    ensures !interrupted ==> terms == count
  {
    var stops;
    times, terms, stops := Compute(workers, count, seen, interrupted, Indicator(m));
    IndexTakenOnce(m, terms);
  }

  // ---------- how good the sum is ----------

  /** `compute_term`, over the reals. */
  function Term(k: nat): real { (if k % 2 == 0 then 1.0 else -1.0) / (k * 2 + 1) as real }

  function Size(k: nat): real { 1.0 / (k * 2 + 1) as real }

  lemma SizeFalls(k: nat)
    ensures 0.0 < Size(k + 1) < Size(k)
  {
    ReciprocalFalls((k * 2 + 1) as real, ((k + 1) * 2 + 1) as real);
  }

  lemma ReciprocalFalls(a: real, b: real)
    requires 0.0 < a < b
    ensures 0.0 < 1.0 / b < 1.0 / a
  {
    var x, y := 1.0 / a, 1.0 / b;
    assert x * a == 1.0 && y * b == 1.0;
    assert (x - y) * a > 0.0;
  }

  lemma TermIsSigned(k: nat)
    ensures Term(k) == if k % 2 == 0 then Size(k) else -Size(k)
  {
  }

  /** The series is that of Leibniz: its terms taken in pairs are 2/(1*3), 2/(5*7), 2/(9*11), ... */
  lemma TermsPair(j: nat)
    ensures Term(2 * j) + Term(2 * j + 1) == 2.0 / ((4 * j + 1) as real * (4 * j + 3) as real)
  {
    var a, b := (4 * j + 1) as real, (4 * j + 3) as real;
    assert Term(2 * j) == 1.0 / a && Term(2 * j + 1) == -1.0 / b;
    DifferenceOfReciprocals(a, b);
  }

  lemma DifferenceOfReciprocals(a: real, b: real)
    requires a > 0.0 && b > 0.0
    ensures 1.0 / a + -1.0 / b == (b - a) / (a * b)
  {
    assert a * b > 0.0;
    assert 1.0 / a == b / (a * b);
    assert -1.0 / b == -a / (a * b);
  }

  /** Terms of falling size and alternating sign. */
  ghost predicate Alternating(f: nat -> real, size: nat -> real)
  {
    && (forall k :: f(k) == if k % 2 == 0 then size(k) else -size(k))
    && (forall k, j {:trigger size(k), size(j)} :: j == k + 1 ==> 0.0 < size(j) < size(k))
  }

  /** What longer sums of an alternating series add beyond `n` has the sign of term `n` and at most
      its size. */
  lemma {:induction false} TailBound(f: nat -> real, size: nat -> real, n: nat, m: nat)
    requires n <= m && Alternating(f, size)
    ensures var d := Partial(f, m) - Partial(f, n);
            if n % 2 == 0 then 0.0 <= d <= size(n) else -size(n) <= d <= 0.0
    decreases m - n
  {
    assert 0.0 < size(n + 1) < size(n);
    if n < m {
      TailBound(f, size, n + 1, m);
      assert Partial(f, n + 1) == Partial(f, n) + f(n);
    }
  }

  function Abs(x: real): real { if x < 0.0 then -x else x }

  /** The sum of `terms` terms lies within `1 / (2 * terms + 1)` of every longer one. */
  lemma ResultIsClose(terms: nat, longer: nat)
    requires terms <= longer
    ensures Abs(Partial(Term, longer) - Partial(Term, terms)) <= 1.0 / (terms * 2 + 1) as real
  {
    LeibnizAlternates();
    TailBound(Term, Size, terms, longer);
  }

  lemma LeibnizAlternates()
    ensures Alternating(Term, Size)
  {
    forall k: nat
      ensures Term(k) == if k % 2 == 0 then Size(k) else -Size(k)
    {
      TermIsSigned(k);
    }
    forall k: nat, j: nat | j == k + 1
      ensures 0.0 < Size(j) < Size(k)
    {
      SizeFalls(k);
    }
  }
}
