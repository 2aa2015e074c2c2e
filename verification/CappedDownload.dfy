/** Worker threads that share a byte counter under a lock and an abort flag read outside it. */
module CappedDownload {
  import opened Options

  /** `chunkSize` bounds one chunk; `maxBytes` is the abort threshold, None disables the counter. */
  datatype Limits = Limits(chunkSize: nat, maxBytes: Option<nat>)

  /** Where a worker is in its chunk loop: between chunks, past the flag check holding a chunk, or
      done writing and about to take the lock. */
  datatype Worker = Idle | Holding(chunk: nat) | Wrote(chunk: nat)

  /** `stray` counts the bytes on disk of chunks whose writing raised halfway. */
  datatype State = State(workers: seq<Worker>, total: nat, written: nat, stray: nat, abort: bool)

  datatype Action =
    | Take(worker: nat, chunk: nat)  // the flag is clear and a chunk arrives
    | Write(worker: nat)             // the chunk goes to the segment file
    | Fail(worker: nat, part: nat)   // writing raises with a part on disk; the segment ends uncounted
    | Count(worker: nat)             // the locked region

  function Init(threads: nat): State { State(seq(threads, _ => Idle), 0, 0, 0, false) }

  /** The locked region: add the chunk, raise the flag if the total is over the cap. */
  function Counted(total: nat, abort: bool, chunk: nat, cap: nat): (nat, bool) {
    (total + chunk, abort || total + chunk > cap)
  }

  predicate Enabled(l: Limits, s: State, a: Action) {
    && a.worker < |s.workers|
    && match a
       case Take(w, chunk) => s.workers[w].Idle? && !s.abort && 0 < chunk <= l.chunkSize
       case Write(w) => s.workers[w].Holding?
       case Fail(w, part) => s.workers[w].Holding? && part <= s.workers[w].chunk
       case Count(w) => s.workers[w].Wrote? && l.maxBytes.Some?
  }

  function Step(l: Limits, s: State, a: Action): State
    requires Enabled(l, s, a)
  {
    match a
    case Take(w, chunk) => s.(workers := s.workers[w := Holding(chunk)])
    case Write(w) =>
      var c := s.workers[w].chunk;
      s.(written := s.written + c, workers := s.workers[w := if l.maxBytes.Some? then Wrote(c) else Idle])
    case Fail(w, part) =>
      s.(written := s.written + part, stray := s.stray + part, workers := s.workers[w := Idle])
    case Count(w) =>
      var (total, abort) := Counted(s.total, s.abort, s.workers[w].chunk, l.maxBytes.value);
      s.(total := total, abort := abort, workers := s.workers[w := Idle])
  }

  ghost predicate Executes(l: Limits, s: State, acts: seq<Action>, t: State)
    decreases |acts|
  {
    if acts == [] then s == t
    else Enabled(l, s, acts[0]) && Executes(l, Step(l, s, acts[0]), acts[1..], t)
  }

  class SharedTotal {
    var totalBytes: nat
    var abortSet: bool
    const maxBytes: nat

    constructor (maxBytes: nat)
      ensures totalBytes == 0 && !abortSet && this.maxBytes == maxBytes
    {
      totalBytes, abortSet, this.maxBytes := 0, false, maxBytes;
    }

    method CountChunk(chunk: nat)
      modifies this
      ensures (totalBytes, abortSet) == Counted(old(totalBytes), old(abortSet), chunk, maxBytes)
      ensures (old(abortSet) <==> old(totalBytes) > maxBytes) ==> (abortSet <==> totalBytes > maxBytes)
    {
      totalBytes := totalBytes + chunk;
      if totalBytes > maxBytes {
        abortSet := true;
      }
    }
  }

  // ----- the bound -----

  /** chunkSize for every worker that holds a chunk not counted yet. */
  function Pending(ws: seq<Worker>, size: nat): nat {
    if ws == [] then 0 else (if ws[0].Idle? then 0 else size) + Pending(ws[1..], size)
  }

  /** Bytes on disk that are not counted yet. */
  function Uncounted(ws: seq<Worker>): nat {
    if ws == [] then 0 else (if ws[0].Wrote? then ws[0].chunk else 0) + Uncounted(ws[1..])
  }

  lemma {:induction false} UpdateWorker(ws: seq<Worker>, i: nat, w: Worker, size: nat)
    requires i < |ws|
    ensures Pending(ws[i := w], size) + (if ws[i].Idle? then 0 else size)
            == Pending(ws, size) + (if w.Idle? then 0 else size)
    ensures Uncounted(ws[i := w]) + (if ws[i].Wrote? then ws[i].chunk else 0)
            == Uncounted(ws) + (if w.Wrote? then w.chunk else 0)
  {
    if i > 0 {
      assert ws[i := w][1..] == ws[1..][i - 1 := w];
      UpdateWorker(ws[1..], i - 1, w, size);
    }
  }

  lemma {:induction false} PendingBound(ws: seq<Worker>, size: nat)
    ensures Pending(ws, size) <= |ws| * size
    ensures (forall i | 0 <= i < |ws| :: ws[i].Idle?) ==> Pending(ws, size) == 0 && Uncounted(ws) == 0
  {
    if ws != [] {
      PendingBound(ws[1..], size);
      assert |ws| * size == size + (|ws| - 1) * size;
    }
  }

  lemma {:induction false} UncountedBound(ws: seq<Worker>, size: nat)
    requires forall i | 0 <= i < |ws| :: !ws[i].Idle? ==> ws[i].chunk <= size
    ensures Uncounted(ws) <= Pending(ws, size)
  {
    if ws != [] { UncountedBound(ws[1..], size); }
  }

  ghost predicate Inv(l: Limits, s: State) {
    && (forall i | 0 <= i < |s.workers| :: !s.workers[i].Idle? ==> s.workers[i].chunk <= l.chunkSize)
    && (l.maxBytes.None? ==> s.total == 0 && !s.abort && forall i | 0 <= i < |s.workers| :: !s.workers[i].Wrote?)
    && (l.maxBytes.Some? ==>
          && (s.abort <==> s.total > l.maxBytes.value)
          && s.written == s.total + Uncounted(s.workers) + s.stray
          && (s.abort ==> s.total + Pending(s.workers, l.chunkSize) <= l.maxBytes.value + |s.workers| * l.chunkSize))
  }

  lemma {:induction false} StepKeeps(l: Limits, s: State, a: Action)
    requires Inv(l, s) && Enabled(l, s, a)
    ensures Inv(l, Step(l, s, a)) && |Step(l, s, a).workers| == |s.workers|
    ensures !a.Fail? ==> Step(l, s, a).stray == s.stray
  {
    var t := Step(l, s, a);
    UpdateWorker(s.workers, a.worker, t.workers[a.worker], l.chunkSize);
    PendingBound(s.workers, l.chunkSize);
  }

  lemma {:induction false} RunKeeps(l: Limits, s: State, acts: seq<Action>, t: State)
    requires Inv(l, s) && Executes(l, s, acts, t)
    ensures Inv(l, t) && |t.workers| == |s.workers|
    ensures (forall i | 0 <= i < |acts| :: !acts[i].Fail?) ==> t.stray == s.stray
    decreases |acts|
  {
    if acts != [] {
      StepKeeps(l, s, acts[0]);
      RunKeeps(l, Step(l, s, acts[0]), acts[1..], t);
    }
  }

  lemma {:induction false} InitHolds(l: Limits, threads: nat)
    ensures Inv(l, Init(threads))
  {
    PendingBound(Init(threads).workers, l.chunkSize);
  }

  /** In every interleaving the shared total stays within cap + threads * chunkSize; the flag is up
      exactly when the total is over the cap; and the total lags behind the bytes on disk only by
      what workers are about to count and what failed writes left behind, so once all are idle it
      equals the bytes of the chunks written whole, and all bytes if no write raised.  The bytes on
      disk keep the same bound at all times, apart from those of failed writes. */
  lemma {:induction false} TotalBound(l: Limits, threads: nat, acts: seq<Action>, t: State)
    requires l.maxBytes.Some? && Executes(l, Init(threads), acts, t)
    ensures t.total <= l.maxBytes.value + threads * l.chunkSize
    ensures t.abort <==> t.total > l.maxBytes.value
    ensures t.total <= t.written <= l.maxBytes.value + threads * l.chunkSize + t.stray
    ensures (forall i | 0 <= i < threads :: i < |t.workers| && t.workers[i].Idle?) ==>
              t.total + t.stray == t.written && (t.abort <==> t.written - t.stray > l.maxBytes.value)
    ensures (forall i | 0 <= i < |acts| :: !acts[i].Fail?) ==> t.stray == 0
  {
    InitHolds(l, threads);
    RunKeeps(l, Init(threads), acts, t);
    PendingBound(t.workers, l.chunkSize);
    UncountedBound(t.workers, l.chunkSize);
  }

  const CHUNK: nat := 1048576

  /** `min(16, max(4, segments // 4))` */
  function MaxWorkers(segments: nat): (n: nat)
    ensures 4 <= n <= 16
    ensures segments < 16 ==> n == 4
    ensures 16 <= segments <= 64 ==> 4 * n <= segments < 4 * (n + 1)
    ensures 64 <= segments ==> n == 16
  {
    var quarter := segments / 4;
    var atLeast4 := if quarter < 4 then 4 else quarter;
    if atLeast4 < 16 then atLeast4 else 16
  }

  /** With the source's constants the overshoot is at most 16 MiB. */
  lemma {:induction false} OvershootAtMost16MiB(cap: nat, segments: nat, acts: seq<Action>, t: State)
    requires Executes(Limits(CHUNK, Some(cap)), Init(MaxWorkers(segments)), acts, t)
    ensures t.total <= cap + 16777216
  {
    TotalBound(Limits(CHUNK, Some(cap)), MaxWorkers(segments), acts, t);
    assert MaxWorkers(segments) * CHUNK <= 16 * CHUNK;
  }

  // ----- the bound is attained -----

  lemma {:induction false} Chain(l: Limits, s: State, first: seq<Action>, u: State, second: seq<Action>, t: State)
    requires Executes(l, s, first, u) && Executes(l, u, second, t)
    ensures Executes(l, s, first + second, t)
    decreases |first|
  {
    if first == [] {
      assert first + second == second;
    } else {
      assert (first + second)[1..] == first[1..] + second;
      Chain(l, Step(l, s, first[0]), first[1..], u, second, t);
    }
  }

  function Crowd(threads: nat, from: nat, to: nat, chunk: nat): seq<Worker> {
    seq(threads, i => if from <= i < to then Holding(chunk) else Idle)
  }

  lemma {:induction false} OneChunk(l: Limits, s: State, chunk: nat) returns (acts: seq<Action>)
    requires l.maxBytes.Some? && |s.workers| > 0 && s.workers[0].Idle? && !s.abort
    requires 0 < chunk <= l.chunkSize && s.total + chunk <= l.maxBytes.value
    ensures Executes(l, s, acts, s.(total := s.total + chunk, written := s.written + chunk))
  {
    var a, b, c := Take(0, chunk), Write(0), Count(0);
    acts := [a, b, c];
    var s1 := Step(l, s, a);
    var s2 := Step(l, s1, b);
    var s3 := Step(l, s2, c);
    assert s3.workers == s.workers;
    assert Executes(l, s3, [], s3);
    assert acts[1..] == [b, c] && [b, c][1..] == [c] && [c][1..] == [];
    assert Executes(l, s2, [c], s3);
    assert Executes(l, s1, [b, c], s3);
  }

  lemma {:induction false} FillTo(l: Limits, s: State) returns (acts: seq<Action>)
    requires l.maxBytes.Some? && l.chunkSize > 0 && |s.workers| > 0 && s.workers[0].Idle? && !s.abort
    requires s.total <= l.maxBytes.value
    ensures Executes(l, s, acts, s.(total := l.maxBytes.value, written := s.written + l.maxBytes.value - s.total))
    decreases l.maxBytes.value - s.total
  {
    var left := l.maxBytes.value - s.total;
    if left == 0 {
      acts := [];
    } else {
      var chunk := if left < l.chunkSize then left else l.chunkSize;
      var first := OneChunk(l, s, chunk);
      var u := s.(total := s.total + chunk, written := s.written + chunk);
      var rest := FillTo(l, u);
      Chain(l, s, first, u, rest,
            s.(total := l.maxBytes.value, written := s.written + l.maxBytes.value - s.total));
      acts := first + rest;
    }
  }

  lemma {:induction false} AllTake(l: Limits, s: State, threads: nat, k: nat) returns (acts: seq<Action>)
    requires l.chunkSize > 0 && !s.abort && k <= threads && s.workers == Crowd(threads, 0, 0, l.chunkSize)
    ensures Executes(l, s, acts, s.(workers := Crowd(threads, 0, k, l.chunkSize)))
    decreases k
  {
    if k == 0 {
      acts := [];
    } else {
      var before := AllTake(l, s, threads, k - 1);
      var u := s.(workers := Crowd(threads, 0, k - 1, l.chunkSize));
      var a := Take(k - 1, l.chunkSize);
      var t := Step(l, u, a);
      assert t.workers == Crowd(threads, 0, k, l.chunkSize);
      assert [a][1..] == [] && Executes(l, t, [], t) && Executes(l, u, [a], t);
      Chain(l, s, before, u, [a], t);
      acts := before + [a];
    }
  }

  lemma {:induction false} WriteAndCount(l: Limits, s: State, w: nat) returns (acts: seq<Action>, t: State)
    requires l.maxBytes.Some? && w < |s.workers| && s.workers[w].Holding?
    ensures Executes(l, s, acts, t)
    ensures t.total == s.total + s.workers[w].chunk && t.workers == s.workers[w := Idle]
  {
    var a, b := Write(w), Count(w);
    var m := Step(l, s, a);
    t := Step(l, m, b);
    acts := [a, b];
    assert acts[1..] == [b] && [b][1..] == [];
    assert Executes(l, t, [], t) && Executes(l, m, [b], t);
    assert t.workers == s.workers[w := Idle];
  }

  lemma {:induction false} CrowdShrinks(threads: nat, k: nat, chunk: nat)
    requires 0 < k <= threads
    ensures |Crowd(threads, k - 1, threads, chunk)| == threads
    ensures Crowd(threads, k - 1, threads, chunk)[k - 1] == Holding(chunk)
    ensures Crowd(threads, k - 1, threads, chunk)[k - 1 := Idle] == Crowd(threads, k, threads, chunk)
    ensures Times(k, chunk) == Times(k - 1, chunk) + chunk
  {
  }

  function Times(k: nat, size: nat): nat { k * size }

  lemma {:induction false} AllCount(l: Limits, s: State, threads: nat, k: nat) returns (acts: seq<Action>, t: State)
    requires l.maxBytes.Some? && k <= threads && s.workers == Crowd(threads, 0, threads, l.chunkSize)
    ensures Executes(l, s, acts, t)
    ensures t.total == s.total + Times(k, l.chunkSize) && t.workers == Crowd(threads, k, threads, l.chunkSize)
    decreases k
  {
    hide Crowd, Executes, Times;
    if k == 0 {
      acts, t := [], s;
      assert Executes(l, s, [], s) && Times(0, l.chunkSize) == 0 by { NothingDone(l, s); }
    } else {
      var before, u := AllCount(l, s, threads, k - 1);
      CrowdShrinks(threads, k, l.chunkSize);
      var last;
      last, t := WriteAndCount(l, u, k - 1);
      Chain(l, s, before, u, last, t);
      acts := before + last;
    }
  }

  lemma {:induction false} NothingDone(l: Limits, s: State)
    ensures Executes(l, s, [], s) && Times(0, l.chunkSize) == 0
  {
  }

  /** The bound cannot be improved: for every cap, chunk size and number of threads some
      interleaving reaches it, all threads having passed the flag check at a total equal to the cap. */
  lemma {:induction false} BoundAttained(l: Limits, threads: nat) returns (acts: seq<Action>, t: State)
    requires l.maxBytes.Some? && l.chunkSize > 0 && threads > 0
    ensures Executes(l, Init(threads), acts, t)
    ensures t.total == l.maxBytes.value + threads * l.chunkSize
  {
    var s0 := Init(threads);
    var fill := FillTo(l, s0);
    var s1 := s0.(total := l.maxBytes.value, written := l.maxBytes.value);
    assert s1.workers == Crowd(threads, 0, 0, l.chunkSize);
    var takes := AllTake(l, s1, threads, threads);
    var s2 := s1.(workers := Crowd(threads, 0, threads, l.chunkSize));
    var counts;
    counts, t := AllCount(l, s2, threads, threads);
    Chain(l, s0, fill, s1, takes, s2);
    Chain(l, s0, fill + takes, s2, counts, t);
    acts := fill + takes + counts;
  }
}

/** Choosing the variant playlist under a shorter-edge pixel cap. */
module VariantSelection {
  import opened Options

  datatype Resolution = Resolution(width: int, height: int)

  datatype Selection = GuessDefault | ResolutionFiltered | Chosen(index: nat)

  function ShorterEdge(r: Resolution): int { if r.height < r.width then r.height else r.width }

  function Area(r: Option<Resolution>): int { if r.Some? then r.value.width * r.value.height else 0 }

  predicate Fits(r: Option<Resolution>, maxPx: int) { r.Some? && ShorterEdge(r.value) <= maxPx }

  /** One of the two edges is within the cap. */
  ghost predicate EdgeWithin(r: Option<Resolution>, maxPx: int) {
    r.Some? && (r.value.width <= maxPx || r.value.height <= maxPx)
  }

  /** A variant may be chosen: no cap, or it fits, or no variant tells its resolution. */
  ghost predicate Eligible(variants: seq<Option<Resolution>>, maxPx: Option<int>, i: nat)
    requires i < |variants|
  {
    maxPx.None? || EdgeWithin(variants[i], maxPx.value) || forall j | 0 <= j < |variants| :: variants[j].None?
  }

  /** Pixels, none for an unknown resolution. */
  ghost function Pixels(r: Option<Resolution>): int {
    match r
    case None => 0
    case Some(Resolution(width, height)) => width * height
  }

  /** The default is guessed exactly for an empty playlist; the download is filtered exactly when a
      cap is set, some resolution is known and no known one fits; otherwise the chosen variant is
      the first of largest area among the eligible ones. */
  method SelectVariant(variants: seq<Option<Resolution>>, maxPx: Option<int>) returns (s: Selection)
    ensures s.GuessDefault? <==> variants == []
    ensures s.ResolutionFiltered? <==>
              && maxPx.Some?
              && (exists i :: 0 <= i < |variants| && variants[i].Some?)
              && (forall i | 0 <= i < |variants| :: !EdgeWithin(variants[i], maxPx.value))
    ensures s.Chosen? ==>
              && s.index < |variants| && Eligible(variants, maxPx, s.index)
              && (forall j | 0 <= j < |variants| && Eligible(variants, maxPx, j) ::
                    Pixels(variants[j]) <= Pixels(variants[s.index]))
              && (forall j | 0 <= j < s.index && Eligible(variants, maxPx, j) ::
                    Pixels(variants[j]) < Pixels(variants[s.index]))
  {
    if variants == [] {
      return GuessDefault;
    }
    var anyFits, anyKnown := false, false;
    if maxPx.Some? {
      for i := 0 to |variants|
        invariant anyFits <==> exists j :: 0 <= j < i && Fits(variants[j], maxPx.value)
        invariant anyKnown <==> exists j :: 0 <= j < i && variants[j].Some?
      {
        if Fits(variants[i], maxPx.value) {
          anyFits := true;
        }
        if variants[i].Some? {
          anyKnown := true;
        }
      }
      if !anyFits && anyKnown {
        return ResolutionFiltered;
      }
    }
    var best: Option<nat> := None;
    for i := 0 to |variants|
      invariant best.None? ==> forall j | 0 <= j < i :: !Eligible(variants, maxPx, j)
      invariant best.Some? ==>
                  && best.value < i && Eligible(variants, maxPx, best.value)
                  && (forall j | 0 <= j < i && Eligible(variants, maxPx, j) ::
                        Area(variants[j]) <= Area(variants[best.value]))
                  && (forall j | 0 <= j < best.value && Eligible(variants, maxPx, j) ::
                        Area(variants[j]) < Area(variants[best.value]))
    {
      if maxPx.None? || !anyFits || Fits(variants[i], maxPx.value) {
        if best.None? || Area(variants[best.value]) < Area(variants[i]) {
          best := Some(i);
        }
      }
    }
    assert best.Some? by {
      if maxPx.Some? && anyFits {
        var j :| 0 <= j < |variants| && Fits(variants[j], maxPx.value);
        assert Eligible(variants, maxPx, j);
      } else {
        assert Eligible(variants, maxPx, 0);
      }
    }
    s := Chosen(best.value);
  }
}
