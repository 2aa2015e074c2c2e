/** The live capture loop: deduplication of a sliding playlist window by media sequence number
    (section 4.3.3.2 of RFC 8216) and the numbering of the downloaded files. */
module SegmentCapture {
  import opened Options

  /** A variant manifest: optional EXT-X-MEDIA-SEQUENCE, the declared segment durations, the
      stripped EXT-X-PREFETCH lines and the EXT-X-ENDLIST flag. */
  datatype Manifest = Manifest(
    mediaSequence: Option<int>,
    durations: seq<Option<real>>,
    prefetches: seq<string>,
    endlist: bool)
  {
    function Start(): int { if mediaSequence.Some? then mediaSequence.value else 0 }

    function Entries(): seq<Entry> {
      seq(|durations|, i requires 0 <= i < |durations| =>
        Entry(Start() + i, true, DurationOr6(durations[i])))
      + seq(|prefetches|, j requires 0 <= j < |prefetches| =>
          Entry(Start() + |durations| + j, prefetches[j] != "", 6.0))
    }
  }

  datatype Entry = Entry(msn: int, hasUri: bool, duration: real)

  function DurationOr6(d: Option<real>): real {
    if d.Some? && d.value != 0.0 then d.value else 6.0
  }

  /** One turn of the poll loop; `failed` are the sequence numbers whose download did not succeed. */
  datatype Poll = FetchFailed | Fetched(manifest: Manifest, failed: set<int>)

  datatype Job = Job(msn: int, index: nat, duration: real)

  datatype State = State(collected: seq<Job>, lastMsn: int, ended: bool)

  const START: State := State([], -1, false)

  function JobsUpTo(entries: seq<Entry>, n: nat, lastMsn: int, base: nat): (jobs: seq<Job>)
    requires n <= |entries|
  {
    if n == 0 then []
    else
      var jobs := JobsUpTo(entries, n - 1, lastMsn, base);
      var e := entries[n - 1];
      if e.hasUri && e.msn > lastMsn then jobs + [Job(e.msn, base + |jobs|, e.duration)] else jobs
  }

  function Jobs(s: State, m: Manifest): seq<Job> {
    JobsUpTo(m.Entries(), |m.Entries()|, s.lastMsn, |s.collected|)
  }

  function AbsorbUpTo(s: State, jobs: seq<Job>, n: nat, failed: set<int>): State
    requires n <= |jobs|
  {
    if n == 0 then s
    else
      var t := AbsorbUpTo(s, jobs, n - 1, failed);
      var j := jobs[n - 1];
      if j.msn in failed then t else t.(collected := t.collected + [j], lastMsn := j.msn)
  }

  function Step(s: State, poll: Poll): State {
    if s.ended || poll.FetchFailed? then s
    else
      var jobs := Jobs(s, poll.manifest);
      AbsorbUpTo(s, jobs, |jobs|, poll.failed).(ended := poll.manifest.endlist)
  }

  function Capture(polls: seq<Poll>): State {
    if polls == [] then START else Step(Capture(polls[..|polls| - 1]), polls[|polls| - 1])
  }

  // ----- the source's loops -----

  lemma {:induction false} NoJobs(entries: seq<Entry>, lastMsn: int, base: nat)
    ensures JobsUpTo(entries, 0, lastMsn, base) == []
  {
  }

  lemma {:induction false} NextJob(entries: seq<Entry>, n: nat, lastMsn: int, base: nat)
    requires n < |entries|
    ensures var jobs, e := JobsUpTo(entries, n, lastMsn, base), entries[n];
            JobsUpTo(entries, n + 1, lastMsn, base) ==
            if e.hasUri && e.msn > lastMsn then jobs + [Job(e.msn, base + |jobs|, e.duration)] else jobs
  {
  }

  method CollectJobs(m: Manifest, lastMsn: int, collected: nat) returns (jobs: seq<Job>)
    ensures jobs == JobsUpTo(m.Entries(), |m.Entries()|, lastMsn, collected)
  {
    hide JobsUpTo;
    jobs := [];
    var entries := m.Entries();
    NoJobs(entries, lastMsn, collected);
    for segPos := 0 to |m.durations|
      invariant jobs == JobsUpTo(entries, segPos, lastMsn, collected)
    {
      var segMsn := m.Start() + segPos;
      NextJob(entries, segPos, lastMsn, collected);
      if segMsn <= lastMsn {
        continue;
      }
      jobs := jobs + [Job(segMsn, collected + |jobs|, DurationOr6(m.durations[segPos]))];
    }
    var prefetchBase := m.Start() + |m.durations|;
    for pfIdx := 0 to |m.prefetches|
      invariant jobs == JobsUpTo(entries, |m.durations| + pfIdx, lastMsn, collected)
    {
      NextJob(entries, |m.durations| + pfIdx, lastMsn, collected);
      if m.prefetches[pfIdx] == "" {
        continue;
      }
      var segMsn := prefetchBase + pfIdx;
      if segMsn <= lastMsn {
        continue;
      }
      jobs := jobs + [Job(segMsn, collected + |jobs|, 6.0)];
    }
  }

  method PollSegmentsLoop(polls: seq<Poll>) returns (segments: seq<Job>, lastMsn: int)
    ensures segments == Capture(polls).collected && lastMsn == Capture(polls).lastMsn
  {
    segments, lastMsn := [], -1;
    var ended := false;
    for turn := 0 to |polls|
      invariant State(segments, lastMsn, ended) == Capture(polls[..turn])
    {
      assert polls[..turn + 1][..turn] == polls[..turn];
      if ended {
        continue;
      }
      match polls[turn] {
        case FetchFailed =>
        case Fetched(m, failed) =>
          var jobs := CollectJobs(m, lastMsn, |segments|);
          ghost var before := State(segments, lastMsn, ended);
          for k := 0 to |jobs|
            invariant State(segments, lastMsn, ended) == AbsorbUpTo(before, jobs, k, failed)
          {
            if jobs[k].msn !in failed {
              segments := segments + [jobs[k]];
              lastMsn := jobs[k].msn;
            }
          }
          ended := m.endlist;
      }
    }
    assert polls[..|polls|] == polls;
  }

  // ----- what every run keeps -----

  ghost predicate Increasing(jobs: seq<Job>) {
    forall i, j | 0 <= i < j < |jobs| :: jobs[i].msn < jobs[j].msn
  }

  ghost predicate Has(jobs: seq<Job>, msn: int) {
    exists i :: 0 <= i < |jobs| && jobs[i].msn == msn
  }

  lemma {:induction false} JobsAreNew(entries: seq<Entry>, n: nat, lastMsn: int, base: nat, start: int)
    requires n <= |entries|
    requires forall i | 0 <= i < |entries| :: entries[i].msn == start + i
    ensures var jobs := JobsUpTo(entries, n, lastMsn, base);
            && Increasing(jobs)
            && (forall i | 0 <= i < |jobs| ::
                  lastMsn < jobs[i].msn < start + n && start <= jobs[i].msn && jobs[i].index == base + i)
            && (forall p | 0 <= p < n && entries[p].hasUri && lastMsn < entries[p].msn :: Has(jobs, entries[p].msn))
  {
    hide JobsUpTo, Has;
    NoJobs(entries, lastMsn, base);
    if n > 0 {
      JobsAreNew(entries, n - 1, lastMsn, base, start);
      NextJob(entries, n - 1, lastMsn, base);
      var before, e := JobsUpTo(entries, n - 1, lastMsn, base), entries[n - 1];
      var next := Job(e.msn, base + |before|, e.duration);
      forall p | 0 <= p < n && entries[p].hasUri && lastMsn < entries[p].msn
        ensures Has(JobsUpTo(entries, n, lastMsn, base), entries[p].msn)
      {
        HasAppend(before, [next], entries[p].msn);
        HasOne(next);
      }
    }
  }

  lemma {:induction false} HasOne(job: Job)
    ensures Has([job], job.msn)
  {
    assert [job][0].msn == job.msn;
  }

  /** The jobs of one poll: fresh, in order, numbered from the collected count, and exactly the
      listed entries above the last collected number. */
  lemma {:induction false} JobsOf(s: State, m: Manifest)
    ensures var jobs := Jobs(s, m);
            && Increasing(jobs)
            && (forall i | 0 <= i < |jobs| ::
                  s.lastMsn < jobs[i].msn && m.Start() <= jobs[i].msn && jobs[i].index == |s.collected| + i)
            && (forall e | e in m.Entries() && e.hasUri :: e.msn > s.lastMsn <==> Has(jobs, e.msn))
  {
    JobsAreNew(m.Entries(), |m.Entries()|, s.lastMsn, |s.collected|, m.Start());
    var jobs := Jobs(s, m);
    forall e | e in m.Entries() && e.hasUri
      ensures e.msn > s.lastMsn <==> Has(jobs, e.msn)
    {
      var p :| 0 <= p < |m.Entries()| && m.Entries()[p] == e;
    }
  }

  ghost predicate Inv(s: State) {
    && Increasing(s.collected)
    && s.lastMsn == if s.collected == [] then -1 else s.collected[|s.collected| - 1].msn
  }

  lemma {:induction false} AbsorbKeeps(s: State, jobs: seq<Job>, n: nat, failed: set<int>)
    requires Inv(s) && n <= |jobs| && Increasing(jobs)
    requires forall i | 0 <= i < |jobs| :: s.lastMsn < jobs[i].msn
    ensures var t := AbsorbUpTo(s, jobs, n, failed);
            && Inv(t) && s.lastMsn <= t.lastMsn && s.collected <= t.collected
            && (forall i | n <= i < |jobs| :: t.lastMsn < jobs[i].msn)
  {
    if n > 0 { AbsorbKeeps(s, jobs, n - 1, failed); }
  }

  /** Some job among the first n succeeded at or after x. */
  ghost predicate Reached(jobs: seq<Job>, n: nat, failed: set<int>, x: int)
    requires n <= |jobs|
  {
    exists k :: 0 <= k < n && x <= jobs[k].msn && jobs[k].msn !in failed
  }

  lemma {:induction false} AbsorbReaches(s: State, jobs: seq<Job>, n: nat, failed: set<int>, x: int)
    requires n <= |jobs| && Increasing(jobs) && s.lastMsn < x
    ensures x <= AbsorbUpTo(s, jobs, n, failed).lastMsn <==> Reached(jobs, n, failed, x)
  {
    if n > 0 {
      AbsorbReaches(s, jobs, n - 1, failed, x);
      if jobs[n - 1].msn !in failed {
        if x <= jobs[n - 1].msn {
          assert Reached(jobs, n, failed, x);
        } else {
          assert !Reached(jobs, n, failed, x);
        }
      } else {
        assert Reached(jobs, n - 1, failed, x) ==> Reached(jobs, n, failed, x);
      }
    }
  }

  lemma {:induction false} StepKeeps(s: State, poll: Poll)
    requires Inv(s)
    ensures Inv(Step(s, poll)) && s.lastMsn <= Step(s, poll).lastMsn && s.collected <= Step(s, poll).collected
  {
    if poll.Fetched? {
      JobsOf(s, poll.manifest);
      AbsorbKeeps(s, Jobs(s, poll.manifest), |Jobs(s, poll.manifest)|, poll.failed);
    }
  }

  /** For any manifests and any failures no sequence number is collected twice, and they come in
      strictly increasing order. */
  lemma {:induction false} CollectedIncreasing(polls: seq<Poll>)
    ensures Inv(Capture(polls))
  {
    if polls != [] {
      CollectedIncreasing(polls[..|polls| - 1]);
      StepKeeps(Capture(polls[..|polls| - 1]), polls[|polls| - 1]);
    }
  }

  lemma {:induction false} CaptureGrows(polls: seq<Poll>, more: seq<Poll>)
    ensures Capture(polls).lastMsn <= Capture(polls + more).lastMsn
    ensures Capture(polls).collected <= Capture(polls + more).collected
    decreases |more|
  {
    var all := polls + more;
    if more == [] {
      assert all == polls;
    } else {
      assert all[..|all| - 1] == polls + more[..|more| - 1];
      CaptureGrows(polls, more[..|more| - 1]);
      CollectedIncreasing(all[..|all| - 1]);
      StepKeeps(Capture(all[..|all| - 1]), all[|all| - 1]);
    }
  }

  lemma {:induction false} LostIffReached(jobs: seq<Job>, failed: set<int>, k: nat)
    requires Increasing(jobs) && k < |jobs| && jobs[k].msn in failed
    ensures Reached(jobs, |jobs|, failed, jobs[k].msn) <==> exists i :: k < i < |jobs| && jobs[i].msn !in failed
  {
    if i :| k < i < |jobs| && jobs[i].msn !in failed {
      assert jobs[k].msn <= jobs[i].msn;
    }
  }

  /** After a batch the cursor is at or beyond a failed number exactly when a later job succeeded. */
  lemma {:induction false} BatchPasses(s: State, m: Manifest, failed: set<int>, k: nat)
    requires !s.ended && k < |Jobs(s, m)| && Jobs(s, m)[k].msn in failed
    ensures Jobs(s, m)[k].msn <= Step(s, Fetched(m, failed)).lastMsn
            <==> exists i :: k < i < |Jobs(s, m)| && Jobs(s, m)[i].msn !in failed
  {
    hide Jobs, Increasing, Reached, AbsorbUpTo;
    var jobs := Jobs(s, m);
    JobsOf(s, m);
    AbsorbReaches(s, jobs, |jobs|, failed, jobs[k].msn);
    LostIffReached(jobs, failed, k);
  }

  lemma {:induction false} Offered(s: State, m: Manifest, e: Entry)
    requires e in m.Entries() && e.hasUri
    ensures Has(Jobs(s, m), e.msn) <==> s.lastMsn < e.msn
  {
    hide Jobs, Has;
    JobsOf(s, m);
  }

  lemma {:induction false} CaptureNext(polls: seq<Poll>, poll: Poll)
    ensures Capture(polls + [poll]) == Step(Capture(polls), poll)
  {
    assert (polls + [poll])[..|polls|] == polls;
  }

  /** Exactly the failures after the last success of their batch stay eligible: a failed number is
      offered again by a manifest that lists it if nothing after it in the batch succeeded, and by
      none, however many polls later, if something did. */
  lemma {:induction false} FailedStaysEligible(
    polls: seq<Poll>, m: Manifest, failed: set<int>, k: nat, more: seq<Poll>, later: Manifest, e: Entry)
    requires !Capture(polls).ended
    requires k < |Jobs(Capture(polls), m)| && Jobs(Capture(polls), m)[k].msn in failed
    requires e in later.Entries() && e.hasUri && e.msn == Jobs(Capture(polls), m)[k].msn
    ensures var jobs := Jobs(Capture(polls), m);
            var batch := polls + [Fetched(m, failed)];
            var lost := exists i :: k < i < |jobs| && jobs[i].msn !in failed;
            && (!lost ==> Has(Jobs(Capture(batch), later), e.msn))
            && (lost ==> !Has(Jobs(Capture(batch + more), later), e.msn))
  {
    hide Jobs, Has, Capture, Step;
    var batch := polls + [Fetched(m, failed)];
    CaptureNext(polls, Fetched(m, failed));
    BatchPasses(Capture(polls), m, failed, k);
    CaptureGrows(batch, more);
    Offered(Capture(batch), later, e);
    Offered(Capture(batch + more), later, e);
  }

  // ----- what a manifest offers -----

  lemma {:induction false} JobsCopy(entries: seq<Entry>, n: nat, lastMsn: int, base: nat, k: nat)
    requires n <= |entries| && k < |JobsUpTo(entries, n, lastMsn, base)|
    ensures var job := JobsUpTo(entries, n, lastMsn, base)[k];
            exists q :: 0 <= q < n && entries[q].hasUri && lastMsn < entries[q].msn
                        && job.msn == entries[q].msn && job.duration == entries[q].duration
  {
    if k < |JobsUpTo(entries, n - 1, lastMsn, base)| {
      JobsCopy(entries, n - 1, lastMsn, base, k);
    } else {
      assert entries[n - 1].hasUri;
    }
  }

  lemma {:induction false} EntryJob(s: State, m: Manifest, q: nat)
    requires q < |m.Entries()|
    ensures var e := m.Entries()[q];
            && (e.hasUri && s.lastMsn < e.msn <==> Has(Jobs(s, m), e.msn))
            && forall k | 0 <= k < |Jobs(s, m)| && Jobs(s, m)[k].msn == e.msn :: Jobs(s, m)[k].duration == e.duration
  {
    hide JobsUpTo;
    var es, e := m.Entries(), m.Entries()[q];
    JobsOf(s, m);
    forall k | 0 <= k < |Jobs(s, m)| && Jobs(s, m)[k].msn == e.msn
      ensures e.hasUri && s.lastMsn < e.msn && Jobs(s, m)[k].duration == e.duration
    {
      JobsCopy(es, |es|, s.lastMsn, |s.collected|, k);
      var at :| 0 <= at < |es| && es[at].hasUri && es[at].msn == e.msn && Jobs(s, m)[k].duration == es[at].duration;
      EntryAt(m, at);
      EntryAt(m, q);
    }
    assert e in es;
  }

  /** The i-th listed segment is numbered from the media sequence, 0 without one; it is downloaded
      exactly when its number is new, and lasts 6 seconds if its duration is missing or 0. */
  lemma {:induction false} ListedSegment(s: State, m: Manifest, i: nat)
    requires i < |m.durations|
    ensures var msn := i + if m.mediaSequence.Some? then m.mediaSequence.value else 0;
            && (s.lastMsn < msn <==> Has(Jobs(s, m), msn))
            && forall k | 0 <= k < |Jobs(s, m)| && Jobs(s, m)[k].msn == msn ::
                 Jobs(s, m)[k].duration
                 == if m.durations[i].Some? && m.durations[i].value != 0.0 then m.durations[i].value else 6.0
  {
    hide Jobs, Has;
    EntryJob(s, m, i);
  }

  /** The j-th prefetch line is numbered after the listed segments, blank lines included; it is
      downloaded exactly when it is not blank and its number is new, and counts 6 seconds. */
  lemma {:induction false} ListedPrefetch(s: State, m: Manifest, j: nat)
    requires j < |m.prefetches|
    ensures var msn := |m.durations| + j + if m.mediaSequence.Some? then m.mediaSequence.value else 0;
            && (s.lastMsn < msn && m.prefetches[j] != "" <==> Has(Jobs(s, m), msn))
            && forall k | 0 <= k < |Jobs(s, m)| && Jobs(s, m)[k].msn == msn :: Jobs(s, m)[k].duration == 6.0
  {
    hide Jobs, Has;
    assert m.Entries()[|m.durations| + j] == Entry(m.Start() + |m.durations| + j, m.prefetches[j] != "", 6.0);
    EntryJob(s, m, |m.durations| + j);
  }

  // ----- the end of the stream -----

  /** The capture is over exactly when some fetched manifest carried EXT-X-ENDLIST. */
  lemma {:induction false} CaptureEndsIff(polls: seq<Poll>)
    ensures Capture(polls).ended <==> exists i :: 0 <= i < |polls| && polls[i].Fetched? && polls[i].manifest.endlist
  {
    if polls != [] {
      var init, last := polls[..|polls| - 1], polls[|polls| - 1];
      CaptureEndsIff(init);
      assert forall i | 0 <= i < |init| :: init[i] == polls[i];
      assert Capture(polls).ended <==> Capture(init).ended || (last.Fetched? && last.manifest.endlist) by {
        StepEnds(Capture(init), last);
      }
      if Capture(init).ended {
        var i :| 0 <= i < |init| && init[i].Fetched? && init[i].manifest.endlist;
        assert polls[i].Fetched? && polls[i].manifest.endlist;
      }
    }
  }

  lemma {:induction false} StepEnds(s: State, poll: Poll)
    ensures Step(s, poll).ended <==> s.ended || (poll.Fetched? && poll.manifest.endlist)
  {
  }

  /** What is listed after it is never captured. */
  lemma {:induction false} NothingAfterEndlist(polls: seq<Poll>, more: seq<Poll>)
    requires exists i :: 0 <= i < |polls| && polls[i].Fetched? && polls[i].manifest.endlist
    ensures Capture(polls + more) == Capture(polls)
    decreases |more|
  {
    CaptureEndsIff(polls);
    var all := polls + more;
    if more == [] {
      assert all == polls;
    } else {
      assert all[..|all| - 1] == polls + more[..|more| - 1];
      NothingAfterEndlist(polls, more[..|more| - 1]);
    }
  }

  // ----- no gaps -----

  ghost predicate Unbroken(jobs: seq<Job>) {
    forall i | 0 <= i < |jobs| :: jobs[i].msn == jobs[0].msn + i
  }

  /** An entry this poll adds to the capture. */
  ghost predicate Gained(s: State, failed: set<int>, e: Entry) {
    e.hasUri && s.lastMsn < e.msn && e.msn !in failed
  }

  /** An entry that is listed without being downloadable, or whose download fails. */
  ghost predicate Missing(failed: set<int>, e: Entry) { !e.hasUri || e.msn in failed }

  /** No entry is missing between two gained ones; and once something is collected, a manifest with a
      gained entry reaches back to the number after the last collected one and no new entry before a
      gained one is missing. */
  ghost predicate NoHole(s: State, m: Manifest, failed: set<int>) {
    var es := m.Entries();
    && (forall p, q, r | 0 <= p < q < r < |es| && Gained(s, failed, es[p]) && Gained(s, failed, es[r]) ::
          !Missing(failed, es[q]))
    && (s.collected != [] ==>
          forall r | 0 <= r < |es| && Gained(s, failed, es[r]) ::
            && m.Start() <= s.lastMsn + 1
            && forall q | 0 <= q < r && s.lastMsn < es[q].msn :: !Missing(failed, es[q]))
  }

  ghost predicate NoHoles(polls: seq<Poll>) {
    polls == [] || (
      var s, poll := Capture(polls[..|polls| - 1]), polls[|polls| - 1];
      && NoHoles(polls[..|polls| - 1])
      && (poll.Fetched? && !s.ended ==> NoHole(s, poll.manifest, poll.failed)))
  }

  /** Every number between two collected ones is collected. */
  ghost predicate Dense(jobs: seq<Job>) {
    forall i, k, x | 0 <= i < |jobs| && 0 <= k < |jobs| && jobs[i].msn < x < jobs[k].msn :: Has(jobs, x)
  }

  lemma {:induction false} UnbrokenIsDense(jobs: seq<Job>)
    requires Unbroken(jobs)
    ensures Dense(jobs)
  {
    forall i, k, x | 0 <= i < |jobs| && 0 <= k < |jobs| && jobs[i].msn < x < jobs[k].msn
      ensures Has(jobs, x)
    {
      assert jobs[x - jobs[0].msn].msn == x;
    }
  }

  lemma {:induction false} DenseIsUnbroken(jobs: seq<Job>, i: nat)
    requires Increasing(jobs) && Dense(jobs) && i < |jobs|
    ensures jobs[i].msn == jobs[0].msn + i
  {
    if i > 0 {
      DenseIsUnbroken(jobs, i - 1);
      assert jobs[i - 1].msn + 1 < jobs[i].msn ==> Has(jobs, jobs[i - 1].msn + 1);
    }
  }

  lemma {:induction false} UnbrokenIffDense(jobs: seq<Job>)
    requires Increasing(jobs)
    ensures Unbroken(jobs) <==> Dense(jobs)
  {
    if Unbroken(jobs) { UnbrokenIsDense(jobs); }
    if Dense(jobs) {
      forall i | 0 <= i < |jobs|
        ensures jobs[i].msn == jobs[0].msn + i
      {
        DenseIsUnbroken(jobs, i);
      }
    }
  }

  lemma {:induction false} HasAppend(jobs: seq<Job>, more: seq<Job>, x: int)
    ensures Has(jobs + more, x) <==> Has(jobs, x) || Has(more, x)
  {
    var all := jobs + more;
    if i :| 0 <= i < |jobs| && jobs[i].msn == x { assert all[i].msn == x; }
    if i :| 0 <= i < |more| && more[i].msn == x { assert all[|jobs| + i].msn == x; }
  }

  lemma {:induction false} AbsorbGains(s: State, jobs: seq<Job>, n: nat, failed: set<int>, x: int)
    requires n <= |jobs|
    ensures Has(AbsorbUpTo(s, jobs, n, failed).collected, x)
            <==> Has(s.collected, x) || (Has(jobs[..n], x) && x !in failed)
  {
    if n > 0 {
      AbsorbGains(s, jobs, n - 1, failed, x);
      assert jobs[..n] == jobs[..n - 1] + [jobs[n - 1]];
      HasAppend(jobs[..n - 1], [jobs[n - 1]], x);
      HasAppend(AbsorbUpTo(s, jobs, n - 1, failed).collected, [jobs[n - 1]], x);
      assert Has([jobs[n - 1]], x) <==> jobs[n - 1].msn == x by { assert [jobs[n - 1]][0] == jobs[n - 1]; }
    }
  }

  lemma {:induction false} JobsAreListed(entries: seq<Entry>, n: nat, lastMsn: int, base: nat, x: int)
    requires n <= |entries| && Has(JobsUpTo(entries, n, lastMsn, base), x)
    ensures exists q :: 0 <= q < n && entries[q].hasUri && lastMsn < entries[q].msn && entries[q].msn == x
  {
    var jobs := JobsUpTo(entries, n, lastMsn, base);
    if !(entries[n - 1].hasUri && lastMsn < entries[n - 1].msn && entries[n - 1].msn == x) {
      var i :| 0 <= i < |jobs| && jobs[i].msn == x;
      assert JobsUpTo(entries, n - 1, lastMsn, base)[i].msn == x;
      JobsAreListed(entries, n - 1, lastMsn, base, x);
    }
  }

  /** A poll adds the numbers of the gained entries and nothing else. */
  lemma {:induction false} StepGains(s: State, m: Manifest, failed: set<int>, x: int)
    requires !s.ended
    ensures Has(Step(s, Fetched(m, failed)).collected, x)
            <==> Has(s.collected, x)
                 || exists q :: 0 <= q < |m.Entries()| && Gained(s, failed, m.Entries()[q]) && m.Entries()[q].msn == x
  {
    var es, jobs := m.Entries(), Jobs(s, m);
    AbsorbGains(s, jobs, |jobs|, failed, x);
    assert jobs[..|jobs|] == jobs;
    JobsOf(s, m);
    if Has(jobs, x) { JobsAreListed(es, |es|, s.lastMsn, |s.collected|, x); }
    if q :| 0 <= q < |es| && Gained(s, failed, es[q]) && es[q].msn == x { assert es[q] in es; }
  }

  lemma {:induction false} LastIsHighest(s: State, x: int)
    requires Inv(s) && Has(s.collected, x)
    ensures x <= s.lastMsn && Has(s.collected, s.lastMsn)
  {
    assert s.collected[|s.collected| - 1].msn == s.lastMsn;
  }

  /** Position of a number in a manifest. */
  lemma {:induction false} EntryAt(m: Manifest, q: nat)
    requires q < |m.Entries()|
    ensures m.Entries()[q].msn == m.Start() + q
  {
  }

  lemma {:induction false} DenseStep(s: State, m: Manifest, failed: set<int>)
    requires Inv(s) && Dense(s.collected) && !s.ended && NoHole(s, m, failed)
    ensures Dense(Step(s, Fetched(m, failed)).collected)
  {
    var es, c := m.Entries(), Step(s, Fetched(m, failed)).collected;
    forall i, k, x | 0 <= i < |c| && 0 <= k < |c| && c[i].msn < x < c[k].msn
      ensures Has(c, x)
    {
      var low, high := c[i].msn, c[k].msn;
      assert Has(c, low) && Has(c, high);
      StepGains(s, m, failed, low);
      StepGains(s, m, failed, high);
      StepGains(s, m, failed, x);
      if Has(s.collected, high) {
        BelowOld(s, m, failed, low, high);
      } else {
        var r :| 0 <= r < |es| && Gained(s, failed, es[r]) && es[r].msn == high;
        BelowGained(s, m, failed, low, x, r);
      }
    }
  }

  lemma {:induction false} BelowOld(s: State, m: Manifest, failed: set<int>, low: int, high: int)
    requires Inv(s) && Has(s.collected, high) && low < high
    requires Has(s.collected, low) ||
             exists q :: 0 <= q < |m.Entries()| && Gained(s, failed, m.Entries()[q]) && m.Entries()[q].msn == low
    ensures Has(s.collected, low)
  {
    LastIsHighest(s, high);
  }

  lemma {:induction false} BelowGained(s: State, m: Manifest, failed: set<int>, low: int, x: int, r: nat)
    requires Inv(s) && Dense(s.collected) && NoHole(s, m, failed)
    requires r < |m.Entries()| && Gained(s, failed, m.Entries()[r]) && low < x < m.Entries()[r].msn
    requires Has(s.collected, low) ||
             exists q :: 0 <= q < |m.Entries()| && Gained(s, failed, m.Entries()[q]) && m.Entries()[q].msn == low
    ensures Has(s.collected, x) ||
            exists q :: 0 <= q < |m.Entries()| && Gained(s, failed, m.Entries()[q]) && m.Entries()[q].msn == x
  {
    var es := m.Entries();
    var q := x - m.Start();
    EntryAt(m, r);
    if Has(s.collected, low) {
      LastIsHighest(s, low);
      if x > s.lastMsn {
        EntryAt(m, q);
        assert Gained(s, failed, es[q]);
      } else if x < s.lastMsn {
        var i :| 0 <= i < |s.collected| && s.collected[i].msn == low;
        assert Has(s.collected, x);
      }
    } else {
      var p :| 0 <= p < |es| && Gained(s, failed, es[p]) && es[p].msn == low;
      EntryAt(m, p);
      EntryAt(m, q);
      assert Gained(s, failed, es[q]);
    }
  }

  /** A number between a collected and a gained one, or between two gained ones, that a dense capture
      must have gained. */
  lemma {:induction false} Between(s: State, m: Manifest, failed: set<int>, low: int, x: int, r: nat) returns (q: nat)
    requires Inv(s) && !s.ended && Dense(Step(s, Fetched(m, failed)).collected)
    requires r < |m.Entries()| && Gained(s, failed, m.Entries()[r]) && s.lastMsn <= low < x < m.Entries()[r].msn
    requires Has(Step(s, Fetched(m, failed)).collected, low)
    ensures q < |m.Entries()| && Gained(s, failed, m.Entries()[q]) && m.Entries()[q].msn == x
  {
    var es, c := m.Entries(), Step(s, Fetched(m, failed)).collected;
    StepGains(s, m, failed, es[r].msn);
    StepGains(s, m, failed, x);
    var i :| 0 <= i < |c| && c[i].msn == low;
    var k :| 0 <= k < |c| && c[k].msn == es[r].msn;
    assert Has(c, x);
    if Has(s.collected, x) { LastIsHighest(s, x); }
    q :| 0 <= q < |es| && Gained(s, failed, es[q]) && es[q].msn == x;
  }

  lemma {:induction false} DenseHasNoHole(s: State, m: Manifest, failed: set<int>)
    requires Inv(s) && !s.ended && Dense(Step(s, Fetched(m, failed)).collected)
    ensures NoHole(s, m, failed)
  {
    var es := m.Entries();
    forall p, q, r | 0 <= p < q < r < |es| && Gained(s, failed, es[p]) && Gained(s, failed, es[r])
      ensures !Missing(failed, es[q])
    {
      EntryAt(m, p);
      EntryAt(m, q);
      EntryAt(m, r);
      StepGains(s, m, failed, es[p].msn);
      var at := Between(s, m, failed, es[p].msn, es[q].msn, r);
      EntryAt(m, at);
    }
    if s.collected != [] {
      assert Has(s.collected, s.lastMsn) by { assert s.collected[|s.collected| - 1].msn == s.lastMsn; }
      StepGains(s, m, failed, s.lastMsn);
      forall r | 0 <= r < |es| && Gained(s, failed, es[r])
        ensures m.Start() <= s.lastMsn + 1
      {
        EntryAt(m, r);
        if s.lastMsn + 1 < m.Start() {
          var at := Between(s, m, failed, s.lastMsn, s.lastMsn + 1, r);
          EntryAt(m, at);
        }
      }
      forall q, r | 0 <= q < r < |es| && Gained(s, failed, es[r]) && s.lastMsn < es[q].msn
        ensures !Missing(failed, es[q])
      {
        EntryAt(m, q);
        EntryAt(m, r);
        var at := Between(s, m, failed, s.lastMsn, es[q].msn, r);
        EntryAt(m, at);
      }
    }
  }

  /** One poll keeps an unbroken capture unbroken exactly when it leaves no hole. */
  lemma {:induction false} StepUnbrokenIff(s: State, m: Manifest, failed: set<int>)
    requires Inv(s) && Unbroken(s.collected) && !s.ended
    ensures Unbroken(Step(s, Fetched(m, failed)).collected) <==> NoHole(s, m, failed)
  {
    hide Step, NoHole, Dense;
    UnbrokenIffDense(s.collected);
    StepKeeps(s, Fetched(m, failed));
    UnbrokenIffDense(Step(s, Fetched(m, failed)).collected);
    if NoHole(s, m, failed) { DenseStep(s, m, failed); }
    if Dense(Step(s, Fetched(m, failed)).collected) { DenseHasNoHole(s, m, failed); }
  }

  /** For any manifests and any failures the captured numbers form one unbroken range exactly when no
      poll leaves a hole. */
  lemma {:induction false} CapturedRangeUnbrokenIff(polls: seq<Poll>)
    ensures Unbroken(Capture(polls).collected) <==> NoHoles(polls)
  {
    hide NoHole, Unbroken, Step;
    if polls == [] {
      NothingUnbroken();
    } else {
      var s, poll := Capture(polls[..|polls| - 1]), polls[|polls| - 1];
      CapturedRangeUnbrokenIff(polls[..|polls| - 1]);
      CollectedIncreasing(polls[..|polls| - 1]);
      StepKeeps(s, poll);
      if Unbroken(Step(s, poll).collected) { PrefixUnbroken(s.collected, Step(s, poll).collected); }
      if poll.Fetched? && !s.ended && Unbroken(s.collected) {
        StepUnbrokenIff(s, poll.manifest, poll.failed);
      } else if poll.FetchFailed? || s.ended {
        NothingGained(s, poll);
      }
    }
  }

  lemma {:induction false} NothingUnbroken()
    ensures Unbroken([])
  {
  }

  lemma {:induction false} NothingGained(s: State, poll: Poll)
    requires poll.FetchFailed? || s.ended
    ensures Step(s, poll) == s
  {
  }

  lemma {:induction false} PrefixUnbroken(jobs: seq<Job>, more: seq<Job>)
    requires jobs <= more && Unbroken(more)
    ensures Unbroken(jobs)
  {
  }

  /** Every download succeeds, no prefetch line is blank, and each manifest reaches back to the
      number after the last collected one (any start will do while nothing is collected). */
  ghost predicate Gapless(polls: seq<Poll>) {
    polls == [] || (
      var s, poll := Capture(polls[..|polls| - 1]), polls[|polls| - 1];
      && Gapless(polls[..|polls| - 1])
      && (poll.Fetched? ==>
            && poll.failed == {}
            && "" !in poll.manifest.prefetches
            && (s.collected == [] || poll.manifest.Start() <= s.lastMsn + 1)))
  }

  lemma {:induction false} GaplessHasNoHoles(polls: seq<Poll>)
    requires Gapless(polls)
    ensures NoHoles(polls)
  {
    if polls != [] {
      GaplessHasNoHoles(polls[..|polls| - 1]);
    }
  }

  lemma {:induction false} CapturedRangeUnbroken(polls: seq<Poll>)
    requires Gapless(polls)
    ensures Unbroken(Capture(polls).collected)
  {
    GaplessHasNoHoles(polls);
    CapturedRangeUnbrokenIff(polls);
  }

  lemma {:induction false} JobsWithoutBlanks(entries: seq<Entry>, n: nat, lastMsn: int, base: nat, start: int)
    requires n <= |entries|
    requires forall i | 0 <= i < |entries| :: entries[i].msn == start + i && entries[i].hasUri
    ensures var jobs := JobsUpTo(entries, n, lastMsn, base);
            && (jobs == [] <==> start + n <= lastMsn + 1 || n == 0)
            && (jobs != [] ==> jobs[|jobs| - 1].msn == start + n - 1)
            && (jobs != [] ==> jobs[0].msn == if start <= lastMsn then lastMsn + 1 else start)
            && Unbroken(jobs)
  {
    if n > 0 { JobsWithoutBlanks(entries, n - 1, lastMsn, base, start); }
  }

  lemma {:induction false} AbsorbAll(s: State, jobs: seq<Job>, n: nat)
    requires n <= |jobs|
    ensures AbsorbUpTo(s, jobs, n, {}).collected == s.collected + jobs[..n]
  {
    if n > 0 { AbsorbAll(s, jobs, n - 1); }
  }

  /** A blank prefetch line still takes a sequence number, so it leaves a hole although every
      download succeeds. */
  lemma {:induction false} BlankPrefetchLeavesHole()
    ensures var m := Manifest(Some(7), [], ["a", "", "b"], false);
            var c := Capture([Fetched(m, {})]).collected;
            |c| == 2 && c[0].msn == 7 && c[1].msn == 9
  {
    var m := Manifest(Some(7), [], ["a", "", "b"], false);
    var es := m.Entries();
    assert m.Start() == 7 && |m.durations| == 0;
    assert m.prefetches[0] != "" && m.prefetches[1] == "" && m.prefetches[2] != "";
    assert |es| == 3 && es[0] == Entry(7, true, 6.0) && es[1] == Entry(8, false, 6.0) && es[2] == Entry(9, true, 6.0);
    assert JobsUpTo(es, 1, -1, 0) == [Job(7, 0, 6.0)];
    assert JobsUpTo(es, 2, -1, 0) == [Job(7, 0, 6.0)];
    var jobs := [Job(7, 0, 6.0), Job(9, 1, 6.0)];
    assert JobsUpTo(es, 3, -1, 0) == jobs;
    AbsorbAll(START, jobs, 2);
    var poll := Fetched(m, {});
    assert [poll][..0] == [] && Capture([]) == START;
    assert Capture([poll]) == Step(START, poll);
  }

  // ----- file numbering -----

  ghost predicate Numbered(s: State) {
    forall k | 0 <= k < |s.collected| :: s.collected[k].index == k
  }

  ghost predicate Distinct(s: State) {
    forall i, j | 0 <= i < j < |s.collected| :: s.collected[i].index != s.collected[j].index
  }

  /** Within the first n jobs nothing succeeds after a failure. */
  ghost predicate FailuresLast(jobs: seq<Job>, n: nat, failed: set<int>)
    requires n <= |jobs|
  {
    forall i, k | 0 <= i < k < n :: jobs[i].msn in failed ==> jobs[k].msn in failed
  }

  ghost predicate SuffixFailures(s: State, poll: Poll) {
    poll.Fetched? && !s.ended ==>
      FailuresLast(Jobs(s, poll.manifest), |Jobs(s, poll.manifest)|, poll.failed)
  }

  /** In every batch the failed downloads form a suffix. */
  ghost predicate AllSuffixFailures(polls: seq<Poll>) {
    polls == [] || (
      && AllSuffixFailures(polls[..|polls| - 1])
      && SuffixFailures(Capture(polls[..|polls| - 1]), polls[|polls| - 1]))
  }

  lemma {:induction false} AbsorbIndices(s: State, jobs: seq<Job>, n: nat, failed: set<int>)
    requires n <= |jobs|
    requires forall i | 0 <= i < |jobs| :: jobs[i].index == |s.collected| + i
    ensures var c := AbsorbUpTo(s, jobs, n, failed).collected;
            && |s.collected| <= |c| <= |s.collected| + n && s.collected <= c
            && (forall k | |s.collected| <= k < |c| :: |s.collected| <= c[k].index < |s.collected| + n)
            && (|c| == |s.collected| + n <==> forall i | 0 <= i < n :: jobs[i].msn !in failed)
            && (|c| == |s.collected| + n ==> forall k | |s.collected| <= k < |c| :: c[k].index == k)
  {
    if n > 0 { AbsorbIndices(s, jobs, n - 1, failed); }
  }

  lemma {:induction false} AbsorbNumbers(s: State, jobs: seq<Job>, n: nat, failed: set<int>)
    requires n <= |jobs|
    requires forall i | 0 <= i < |jobs| :: jobs[i].index == |s.collected| + i
    ensures var t := AbsorbUpTo(s, jobs, n, failed);
            && |s.collected| <= |t.collected| <= |s.collected| + n && s.collected <= t.collected
            && (|t.collected| == |s.collected| + n <==> forall i | 0 <= i < n :: jobs[i].msn !in failed)
            && (Numbered(t) <==> Numbered(s) && FailuresLast(jobs, n, failed))
            && (forall k | |s.collected| <= k < |t.collected| ::
                  |s.collected| <= t.collected[k].index < |s.collected| + n)
            && (FailuresLast(jobs, n, failed) ==>
                  forall k | |s.collected| <= k < |t.collected| :: t.collected[k].index == k)
            && (!FailuresLast(jobs, n, failed) ==> Overrun(t))
  {
    hide FailuresLast;
    FailuresLastStep(jobs, n, failed);
    AbsorbIndices(s, jobs, n, failed);
    if n > 0 {
      AbsorbNumbers(s, jobs, n - 1, failed);
      AbsorbIndices(s, jobs, n - 1, failed);
      var c := AbsorbUpTo(s, jobs, n, failed).collected;
      if jobs[n - 1].msn !in failed { assert c[|c| - 1].index == |s.collected| + n - 1; }
    }
  }

  lemma {:induction false} FailuresLastStep(jobs: seq<Job>, n: nat, failed: set<int>)
    requires n <= |jobs|
    ensures (forall i | 0 <= i < n :: jobs[i].msn !in failed) ==> FailuresLast(jobs, n, failed)
    ensures n > 0 ==>
              (FailuresLast(jobs, n, failed) <==>
               && FailuresLast(jobs, n - 1, failed)
               && (jobs[n - 1].msn in failed || forall i | 0 <= i < n - 1 :: jobs[i].msn !in failed))
  {
  }

  /** Some file carries a number that a later batch will hand out again. */
  ghost predicate Overrun(s: State) {
    exists k :: 0 <= k < |s.collected| && s.collected[k].index >= |s.collected|
  }

  /** The k-th collected file is numbered k exactly when in every batch the failures form a suffix. */
  lemma {:induction false} NumberedIffSuffixFailures(polls: seq<Poll>)
    ensures Numbered(Capture(polls)) <==> AllSuffixFailures(polls)
  {
    if polls != [] {
      var s, poll := Capture(polls[..|polls| - 1]), polls[|polls| - 1];
      NumberedIffSuffixFailures(polls[..|polls| - 1]);
      if poll.Fetched? && !s.ended {
        JobsOf(s, poll.manifest);
        AbsorbNumbers(s, Jobs(s, poll.manifest), |Jobs(s, poll.manifest)|, poll.failed);
      }
    }
  }

  lemma {:induction false} OverrunPersists(s: State, poll: Poll)
    requires Overrun(s) || !Distinct(s) || !SuffixFailures(s, poll)
    ensures Overrun(Step(s, poll)) || !Distinct(Step(s, poll))
  {
    if poll.Fetched? && !s.ended {
      var jobs := Jobs(s, poll.manifest);
      var t := AbsorbUpTo(s, jobs, |jobs|, poll.failed);
      JobsOf(s, poll.manifest);
      AbsorbNumbers(s, jobs, |jobs|, poll.failed);
      if !FailuresLast(jobs, |jobs|, poll.failed) {
        var k :| 0 <= k < |t.collected| && t.collected[k].index >= |t.collected|;
        assert Step(s, poll).collected[k].index >= |Step(s, poll).collected|;
      } else if !Distinct(s) {
        var i, j :| 0 <= i < j < |s.collected| && s.collected[i].index == s.collected[j].index;
        assert t.collected[i] == s.collected[i] && t.collected[j] == s.collected[j];
        assert !Distinct(Step(s, poll));
      } else {
        var k :| 0 <= k < |s.collected| && s.collected[k].index >= |s.collected|;
        var x := s.collected[k].index;
        assert t.collected[k] == s.collected[k];
        if x < |t.collected| {
          assert t.collected[x].index == x;
          assert !Distinct(Step(s, poll));
        } else {
          assert Step(s, poll).collected[k].index >= |Step(s, poll).collected|;
        }
      }
    }
  }

  lemma {:induction false} BadBatchLeavesMark(polls: seq<Poll>)
    requires !AllSuffixFailures(polls)
    ensures Overrun(Capture(polls)) || !Distinct(Capture(polls))
  {
    var s := Capture(polls[..|polls| - 1]);
    if !AllSuffixFailures(polls[..|polls| - 1]) { BadBatchLeavesMark(polls[..|polls| - 1]); }
    OverrunPersists(s, polls[|polls| - 1]);
  }

  ghost predicate Perfect(polls: seq<Poll>) {
    forall i | 0 <= i < |polls| :: polls[i].Fetched? ==> polls[i].failed == {}
  }

  lemma {:induction false} PerfectStaysSuffix(polls: seq<Poll>, more: seq<Poll>)
    requires AllSuffixFailures(polls) && Perfect(more)
    ensures AllSuffixFailures(polls + more)
    decreases |more|
  {
    var all := polls + more;
    if more == [] {
      assert all == polls;
    } else {
      assert all[..|all| - 1] == polls + more[..|more| - 1];
      PerfectStaysSuffix(polls, more[..|more| - 1]);
      assert all[|all| - 1] == more[|more| - 1];
    }
  }

  /** The manifest that makes a capture reuse the number x. */
  function Reusing(s: State, x: nat): Poll
    requires |s.collected| <= x
  {
    Fetched(Manifest(Some(s.lastMsn + 1), seq(x - |s.collected| + 1, _ => None), [], false), {})
  }

  lemma {:induction false} OverrunCollides(s: State, k: nat)
    requires !s.ended && k < |s.collected| && s.collected[k].index >= |s.collected|
    ensures !Distinct(Step(s, Reusing(s, s.collected[k].index)))
  {
    var x := s.collected[k].index;
    var poll := Reusing(s, x);
    var m, jobs := poll.manifest, Jobs(s, poll.manifest);
    JobsOf(s, m);
    JobsWithoutBlanks(m.Entries(), |m.Entries()|, s.lastMsn, |s.collected|, m.Start());
    AbsorbAll(s, jobs, |jobs|);
    assert |jobs| == x - |s.collected| + 1;
    var t := Step(s, poll);
    assert t.collected[k] == s.collected[k];
    assert t.collected[x] == jobs[x - |s.collected|];
    assert t.collected[x].index == x;
  }

  /** File names stay distinct under every future with a perfect network exactly when so far the
      failures of every batch formed a suffix.  One success after a failure in a batch is enough for
      a later batch, without any further failure, to reuse a collected name. */
  lemma {:induction false} NamesStayDistinctIff(polls: seq<Poll>)
    requires !Capture(polls).ended
    ensures (forall more: seq<Poll> {:induction false} :: Perfect(more) ==> Distinct(Capture(polls + more)))
            <==> AllSuffixFailures(polls)
  {
    var s := Capture(polls);
    if AllSuffixFailures(polls) {
      forall more: seq<Poll> | Perfect(more)
        ensures Distinct(Capture(polls + more))
      {
        PerfectStaysSuffix(polls, more);
        NumberedIffSuffixFailures(polls + more);
      }
    } else {
      BadBatchLeavesMark(polls);
      var none: seq<Poll> := [];
      assert polls + none == polls && Perfect(none);
      if Overrun(s) {
        var k :| 0 <= k < |s.collected| && s.collected[k].index >= |s.collected|;
        var more := [Reusing(s, s.collected[k].index)];
        OverrunCollides(s, k);
        assert (polls + more)[..|polls + more| - 1] == polls;
        assert Perfect(more) && !Distinct(Capture(polls + more));
      }
    }
  }

  lemma {:induction false} FailedFirstBatch()
    ensures Step(START, Fetched(Manifest(Some(0), [None, None], [], false), {0})) == State([Job(1, 1, 6.0)], 1, false)
  {
    var m := Manifest(Some(0), [None, None], [], false);
    assert m.durations[0].None? && m.durations[1].None?;
    assert m.Entries() == [Entry(0, true, 6.0), Entry(1, true, 6.0)];
    assert JobsUpTo(m.Entries(), 1, -1, 0) == [Job(0, 0, 6.0)];
    var jobs := [Job(0, 0, 6.0), Job(1, 1, 6.0)];
    assert JobsUpTo(m.Entries(), 2, -1, 0) == jobs;
    assert AbsorbUpTo(START, jobs, 1, {0}) == START;
  }

  lemma {:induction false} OneMoreSegment(s: State)
    requires s == State([Job(1, 1, 6.0)], 1, false)
    ensures Step(s, Fetched(Manifest(Some(2), [None], [], false), {})).collected == [Job(1, 1, 6.0), Job(2, 1, 6.0)]
  {
    var n := Manifest(Some(2), [None], [], false);
    assert n.durations[0].None?;
    assert n.Entries() == [Entry(2, true, 6.0)];
    assert JobsUpTo(n.Entries(), 0, 1, 1) == [] && Jobs(s, n) == [Job(2, 1, 6.0)];
    assert AbsorbUpTo(s, [Job(2, 1, 6.0)], 1, {}).collected == [Job(1, 1, 6.0), Job(2, 1, 6.0)];
  }

  /** The smallest case: of two listed segments the first fails, and the next poll writes its
      segment over the one just collected. */
  lemma {:induction false} FailedFirstReusesName()
    ensures var batch := Fetched(Manifest(Some(0), [None, None], [], false), {0});
            var next := Fetched(Manifest(Some(2), [None], [], false), {});
            Capture([batch, next]).collected == [Job(1, 1, 6.0), Job(2, 1, 6.0)]
  {
    hide Step;
    var batch := Fetched(Manifest(Some(0), [None, None], [], false), {0});
    var next := Fetched(Manifest(Some(2), [None], [], false), {});
    FailedFirstBatch();
    OneMoreSegment(State([Job(1, 1, 6.0)], 1, false));
    assert [] + [batch] == [batch] && [batch] + [next] == [batch, next];
    CaptureNext([], batch);
    CaptureNext([batch], next);
  }

  /** What is on disk after the collected files were written one after the other. */
  function Contents(collected: seq<Job>): map<nat, int> {
    if collected == [] then map[]
    else
      var j := collected[|collected| - 1];
      Contents(collected[..|collected| - 1])[j.index := j.msn]
  }

  lemma {:induction false} ContentsHold(collected: seq<Job>, k: nat)
    requires k < |collected|
    requires Increasing(collected)
    ensures collected[k].index in Contents(collected)
    ensures Contents(collected)[collected[k].index] == collected[k].msn
            <==> forall j | k < j < |collected| :: collected[j].index != collected[k].index
  {
    var n := |collected| - 1;
    if k < n {
      ContentsHold(collected[..n], k);
      if collected[n].index == collected[k].index {
        assert collected[k].msn < collected[n].msn;
      } else if forall j | k < j < n :: collected[..n][j].index != collected[k].index {
        assert forall j | k < j < |collected| :: j < n ==> collected[j] == collected[..n][j];
      }
    }
  }

  /** Every collected file still holds its own segment exactly when the names are distinct. */
  lemma {:induction false} FilesIntactIffDistinct(polls: seq<Poll>)
    ensures var c := Capture(polls).collected;
            (forall k | 0 <= k < |c| :: c[k].index in Contents(c) && Contents(c)[c[k].index] == c[k].msn)
            <==> Distinct(Capture(polls))
  {
    var c := Capture(polls).collected;
    CollectedIncreasing(polls);
    forall k | 0 <= k < |c|
      ensures c[k].index in Contents(c)
      ensures Contents(c)[c[k].index] == c[k].msn <==> forall j | k < j < |c| :: c[j].index != c[k].index
    {
      ContentsHold(c, k);
    }
  }
}
