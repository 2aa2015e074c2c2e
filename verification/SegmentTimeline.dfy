/** Rebasing the timestamps of captured segments onto one continuous timeline while muxing. */
module SegmentTimeline {
  import opened Arithmetic
  import opened Options

  /** A demuxed packet of the video or the audio stream.  `duration` is 0 when unknown, `rejected`
      says that the muxer refuses the rebased packet. */
  datatype Packet = Packet(
    video: bool, pts: Option<int>, dts: Option<int>, corrupt: bool, duration: int, rejected: bool)

  /** A segment that cannot be opened or lacks a stream, or one that yields its packets and then
      possibly raises a segment-level exception. */
  datatype Segment = Unreadable | Readable(packets: seq<Packet>, aborted: bool)

  datatype Stamp = Stamp(pts: int, dts: int, duration: int, rejected: bool)

  datatype OutPacket = OutPacket(video: bool, pts: int, dts: int)

  function Min(x: int, y: int): int { if y < x then y else x }

  function Max(x: int, y: int): int { if x < y then y else x }

  /** The packets of one stream that carry both timestamps and are not corrupt. */
  function Kept(packets: seq<Packet>, video: bool): seq<Stamp> {
    if packets == [] then []
    else
      var p := packets[|packets| - 1];
      Kept(packets[..|packets| - 1], video)
      + if p.pts.Some? && p.dts.Some? && !p.corrupt && p.video == video
        then [Stamp(p.pts.value, p.dts.value, p.duration, p.rejected)] else []
  }

  /** The per-segment variables of one stream: first timestamp, largest rebased pts, last duration. */
  datatype Cursor = Cursor(first: Option<int>, peak: int, lastDur: int)
  {
    function FirstOr(s: Stamp): int { if first.Some? then first.value else Min(s.pts, s.dts) }

    function Advance(s: Stamp, offset: int): Cursor {
      Cursor(
        Some(FirstOr(s)),
        Max(peak, s.pts - FirstOr(s) + offset),
        if s.duration != 0 then s.duration else lastDur)
    }
  }

  datatype Out = Out(pts: int, dts: int)

  function Scan(kept: seq<Stamp>, offset: int): Cursor {
    if kept == [] then Cursor(None, offset, 0)
    else Scan(kept[..|kept| - 1], offset).Advance(kept[|kept| - 1], offset)
  }

  function Muxed(kept: seq<Stamp>, offset: int): seq<Out> {
    if kept == [] then []
    else
      var init, s := kept[..|kept| - 1], kept[|kept| - 1];
      var first := Scan(init, offset).FirstOr(s);
      Muxed(init, offset)
      + if s.rejected then [] else [Out(s.pts - first + offset, s.dts - first + offset)]
  }

  /** One stream over all segments: everything written and the offset of the next segment. */
  datatype Track = Track(out: seq<Out>, offset: int)

  function StepTrack(t: Track, segment: Segment, video: bool): Track {
    match segment
    case Unreadable => t
    case Readable(packets, aborted) =>
      var kept := Kept(packets, video);
      var c := Scan(kept, t.offset);
      Track(t.out + Muxed(kept, t.offset), if aborted then t.offset else c.peak + c.lastDur)
  }

  function RunTrack(segments: seq<Segment>, video: bool): Track {
    if segments == [] then Track([], 0)
    else StepTrack(RunTrack(segments[..|segments| - 1], video), segments[|segments| - 1], video)
  }

  function Project(output: seq<OutPacket>, video: bool): seq<Out> {
    if output == [] then []
    else
      var p := output[|output| - 1];
      Project(output[..|output| - 1], video) + if p.video == video then [Out(p.pts, p.dts)] else []
  }

  /** The streams of a sequence of packets, in order. */
  function Streams(output: seq<OutPacket>): seq<bool> { seq(|output|, i requires 0 <= i < |output| => output[i].video) }

  /** The streams of the packets of a segment that are written, in order. */
  function Written(packets: seq<Packet>): seq<bool> {
    if packets == [] then []
    else
      var p := packets[|packets| - 1];
      Written(packets[..|packets| - 1])
      + if p.pts.Some? && p.dts.Some? && !p.corrupt && !p.rejected then [p.video] else []
  }

  function AllWritten(segments: seq<Segment>): seq<bool> {
    if segments == [] then []
    else
      var last := segments[|segments| - 1];
      AllWritten(segments[..|segments| - 1]) + if last.Readable? then Written(last.packets) else []
  }

  lemma {:induction false} WrittenStep(packets: seq<Packet>, k: nat)
    requires k < |packets|
    ensures var p := packets[k];
            Written(packets[..k + 1]) ==
            if p.pts.Some? && p.dts.Some? && !p.corrupt && !p.rejected then Written(packets[..k]) + [p.video]
            else Written(packets[..k])
  {
    assert packets[..k + 1][..k] == packets[..k];
    assert Written(packets[..k]) + [] == Written(packets[..k]);
  }

  lemma {:induction false} NothingWritten()
    ensures Written([]) == [] && AllWritten([]) == [] && Streams([]) == []
  {
  }

  lemma {:induction false} StreamsAppend(output: seq<OutPacket>, p: OutPacket)
    ensures Streams(output + [p]) == Streams(output) + [p.video]
  {
  }

  lemma {:induction false} ProjectAppend(output: seq<OutPacket>, p: OutPacket, video: bool)
    ensures Project(output + [p], video) ==
            Project(output, video) + if p.video == video then [Out(p.pts, p.dts)] else []
  {
    assert (output + [p])[..|output|] == output;
  }

  lemma {:induction false} KeptStep(packets: seq<Packet>, k: nat, video: bool)
    requires k < |packets|
    ensures var p := packets[k];
            Kept(packets[..k + 1], video) ==
            if p.pts.Some? && p.dts.Some? && !p.corrupt && p.video == video
            then Kept(packets[..k], video) + [Stamp(p.pts.value, p.dts.value, p.duration, p.rejected)]
            else Kept(packets[..k], video)
  {
    assert packets[..k + 1][..k] == packets[..k];
    assert Kept(packets[..k], video) + [] == Kept(packets[..k], video);
  }

  lemma {:induction false} ScanStep(kept: seq<Stamp>, s: Stamp, offset: int)
    ensures Scan(kept + [s], offset) == Scan(kept, offset).Advance(s, offset)
    ensures var first := Scan(kept, offset).FirstOr(s);
            Muxed(kept + [s], offset) ==
            if s.rejected then Muxed(kept, offset)
            else Muxed(kept, offset) + [Out(s.pts - first + offset, s.dts - first + offset)]
  {
    assert (kept + [s])[..|kept|] == kept;
    assert Muxed(kept, offset) + [] == Muxed(kept, offset);
  }

  // ----- the source's loops -----

  /** The packet loop of one readable segment, both streams interleaved. */
  method MuxPackets(packets: seq<Packet>, before: seq<OutPacket>, videoOffset: int, audioOffset: int)
    returns (output: seq<OutPacket>, video: Cursor, audio: Cursor)
    ensures video == Scan(Kept(packets, true), videoOffset) && audio == Scan(Kept(packets, false), audioOffset)
    ensures Project(output, true) == Project(before, true) + Muxed(Kept(packets, true), videoOffset)
    ensures Project(output, false) == Project(before, false) + Muxed(Kept(packets, false), audioOffset)
    ensures Streams(output) == Streams(before) + Written(packets)
  {
    hide Kept, Scan, Muxed, Project, Written, Streams;
    NothingWritten();
    output := before;
    video, audio := Cursor(None, videoOffset, 0), Cursor(None, audioOffset, 0);
    NothingMuxed(videoOffset, audioOffset);
    for k := 0 to |packets|
      invariant video == Scan(Kept(packets[..k], true), videoOffset)
      invariant audio == Scan(Kept(packets[..k], false), audioOffset)
      invariant Project(output, true) == Project(before, true) + Muxed(Kept(packets[..k], true), videoOffset)
      invariant Project(output, false) == Project(before, false) + Muxed(Kept(packets[..k], false), audioOffset)
      invariant Streams(output) == Streams(before) + Written(packets[..k])
    {
      var p := packets[k];
      KeptStep(packets, k, true);
      KeptStep(packets, k, false);
      WrittenStep(packets, k);
      if p.pts.None? || p.dts.None? || p.corrupt {
        continue;
      }
      var s := Stamp(p.pts.value, p.dts.value, p.duration, p.rejected);
      if p.video {
        ScanStep(Kept(packets[..k], true), s, videoOffset);
        var first := video.FirstOr(s);
        var rebased := OutPacket(true, s.pts - first + videoOffset, s.dts - first + videoOffset);
        video := video.Advance(s, videoOffset);
        if !p.rejected {
          ProjectAppend(output, rebased, true);
          ProjectAppend(output, rebased, false);
          StreamsAppend(output, rebased);
          output := output + [rebased];
        }
      } else {
        ScanStep(Kept(packets[..k], false), s, audioOffset);
        var first := audio.FirstOr(s);
        var rebased := OutPacket(false, s.pts - first + audioOffset, s.dts - first + audioOffset);
        audio := audio.Advance(s, audioOffset);
        if !p.rejected {
          ProjectAppend(output, rebased, true);
          ProjectAppend(output, rebased, false);
          StreamsAppend(output, rebased);
          output := output + [rebased];
        }
      }
    }
    assert packets[..|packets|] == packets;
  }

  lemma {:induction false} NothingMuxed(videoOffset: int, audioOffset: int)
    ensures Scan(Kept([], true), videoOffset) == Cursor(None, videoOffset, 0)
    ensures Scan(Kept([], false), audioOffset) == Cursor(None, audioOffset, 0)
    ensures Muxed(Kept([], true), videoOffset) == [] && Muxed(Kept([], false), audioOffset) == []
  {
  }

  lemma {:induction false} NothingProjected()
    ensures Project([], true) == [] && Project([], false) == []
  {
  }

  lemma {:induction false} QuarterRule(skipped: nat, total: nat)
    requires total > 0
    ensures (skipped as real / total as real) * 100.0 > 25.0 <==> 4 * skipped > total
  {
    var q := skipped as real / total as real;
    if q <= 0.25 { MulMono(total as real, q, 0.25); } else { MulStrict(total as real, 0.25, q); }
  }

  predicate Skipped(segment: Segment) { segment.Unreadable? || segment.aborted }

  function CountSkipped(segments: seq<Segment>): nat {
    if segments == [] then 0
    else CountSkipped(segments[..|segments| - 1]) + if Skipped(segments[|segments| - 1]) then 1 else 0
  }

  /** The skipped segments are the unreadable ones and those that raise. */
  lemma {:induction false} SkippedCounted(segments: seq<Segment>)
    ensures CountSkipped(segments) ==
            |set i | 0 <= i < |segments| && (segments[i].Unreadable? || segments[i].aborted)|
  {
    if segments != [] {
      var n := |segments| - 1;
      SkippedCounted(segments[..n]);
      var before := set i | 0 <= i < n && (segments[..n][i].Unreadable? || segments[..n][i].aborted);
      var all := set i | 0 <= i < |segments| && (segments[i].Unreadable? || segments[i].aborted);
      assert all == if Skipped(segments[n]) then before + {n} else before;
    }
  }

  /** The segment loop: per stream it writes the track and ends at its offset, with the packets in
      the order they came; the mux is given up when more than a quarter of the segments was unreadable
      or raised. */
  method MuxSegments(segments: seq<Segment>)
    returns (output: seq<OutPacket>, videoOffset: int, audioOffset: int, ok: bool)
    ensures RunTrack(segments, true) == Track(Project(output, true), videoOffset)
    ensures RunTrack(segments, false) == Track(Project(output, false), audioOffset)
    ensures Streams(output) == AllWritten(segments)
    ensures ok <==> segments != []
                    && 4 * |set i | 0 <= i < |segments| && (segments[i].Unreadable? || segments[i].aborted)|
                       <= |segments|
  {
    hide Kept, Scan, Muxed, Project, Written, Streams;
    NothingWritten();
    output, videoOffset, audioOffset := [], 0, 0;
    assert Project([], true) == [] && Project([], false) == [] by { NothingProjected(); }
    var skipped := 0;
    for i := 0 to |segments|
      invariant RunTrack(segments[..i], true) == Track(Project(output, true), videoOffset)
      invariant RunTrack(segments[..i], false) == Track(Project(output, false), audioOffset)
      invariant Streams(output) == AllWritten(segments[..i])
      invariant skipped == CountSkipped(segments[..i])
    {
      assert segments[..i + 1][..i] == segments[..i];
      match segments[i] {
        case Unreadable =>
          skipped := skipped + 1;
        case Readable(packets, aborted) =>
          var video, audio;
          output, video, audio := MuxPackets(packets, output, videoOffset, audioOffset);
          if aborted {
            skipped := skipped + 1;
          } else {
            videoOffset, audioOffset := video.peak + video.lastDur, audio.peak + audio.lastDur;
          }
      }
    }
    assert segments[..|segments|] == segments;
    SkippedCounted(segments);
    if segments != [] { QuarterRule(skipped, |segments|); }
    ok := segments != [] && !((skipped as real / |segments| as real) * 100.0 > 25.0);
  }

  // ----- what a segment contributes -----

  /** The timestamp every packet of a segment is measured from. */
  function Origin(kept: seq<Stamp>): int {
    if kept == [] then 0 else Min(kept[0].pts, kept[0].dts)
  }

  /** How far the latest pts of a segment lies behind its origin, at least 0. */
  function Reach(kept: seq<Stamp>, origin: int): int {
    if kept == [] then 0 else Max(Reach(kept[..|kept| - 1], origin), kept[|kept| - 1].pts - origin)
  }

  /** Reach is 0 or attained, and no packet lies further. */
  lemma {:induction false} ReachIsLargest(kept: seq<Stamp>, origin: int)
    ensures var r := Reach(kept, origin);
            && 0 <= r
            && (forall i | 0 <= i < |kept| :: kept[i].pts - origin <= r)
            && (r == 0 || exists i :: 0 <= i < |kept| && kept[i].pts - origin == r)
  {
    if kept != [] {
      var init := kept[..|kept| - 1];
      ReachIsLargest(init, origin);
      assert forall i | 0 <= i < |init| :: kept[i] == init[i];
      if Reach(kept, origin) != 0 && Reach(kept, origin) == Reach(init, origin) {
        var i :| 0 <= i < |init| && init[i].pts - origin == Reach(init, origin);
        assert kept[i].pts - origin == Reach(kept, origin);
      }
    }
  }

  /** The last known packet duration, 0 if there is none. */
  function LastDuration(kept: seq<Stamp>): (d: int)
    ensures d == 0 ==> forall i | 0 <= i < |kept| :: kept[i].duration == 0
    ensures d != 0 ==> exists i :: 0 <= i < |kept| && kept[i].duration == d
                                   && forall j | i < j < |kept| :: kept[j].duration == 0
  {
    if kept == [] then 0
    else if kept[|kept| - 1].duration != 0 then kept[|kept| - 1].duration
    else LastDuration(kept[..|kept| - 1])
  }

  /** The loop variables, stated without the loop. */
  lemma {:induction false} ScanMeasures(kept: seq<Stamp>, offset: int)
    ensures var c := Scan(kept, offset);
            && c.first == (if kept == [] then None else Some(Origin(kept)))
            && c.peak == offset + Reach(kept, Origin(kept))
            && c.lastDur == LastDuration(kept)
  {
    if kept != [] {
      var init := kept[..|kept| - 1];
      ScanMeasures(init, offset);
      if init == [] { assert Reach(init, Origin(kept)) == Reach(init, Origin(init)) == 0; }
    }
  }

  /** Contribution of one segment to the offset; it does not depend on where the segment starts. */
  function Span(segment: Segment, video: bool): int {
    if Skipped(segment) then 0
    else
      var kept := Kept(segment.packets, video);
      Reach(kept, Origin(kept)) + LastDuration(kept)
  }

  function SumSpans(segments: seq<Segment>, video: bool): int {
    if segments == [] then 0
    else SumSpans(segments[..|segments| - 1], video) + Span(segments[|segments| - 1], video)
  }

  /** For any packets at all, the final offset of a stream is the sum over the segments of their
      largest rebased pts relative to the segment start plus their last packet duration. */
  lemma {:induction false} OffsetIsSumOfSpans(segments: seq<Segment>, video: bool)
    ensures RunTrack(segments, video).offset == SumSpans(segments, video)
  {
    if segments != [] {
      OffsetIsSumOfSpans(segments[..|segments| - 1], video);
      var segment := segments[|segments| - 1];
      if segment.Readable? {
        ScanMeasures(Kept(segment.packets, video), RunTrack(segments[..|segments| - 1], video).offset);
      }
    }
  }

  // ----- which packets are written, and where -----

  ghost predicate Ascending(ps: seq<nat>, bound: nat) {
    (forall i, j | 0 <= i < j < |ps| :: ps[i] < ps[j]) && forall i | 0 <= i < |ps| :: ps[i] < bound
  }

  function Extended(before: seq<nat>, n: nat, take: bool): seq<nat> { before + if take then [n] else [] }

  lemma {:induction false} ExtendedAscends(before: seq<nat>, n: nat, take: bool)
    requires Ascending(before, n)
    ensures var ps := Extended(before, n, take);
            && Ascending(ps, n + 1) && before <= ps
            && (n in ps <==> take) && (forall i | 0 <= i < n :: i in ps <==> i in before)
  {
  }

  /** Positions among positions. */
  lemma {:induction false} Composed(ps: seq<nat>, qs: seq<nat>, n: nat) returns (ws: seq<nat>)
    requires Ascending(ps, n) && Ascending(qs, |ps|)
    ensures Ascending(ws, n) && |ws| == |qs|
    ensures forall k | 0 <= k < |ws| :: qs[k] < |ps| && ws[k] == ps[qs[k]]
    ensures forall j | 0 <= j < |ps| :: j in qs <==> ps[j] in ws
    ensures forall i | i in ws :: i in ps
  {
    ws := seq(|qs|, k requires 0 <= k < |qs| => ps[qs[k]]);
    forall j | 0 <= j < |ps|
      ensures j in qs <==> ps[j] in ws
    {
      if k :| 0 <= k < |qs| && qs[k] == j { assert ws[k] == ps[j]; }
      if k :| 0 <= k < |ws| && ws[k] == ps[j] { assert qs[k] == j; }
    }
  }

  predicate Counts(p: Packet, video: bool) {
    p.pts.Some? && p.dts.Some? && !p.corrupt && p.video == video
  }

  function StampOf(p: Packet): Stamp
    requires p.pts.Some? && p.dts.Some?
  {
    Stamp(p.pts.value, p.dts.value, p.duration, p.rejected)
  }

  ghost predicate CountedAt(ps: seq<nat>, packets: seq<Packet>, video: bool) {
    forall i | 0 <= i < |packets| :: i in ps <==> Counts(packets[i], video)
  }

  ghost predicate StampedFrom(ps: seq<nat>, packets: seq<Packet>, kept: seq<Stamp>) {
    && |ps| == |kept|
    && forall k | 0 <= k < |kept| ::
         && ps[k] < |packets| && packets[ps[k]].pts.Some? && packets[ps[k]].dts.Some?
         && kept[k] == StampOf(packets[ps[k]])
  }

  lemma {:induction false} CountedNext(before: seq<nat>, packets: seq<Packet>, video: bool)
    requires packets != [] && Ascending(before, |packets| - 1) && CountedAt(before, packets[..|packets| - 1], video)
    ensures var n := |packets| - 1;
            CountedAt(Extended(before, n, Counts(packets[n], video)), packets, video)
  {
    hide Counts, Extended;
    var n := |packets| - 1;
    ExtendedAscends(before, n, Counts(packets[n], video));
    assert forall i | 0 <= i < n :: packets[..n][i] == packets[i];
  }

  lemma {:induction false} StampedNext(before: seq<nat>, packets: seq<Packet>, video: bool, kept: seq<Stamp>)
    requires packets != [] && StampedFrom(before, packets[..|packets| - 1], kept)
    ensures var n, take := |packets| - 1, Counts(packets[|packets| - 1], video);
            StampedFrom(Extended(before, n, take), packets, if take then kept + [StampOf(packets[n])] else kept)
  {
    var n := |packets| - 1;
    assert forall i | 0 <= i < n :: packets[..n][i] == packets[i];
  }

  lemma {:induction false} KeptPositions(packets: seq<Packet>, video: bool) returns (ps: seq<nat>)
    ensures Ascending(ps, |packets|) && CountedAt(ps, packets, video)
    ensures StampedFrom(ps, packets, Kept(packets, video))
  {
    hide Ascending, CountedAt, StampedFrom, Extended;
    if packets == [] {
      ps := [];
      NoPositions(video);
    } else {
      var n := |packets| - 1;
      var before := KeptPositions(packets[..n], video);
      ps := Extended(before, n, Counts(packets[n], video));
      ExtendedAscends(before, n, Counts(packets[n], video));
      CountedNext(before, packets, video);
      StampedNext(before, packets, video, Kept(packets[..n], video));
      assert Kept(packets[..n], video) + [] == Kept(packets[..n], video);
    }
  }

  lemma {:induction false} NoPositions(video: bool)
    ensures Ascending([], 0) && CountedAt([], [], video) && StampedFrom([], [], [])
    ensures AcceptedAt([], []) && PlacedFrom([], [], [], 0, 0)
  {
  }

  ghost predicate AcceptedAt(qs: seq<nat>, kept: seq<Stamp>) {
    forall i | 0 <= i < |kept| :: i in qs <==> !kept[i].rejected
  }

  ghost predicate PlacedFrom(qs: seq<nat>, kept: seq<Stamp>, out: seq<Out>, origin: int, offset: int) {
    && |qs| == |out|
    && forall k | 0 <= k < |out| ::
         qs[k] < |kept| && out[k] == Out(kept[qs[k]].pts - origin + offset, kept[qs[k]].dts - origin + offset)
  }

  lemma {:induction false} AcceptedNext(before: seq<nat>, kept: seq<Stamp>)
    requires kept != [] && Ascending(before, |kept| - 1) && AcceptedAt(before, kept[..|kept| - 1])
    ensures AcceptedAt(Extended(before, |kept| - 1, !kept[|kept| - 1].rejected), kept)
  {
    hide Extended;
    var n := |kept| - 1;
    ExtendedAscends(before, n, !kept[n].rejected);
    assert forall i | 0 <= i < n :: kept[..n][i] == kept[i];
  }

  lemma {:induction false} PlacedNext(before: seq<nat>, kept: seq<Stamp>, out: seq<Out>, origin: int, offset: int)
    requires kept != [] && PlacedFrom(before, kept[..|kept| - 1], out, origin, offset)
    ensures var s := kept[|kept| - 1];
            PlacedFrom(Extended(before, |kept| - 1, !s.rejected), kept,
                       out + if s.rejected then [] else [Out(s.pts - origin + offset, s.dts - origin + offset)],
                       origin, offset)
  {
    var n := |kept| - 1;
    assert forall i | 0 <= i < n :: kept[..n][i] == kept[i];
  }

  lemma {:induction false} RebasePositions(kept: seq<Stamp>, origin: int, offset: int) returns (qs: seq<nat>)
    ensures Ascending(qs, |kept|) && AcceptedAt(qs, kept)
    ensures PlacedFrom(qs, kept, Rebase(kept, origin, offset), origin, offset)
  {
    hide Ascending, AcceptedAt, Extended;
    if kept == [] {
      qs := [];
      NoPositions(true);
    } else {
      hide PlacedFrom;
      var n := |kept| - 1;
      var before := RebasePositions(kept[..n], origin, offset);
      qs := Extended(before, n, !kept[n].rejected);
      ExtendedAscends(before, n, !kept[n].rejected);
      AcceptedNext(before, kept);
      PlacedNext(before, kept, Rebase(kept[..n], origin, offset), origin, offset);
    }
  }

  /** A segment writes exactly the packets of the stream that have both timestamps, are not corrupt and
      are accepted by the muxer, in order, each moved by the offset minus the smaller timestamp of the
      first one with both timestamps that is not corrupt, accepted or not. */
  lemma {:induction false} WrittenPositions(packets: seq<Packet>, video: bool, offset: int)
    returns (ps: seq<nat>, ws: seq<nat>, origin: int)
    ensures Ascending(ps, |packets|) && Ascending(ws, |packets|) && |ws| == |Muxed(Kept(packets, video), offset)|
    ensures forall i | 0 <= i < |packets| ::
              i in ps <==> packets[i].pts.Some? && packets[i].dts.Some? && !packets[i].corrupt
                           && packets[i].video == video
    ensures forall i | 0 <= i < |packets| :: i in ws <==> i in ps && !packets[i].rejected
    ensures ps != [] ==>
              ps[0] < |packets| && packets[ps[0]].pts.Some? && packets[ps[0]].dts.Some?
              && origin == Min(packets[ps[0]].pts.value, packets[ps[0]].dts.value)
    ensures forall k | 0 <= k < |ws| ::
              ws[k] < |packets| && packets[ws[k]].pts.Some? && packets[ws[k]].dts.Some?
              && Muxed(Kept(packets, video), offset)[k]
                 == Out(packets[ws[k]].pts.value - origin + offset, packets[ws[k]].dts.value - origin + offset)
  {
    hide Kept, Muxed, Rebase, Ascending;
    var kept := Kept(packets, video);
    origin := Origin(kept);
    ps := KeptPositions(packets, video);
    MuxedIsRebase(kept, offset);
    var qs := RebasePositions(kept, origin, offset);
    ws := Composed(ps, qs, |packets|);
    AcceptedAmong(packets, video, kept, ps, qs, ws);
  }

  lemma {:induction false} AcceptedAmong(
    packets: seq<Packet>, video: bool, kept: seq<Stamp>, ps: seq<nat>, qs: seq<nat>, ws: seq<nat>)
    requires CountedAt(ps, packets, video) && StampedFrom(ps, packets, kept) && AcceptedAt(qs, kept)
    requires forall j | 0 <= j < |ps| :: j in qs <==> ps[j] in ws
    requires forall i | i in ws :: i in ps
    ensures forall i | 0 <= i < |packets| :: i in ws <==> i in ps && !packets[i].rejected
  {
    forall i | 0 <= i < |packets|
      ensures i in ws <==> i in ps && !packets[i].rejected
    {
      if i in ps {
        var j :| 0 <= j < |ps| && ps[j] == i;
        assert kept[j].rejected == packets[i].rejected;
      }
    }
  }

  // ----- the timeline -----

  /** Decode times in order, presentation never before decoding. */
  ghost predicate Ordered(kept: seq<Stamp>) {
    && (forall i, j | 0 <= i < j < |kept| :: kept[i].dts <= kept[j].dts)
    && (forall i | 0 <= i < |kept| :: kept[i].dts <= kept[i].pts)
  }

  /** Ordered packets; a segment that counts does not end on a negative duration. */
  ghost predicate Orderly(segment: Segment, video: bool) {
    segment.Readable? ==>
      var kept := Kept(segment.packets, video);
      Ordered(kept) && (segment.aborted || 0 <= LastDuration(kept))
  }

  ghost predicate OrderedSegments(segments: seq<Segment>, video: bool) {
    forall i | 0 <= i < |segments| :: Orderly(segments[i], video)
  }

  ghost predicate Monotone(out: seq<Out>) {
    && (forall i, j | 0 <= i < j < |out| :: out[i].dts <= out[j].dts)
    && (forall i | 0 <= i < |out| :: out[i].dts <= out[i].pts)
  }

  /** The written packets of a segment, measured from a fixed origin. */
  function Rebase(kept: seq<Stamp>, origin: int, offset: int): seq<Out> {
    if kept == [] then []
    else
      var s := kept[|kept| - 1];
      Rebase(kept[..|kept| - 1], origin, offset)
      + if s.rejected then [] else [Out(s.pts - origin + offset, s.dts - origin + offset)]
  }

  lemma {:induction false} MuxedIsRebase(kept: seq<Stamp>, offset: int)
    ensures Muxed(kept, offset) == Rebase(kept, Origin(kept), offset)
  {
    if kept != [] {
      var init := kept[..|kept| - 1];
      MuxedIsRebase(init, offset);
      ScanMeasures(init, offset);
      if init == [] { assert Rebase(init, Origin(kept), offset) == []; }
    }
  }

  ghost predicate Within(out: seq<Out>, low: int, high: int, peak: int) {
    Monotone(out) && forall i | 0 <= i < |out| :: low <= out[i].dts <= high && out[i].pts <= peak
  }

  lemma {:induction false} WithinAppend(out: seq<Out>, o: Out, low: int, high: int, peak: int)
    requires Within(out, low, o.dts, peak)
    requires low <= o.dts <= high && o.dts <= o.pts
    ensures Within(out + [o], low, high, Max(peak, o.pts))
  {
  }

  lemma {:induction false} WithinWidens(out: seq<Out>, low: int, high: int, peak: int, wider: int, higher: int)
    requires Within(out, low, high, peak) && high <= wider && peak <= higher
    ensures Within(out, low, wider, higher)
  {
  }

  lemma {:induction false} OrderedInit(kept: seq<Stamp>)
    requires kept != [] && Ordered(kept)
    ensures var init, s := kept[..|kept| - 1], kept[|kept| - 1];
            && Ordered(init) && kept[0].dts <= s.dts <= s.pts
            && (init != [] ==> init[0] == kept[0] && init[|init| - 1].dts <= s.dts)
  {
  }

  lemma {:induction false} RebaseInOrder(kept: seq<Stamp>, origin: int, offset: int)
    requires kept != [] && Ordered(kept) && origin <= kept[0].dts
    ensures Within(Rebase(kept, origin, offset), offset, kept[|kept| - 1].dts - origin + offset,
                   offset + Reach(kept, origin))
  {
    hide Monotone, Within, Ordered;
    OrderedInit(kept);
    var init, s := kept[..|kept| - 1], kept[|kept| - 1];
    var o, peak := Out(s.pts - origin + offset, s.dts - origin + offset), offset + Reach(init, origin);
    var before := Rebase(init, origin, offset);
    if init == [] {
      assert Within(before, offset, o.dts, peak) by { WithinNothing(offset, o.dts, peak); }
    } else {
      RebaseInOrder(init, origin, offset);
      WithinWidens(before, offset, init[|init| - 1].dts - origin + offset, peak, o.dts, peak);
    }
    WithinAppend(before, o, offset, o.dts, peak);
    WithinWidens(before, offset, o.dts, peak, o.dts, Max(peak, o.pts));
    assert before + [] == before;
  }

  lemma {:induction false} WithinNothing(low: int, high: int, peak: int)
    ensures Within([], low, high, peak)
  {
  }

  lemma {:induction false} RebaseKept(kept: seq<Stamp>, offset: int)
    requires kept != [] && Ordered(kept)
    ensures Within(Rebase(kept, Origin(kept), offset), offset, kept[|kept| - 1].dts - Origin(kept) + offset,
                   offset + Reach(kept, Origin(kept)))
  {
    RebaseInOrder(kept, Origin(kept), offset);
  }

  lemma {:induction false} MuxedInOrder(kept: seq<Stamp>, offset: int)
    requires Ordered(kept)
    ensures var out, c := Muxed(kept, offset), Scan(kept, offset);
            && Monotone(out)
            && offset <= c.peak
            && (forall i | 0 <= i < |out| :: offset <= out[i].dts && out[i].pts <= c.peak)
  {
    hide Rebase, Origin;
    MuxedIsRebase(kept, offset);
    if kept != [] { RebaseKept(kept, offset); }
    ScanMeasures(kept, offset);
    ReachIsLargest(kept, Origin(kept));
  }

  /** All written packets lie before the next segment's start. */
  ghost predicate Behind(t: Track) {
    && 0 <= t.offset && Monotone(t.out)
    && forall i | 0 <= i < |t.out| :: 0 <= t.out[i].dts <= t.offset
  }

  ghost predicate AllBefore(t: Track) {
    forall i | 0 <= i < |t.out| :: t.out[i].pts <= t.offset
  }

  /** From t to u: the old output stays, everything new comes at or after the old offset, and all of
      it lies before the new one. */
  ghost predicate Continues(t: Track, u: Track) {
    && Behind(u) && t.offset <= u.offset && t.out <= u.out
    && (AllBefore(t) ==> AllBefore(u))
    && forall i | |t.out| <= i < |u.out| :: t.offset <= u.out[i].dts <= u.out[i].pts
  }

  lemma {:induction false} ContinuesItself(t: Track)
    requires Behind(t)
    ensures Continues(t, t)
  {
  }

  lemma {:induction false} ContinuesThrough(t: Track, u: Track, v: Track)
    requires Continues(t, u) && Continues(u, v)
    ensures Continues(t, v)
  {
    hide Behind, AllBefore;
    assert forall i | 0 <= i < |u.out| :: v.out[i] == u.out[i];
  }

  lemma {:induction false} AppendInOrder(t: Track, more: seq<Out>, peak: int, next: int)
    requires Behind(t) && Monotone(more) && t.offset <= peak <= next
    requires forall i | 0 <= i < |more| :: t.offset <= more[i].dts && more[i].pts <= peak
    ensures Continues(t, Track(t.out + more, next))
  {
    var out := t.out + more;
    assert forall i | 0 <= i < |out| :: out[i] == if i < |t.out| then t.out[i] else more[i - |t.out|];
  }

  lemma {:induction false} StepInOrder(t: Track, segment: Segment, video: bool)
    requires Behind(t) && Orderly(segment, video) && !(segment.Readable? && segment.aborted)
    ensures Continues(t, StepTrack(t, segment, video))
  {
    hide Kept, Scan, Muxed, Ordered, Behind, Continues, Monotone;
    if segment.Readable? {
      var kept := Kept(segment.packets, video);
      MuxedInOrder(kept, t.offset);
      ScanMeasures(kept, t.offset);
      var c := Scan(kept, t.offset);
      AppendInOrder(t, Muxed(kept, t.offset), c.peak, c.peak + c.lastDur);
    } else {
      ContinuesItself(t);
    }
  }

  ghost predicate Unaborted(segments: seq<Segment>) {
    forall i | 0 <= i < |segments| :: segments[i].Readable? ==> !segments[i].aborted
  }

  lemma {:induction false} ContinueInOrder(segments: seq<Segment>, more: seq<Segment>, video: bool)
    requires Behind(RunTrack(segments, video))
    requires OrderedSegments(more, video) && Unaborted(more)
    ensures Continues(RunTrack(segments, video), RunTrack(segments + more, video))
    decreases |more|
  {
    hide Continues, Behind, Orderly, StepTrack;
    var all := segments + more;
    if more == [] {
      assert all == segments;
      ContinuesItself(RunTrack(segments, video));
    } else {
      var init := more[..|more| - 1];
      assert all[..|all| - 1] == segments + init && all[|all| - 1] == more[|more| - 1];
      ContinueInOrder(segments, init, video);
      var u := RunTrack(segments + init, video);
      assert Behind(u) by { ContinuesIsBehind(RunTrack(segments, video), u); }
      StepInOrder(u, more[|more| - 1], video);
      ContinuesThrough(RunTrack(segments, video), u, RunTrack(all, video));
    }
  }

  lemma {:induction false} ContinuesIsBehind(t: Track, u: Track)
    requires Continues(t, u)
    ensures Behind(u) && Monotone(u.out)
  {
  }

  /** Main result for a stream whose segments are ordered and raise no segment-level exception: the
      written decode times are nondecreasing and nonnegative, and at every segment boundary the
      running offset separates everything written before from everything written after. */
  lemma {:induction false} TimelineContinuous(segments: seq<Segment>, video: bool, boundary: nat)
    requires OrderedSegments(segments, video) && Unaborted(segments) && boundary <= |segments|
    ensures var t, u := RunTrack(segments[..boundary], video), RunTrack(segments, video);
            && Monotone(u.out) && (forall i | 0 <= i < |u.out| :: 0 <= u.out[i].dts)
            && t.out <= u.out
            && (forall i | 0 <= i < |t.out| :: u.out[i].pts <= t.offset)
            && (forall i | |t.out| <= i < |u.out| :: t.offset <= u.out[i].dts <= u.out[i].pts)
  {
    hide RunTrack, Orderly;
    var none: seq<Segment> := [];
    var before, after := segments[..boundary], segments[boundary..];
    assert none + before == before && before + after == segments;
    assert RunTrack(none, video) == Track([], 0) by { NothingMeasured(video); }
    ContinueInOrder(none, before, video);
    ContinueInOrder(before, after, video);
  }

  lemma {:induction false} NothingMeasured(video: bool)
    ensures RunTrack([], video) == Track([], 0)
  {
  }

  lemma {:induction false} MuxOne(video: bool, offset: int)
    ensures Muxed(Kept([Packet(video, Some(0), Some(0), false, 0, false)], video), offset) == [Out(offset, offset)]
    ensures Orderly(Readable([Packet(video, Some(0), Some(0), false, 0, false)], false), video)
  {
    hide Kept, Scan, Muxed;
    var p, s := Packet(video, Some(0), Some(0), false, 0, false), Stamp(0, 0, 0, false);
    NothingKept(video, offset);
    KeptStep([p], 0, video);
    assert [p][..0] == [] && [p][..1] == [p];
    ScanStep([], s, offset);
    assert [] + [s] == [s];
    assert [s][..0] == [] && LastDuration([]) == 0;
  }

  lemma {:induction false} NothingKept(video: bool, offset: int)
    ensures Kept([], video) == [] && Scan([], offset) == Cursor(None, offset, 0) && Muxed([], offset) == []
  {
  }

  lemma {:induction false} SingletonTrack(segments: seq<Segment>, video: bool)
    ensures var p := Packet(video, Some(0), Some(0), false, 0, false);
            var more := [Readable([p], false)];
            var t := RunTrack(segments, video);
            && OrderedSegments(more, video) && Unaborted(more)
            && RunTrack(segments + more, video).out == t.out + [Out(t.offset, t.offset)]
  {
    hide Kept, Muxed, Scan, Orderly;
    var more := [Readable([Packet(video, Some(0), Some(0), false, 0, false)], false)];
    assert (segments + more)[..|segments|] == segments;
    MuxOne(video, RunTrack(segments, video).offset);
  }

  /** The mux of `segments` stays in order whatever ordered segments without exceptions follow. */
  ghost predicate StaysInOrder(segments: seq<Segment>, video: bool) {
    forall more: seq<Segment> {:induction false} :: OrderedSegments(more, video) && Unaborted(more) ==>
      Monotone(RunTrack(segments + more, video).out)
  }

  ghost predicate Presentable(out: seq<Out>) {
    forall i | 0 <= i < |out| :: 0 <= out[i].dts <= out[i].pts
  }

  lemma {:induction false} BehindIff(t: Track)
    requires 0 <= t.offset && Presentable(t.out)
    ensures Behind(t) <==> Monotone(t.out) && Monotone(t.out + [Out(t.offset, t.offset)])
  {
    var out := t.out + [Out(t.offset, t.offset)];
    if Monotone(out) {
      forall i | 0 <= i < |t.out|
        ensures t.out[i].dts <= t.offset
      {
        assert out[i] == t.out[i] && out[|t.out|].dts == t.offset;
      }
    }
  }

  /** Whatever happened so far, the timeline stays in order under every ordered continuation without
      exceptions exactly when it is in order now and nothing was written beyond the offset at which
      the next segment will start. */
  lemma {:induction false} TimelineContinuesIff(segments: seq<Segment>, video: bool)
    requires 0 <= RunTrack(segments, video).offset && Presentable(RunTrack(segments, video).out)
    ensures StaysInOrder(segments, video) <==> Behind(RunTrack(segments, video))
  {
    hide Monotone, Behind, Continues, RunTrack, OrderedSegments, Unaborted, Presentable;
    BehindIff(RunTrack(segments, video));
    if Behind(RunTrack(segments, video)) {
      forall more: seq<Segment> | OrderedSegments(more, video) && Unaborted(more)
        ensures Monotone(RunTrack(segments + more, video).out)
      {
        ContinueInOrder(segments, more, video);
        ContinuesIsBehind(RunTrack(segments, video), RunTrack(segments + more, video));
      }
    } else {
      NothingFollows(segments, video);
      SingletonTrack(segments, video);
    }
  }

  lemma {:induction false} NothingFollows(segments: seq<Segment>, video: bool)
    ensures segments + [] == segments && OrderedSegments([], video) && Unaborted([])
  {
  }

  /** Nothing of the stream was written later than the segment's origin. */
  ghost predicate WritesNothingLate(segment: Segment, video: bool) {
    segment.Readable? ==>
      var kept := Kept(segment.packets, video);
      forall i | 0 <= i < |kept| :: kept[i].rejected || kept[i].dts <= Origin(kept)
  }

  lemma {:induction false} RebaseLate(kept: seq<Stamp>, origin: int, offset: int)
    ensures (forall i | 0 <= i < |Rebase(kept, origin, offset)| :: Rebase(kept, origin, offset)[i].dts <= offset)
            <==> (forall i | 0 <= i < |kept| :: kept[i].rejected || kept[i].dts <= origin)
  {
    if kept != [] {
      var init, s := kept[..|kept| - 1], kept[|kept| - 1];
      RebaseLate(init, origin, offset);
      var before, out := Rebase(init, origin, offset), Rebase(kept, origin, offset);
      assert forall i | 0 <= i < |init| :: init[i] == kept[i];
      assert forall i | 0 <= i < |before| :: before[i] == out[i];
      if !s.rejected { assert out[|before|].dts == s.dts - origin + offset; }
    }
  }

  /** Muxing an aborted segment after an orderly start. */
  lemma {:induction false} AbortedStep(t: Track, segment: Segment, video: bool)
    requires Behind(t) && segment.Readable? && segment.aborted && Orderly(segment, video)
    ensures var u := StepTrack(t, segment, video);
            && u.offset == t.offset && Presentable(u.out)
            && (Behind(u) <==> WritesNothingLate(segment, video))
  {
    hide Scan, Muxed, Rebase, Origin, Ordered;
    var kept := Kept(segment.packets, video);
    var out := Muxed(kept, t.offset);
    MuxedInOrder(kept, t.offset);
    MuxedIsRebase(kept, t.offset);
    RebaseLate(kept, Origin(kept), t.offset);
    var u := StepTrack(t, segment, video);
    assert u.out == t.out + out;
    if Behind(u) {
      forall i | 0 <= i < |out|
        ensures out[i].dts <= t.offset
      {
        assert u.out[|t.out| + i] == out[i];
      }
    }
  }

  /** Every segment that raises is harmless: what it wrote lies at its own start. */
  ghost predicate HarmlessAborts(segments: seq<Segment>, video: bool) {
    forall i | 0 <= i < |segments| ::
      segments[i].Readable? && segments[i].aborted ==> WritesNothingLate(segments[i], video)
  }

  lemma {:induction false} HarmlessBehind(segments: seq<Segment>, video: bool)
    requires OrderedSegments(segments, video) && HarmlessAborts(segments, video)
    ensures Behind(RunTrack(segments, video))
  {
    hide Behind, StepTrack, WritesNothingLate, Orderly;
    if segments == [] {
      assert Behind(Track([], 0)) by { NothingBehind(); }
    } else {
      var init, last := segments[..|segments| - 1], segments[|segments| - 1];
      HarmlessBehind(init, video);
      var t := RunTrack(init, video);
      if last.Readable? && last.aborted {
        AbortedStep(t, last, video);
      } else {
        StepInOrder(t, last, video);
      }
    }
  }

  lemma {:induction false} NothingBehind()
    ensures Behind(Track([], 0))
  {
  }

  /** After ordered segments, one that raises leaves the timeline in order under every ordered
      continuation exactly when it wrote nothing later than its own origin. */
  lemma {:induction false} AbortedSegmentIff(segments: seq<Segment>, bad: Segment, video: bool)
    requires OrderedSegments(segments, video) && HarmlessAborts(segments, video)
    requires bad.Readable? && bad.aborted && Orderly(bad, video)
    ensures StaysInOrder(segments + [bad], video) <==> WritesNothingLate(bad, video)
  {
    hide Behind, StepTrack, StaysInOrder, WritesNothingLate, Presentable, Orderly;
    var all := segments + [bad];
    assert all[..|all| - 1] == segments && all[|all| - 1] == bad;
    HarmlessBehind(segments, video);
    var t := RunTrack(segments, video);
    AbortedStep(t, bad, video);
    assert 0 <= t.offset by { BehindOffset(t); }
    TimelineContinuesIff(all, video);
  }

  lemma {:induction false} BehindOffset(t: Track)
    requires Behind(t)
    ensures 0 <= t.offset && Presentable(t.out)
  {
  }

  lemma {:induction false} TakeNext(segments: seq<Segment>, k: nat, video: bool)
    requires k < |segments| && OrderedSegments(segments, video)
    ensures segments[..k + 1] == segments[..k] + [segments[k]]
    ensures OrderedSegments(segments[..k], video)
    ensures HarmlessAborts(segments[..k + 1], video) <==>
              HarmlessAborts(segments[..k], video)
              && (segments[k].Readable? && segments[k].aborted ==> WritesNothingLate(segments[k], video))
  {
    hide Ordered, WritesNothingLate;
    assert forall i | 0 <= i < k :: segments[..k][i] == segments[i] && segments[..k + 1][i] == segments[i];
    assert segments[..k + 1][k] == segments[k];
  }

  lemma {:induction false} InOrderUpTo(segments: seq<Segment>, k: nat, video: bool)
    requires k <= |segments| && OrderedSegments(segments, video)
    requires forall j | 0 <= j <= |segments| :: StaysInOrder(segments[..j], video)
    ensures HarmlessAborts(segments[..k], video)
  {
    hide StaysInOrder, WritesNothingLate, Orderly;
    if k > 0 {
      InOrderUpTo(segments, k - 1, video);
      TakeNext(segments, k - 1, video);
      var bad := segments[k - 1];
      if bad.Readable? && bad.aborted { AbortedSegmentIff(segments[..k - 1], bad, video); }
    }
  }

  /** For ordered segments, any of which may raise: stopping after any of them and muxing any ordered
      segments without exceptions gives a timeline in order, exactly when no segment that raises wrote
      anything later than its own origin. */
  lemma {:induction false} TimelineSurvivesAbortsIff(segments: seq<Segment>, video: bool)
    requires OrderedSegments(segments, video)
    ensures (forall j | 0 <= j <= |segments| :: StaysInOrder(segments[..j], video))
            <==> HarmlessAborts(segments, video)
  {
    hide StaysInOrder, WritesNothingLate, Orderly;
    assert segments[..|segments|] == segments;
    if forall j | 0 <= j <= |segments| :: StaysInOrder(segments[..j], video) {
      InOrderUpTo(segments, |segments|, video);
    }
    if HarmlessAborts(segments, video) {
      forall j | 0 <= j <= |segments|
        ensures StaysInOrder(segments[..j], video)
      {
        HarmlessBehind(segments[..j], video);
        BehindOffset(RunTrack(segments[..j], video));
        TimelineContinuesIff(segments[..j], video);
      }
    }
  }

  /** A segment that raises after writing does break it: its packets stay but the offset does not
      advance, so the next segment starts over them. */
  lemma {:induction false} AbortedSegmentOverlaps()
    ensures var a := Packet(true, Some(5), Some(5), false, 1, false);
            var b := Packet(true, Some(15), Some(15), false, 1, false);
            RunTrack([Readable([a, b], true), Readable([a], false)], true).out
            == [Out(0, 0), Out(10, 10), Out(0, 0)]
  {
    var a := Packet(true, Some(5), Some(5), false, 1, false);
    var b := Packet(true, Some(15), Some(15), false, 1, false);
    var s, t := Stamp(5, 5, 1, false), Stamp(15, 15, 1, false);
    assert [a][..0] == [] && [a, b][..1] == [a] && [s][..0] == [] && [s, t][..1] == [s];
    assert Kept([a], true) == [s];
    assert Kept([a, b], true) == [s, t];
    assert Muxed([s], 0) == [Out(0, 0)];
    assert Muxed([s, t], 0) == [Out(0, 0), Out(10, 10)];
    var first, second := Readable([a, b], true), Readable([a], false);
    assert [first][..0] == [] && [first, second][..1] == [first];
    assert RunTrack([first], true) == Track([Out(0, 0), Out(10, 10)], 0);
  }
}
