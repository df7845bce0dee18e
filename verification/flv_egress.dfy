/** The `GET /live` handler: replays the cached header, script tag and first video tag
    to a newly attached consumer, then writes every live tag it receives, each preceded
    by the size of the tag written before it and with its timestamp rebased against the
    first nonzero timestamp seen. */
module FlvEgress {
  import opened Bytes
  import opened Flv
  import opened FlvIngest

  /** The handler's locals `pre_tag_size` and `start_timestamp` (0 meaning "not yet seen"). */
  datatype Egress = Egress(preTagSize: uint32, startTimestamp: uint32)

  /** What admission writes, the handler state it leaves, and the session after it
      sets `is_need_key_frame`. */
  datatype Bootstrap = Bootstrap(bytes: seq<byte>, egress: Egress, relay: Relay)

  /** Admission of a consumer: the cached header, a zero PreviousTagSize, the script tag,
      its size, and the cached first video tag written verbatim. The pending
      PreviousTagSize is then the video tag's length, and the session needs a live keyframe. */
  function Attach(relay: Relay): (b: Bootstrap)
    ensures b.bytes == relay.header + Stream(0, [relay.script, relay.video])
    ensures b.egress == Egress(|relay.video| % Two32, 0)
    ensures b.relay == relay.(needKeyFrame := true)
  {
    var bytes := relay.header + PutUint32(0) + relay.script
                 + PutUint32(|relay.script| % Two32) + relay.video;
    assert [relay.script, relay.video][1..] == [relay.video];
    assert [relay.video][1..] == [];
    assert Stream(|relay.script| % Two32, [relay.video])
        == PutUint32(|relay.script| % Two32) + relay.video + [];
    Bootstrap(bytes, Egress(|relay.video| % Two32, 0), relay.(needKeyFrame := true))
  }

  /** `start_timestamp` after receiving b: latched to b's timestamp while it is still 0. */
  function Latch(start: uint32, b: seq<byte>): (s: uint32)
    requires |b| >= 7
    ensures start != 0 ==> s == start
    ensures start == 0 ==> s == Timestamp(b)
  {
    if start == 0 then Timestamp(b) else start
  }

  /** The in-place rewrite of a tag's Timestamp: the uint32 difference to `start` is
      written big-endian and its low three bytes replace bytes 4..7. Everything else is
      kept, and reading the field back gives the difference modulo 2^24. */
  function Rebase(b: seq<byte>, start: uint32): (r: seq<byte>)
    requires |b| >= 7
    ensures |r| == |b| && r[..4] == b[..4] && r[7..] == b[7..]
    ensures Timestamp(r) == (Timestamp(b) - start) % Two24
  {
    var diff := (Timestamp(b) - start) % Two32;
    var enc := PutUint32(diff);
    LowBytesOfPutUint32(diff);
    var r := b[..4] + enc[1..] + b[7..];
    assert r[4..7] == enc[1..];
    assert diff % Two24 == (Timestamp(b) - start) % Two24;
    r
  }

  datatype Forwarded = Forwarded(bytes: seq<byte>, egress: Egress)

  /** One received live tag: framed by the pending PreviousTagSize and rebased against the
      start as latched by this tag; its own length becomes the pending size. */
  function Forward(e: Egress, b: seq<byte>): (f: Forwarded)
    requires |b| >= 7
    ensures f.egress == Egress(|b| % Two32, Latch(e.startTimestamp, b))
    ensures f.bytes == Stream(e.preTagSize, [Rebase(b, f.egress.startTimestamp)])
    ensures |f.bytes| == 4 + |b| && f.bytes[4..8] == b[..4] && f.bytes[11..] == b[7..]
    ensures Timestamp(f.bytes[4..]) == (Timestamp(b) - f.egress.startTimestamp) % Two24
  {
    var start := Latch(e.startTimestamp, b);
    var r := Rebase(b, start);
    assert [r][1..] == [];
    assert (PutUint32(e.preTagSize) + r)[4..] == r;
    Forwarded(PutUint32(e.preTagSize) + r, Egress(|b| % Two32, start))
  }

  /** The live tags as the consumer receives them, threading the start latch. */
  function RebaseAll(start: uint32, tags: seq<seq<byte>>): (r: seq<seq<byte>>)
    requires forall i :: 0 <= i < |tags| ==> |tags[i]| >= 7
    ensures |r| == |tags|
    ensures forall i :: 0 <= i < |r| ==>
              |r[i]| == |tags[i]| && r[i][..4] == tags[i][..4] && r[i][7..] == tags[i][7..]
    decreases |tags|
  {
    if |tags| == 0 then []
    else
      var s := Latch(start, tags[0]);
      [Rebase(tags[0], s)] + RebaseAll(s, tags[1..])
  }

  /** `start_timestamp` once the receive loop has taken every tag of `tags`. */
  function LatchAfter(start: uint32, tags: seq<seq<byte>>): uint32
    requires forall i :: 0 <= i < |tags| ==> |tags[i]| >= 7
    decreases |tags|
  {
    if |tags| == 0 then start else LatchAfter(Latch(start, tags[0]), tags[1..])
  }

  /** The start after the first i + 1 tags, seen from the second tag on. */
  lemma LatchAfterPrefix(start: uint32, tags: seq<seq<byte>>, i: nat)
    requires forall j :: 0 <= j < |tags| ==> |tags[j]| >= 7
    requires i < |tags|
    ensures LatchAfter(start, tags[..i + 1]) == LatchAfter(Latch(start, tags[0]), tags[1..][..i])
  {
    assert tags[..i + 1][0] == tags[0];
    assert tags[..i + 1][1..] == tags[1..][..i];
  }

  /** Each live tag is rebased against the start as latched once it has itself been
      received. */
  lemma {:induction false} RebaseAllAgainstLatch(start: uint32, tags: seq<seq<byte>>)
    requires forall i :: 0 <= i < |tags| ==> |tags[i]| >= 7
    ensures forall i :: 0 <= i < |tags| ==>
              RebaseAll(start, tags)[i] == Rebase(tags[i], LatchAfter(start, tags[..i + 1]))
    decreases |tags|
  {
    if |tags| > 0 {
      var s := Latch(start, tags[0]);
      var rest := RebaseAll(s, tags[1..]);
      RebaseAllAgainstLatch(s, tags[1..]);
      assert RebaseAll(start, tags) == [Rebase(tags[0], s)] + rest;
      forall i | 0 <= i < |tags|
        ensures RebaseAll(start, tags)[i] == Rebase(tags[i], LatchAfter(start, tags[..i + 1]))
      {
        LatchAfterPrefix(start, tags, i);
        if i > 0 {
          assert tags[i] == tags[1..][i - 1];
        }
      }
    }
  }

  /** Hence the timestamp each live tag is written with is its difference, modulo 2^24,
      to the start latched by then. */
  lemma RebasedTimestamps(start: uint32, tags: seq<seq<byte>>)
    requires forall i :: 0 <= i < |tags| ==> |tags[i]| >= 7
    ensures forall i :: 0 <= i < |tags| ==>
              Timestamp(RebaseAll(start, tags)[i])
              == (Timestamp(tags[i]) - LatchAfter(start, tags[..i + 1])) % Two24
  {
    RebaseAllAgainstLatch(start, tags);
  }

  /** Once latched, the start never moves. */
  lemma {:induction false} LatchSticks(start: uint32, tags: seq<seq<byte>>)
    requires forall i :: 0 <= i < |tags| ==> |tags[i]| >= 7
    requires start != 0
    ensures LatchAfter(start, tags) == start
    decreases |tags|
  {
    if |tags| > 0 {
      LatchSticks(start, tags[1..]);
    }
  }

  /** From "not yet seen", the start latched after a run is the first nonzero timestamp
      in it, and stays 0 exactly when every timestamp is 0. */
  lemma {:induction false} LatchIsFirstNonzero(tags: seq<seq<byte>>)
    requires forall i :: 0 <= i < |tags| ==> |tags[i]| >= 7
    ensures LatchAfter(0, tags) == 0 <==> forall i :: 0 <= i < |tags| ==> Timestamp(tags[i]) == 0
    ensures forall j :: 0 <= j < |tags| && Timestamp(tags[j]) != 0
                        && (forall i :: 0 <= i < j ==> Timestamp(tags[i]) == 0) ==>
              LatchAfter(0, tags) == Timestamp(tags[j])
    decreases |tags|
  {
    if |tags| > 0 {
      var t0 := Timestamp(tags[0]);
      if t0 != 0 {
        LatchSticks(t0, tags[1..]);
        assert LatchAfter(0, tags) == t0;
      } else {
        LatchIsFirstNonzero(tags[1..]);
        assert LatchAfter(0, tags) == LatchAfter(0, tags[1..]);
        forall j | 0 <= j < |tags| && Timestamp(tags[j]) != 0
                   && (forall i :: 0 <= i < j ==> Timestamp(tags[i]) == 0)
          ensures LatchAfter(0, tags) == Timestamp(tags[j])
        {
          assert j > 0;
          assert tags[j] == tags[1..][j - 1];
          forall i | 0 <= i < j - 1 ensures Timestamp(tags[1..][i]) == 0 {
            assert tags[1..][i] == tags[i + 1];
          }
        }
        if forall i :: 0 <= i < |tags[1..]| ==> Timestamp(tags[1..][i]) == 0 {
          forall i | 0 <= i < |tags| ensures Timestamp(tags[i]) == 0 {
            if i > 0 { assert tags[i] == tags[1..][i - 1]; }
          }
        } else {
          var i :| 0 <= i < |tags[1..]| && Timestamp(tags[1..][i]) != 0;
          assert tags[1..][i] == tags[i + 1];
        }
      }
    }
  }

  /** The bytes the receive loop writes for a run of live tags: a correctly framed FLV
      body of the rebased tags, the first preceded by the pending PreviousTagSize. */
  function ForwardAll(e: Egress, tags: seq<seq<byte>>): (out: seq<byte>)
    requires forall i :: 0 <= i < |tags| ==> |tags[i]| >= 7
    ensures out == Stream(e.preTagSize, RebaseAll(e.startTimestamp, tags))
    decreases |tags|
  {
    if |tags| == 0 then []
    else
      var f := Forward(e, tags[0]);
      f.bytes + ForwardAll(f.egress, tags[1..])
  }

  /** Everything a consumer attached to `relay` receives for the live tags `live`: the
      bootstrap, then the rebased live tags framed on from the cached video tag's size. */
  function EgressOutput(relay: Relay, live: seq<seq<byte>>): (out: seq<byte>)
    requires forall i :: 0 <= i < |live| ==> |live[i]| >= 7
    ensures out == Attach(relay).bytes + Stream(|relay.video| % Two32, RebaseAll(0, live))
  {
    var b := Attach(relay);
    b.bytes + ForwardAll(b.egress, live)
  }

  /** The consumer receives one well-framed FLV file: the cached header, then the script
      tag, the cached video tag and the rebased live tags, each preceded by the size of
      the tag before it (0 for the first). */
  lemma EgressIsFlvFile(relay: Relay, live: seq<seq<byte>>)
    requires forall i :: 0 <= i < |live| ==> |live[i]| >= 7
    ensures EgressOutput(relay, live) ==
            relay.header + Stream(0, [relay.script, relay.video] + RebaseAll(0, live))
  {
    StreamAppend(0, [relay.script, relay.video], RebaseAll(0, live));
  }

  /** Rebasing keeps a live video tag live, and keeps its frame type. */
  lemma RebaseKeepsLive(b: seq<byte>, start: uint32)
    requires LiveVideoTag(b)
    ensures LiveVideoTag(Rebase(b, start))
    ensures IsKeyFrame(Rebase(b, start)) == IsKeyFrame(b)
  {
  }

  lemma RebaseAllKeepsLive(start: uint32, tags: seq<seq<byte>>)
    requires AllLive(tags)
    ensures AllLive(RebaseAll(start, tags))
  {
  }

  /** Live timestamps that do not fall below a latched start come out as plain
      differences from it. */
  lemma {:induction false} RebaseAllFromStart(start: uint32, tags: seq<seq<byte>>)
    requires start != 0
    requires forall i :: 0 <= i < |tags| ==> |tags[i]| >= 7 && start <= Timestamp(tags[i])
    ensures forall i :: 0 <= i < |tags| ==>
              Timestamp(RebaseAll(start, tags)[i]) == Timestamp(tags[i]) - start
    decreases |tags|
  {
    if |tags| > 0 {
      RebaseAllFromStart(start, tags[1..]);
      var r := RebaseAll(start, tags);
      forall i | 0 <= i < |tags|
        ensures Timestamp(r[i]) == Timestamp(tags[i]) - start
      {
        if i > 0 {
          assert r[i] == RebaseAll(start, tags[1..])[i - 1];
          assert tags[i] == tags[1..][i - 1];
        }
      }
    }
  }

  /** Timestamps are non-decreasing along the run. */
  predicate NonDecreasing(tags: seq<seq<byte>>)
    requires forall i :: 0 <= i < |tags| ==> |tags[i]| >= 7
  {
    forall i, j :: 0 <= i < j < |tags| ==> Timestamp(tags[i]) <= Timestamp(tags[j])
  }

  /** When the first live tag has a nonzero timestamp and the ingest clock does not run
      backwards, the consumer's clock starts at zero and does not run backwards either. */
  lemma RebasedClockStartsAtZero(tags: seq<seq<byte>>)
    requires forall i :: 0 <= i < |tags| ==> |tags[i]| >= 7
    requires |tags| > 0 && Timestamp(tags[0]) != 0
    requires NonDecreasing(tags)
    ensures Timestamp(RebaseAll(0, tags)[0]) == 0
    ensures NonDecreasing(RebaseAll(0, tags))
    ensures forall i :: 0 <= i < |tags| ==>
              Timestamp(RebaseAll(0, tags)[i]) == Timestamp(tags[i]) - Timestamp(tags[0])
  {
    var t0 := Timestamp(tags[0]);
    assert forall i :: 0 <= i < |tags| ==> t0 <= Timestamp(tags[i]) by {
      forall i | 0 < i < |tags| ensures t0 <= Timestamp(tags[i]) {
        assert Timestamp(tags[0]) <= Timestamp(tags[i]);
      }
    }
    RebaseAllFromStart(t0, tags);
    assert RebaseAll(0, tags) == RebaseAll(t0, tags);
  }

  /** Zero doubles as "no start yet": when the first live tag carries timestamp 0, the
      next nonzero timestamp becomes the start, so that tag is also written with 0. */
  lemma ZeroTimestampDoesNotLatch(t0: seq<byte>, t1: seq<byte>)
    requires |t0| >= 7 && |t1| >= 7
    requires Timestamp(t0) == 0 && Timestamp(t1) != 0
    ensures Timestamp(RebaseAll(0, [t0, t1])[0]) == 0
    ensures Timestamp(RebaseAll(0, [t0, t1])[1]) == 0
  {
  }

  /** A live tag stamped earlier than the latched start wraps: after 0, 5 and 3 the
      third tag is written with 2^24 - 2. */
  lemma EarlierTimestampWraps(t0: seq<byte>, t1: seq<byte>, t2: seq<byte>)
    requires |t0| >= 7 && |t1| >= 7 && |t2| >= 7
    requires Timestamp(t0) == 0 && Timestamp(t1) == 5 && Timestamp(t2) == 3
    ensures Timestamp(RebaseAll(0, [t0, t1, t2])[0]) == 0
    ensures Timestamp(RebaseAll(0, [t0, t1, t2])[1]) == 0
    ensures Timestamp(RebaseAll(0, [t0, t1, t2])[2]) == Two24 - 2
  {
    assert [t2][1..] == [];
    assert RebaseAll(5, [t2]) == [Rebase(t2, 5)];
    assert [t1, t2][1..] == [t2];
    assert RebaseAll(0, [t1, t2]) == [Rebase(t1, 5), Rebase(t2, 5)];
    assert [t0, t1, t2][1..] == [t1, t2];
    assert RebaseAll(0, [t0, t1, t2]) == [Rebase(t0, 0), Rebase(t1, 5), Rebase(t2, 5)];
    assert (3 - 5) % Two24 == Two24 - 2;
  }
}
