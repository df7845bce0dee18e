/** The relay end to end: the ingest parser feeding the egress writer through the
    hand-off slot, with the slot modelled as a direct, in-order hand-over. */
module RelayPipeline {
  import opened Bytes
  import opened Flv
  import opened FlvIngest
  import opened FlvEgress
  import opened Admission

  /** The ingest side's `attached` is `consumer == 1` of the admission flags. An admitted
      consumer is attached; with the slot free or draining, ingest hands on nothing and
      leaves the keyframe flag alone. */
  lemma AdmissionDrivesGate(f: Flags, phase: Phase, relay: Relay, input: seq<byte>)
    ensures AdmitConsumer(f).admitted ==> Attached(AdmitConsumer(f).flags)
    ensures !Attached(f) ==> Ingest(phase, relay, Attached(f), input).sent == []
    ensures !Attached(f) ==> Ingest(phase, relay, Attached(f), input).relay.needKeyFrame == relay.needKeyFrame
    ensures Ingest(phase, relay, Attached(DetachConsumer(f)), input).sent == []
  {
    IngestDetached(phase, relay, input);
  }

  /** What a consumer receives is itself an FLV stream the ingest parser accepts: parsed
      again with a consumer attached and no keyframe pending, it yields the same header,
      script tag and first video tag, and hands on exactly the rebased live tags. */
  lemma EgressReparses(relay0: Relay, relay: Relay, live: seq<seq<byte>>)
    requires |relay0.header| == |relay.header| && !relay0.needKeyFrame
    requires WellFormedTag(relay.script) && relay.script[0] == ScriptTag
    requires WellFormedTag(relay.video) && relay.video[0] == VideoTag
    requires AllLive(live)
    ensures Ingest(ReadHeader, relay0, true, EgressOutput(relay, live)) ==
            IngestRun(relay.(needKeyFrame := false), RebaseAll(0, live), Eof, Streaming)
  {
    EgressIsFlvFile(relay, live);
    RebaseAllKeepsLive(0, live);
    IngestOfFile(relay0, true, relay.header, relay.script, relay.video, RebaseAll(0, live));
  }

  /** Before any consumer attaches, the stream start is cached as read and the input is
      used up with nothing handed on. */
  lemma CachedBeforeAttach(relay0: Relay, h: seq<byte>, s: seq<byte>, v: seq<byte>)
    requires |h| == |relay0.header|
    requires WellFormedTag(s) && s[0] == ScriptTag
    requires WellFormedTag(v) && v[0] == VideoTag
    ensures Ingest(ReadHeader, relay0, false, h + Stream(0, [s, v])) ==
            IngestRun(Relay(h, s, v, relay0.needKeyFrame), [], Eof, Streaming)
  {
    var none: seq<seq<byte>> := [];
    assert [s, v] + none == [s, v];
    IngestOfFile(relay0, false, h, s, v, none);
  }

  /** A consumer that still needs a keyframe is given nothing before the first live
      keyframe and every tag from it on. */
  lemma NeedKeyFrameWithholdsUntilKey(relay: Relay, prev: uint32, live: seq<seq<byte>>)
    requires relay.needKeyFrame
    requires AllLive(live)
    ensures Ingest(Streaming, relay, true, Stream(prev, live)).sent == live[FirstKeyFrame(live)..]
  {
    IngestOfStream(relay, true, prev, live);
    GateWaitsForKeyFrame(live);
  }

  /** One relay session: the encoder sends a header h, a script tag s and a first video
      tag v before any consumer is attached (CachedBeforeAttach gives the session this
      leaves); a consumer then attaches, which sets the keyframe flag, and the live tags
      follow. The consumer is given nothing before the first live keyframe and every tag
      from it on, and receives one well-framed FLV file: h, s and v as cached, then those
      live tags, rebased. */
  lemma RelaySession(h: seq<byte>, s: seq<byte>, v: seq<byte>, need: bool, live: seq<seq<byte>>)
    requires AllLive(live)
    ensures Attach(Relay(h, s, v, need)).relay == Relay(h, s, v, true)
    ensures var sent := Ingest(Streaming, Relay(h, s, v, true), true, Stream(|v| % Two32, live)).sent;
            && sent == live[FirstKeyFrame(live)..]
            && EgressOutput(Relay(h, s, v, need), sent) == h + Stream(0, [s, v] + RebaseAll(0, sent))
  {
    NeedKeyFrameWithholdsUntilKey(Relay(h, s, v, true), |v| % Two32, live);
    AllLiveSuffix(live, FirstKeyFrame(live));
    EgressIsFlvFile(Relay(h, s, v, need), live[FirstKeyFrame(live)..]);
  }
}
