/** The `POST /live` handler: a four-state parser over the encoder's FLV byte stream.
    State 0 reads the file header into the session's 9-byte buffer, state 1 the script
    (metadata) tag, state 2 the first video tag, and state 3 repeats, handing every
    further video tag to the egress side when the keyframe gate lets it through.
    The first error of any kind ends the stream. */
module FlvIngest {
  import opened Wrappers
  import opened Bytes
  import opened Flv

  /** The handler's local `status` variable: 0, 1, 2, 3. */
  datatype Phase = ReadHeader | ExpectScript | ExpectFirstVideo | Streaming

  function PhaseNumber(p: Phase): (n: nat)
    ensures n <= 3
  {
    match p
    case ReadHeader => 0
    case ExpectScript => 1
    case ExpectFirstVideo => 2
    case Streaming => 3
  }

  /** The only moves of the parser: 0 -> 1 -> 2 -> 3 -> 3. */
  function Next(p: Phase): (q: Phase)
    ensures PhaseNumber(q) == if p == Streaming then 3 else PhaseNumber(p) + 1
  {
    match p
    case ReadHeader => ExpectScript
    case ExpectScript => ExpectFirstVideo
    case ExpectFirstVideo => Streaming
    case Streaming => Streaming
  }

  /** The relay session fields of the service: `flv_header`, `flv_script`, `flv_video`
      and `is_need_key_frame`. */
  datatype Relay = Relay(header: seq<byte>, script: seq<byte>, video: seq<byte>, needKeyFrame: bool)

  /** The session as Init leaves it: a zeroed 9-byte header buffer and no cached tags. */
  function InitialRelay(): (r: Relay)
    ensures |r.header| == HeaderLen
    ensures forall i :: 0 <= i < |r.header| ==> r.header[i] == 0
    ensures r.script == [] && r.video == [] && !r.needKeyFrame
  {
    Relay([0, 0, 0, 0, 0, 0, 0, 0, 0], [], [], false)
  }

  /** Why an ingest stream ended: `io.EOF`, `io.ErrUnexpectedEOF`, "not script tag",
      "not video tag", or the index panic on an empty streaming payload. */
  datatype StopReason = Eof | UnexpectedEof | NotScriptTag | NotVideoTag | EmptyPayload

  datatype ReadOutcome = Read(data: seq<byte>, rest: seq<byte>) | ReadErr(reason: StopReason, partial: seq<byte>)

  /** `io.ReadFull` of n bytes: all n bytes or an error. Zero bytes requested succeeds
      even at end of input; nothing available gives EOF; a short read gives
      UnexpectedEOF and leaves what it did read in `partial`. */
  function ReadFull(input: seq<byte>, n: nat): (r: ReadOutcome)
    ensures r.Read? <==> n <= |input|
    ensures r.Read? ==> |r.data| == n && r.data + r.rest == input
    ensures r.ReadErr? ==> r.partial == input && r.reason == (if |input| == 0 then Eof else UnexpectedEof)
  {
    if n <= |input| then Read(input[..n], input[n..])
    else if |input| == 0 then ReadErr(Eof, [])
    else ReadErr(UnexpectedEof, input)
  }

  datatype TagRead = TagOk(tag: seq<byte>, rest: seq<byte>) | TagErr(reason: StopReason)

  /** The tag type states 1, 2 and 3 expect. */
  function WantedType(phase: Phase): byte {
    if phase == ExpectScript then ScriptTag else VideoTag
  }

  /** The error for a tag of the wrong type in a state that wants `want`. */
  function WrongType(want: byte): StopReason {
    if want == ScriptTag then NotScriptTag else NotVideoTag
  }

  /** One tag read of states 1-3: 15 bytes (PreviousTagSize + tag header), a check that
      the type byte is `want`, then DataSize payload bytes. The stored tag is the tag
      header followed by the payload, without the PreviousTagSize. */
  function ReadTag(input: seq<byte>, want: byte): (r: TagRead)
    ensures r.TagOk? <==>
              PreTagHeaderLen <= |input| && input[4] == want
              && PreTagHeaderLen + Uint24(input[5..8]) <= |input|
    ensures r.TagOk? ==> WellFormedTag(r.tag) && r.tag[0] == want && input == input[..4] + r.tag + r.rest
    ensures r.TagOk? ==> var end := PreTagHeaderLen + Uint24(input[5..8]);
                         r.tag == input[4..end] && r.rest == input[end..]
    ensures PreTagHeaderLen <= |input| && input[4] != want ==> r == TagErr(WrongType(want))
    ensures |input| < PreTagHeaderLen ==> r == TagErr(if |input| == 0 then Eof else UnexpectedEof)
    ensures PreTagHeaderLen <= |input| && input[4] == want
            && |input| < PreTagHeaderLen + Uint24(input[5..8]) ==>
              r == TagErr(if |input| == PreTagHeaderLen then Eof else UnexpectedEof)
  {
    match ReadFull(input, PreTagHeaderLen)
    case ReadErr(reason, _) => TagErr(reason)
    case Read(hdr, rest) =>
      if hdr[4] != want then TagErr(WrongType(want))
      else
        var size := Uint24(hdr[5..8]);
        match ReadFull(rest, size)
        case ReadErr(reason, _) => TagErr(reason)
        case Read(data, rest') =>
          var tag := hdr[4..] + data;
          assert tag[1..4] == hdr[5..8];
          assert input == input[..4] + tag + rest' by {
            assert input == hdr + rest;
            assert hdr == input[..4] + hdr[4..];
            assert rest == data + rest';
          }
          TagOk(tag, rest')
  }

  /** Framing read back: a well-formed tag of the wanted type behind any 4-byte
      PreviousTagSize is read whole, and the rest of the input is left untouched. */
  lemma ReadTagOfFramed(pts: seq<byte>, t: seq<byte>, rest: seq<byte>, want: byte)
    requires |pts| == 4 && WellFormedTag(t) && t[0] == want
    ensures ReadTag(pts + t + rest, want) == TagOk(t, rest)
  {
  }

  /** The keyframe gate's decision for one live tag: whether it is sent, and the new
      value of `is_need_key_frame`. */
  datatype Gate = Gate(send: bool, needKeyFrame: bool)

  /** With no consumer attached nothing is sent and the flag is untouched; with one
      attached, a non-keyframe is withheld while a keyframe is needed; otherwise the
      tag is sent and the flag cleared. */
  function GateTag(attached: bool, needKeyFrame: bool, isKey: bool): (g: Gate)
    ensures g.send <==> attached && (isKey || !needKeyFrame)
    ensures g.send ==> !g.needKeyFrame
    ensures !g.send ==> g.needKeyFrame == needKeyFrame
  {
    if !attached then Gate(false, needKeyFrame)
    else if needKeyFrame && !isKey then Gate(false, true)
    else Gate(true, false)
  }

  /** One iteration of the handler loop. */
  datatype StepResult =
    | Continue(phase: Phase, relay: Relay, rest: seq<byte>, sent: Option<seq<byte>>)
    | Stop(reason: StopReason, relay: Relay)

  /** One iteration of the ingest loop in state `phase`, with `attached` standing for
      `consumer == 1`. */
  function IngestStep(phase: Phase, relay: Relay, attached: bool, input: seq<byte>): (r: StepResult)
    ensures r.Continue? ==> r.phase == Next(phase)
    ensures r.Continue? ==> |r.rest| <= |input| && r.rest == input[|input| - |r.rest|..]
    ensures r.Continue? && phase != ReadHeader ==> |r.rest| + PreTagHeaderLen <= |input|
    ensures r.Continue? && r.sent.Some? ==> phase == Streaming && attached && LiveVideoTag(r.sent.value)
    ensures phase == Streaming ==> r.relay.(needKeyFrame := relay.needKeyFrame) == relay
    ensures !attached ==> r.relay.needKeyFrame == relay.needKeyFrame
    ensures r.Stop? && phase != ReadHeader ==> r.relay == relay
    ensures phase == ReadHeader ==> |r.relay.header| == |relay.header|
  {
    match phase
    case ReadHeader =>
      (match ReadFull(input, |relay.header|)
       case Read(data, rest) =>
         assert rest == input[|input| - |rest|..];
         Continue(ExpectScript, relay.(header := data), rest, None)
       case ReadErr(reason, partial) =>
         Stop(reason, relay.(header := partial + relay.header[|partial|..])))
    case ExpectScript =>
      (match ReadTag(input, ScriptTag)
       case TagErr(reason) => Stop(reason, relay)
       case TagOk(t, rest) =>
         assert rest == input[|input| - |rest|..];
         Continue(ExpectFirstVideo, relay.(script := t), rest, None))
    case ExpectFirstVideo =>
      (match ReadTag(input, VideoTag)
       case TagErr(reason) => Stop(reason, relay)
       case TagOk(t, rest) =>
         assert rest == input[|input| - |rest|..];
         Continue(Streaming, relay.(video := t), rest, None))
    case Streaming =>
      (match ReadTag(input, VideoTag)
       case TagErr(reason) => Stop(reason, relay)
       case TagOk(t, rest) =>
         assert rest == input[|input| - |rest|..];
         if |t| == TagHeaderLen then Stop(EmptyPayload, relay)
         else
           var g := GateTag(attached, relay.needKeyFrame, IsKeyFrame(t));
           Continue(Streaming, relay.(needKeyFrame := g.needKeyFrame), rest, if g.send then Some(t) else None))
  }

  /** What one loop iteration does in each state, in terms of the reads it makes.
      State 0 fills the header buffer in place; a short read ends the stream and leaves
      the bytes it did read over the front of the old buffer. In states 1-3 any failure
      to read a tag of the wanted type ends the stream with its reason and nothing
      changed; states 1 and 2 cache the tag read; in state 3 an empty payload ends the
      stream, and otherwise the gate decides whether the tag read is sent. */
  lemma IngestStepOutcome(phase: Phase, relay: Relay, attached: bool, input: seq<byte>)
    ensures var st := IngestStep(phase, relay, attached, input);
            var n := |relay.header|;
            phase == ReadHeader ==>
              st == if n <= |input| then Continue(ExpectScript, relay.(header := input[..n]), input[n..], None)
                    else Stop(if |input| == 0 then Eof else UnexpectedEof, relay.(header := input + relay.header[|input|..]))
    ensures var st := IngestStep(phase, relay, attached, input);
            var t := ReadTag(input, WantedType(phase));
            phase != ReadHeader && t.TagErr? ==> st == Stop(t.reason, relay)
    ensures var st := IngestStep(phase, relay, attached, input);
            var t := ReadTag(input, ScriptTag);
            phase == ExpectScript && t.TagOk? ==> st == Continue(ExpectFirstVideo, relay.(script := t.tag), t.rest, None)
    ensures var st := IngestStep(phase, relay, attached, input);
            var t := ReadTag(input, VideoTag);
            phase == ExpectFirstVideo && t.TagOk? ==> st == Continue(Streaming, relay.(video := t.tag), t.rest, None)
    ensures var st := IngestStep(phase, relay, attached, input);
            var t := ReadTag(input, VideoTag);
            phase == Streaming && t.TagOk? && |t.tag| == TagHeaderLen ==> st == Stop(EmptyPayload, relay)
    ensures var st := IngestStep(phase, relay, attached, input);
            var t := ReadTag(input, VideoTag);
            phase == Streaming && t.TagOk? && |t.tag| > TagHeaderLen ==>
              var g := GateTag(attached, relay.needKeyFrame, IsKeyFrame(t.tag));
              && st.Continue? && st.rest == t.rest && st.relay == relay.(needKeyFrame := g.needKeyFrame)
              && (st.sent.Some? <==> g.send) && (st.sent.Some? ==> st.sent.value == t.tag)
  {
  }

  /** A whole ingest stream: the session it leaves, the tags handed to the consumer in
      order, the error that ended it and the state it ended in. */
  datatype IngestRun = IngestRun(relay: Relay, sent: seq<seq<byte>>, reason: StopReason, phase: Phase)

  /** Runs the handler loop until its first error (the end of input included). The
      state only moves forward and only live video tags reach the consumer. */
  function Ingest(phase: Phase, relay: Relay, attached: bool, input: seq<byte>): (r: IngestRun)
    ensures PhaseNumber(phase) <= PhaseNumber(r.phase)
    ensures AllLive(r.sent)
    decreases |input|, 3 - PhaseNumber(phase)
  {
    match IngestStep(phase, relay, attached, input)
    case Stop(reason, relay') => IngestRun(relay', [], reason, phase)
    case Continue(phase', relay', rest, sent) =>
      var tail := Ingest(phase', relay', attached, rest);
      if sent.None? then tail
      else IngestRun(tail.relay, [sent.value] + tail.sent, tail.reason, tail.phase)
  }

  /** Without a consumer nothing is handed on and the keyframe flag is never touched. */
  lemma {:induction false} IngestDetached(phase: Phase, relay: Relay, input: seq<byte>)
    ensures Ingest(phase, relay, false, input).sent == []
    ensures Ingest(phase, relay, false, input).relay.needKeyFrame == relay.needKeyFrame
    decreases |input|, 3 - PhaseNumber(phase)
  {
    match IngestStep(phase, relay, false, input)
    case Stop(_, _) =>
    case Continue(phase', relay', rest, _) =>
      IngestDetached(phase', relay', rest);
  }

  /** Once streaming, the cached header, script tag and first video tag are never
      touched again; only the keyframe flag changes. */
  lemma {:induction false} IngestKeepsCache(relay: Relay, attached: bool, input: seq<byte>)
    ensures Ingest(Streaming, relay, attached, input).relay.(needKeyFrame := relay.needKeyFrame) == relay
    decreases |input|
  {
    match IngestStep(Streaming, relay, attached, input)
    case Stop(_, _) =>
    case Continue(_, relay', rest, _) =>
      IngestKeepsCache(relay', attached, rest);
  }

  /** A loop iteration that hands nothing on leaves the rest of the run to the next state. */
  lemma IngestSilentStep(phase: Phase, relay: Relay, attached: bool, input: seq<byte>)
    requires IngestStep(phase, relay, attached, input).Continue?
    requires IngestStep(phase, relay, attached, input).sent.None?
    ensures var st := IngestStep(phase, relay, attached, input);
            Ingest(phase, relay, attached, input) == Ingest(st.phase, st.relay, attached, st.rest)
  {
  }

  /** The gate applied to a run of live tags. */
  datatype GateRun = GateRun(sent: seq<seq<byte>>, needKeyFrame: bool)

  function GateAll(attached: bool, needKeyFrame: bool, tags: seq<seq<byte>>): (g: GateRun)
    requires AllLive(tags)
    ensures !attached ==> g == GateRun([], needKeyFrame)
    ensures attached && !needKeyFrame ==> g == GateRun(tags, false)
    decreases |tags|
  {
    if |tags| == 0 then GateRun([], needKeyFrame)
    else
      var one := GateTag(attached, needKeyFrame, IsKeyFrame(tags[0]));
      var rest := GateAll(attached, one.needKeyFrame, tags[1..]);
      GateRun((if one.send then [tags[0]] else []) + rest.sent, rest.needKeyFrame)
  }

  /** Index of the first keyframe, |tags| when there is none. */
  function FirstKeyFrame(tags: seq<seq<byte>>): (k: nat)
    requires AllLive(tags)
    ensures k <= |tags|
    ensures forall i :: 0 <= i < k ==> !IsKeyFrame(tags[i])
    ensures k < |tags| ==> IsKeyFrame(tags[k])
    decreases |tags|
  {
    if |tags| == 0 then 0
    else if IsKeyFrame(tags[0]) then 0
    else 1 + FirstKeyFrame(tags[1..])
  }

  /** A consumer that still needs a keyframe receives nothing before the first keyframe
      and every tag from it on; the flag stays set only when no keyframe arrives. */
  lemma {:induction false} GateWaitsForKeyFrame(tags: seq<seq<byte>>)
    requires AllLive(tags)
    ensures GateAll(true, true, tags).sent == tags[FirstKeyFrame(tags)..]
    ensures GateAll(true, true, tags).needKeyFrame <==> FirstKeyFrame(tags) == |tags|
    decreases |tags|
  {
    if |tags| > 0 && !IsKeyFrame(tags[0]) {
      GateWaitsForKeyFrame(tags[1..]);
      assert tags[1..][FirstKeyFrame(tags[1..])..] == tags[FirstKeyFrame(tags)..];
    }
  }

  /** Streaming over a correctly framed body of live video tags hands on exactly the
      tags the gate lets through and ends at EOF, with the cached tags untouched. */
  lemma {:induction false} IngestOfStream(relay: Relay, attached: bool, prev: uint32, live: seq<seq<byte>>)
    requires AllLive(live)
    ensures Ingest(Streaming, relay, attached, Stream(prev, live)) ==
            IngestRun(relay.(needKeyFrame := GateAll(attached, relay.needKeyFrame, live).needKeyFrame),
                      GateAll(attached, relay.needKeyFrame, live).sent, Eof, Streaming)
    decreases |live|
  {
    if |live| > 0 {
      var rest := Stream(|live[0]| % Two32, live[1..]);
      ReadTagOfFramed(PutUint32(prev), live[0], rest, VideoTag);
      var one := GateTag(attached, relay.needKeyFrame, IsKeyFrame(live[0]));
      IngestOfStream(relay.(needKeyFrame := one.needKeyFrame), attached, |live[0]| % Two32, live[1..]);
    }
  }

  /** A whole FLV file, framed with correct PreviousTagSize fields, of a header, a script
      tag, a first video tag and live video tags: the header and the two tags are cached
      as read, the gated live tags are handed on, and the stream ends at EOF. */
  lemma IngestOfFile(relay: Relay, attached: bool, h: seq<byte>, s: seq<byte>, v: seq<byte>, live: seq<seq<byte>>)
    requires |h| == |relay.header|
    requires WellFormedTag(s) && s[0] == ScriptTag
    requires WellFormedTag(v) && v[0] == VideoTag
    requires AllLive(live)
    ensures Ingest(ReadHeader, relay, attached, h + Stream(0, [s, v] + live)) ==
            IngestRun(Relay(h, s, v, GateAll(attached, relay.needKeyFrame, live).needKeyFrame),
                      GateAll(attached, relay.needKeyFrame, live).sent, Eof, Streaming)
  {
    var tags := [s, v] + live;
    var afterV := Stream(|v| % Two32, live);
    var afterS := PutUint32(|s| % Two32) + v + afterV;
    assert tags[0] == s && tags[1..] == [v] + live;
    assert ([v] + live)[0] == v && ([v] + live)[1..] == live;
    assert Stream(0, tags) == PutUint32(0) + s + afterS;
    var input := h + Stream(0, tags);
    assert input[..|h|] == h && input[|h|..] == Stream(0, tags);
    var r1 := relay.(header := h);
    assert IngestStep(ReadHeader, relay, attached, input) == Continue(ExpectScript, r1, Stream(0, tags), None);
    IngestSilentStep(ReadHeader, relay, attached, input);
    ReadTagOfFramed(PutUint32(0), s, afterS, ScriptTag);
    var r2 := r1.(script := s);
    assert IngestStep(ExpectScript, r1, attached, Stream(0, tags)) == Continue(ExpectFirstVideo, r2, afterS, None);
    IngestSilentStep(ExpectScript, r1, attached, Stream(0, tags));
    ReadTagOfFramed(PutUint32(|s| % Two32), v, afterV, VideoTag);
    var r3 := r2.(video := v);
    assert IngestStep(ExpectFirstVideo, r2, attached, afterS) == Continue(Streaming, r3, afterV, None);
    IngestSilentStep(ExpectFirstVideo, r2, attached, afterS);
    IngestOfStream(r3, attached, |v| % Two32, live);
  }
}
