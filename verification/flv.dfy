/** FLV framing as the relay uses it (Adobe Flash Video File Format Specification
    v10.1, Annex E): a 9-byte file header (E.2), then a body of tags, each preceded by
    the 4-byte size of the tag before it (E.3). A tag (E.4.1) is TagType (1 byte),
    DataSize (24-bit big-endian), Timestamp (24-bit big-endian), TimestampExtended (1),
    StreamID (3), then DataSize bytes of payload. */
module Flv {
  import opened Bytes

  const HeaderLen: nat := 9
  const TagHeaderLen: nat := 11
  /** A PreviousTagSize field followed by a tag header: what the ingest reads in one go. */
  const PreTagHeaderLen: nat := 15

  const ScriptTag: byte := 18
  const VideoTag: byte := 9

  /** FrameType 1 in the high nibble of the first VIDEODATA byte (E.4.3.1). */
  const KeyFrameType: nat := 1

  /** A tag whose DataSize field agrees with the payload it carries. */
  predicate WellFormedTag(t: seq<byte>) {
    |t| >= TagHeaderLen && |t| == TagHeaderLen + Uint24(t[1..4])
  }

  /** A video tag with at least one payload byte, as the streaming state needs. */
  predicate LiveVideoTag(t: seq<byte>) {
    WellFormedTag(t) && t[0] == VideoTag && |t| > TagHeaderLen
  }

  /** A run of live video tags. */
  predicate AllLive(tags: seq<seq<byte>>) {
    forall i :: 0 <= i < |tags| ==> LiveVideoTag(tags[i])
  }

  lemma AllLiveSuffix(tags: seq<seq<byte>>, k: nat)
    requires AllLive(tags) && k <= |tags|
    ensures AllLive(tags[k..])
  {
  }

  /** The 24-bit Timestamp field (TimestampExtended is not read). */
  function Timestamp(t: seq<byte>): (ts: nat)
    requires |t| >= 7
    ensures ts < Two24
  {
    Uint24(t[4..7])
  }

  /** The tag's VideoTagHeader names a keyframe: the high nibble of its first data byte is 1. */
  function IsKeyFrame(t: seq<byte>): (k: bool)
    requires |t| > TagHeaderLen
    ensures k <==> 16 <= t[TagHeaderLen] as int < 32
  {
    HighNibble(t[TagHeaderLen]) == KeyFrameType
  }

  /** An FLV body: every tag preceded by the size of the tag before it, the first by `prev`. */
  function Stream(prev: uint32, tags: seq<seq<byte>>): seq<byte>
    decreases |tags|
  {
    if |tags| == 0 then []
    else PutUint32(prev) + tags[0] + Stream(|tags[0]| % Two32, tags[1..])
  }

  /** The PreviousTagSize that follows the last of `tags` (or `prev` when there are none). */
  function LastSize(prev: uint32, tags: seq<seq<byte>>): uint32 {
    if |tags| == 0 then prev else |tags[|tags| - 1]| % Two32
  }

  /** Framing two runs of tags one after the other frames their concatenation. */
  lemma {:induction false} StreamAppend(prev: uint32, a: seq<seq<byte>>, b: seq<seq<byte>>)
    ensures Stream(prev, a + b) == Stream(prev, a) + Stream(LastSize(prev, a), b)
    decreases |a|
  {
    if |a| == 0 {
      assert a + b == b;
    } else {
      assert (a + b)[0] == a[0];
      assert (a + b)[1..] == a[1..] + b;
      StreamAppend(|a[0]| % Two32, a[1..], b);
      assert LastSize(|a[0]| % Two32, a[1..]) == LastSize(prev, a);
    }
  }
}
