/**
 * Frame synchronisation and extraction on the serial link:
 * [FF 13 AB][length][8 header bytes][length - 8 payload bytes].
 *
 * The link is a finite byte sequence read through a cursor. A read of n bytes returns the
 * next min(n, remaining) bytes: the link's read timeout shows up as a short or empty read
 * once the sequence is exhausted, and a negative n reads nothing.
 */
module FrameReader {
  import opened Bytes
  import opened Json

  /** The synchronisation pattern (`send_header`). */
  const Sync: seq<byte> := [0xFF, 0x13, 0xAB]

  datatype ReadResult =
    | Frame(header: seq<byte>, payload: seq<byte>, next: nat)  // next: cursor after the payload
    | Timeout                                                // TimeoutError("Partner Timeout")

  /** One `serial.read(n)` at cursor `at`. */
  function ReadUpTo(src: seq<byte>, at: nat, n: int): (bs: seq<byte>)
    requires at <= |src|
    ensures |bs| <= |src| - at && (n >= 0 ==> |bs| <= n) && (n <= 0 ==> bs == [])
    ensures n >= 0 && at + n <= |src| ==> |bs| == n
    ensures bs == src[at..at + |bs|]
  {
    if n <= 0 then [] else if at + n <= |src| then src[at..at + n] else src[at..]
  }

  /** One matcher step: the next state after reading `b` in state `counter`. */
  function Step(counter: nat, b: byte): nat
    requires counter < 3
  {
    if b == Sync[counter] then counter + 1 else 0
  }

  /**
   * The synchroniser from match state `counter` at cursor `pos`: the cursor just after the
   * third pattern byte, or None when a read comes back empty. A byte that does not match
   * resets the state to 0 and is not tested again against the first pattern byte.
   */
  function SyncEnd(src: seq<byte>, pos: nat, counter: nat): Option<nat>
    requires pos <= |src| && counter < 3
    decreases |src| - pos
  {
    if pos == |src| then None
    else
      var counter' := Step(counter, src[pos]);
      if counter' == 3 then Some(pos + 1) else SyncEnd(src, pos + 1, counter')
  }

  /**
   * The match state after the matcher reads `bs` from state `counter`, or None when the
   * pattern is completed within `bs`.
   */
  function MatchState(bs: seq<byte>, counter: nat): (r: Option<nat>)
    requires counter < 3
    ensures r.Some? ==> r.value < 3
    decreases |bs|
  {
    if bs == [] then Some(counter)
    else
      var counter' := Step(counter, bs[0]);
      if counter' == 3 then None else MatchState(bs[1..], counter')
  }

  /** One pass of the reading loop from cursor `pos`: synchronise, then length, header and payload. */
  function ParseFrame(src: seq<byte>, pos: nat): ReadResult
    requires pos <= |src|
  {
    match SyncEnd(src, pos, 0)
    case None => Timeout
    case Some(p) =>
      if p >= |src| || src[p] == 0 then Timeout  // an empty length read also gives 0
      else
        var length: int := src[p];
        var header := ReadUpTo(src, p + 1, 8);
        var payload := ReadUpTo(src, p + 1 + |header|, length - 8);
        Frame(header, payload, p + 1 + |header| + |payload|)
  }

  /** The bytes a node sends for one frame. */
  function EncodeFrame(header: seq<byte>, payload: seq<byte>): (bs: seq<byte>)
    requires |header| == 8 && |payload| <= 247
    ensures |bs| == 12 + |payload|
  {
    Sync + [|payload| + 8] + header + payload
  }

  predicate NoSyncStart(noise: seq<byte>)
  {
    forall i :: 0 <= i < |noise| ==> noise[i] != 0xFF
  }

  /** The inner loop of `start_serial_task` and the reads after it, from cursor `pos`. */
  method ReadFrame(src: seq<byte>, pos: nat) returns (r: ReadResult)
    requires pos <= |src|
    ensures r == ParseFrame(src, pos)
    ensures r.Frame? ==> pos + 4 <= r.next <= |src| && |r.header| <= 8
  {
    var counter := 0;
    var at := pos;
    while counter < 3
      invariant pos + counter <= at <= |src| && counter <= 3
      invariant counter < 3 ==> SyncEnd(src, at, counter) == SyncEnd(src, pos, 0)
      invariant counter == 3 ==> SyncEnd(src, pos, 0) == Some(at)
      decreases |src| - at
    {
      if at == |src| {
        return Timeout;
      }
      var b := src[at];
      at := at + 1;
      if b == Sync[counter] {
        counter := counter + 1;
      } else {
        counter := 0;
      }
    }
    if at == |src| || src[at] == 0 {
      return Timeout;
    }
    var length: int := src[at];
    at := at + 1;
    var header := ReadUpTo(src, at, 8);
    at := at + |header|;
    var payload := ReadUpTo(src, at, length - 8);
    at := at + |payload|;
    r := Frame(header, payload, at);
  }

  /** Synchronisation only ends right after the three pattern bytes, read consecutively. */
  lemma {:induction false} SyncEndSound(src: seq<byte>, pos: nat, counter: nat)
    requires pos <= |src| && counter < 3 && counter <= pos
    requires src[pos - counter..pos] == Sync[..counter]
    ensures SyncEnd(src, pos, counter).Some? ==>
      var p := SyncEnd(src, pos, counter).value;
      pos + 3 - counter <= p <= |src| && src[p - 3..p] == Sync
    decreases |src| - pos
  {
    if pos < |src| {
      var counter' := Step(counter, src[pos]);
      if counter' > 0 {
        assert src[pos + 1 - counter'..pos + 1] == src[pos - counter..pos] + [src[pos]];
        assert Sync[..counter'] == Sync[..counter] + [Sync[counter]];
      }
      if counter' < 3 {
        SyncEndSound(src, pos + 1, counter');
      }
    }
  }

  /** A frame ends at least four bytes past the cursor (pattern and length) and within the link. */
  lemma ParseFrameAdvances(src: seq<byte>, pos: nat)
    requires pos <= |src|
    ensures ParseFrame(src, pos).Frame? ==> pos + 4 <= ParseFrame(src, pos).next <= |src|
  {
    if SyncEnd(src, pos, 0).Some? {
      SyncEndSound(src, pos, 0);
    }
  }

  /** Bytes other than 0xFF leave the matcher in state 0: they are skipped. */
  lemma {:induction false} SkipNoise(src: seq<byte>, pos: nat, q: nat)
    requires pos <= q <= |src|
    requires forall i :: pos <= i < q ==> src[i] != 0xFF
    ensures SyncEnd(src, pos, 0) == SyncEnd(src, q, 0)
    decreases q - pos
  {
    if pos < q {
      SkipNoise(src, pos + 1, q);
    }
  }

  /** From state 0, the pattern at the cursor synchronises three bytes later. */
  lemma SyncAtCursor(src: seq<byte>, q: nat)
    requires q + 3 <= |src| && src[q..q + 3] == Sync
    ensures SyncEnd(src, q, 0) == Some(q + 3)
  {
    assert src[q] == 0xFF && src[q + 1] == 0x13 && src[q + 2] == 0xAB;
    assert SyncEnd(src, q + 2, 2) == Some(q + 3);
    assert SyncEnd(src, q + 1, 1) == Some(q + 3);
  }

  /** Reading bytes that do not complete the pattern only moves the matcher to a new state. */
  lemma {:induction false} SyncEndAcross(src: seq<byte>, pos: nat, q: nat, counter: nat)
    requires pos <= q <= |src| && counter < 3
    requires MatchState(src[pos..q], counter).Some?
    ensures SyncEnd(src, pos, counter) == SyncEnd(src, q, MatchState(src[pos..q], counter).value)
    decreases q - pos
  {
    if pos < q {
      assert src[pos..q][1..] == src[pos + 1..q];
      SyncEndAcross(src, pos + 1, q, Step(counter, src[pos]));
    }
  }

  /** Noise without a 0xFF byte leaves the matcher in state 0. */
  lemma {:induction false} NoSyncStartKeepsStateZero(noise: seq<byte>)
    requires NoSyncStart(noise)
    ensures MatchState(noise, 0) == Some(0)
    decreases |noise|
  {
    if noise != [] {
      NoSyncStartKeepsStateZero(noise[1..]);
    }
  }

  /**
   * A pattern that starts while the matcher is part-way through a match (state 1 after a
   * 0xFF, state 2 after `FF 13`) is missed: synchronisation goes on from state 0 after it.
   */
  lemma PartialMatchMissesPattern(src: seq<byte>, q: nat, counter: nat)
    requires q + 3 <= |src| && src[q..q + 3] == Sync && 0 < counter < 3
    ensures SyncEnd(src, q, counter) == SyncEnd(src, q + 3, 0)
  {
    assert src[q] == 0xFF && src[q + 1] == 0x13 && src[q + 2] == 0xAB;
    assert SyncEnd(src, q + 2, 0) == SyncEnd(src, q + 3, 0);
    assert SyncEnd(src, q + 1, 0) == SyncEnd(src, q + 3, 0);
  }

  /**
   * Noise `src[pos..q]` the matcher reads without synchronising, then the pattern at `q`: the
   * pattern is found exactly when the noise leaves the matcher in state 0, and otherwise skipped.
   */
  lemma SyncAfterNoise(src: seq<byte>, pos: nat, q: nat)
    requires pos <= q && q + 3 <= |src| && src[q..q + 3] == Sync
    requires MatchState(src[pos..q], 0).Some?
    ensures MatchState(src[pos..q], 0) == Some(0) ==> SyncEnd(src, pos, 0) == Some(q + 3)
    ensures MatchState(src[pos..q], 0) != Some(0) ==> SyncEnd(src, pos, 0) == SyncEnd(src, q + 3, 0)
  {
    SyncEndAcross(src, pos, q, 0);
    var c := MatchState(src[pos..q], 0).value;
    if c == 0 {
      SyncAtCursor(src, q);
    } else {
      PartialMatchMissesPattern(src, q, c);
    }
  }

  /** A well-formed frame whose pattern ends where synchronisation ends is read whole. */
  lemma FrameAtSync(src: seq<byte>, pos: nat, q: nat, header: seq<byte>, payload: seq<byte>)
    requires pos <= |src| && |header| == 8 && |payload| <= 247 && q + 12 + |payload| <= |src|
    requires src[q..q + 12 + |payload|] == EncodeFrame(header, payload)
    requires SyncEnd(src, pos, 0) == Some(q + 3)
    ensures ParseFrame(src, pos) == Frame(header, payload, q + 12 + |payload|)
  {
    var n := |payload|;
    assert src[q + 3] == n + 8 by {
      assert src[q..q + 12 + n][3] == src[q + 3];
    }
    assert src[q + 4..q + 12] == header by {
      assert src[q..q + 12 + n][4..12] == src[q + 4..q + 12];
    }
    assert src[q + 12..q + 12 + n] == payload by {
      assert src[q..q + 12 + n][12..] == src[q + 12..q + 12 + n];
    }
  }

  /**
   * From cursor `pos`: noise `src[pos..q]` that leaves the matcher in state 0, then a
   * well-formed frame at `q`, then anything. The reader returns exactly that frame and stops
   * right after its payload.
   */
  lemma FrameAfterNoise(src: seq<byte>, pos: nat, q: nat, header: seq<byte>, payload: seq<byte>)
    requires pos <= q && |header| == 8 && |payload| <= 247 && q + 12 + |payload| <= |src|
    requires src[q..q + 12 + |payload|] == EncodeFrame(header, payload)
    requires MatchState(src[pos..q], 0) == Some(0)
    ensures ParseFrame(src, pos) == Frame(header, payload, q + 12 + |payload|)
  {
    assert src[q..q + 3] == Sync by {
      var frame := EncodeFrame(header, payload);
      assert frame[..3] == Sync;
      assert src[q] == frame[0] && src[q + 1] == frame[1] && src[q + 2] == frame[2];
    }
    SyncAfterNoise(src, pos, q);
    FrameAtSync(src, pos, q, header, payload);
  }

  /** What a pass of the reading loop returns depends only on where synchronisation ends. */
  lemma ParseFrameFollowsSync(src: seq<byte>, pos1: nat, pos2: nat)
    requires pos1 <= |src| && pos2 <= |src| && SyncEnd(src, pos1, 0) == SyncEnd(src, pos2, 0)
    ensures ParseFrame(src, pos1) == ParseFrame(src, pos2)
  {
  }

  /**
   * From cursor `pos`: noise `src[pos..q]` that leaves the matcher part-way through a match
   * (state 1 after a 0xFF, state 2 after `FF 13`), then the pattern at `q`. The pattern is
   * missed, and the reader goes on as if the link started right after it.
   */
  lemma PartialMatchHidesFrame(src: seq<byte>, pos: nat, q: nat)
    requires pos <= q && q + 3 <= |src| && src[q..q + 3] == Sync
    requires MatchState(src[pos..q], 0).Some? && MatchState(src[pos..q], 0).value != 0
    ensures ParseFrame(src, pos) == ParseFrame(src, q + 3)
  {
    SyncAfterNoise(src, pos, q);
    ParseFrameFollowsSync(src, pos, q + 3);
  }

  /**
   * One 0xFF at the start of the link, before a payload-free frame whose header holds no 0xFF:
   * the matcher enters state 1 and misses the frame, and the read times out.
   */
  lemma TrailingFFHidesFrame(header: seq<byte>)
    requires |header| == 8 && forall i :: 0 <= i < 8 ==> header[i] != 0xFF
    ensures ParseFrame([0xFF] + EncodeFrame(header, []), 0) == Timeout
  {
    var src := [0xFF] + EncodeFrame(header, []);
    assert src[..5] == [0xFF, 0xFF, 0x13, 0xAB, 8];
    SkipNoise(src, 2, |src|);
    assert SyncEnd(src, 1, 1) == SyncEnd(src, 2, 0);
  }

  /** The matcher is not a sliding window: neither `FF FF 13 AB` nor `FF 13 FF 13 AB` synchronises. */
  lemma OverlappingPatternsMissed()
    ensures SyncEnd([0xFF, 0xFF, 0x13, 0xAB], 0, 0) == None
    ensures SyncEnd([0xFF, 0x13, 0xFF, 0x13, 0xAB], 0, 0) == None
  {
  }

  /** A length byte of 0, or no length byte at all, is a timeout. */
  lemma ZeroLengthIsTimeout(src: seq<byte>, pos: nat)
    requires pos <= |src| && SyncEnd(src, pos, 0).Some?
    requires var p := SyncEnd(src, pos, 0).value; p >= |src| || src[p] == 0
    ensures ParseFrame(src, pos) == Timeout
  {
  }

  /** A frame whose length byte is below 8 has an empty payload; a short read is not an error. */
  lemma ShortLengthEmptyPayload(src: seq<byte>, pos: nat)
    requires pos <= |src|
    requires var p := SyncEnd(src, pos, 0); p.Some? && p.value < |src| && 0 < src[p.value] < 8
    ensures ParseFrame(src, pos).payload == []
  {
  }
}
