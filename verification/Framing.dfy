/** The frame decoder of the USB vendor pipe (host/rust/src/framing.rs): an
    envelope of type, zero, little-endian length, then the payload; bytes that
    cannot begin a frame are skipped. */
module Framing {
  import opened Common
  import opened LittleEndian

  const FRAME_HDR: nat := 4
  const FRAME_LOG: Byte := 1
  const FRAME_REC: Byte := 2
  const FRAME_MAX: nat := 512

  datatype Frame = Log(payload: seq<Byte>) | Rec(payload: seq<Byte>)

  function Length(buf: seq<Byte>, i: nat): nat
    requires i + FRAME_HDR <= |buf|
  {
    var lo: nat, hi: nat := buf[i + 2], buf[i + 3];
    lo + 256 * hi
  }

  /** The bytes at i could begin a frame. */
  predicate Plausible(buf: seq<Byte>, i: nat)
    requires i + FRAME_HDR <= |buf|
  {
    (buf[i] == FRAME_LOG || buf[i] == FRAME_REC) && buf[i + 1] == 0 && 0 < Length(buf, i) <= FRAME_MAX
  }

  /** The first position from i on that could begin a frame or is too near the
      end to tell. */
  function Scan(buf: seq<Byte>, i: nat): (r: nat)
    requires i <= |buf|
    ensures i <= r <= |buf|
    ensures r == i || r + FRAME_HDR <= |buf| + 1
    ensures forall j :: i <= j < r ==> !Plausible(buf, j)
    ensures r + FRAME_HDR > |buf| || Plausible(buf, r)
    decreases |buf| - i
  {
    if i + FRAME_HDR > |buf| || Plausible(buf, i) then i else Scan(buf, i + 1)
  }

  function FrameAt(buf: seq<Byte>, i: nat): Option<Frame>
    requires i <= |buf| && (i + FRAME_HDR <= |buf| ==> Plausible(buf, i))
  {
    if i + FRAME_HDR > |buf| || i + FRAME_HDR + Length(buf, i) > |buf| then None
    else
      var payload := buf[i + FRAME_HDR..i + FRAME_HDR + Length(buf, i)];
      Some(if buf[i] == FRAME_REC then Rec(payload) else Log(payload))
  }

  /** A header is a log or record type, a zero, and a length from 1 to 512, low byte
      first. */
  lemma HeaderExact(buf: seq<Byte>, i: nat)
    requires i + 4 <= |buf|
    ensures Plausible(buf, i) <==>
      exists n: nat :: 1 <= n <= 512 &&
        (buf[i..i + 4] == [1, 0, (n % 256) as Byte, (n / 256) as Byte]
         || buf[i..i + 4] == [2, 0, (n % 256) as Byte, (n / 256) as Byte])
  {
    var lo: nat, hi: nat := buf[i + 2], buf[i + 3];
    var h, n := buf[i..i + 4], lo + 256 * hi;
    assert n % 256 == lo && n / 256 == hi;
    assert h == [buf[i], buf[i + 1], buf[i + 2], buf[i + 3]];
    forall m: nat | 1 <= m <= 512 && h[2] == (m % 256) as Byte && h[3] == (m / 256) as Byte ensures m == n {
    }
  }

  function Size(f: Frame): nat {
    FRAME_HDR + |f.payload|
  }

  /** One call of next_frame: the frame if there is a whole one, what stays
      buffered, and how many bytes were skipped. */
  function Next(buf: seq<Byte>): (r: (Option<Frame>, seq<Byte>, nat))
    ensures r.0.Some? ==> r.2 + Size(r.0.value) + |r.1| == |buf|
    ensures r.0.None? ==> r.2 + |r.1| == |buf| && r.1 == buf[r.2..]
  {
    NextAt(buf, Scan(buf, 0))
  }

  /** What the call does once the scan has stopped at i. */
  function NextAt(buf: seq<Byte>, i: nat): (r: (Option<Frame>, seq<Byte>, nat))
    requires i <= |buf| && (i + FRAME_HDR <= |buf| ==> Plausible(buf, i))
    ensures r.2 == i
    ensures r.0.Some? ==> i + Size(r.0.value) + |r.1| == |buf|
    ensures r.0.None? ==> r.1 == buf[i..]
  {
    var f := FrameAt(buf, i);
    if f.None? then (None, buf[i..], i) else (f, buf[i + Size(f.value)..], i)
  }

  class FrameDecoder {
    var buf: seq<Byte>
    var skipped: nat

    constructor ()
      ensures buf == [] && skipped == 0
    {
      buf, skipped := [], 0;
    }

    method Push(bytes: seq<Byte>)
      modifies this`buf
      ensures buf == old(buf) + bytes
    {
      buf := buf + bytes;
    }

    method NextFrame() returns (frame: Option<Frame>)
      modifies this
      ensures var (f, rest, n) := Next(old(buf));
        frame == f && buf == rest && skipped == old(skipped) + n
    {
      var i := 0;
      while true
        invariant i <= |buf| && buf == old(buf) && skipped == old(skipped)
        invariant Scan(buf, 0) == Scan(buf, i)
        decreases |buf| - i
      {
        if i + FRAME_HDR > |buf| { frame := None; break; }
        var t, rsv := buf[i], buf[i + 1];
        var len := Length(buf, i);
        if !((t == FRAME_LOG || t == FRAME_REC) && rsv == 0 && len > 0 && len <= FRAME_MAX) {
          i := i + 1;
          continue;
        }
        if i + FRAME_HDR + len > |buf| { frame := None; break; }
        var payload := buf[i + FRAME_HDR..i + FRAME_HDR + len];
        skipped := skipped + i;
        buf := buf[i + FRAME_HDR + len..];
        frame := Some(if t == FRAME_REC then Rec(payload) else Log(payload));
        return;
      }
      if i > 0 {
        skipped := skipped + i;
        buf := buf[i..];
      }
    }
  }

  /** All that can be decoded of a byte string: the frames, what stays buffered,
      and how many bytes were skipped. */
  datatype Decoded = Decoded(frames: seq<Frame>, rest: seq<Byte>, skipped: nat)

  function Decode(buf: seq<Byte>): Decoded
    decreases |buf|
  {
    var (f, rest, n) := Next(buf);
    match f
    case None => Decoded([], rest, n)
    case Some(frame) => After([frame], n, Decode(rest))
  }

  /** A decoding that follows frames already out and bytes already skipped. */
  function After(frames: seq<Frame>, skipped: nat, d: Decoded): Decoded {
    Decoded(frames + d.frames, d.rest, skipped + d.skipped)
  }

  lemma AfterAfter(f1: seq<Frame>, n1: nat, f2: seq<Frame>, n2: nat, d: Decoded)
    ensures After(f1, n1, After(f2, n2, d)) == After(f1 + f2, n1 + n2, d)
  {
    Assoc(f1, f2, d.frames);
  }

  // Decoding does not depend on where the stream is cut

  /** Looking at more bytes does not change what was seen of the first ones. */
  lemma {:induction false} ScanStable(a: seq<Byte>, b: seq<Byte>, i: nat)
    requires i <= |a|
    ensures Scan(a + b, i) == (if Scan(a, i) + FRAME_HDR <= |a| then Scan(a, i) else Scan(a + b, Scan(a, i)))
    decreases |a| - i
  {
    if i + FRAME_HDR <= |a| {
      assert Plausible(a + b, i) <==> Plausible(a, i);
      if !Plausible(a, i) { ScanStable(a, b, i + 1); }
    }
  }

  lemma {:induction false} ScanShift(a: seq<Byte>, k: nat, i: nat)
    requires k + i <= |a|
    ensures Scan(a, k + i) == k + Scan(a[k..], i)
    decreases |a| - i
  {
    if k + i + FRAME_HDR <= |a| && !Plausible(a, k + i) {
      ScanShift(a, k, i + 1);
    }
  }

  lemma FrameStable(a: seq<Byte>, b: seq<Byte>)
    requires Next(a).0.Some?
    ensures Next(a + b) == (Next(a).0, Next(a).1 + b, Next(a).2)
  {
    ScanStable(a, b, 0);
    var i := Scan(a, 0);
    var end := i + FRAME_HDR + Length(a, i);
    SliceOfAppend(a, b, i + FRAME_HDR, end);
    DropOfAppend(a, b, end);
  }

  /** Bytes skipped while waiting stay skipped when more arrive. */
  lemma SkipStable(a: seq<Byte>, b: seq<Byte>)
    requires Next(a).0.None?
    ensures var (f, rest, n) := Next(Next(a).1 + b);
      Next(a + b) == (f, rest, Next(a).2 + n)
  {
    var i := Scan(a, 0);
    ScanStable(a, b, 0);
    DropOfAppend(a, b, i);
    var c := a + b;
    ScanShift(c, i, 0);
    assert Scan(c, 0) == Scan(c, i);
    assert c[i..] == a[i..] + b;
    NextFrom(c, i, a[i..] + b);
  }

  /** Starting the scan later only changes the count of bytes skipped. */
  lemma NextFrom(c: seq<Byte>, i: nat, d: seq<Byte>)
    requires i <= |c| && d == c[i..] && Scan(c, 0) == i + Scan(d, 0)
    ensures var (f, rest, n) := Next(d);
      Next(c) == (f, rest, i + n)
  {
    hide *;
    NextIsAt(c);
    NextIsAt(d);
    NextAtShift(c, i, Scan(d, 0));
  }

  lemma NextIsAt(c: seq<Byte>)
    ensures Next(c) == NextAt(c, Scan(c, 0)) && Next(c).2 == Scan(c, 0)
  {
  }

  lemma NextAtShift(c: seq<Byte>, i: nat, j: nat)
    requires i + j <= |c| && (i + j + FRAME_HDR <= |c| ==> Plausible(c, i + j))
    requires i + j + FRAME_HDR <= |c| ==> Plausible(c[i..], j)
    ensures NextAt(c, i + j).0 == NextAt(c[i..], j).0 && NextAt(c, i + j).1 == NextAt(c[i..], j).1
  {
    FrameShift(c, i, j);
    hide FrameAt, Plausible;
    var f := FrameAt(c, i + j);
    DropDrop(c, i, if f.Some? then j + Size(f.value) else j);
  }

  lemma FrameShift(c: seq<Byte>, i: nat, j: nat)
    requires i + j <= |c| && (i + j + FRAME_HDR <= |c| ==> Plausible(c, i + j))
    ensures j + FRAME_HDR <= |c[i..]| ==> Plausible(c[i..], j)
    ensures FrameAt(c[i..], j) == FrameAt(c, i + j)
    ensures FrameAt(c, i + j).Some? ==> i + j + Size(FrameAt(c, i + j).value) <= |c|
  {
    if i + j + FRAME_HDR <= |c| {
      assert Length(c[i..], j) == Length(c, i + j);
      if i + j + FRAME_HDR + Length(c, i + j) <= |c| {
        DropTake(c, i, j + FRAME_HDR, j + FRAME_HDR + Length(c, i + j));
      }
    }
  }

  /** Decoding a string, then what stayed buffered with more behind it, is
      decoding the two together. */
  lemma {:induction false} DecodeAppend(a: seq<Byte>, b: seq<Byte>)
    ensures Decode(a + b) == After(Decode(a).frames, Decode(a).skipped, Decode(Decode(a).rest + b))
    decreases |a|
  {
    hide Next, After;
    var (f, rest, n) := Next(a);
    if f.Some? {
      FrameStable(a, b);
      DecodeAppend(rest, b);
      AfterFields([f.value], n, Decode(rest));
      AfterAfter([f.value], n, Decode(rest).frames, Decode(rest).skipped, Decode(Decode(rest).rest + b));
    } else {
      SkipStable(a, b);
      DecodeSkip(a + b, rest + b, n);
    }
  }

  lemma AfterFields(frames: seq<Frame>, skipped: nat, d: Decoded)
    ensures var e := After(frames, skipped, d);
      e.frames == frames + d.frames && e.rest == d.rest && e.skipped == skipped + d.skipped
  {
  }

  lemma DecodeSkip(c: seq<Byte>, d: seq<Byte>, n: nat)
    requires Next(c) == (Next(d).0, Next(d).1, n + Next(d).2)
    ensures Decode(c) == After([], n, Decode(d))
  {
    hide Next;
    var (f, rest, k) := Next(d);
    if f.Some? {
      AfterAfter([], n, [f.value], k, Decode(rest));
      assert [] + [f.value] == [f.value];
    }
  }

  /** What was left buffered yields nothing until more arrives. */
  lemma {:induction false} RestIsQuiet(buf: seq<Byte>)
    ensures Decode(Decode(buf).rest) == Decoded([], Decode(buf).rest, 0)
    decreases |buf|
  {
    hide Next, After;
    var (f, rest, n) := Next(buf);
    if f.Some? {
      RestIsQuiet(rest);
      AfterFields([f.value], n, Decode(rest));
    } else {
      NextOfRest(buf);
    }
  }

  lemma NextOfRest(buf: seq<Byte>)
    requires Next(buf).0.None?
    ensures Next(Next(buf).1) == (None, Next(buf).1, 0)
  {
    var i := Scan(buf, 0);
    ScanShift(buf, i, 0);
    assert Scan(buf, i) == i;
    assert buf[i..][0..] == buf[i..];
  }

  // Every use of the decoder

  datatype Call = Push(bytes: seq<Byte>) | Take

  datatype Decoder = Decoder(buf: seq<Byte>, skipped: nat, out: seq<Frame>, pushed: seq<Byte>)

  /** One call, with the frames handed out and the bytes pushed on record. */
  function Made(d: Decoder, c: Call): Decoder {
    match c
    case Push(bytes) => d.(buf := d.buf + bytes, pushed := d.pushed + bytes)
    case Take =>
      var (f, rest, n) := Next(d.buf);
      d.(buf := rest, skipped := d.skipped + n, out := if f.Some? then d.out + [f.value] else d.out)
  }

  function MadeAll(d: Decoder, calls: seq<Call>): Decoder
    decreases |calls|
  {
    if calls == [] then d else MadeAll(Made(d, calls[0]), calls[1..])
  }

  ghost predicate Faithful(d: Decoder) {
    Decode(d.pushed) == After(d.out, d.skipped, Decode(d.buf))
  }

  lemma CallKeepsFaithful(d: Decoder, c: Call)
    requires Faithful(d)
    ensures Faithful(Made(d, c))
  {
    hide Next, After;
    match c
    case Push(bytes) =>
      var all, some := Decode(d.pushed), Decode(d.buf);
      DecodeAppend(d.pushed, bytes);
      DecodeAppend(d.buf, bytes);
      AfterFields(d.out, d.skipped, some);
      AfterAfter(d.out, d.skipped, some.frames, some.skipped, Decode(some.rest + bytes));
    case Take =>
      var (f, rest, n) := Next(d.buf);
      if f.Some? {
        AfterAfter(d.out, d.skipped, [f.value], n, Decode(rest));
      } else {
        RestIsQuiet(d.buf);
        AfterAfter(d.out, d.skipped, [], n, Decode(rest));
        assert d.out + [] == d.out;
        DecodeNone(d.buf);
      }
  }

  lemma DecodeNone(buf: seq<Byte>)
    requires Next(buf).0.None?
    ensures Decode(buf) == Decoded([], Next(buf).1, Next(buf).2) == After([], Next(buf).2, Decoded([], Next(buf).1, 0))
  {
  }

  /** A decoder as it is made. */
  const FRESH := Decoder([], 0, [], [])

  lemma {:induction false} CallsKeepFaithful(d: Decoder, calls: seq<Call>)
    requires Faithful(d)
    ensures Faithful(MadeAll(d, calls))
    decreases |calls|
  {
    hide Faithful, Made;
    if calls != [] {
      CallKeepsFaithful(d, calls[0]);
      CallsKeepFaithful(Made(d, calls[0]), calls[1..]);
    }
  }

  lemma FreshIsFaithful()
    ensures Faithful(FRESH)
  {
  }

  /** A take that hands out nothing, and changes nothing: all there is was taken. */
  predicate Drained(d: Decoder) {
    Next(d.buf) == (None, d.buf, 0)
  }

  lemma EmptyTakeDrains(d: Decoder)
    requires Made(d, Take).out == d.out
    ensures Drained(Made(d, Take))
  {
    if Next(d.buf).0.None? { NextOfRest(d.buf); }
  }

  /** However the stream was pushed and whenever frames were taken: the frames out
      and to come, the bytes skipped and the residue are those of the bytes pushed
      decoded at once, and when all was taken they are there to see. */
  lemma OnlyTheStreamCounts(calls: seq<Call>)
    ensures var e := MadeAll(FRESH, calls);
      && Decode(e.pushed) == After(e.out, e.skipped, Decode(e.buf))
      && (Drained(e) ==> Decode(e.pushed) == Decoded(e.out, e.buf, e.skipped))
  {
    hide Next, Made;
    FreshIsFaithful();
    CallsKeepFaithful(FRESH, calls);
    var e := MadeAll(FRESH, calls);
    if Drained(e) {
      assert Decode(e.buf) == Decoded([], e.buf, 0);
      assert e.out + [] == e.out;
    }
  }

  /** The last call was a take, and it handed out nothing. */
  ghost predicate EndsWithNothing(calls: seq<Call>) {
    && calls != [] && calls[|calls| - 1].Take?
    && MadeAll(FRESH, calls).out == MadeAll(FRESH, calls[..|calls| - 1]).out
  }

  lemma {:induction false} MadeSnoc(d: Decoder, calls: seq<Call>, c: Call)
    ensures MadeAll(d, calls + [c]) == Made(MadeAll(d, calls), c)
    decreases |calls|
  {
    hide Made;
    if calls == [] {
      assert [] + [c] == [c] && [c][1..] == [];
    } else {
      assert (calls + [c])[1..] == calls[1..] + [c];
      MadeSnoc(Made(d, calls[0]), calls[1..], c);
    }
  }

  lemma NothingLeftToTake(calls: seq<Call>)
    requires EndsWithNothing(calls)
    ensures Drained(MadeAll(FRESH, calls))
  {
    hide MadeAll, Next;
    var before := calls[..|calls| - 1];
    assert calls == before + [Take];
    MadeSnoc(FRESH, before, Take);
    EmptyTakeDrains(MadeAll(FRESH, before));
  }

  /** Two decoders that were given the same bytes, in whatever pieces and with
      takes wherever, each until a take handed out nothing, have handed out the same
      frames and hold the same residue and count. */
  lemma SameBytesSameFrames(calls: seq<Call>, others: seq<Call>)
    requires MadeAll(FRESH, calls).pushed == MadeAll(FRESH, others).pushed
    requires EndsWithNothing(calls) && EndsWithNothing(others)
    ensures MadeAll(FRESH, calls) == MadeAll(FRESH, others)
  {
    hide Decode, Next, Made, MadeAll, Drained, EndsWithNothing;
    NothingLeftToTake(calls);
    NothingLeftToTake(others);
    OnlyTheStreamCounts(calls);
    OnlyTheStreamCounts(others);
  }

  function Sizes(frames: seq<Frame>): nat {
    if frames == [] then 0 else Size(frames[|frames| - 1]) + Sizes(frames[..|frames| - 1])
  }

  predicate Conserved(d: Decoder) {
    |d.pushed| == d.skipped + |d.buf| + Sizes(d.out)
  }

  lemma {:induction false} CallsConserve(d: Decoder, calls: seq<Call>)
    requires Conserved(d)
    ensures Conserved(MadeAll(d, calls))
    decreases |calls|
  {
    if calls != [] {
      var e := Made(d, calls[0]);
      if calls[0].Take? && Next(d.buf).0.Some? {
        assert e.out[..|e.out| - 1] == d.out;
      }
      CallsConserve(e, calls[1..]);
    }
  }

  /** Every byte pushed was skipped, is buffered, or was part of a frame. */
  lemma BytesAreConserved(calls: seq<Call>)
    ensures var e := MadeAll(FRESH, calls); |e.pushed| == e.skipped + |e.buf| + Sizes(e.out)
  {
    CallsConserve(FRESH, calls);
  }

  // Frames as a device sends them

  function Wire(f: Frame): seq<Byte> {
    [if f.Rec? then FRAME_REC else FRAME_LOG, 0] + Le(|f.payload|, 2) + f.payload
  }

  predicate Sendable(f: Frame) {
    0 < |f.payload| <= FRAME_MAX
  }

  function Wires(frames: seq<Frame>): seq<Byte> {
    if frames == [] then [] else Wire(frames[0]) + Wires(frames[1..])
  }

  lemma WireReads(f: Frame, tail: seq<Byte>)
    requires Sendable(f)
    ensures Next(Wire(f) + tail) == (Some(f), tail, 0)
  {
    var w := Wire(f) + tail;
    var n := |f.payload|;
    assert Le(n, 2) == [n % 256] + Le(n / 256, 1);
    assert Le(n / 256, 1) == [n / 256 % 256] + Le(n / 256 / 256, 0);
    assert w[2] == n % 256 && w[3] == n / 256;
    assert Length(w, 0) == n;
    assert Plausible(w, 0);
    assert w[FRAME_HDR..FRAME_HDR + n] == f.payload;
    assert w[FRAME_HDR + n..] == tail;
  }

  /** Whole frames decode back in order with nothing skipped, whatever follows. */
  lemma {:induction false} FramesRoundTrip(frames: seq<Frame>, tail: seq<Byte>)
    requires forall i :: 0 <= i < |frames| ==> Sendable(frames[i])
    ensures Decode(Wires(frames) + tail) == After(frames, 0, Decode(tail))
    decreases |frames|
  {
    hide Next, Wire;
    if frames == [] {
      assert Wires(frames) + tail == tail;
    } else {
      Assoc(Wire(frames[0]), Wires(frames[1..]), tail);
      WireReads(frames[0], Wires(frames[1..]) + tail);
      FramesRoundTrip(frames[1..], tail);
      AfterAfter([frames[0]], 0, frames[1..], 0, Decode(tail));
      assert [frames[0]] + frames[1..] == frames;
    }
  }

  /** No window that starts in the noise looks like a header. */
  predicate Noise(noise: seq<Byte>, stream: seq<Byte>) {
    forall i :: 0 <= i < |noise| && i + FRAME_HDR <= |noise + stream| ==> !Plausible(noise + stream, i)
  }

  /** After noise the decoder locks on to the first real frame: the noise is
      skipped, all of it and nothing else. */
  lemma LocksOn(noise: seq<Byte>, frames: seq<Frame>, tail: seq<Byte>)
    requires frames != [] && forall i :: 0 <= i < |frames| ==> Sendable(frames[i])
    requires Noise(noise, Wires(frames) + tail)
    ensures Decode(noise + (Wires(frames) + tail)) == After(frames, |noise|, Decode(tail))
  {
    var s := Wires(frames) + tail;
    assert |s| >= FRAME_HDR;
    FramesRoundTrip(frames, tail);
    NoiseSkipped(noise, s);
    hide *;
    AfterAfter([], |noise|, frames, 0, Decode(tail));
    assert [] + frames == frames;
  }

  lemma NoiseSkipped(noise: seq<Byte>, s: seq<Byte>)
    requires Noise(noise, s) && |s| >= FRAME_HDR
    ensures Decode(noise + s) == After([], |noise|, Decode(s))
  {
    hide *;
    var c := noise + s;
    NoiseScan(noise, s);
    NextFrom(c, |noise|, s);
    DecodeSkip(c, s, |noise|);
  }

  lemma NoiseScan(noise: seq<Byte>, s: seq<Byte>)
    requires Noise(noise, s) && |s| >= FRAME_HDR
    ensures s == (noise + s)[|noise|..] && Scan(noise + s, 0) == |noise| + Scan(s, 0)
  {
    hide Plausible, Scan;
    var c := noise + s;
    assert s == c[|noise|..];
    ScanPast(c, |noise|, 0);
    ScanShift(c, |noise|, 0);
  }

  lemma {:induction false} ScanPast(c: seq<Byte>, k: nat, i: nat)
    requires i <= k && k + FRAME_HDR <= |c|
    requires forall j :: i <= j < k ==> !Plausible(c, j)
    ensures Scan(c, i) == Scan(c, k)
    decreases k - i
  {
    if i < k { ScanPast(c, k, i + 1); }
  }

  /** Text is noise: it holds no byte that begins a frame. */
  lemma TextIsNoise(text: seq<Byte>, stream: seq<Byte>)
    requires FRAME_LOG !in text && FRAME_REC !in text
    ensures Noise(text, stream)
  {
    forall i | 0 <= i < |text| && i + FRAME_HDR <= |text + stream| ensures !Plausible(text + stream, i) {
      assert (text + stream)[i] == text[i] && text[i] in text;
    }
  }
}
