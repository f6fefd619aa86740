/** Copying of audio samples and picture planes. */
module AudioVideo {
  import opened Wrappers

  /* ---------- audio ---------- */

  /** The number of samples in so many frames. */
  function Samples(frames: nat, channels: nat): nat {
    frames * channels
  }

  lemma SamplesAdd(a: nat, b: nat, channels: nat)
    ensures Samples(a + b, channels) == Samples(a, channels) + Samples(b, channels)
    ensures Samples(0, channels) == 0
  {
  }

  /** Sample `c` of frame `f` lies in the stream. */
  lemma SampleIndex(f: nat, c: nat, frames: nat, channels: nat)
    requires f < frames && c < channels
    ensures Samples(f, channels) + c < Samples(frames, channels)
  {
    assert (f + 1) * channels <= frames * channels;
  }

  /** One sequence of samples per channel. */
  ghost predicate IsDeinterleaved<T>(planes: seq<seq<T>>, stream: seq<T>, channels: nat, frames: nat) {
    && |planes| == channels && |stream| == Samples(frames, channels)
    && forall c | 0 <= c < channels :: IsChannel(planes[c], stream, channels, frames, c)
  }

  ghost predicate IsChannel<T>(plane: seq<T>, stream: seq<T>, channels: nat, frames: nat, c: nat)
    requires c < channels && |stream| == Samples(frames, channels)
  {
    && |plane| == frames
    && forall f | 0 <= f < frames :: Sample(plane, stream, channels, frames, c, f)
  }

  ghost predicate Sample<T>(plane: seq<T>, stream: seq<T>, channels: nat, frames: nat, c: nat, f: nat)
    requires c < channels && |stream| == Samples(frames, channels) && f < frames && f < |plane|
  {
    SampleIndex(f, c, frames, channels);
    plane[f] == stream[Samples(f, channels) + c]
  }

  /** Splitting one decoded packet into its channels. */
  method DecodePacket<T>(stream: seq<T>, channels: nat, frames: nat) returns (planes: seq<seq<T>>)
    requires |stream| == Samples(frames, channels)
    ensures IsDeinterleaved(planes, stream, channels, frames)
  {
    planes := [];
    for c := 0 to channels
      invariant |planes| == c
      invariant forall k | 0 <= k < c :: IsChannel(planes[k], stream, channels, frames, k)
    {
      var plane := [];
      for f := 0 to frames
        invariant |plane| == f
        invariant forall k | 0 <= k < f :: Sample(plane, stream, channels, frames, c, k)
      {
        SampleIndex(f, c, frames, channels);
        ghost var was := plane;
        plane := plane + [stream[Samples(f, channels) + c]];
        forall k | 0 <= k <= f ensures Sample(plane, stream, channels, frames, c, k) {
          if k < f { assert Sample(was, stream, channels, frames, c, k); }
        }
      }
      planes := planes + [plane];
    }
  }

  /** How many frames of a packet are still to be skipped. */
  function Skip(remaining: nat, frames: nat): nat {
    Min(remaining, frames)
  }

  /** The part of a packet that is played. */
  function Audible<T>(stream: seq<T>, channels: nat, frames: nat, remaining: nat): seq<T>
    requires |stream| == Samples(frames, channels)
  {
    var skip := Skip(remaining, frames);
    SamplesAdd(skip, frames - skip, channels);
    stream[Samples(skip, channels)..]
  }

  /** Interleaving a packet gives back its stream, but for the frames still to be
      skipped; the count of those goes down. The buffer starts out silent. */
  method InterleaveAudioBuffer<T>(
    planes: seq<seq<T>>, ghost stream: seq<T>, channels: nat, frames: nat, remaining: nat, silence: T)
    returns (output: array<T>, left: nat)
    requires IsDeinterleaved(planes, stream, channels, frames)
    ensures fresh(output)
    ensures left == SatSub(remaining, frames)
    ensures output[..] == Audible(stream, channels, frames, remaining)
  {
    var skip := Skip(remaining, frames);
    left := SatSub(remaining, skip);
    if skip >= frames {
      output := new T[0];
      return;
    }
    SamplesAdd(skip, frames - skip, channels);
    SamplesAdd(0, 0, channels);
    var size := Samples(frames - skip, channels);
    output := new T[size](_ => silence);
    hide Samples;
    for f := skip to frames
      invariant Samples(f - skip, channels) <= size
      invariant Samples(f, channels) == Samples(skip, channels) + Samples(f - skip, channels)
      invariant output[..Samples(f - skip, channels)] == stream[Samples(skip, channels)..Samples(f, channels)]
    {
      OneFrameMore(f, frames, channels);
      OneFrameMore(f - skip, frames - skip, channels);
      for c := 0 to channels
        invariant output[..Samples(f - skip, channels) + c] == stream[Samples(skip, channels)..Samples(f, channels) + c]
      {
        assert IsChannel(planes[c], stream, channels, frames, c);
        assert Sample(planes[c], stream, channels, frames, c, f);
        ghost var before := output[..Samples(f - skip, channels) + c];
        output[Samples(f - skip, channels) + c] := planes[c][f];
        assert output[..Samples(f - skip, channels) + c + 1] == before + [planes[c][f]];
      }
    }
    assert output[..size] == output[..];
  }

  lemma OneFrameMore(f: nat, frames: nat, channels: nat)
    requires f < frames
    ensures Samples(f + 1, channels) == Samples(f, channels) + channels <= Samples(frames, channels)
  {
    assert (f + 1) * channels <= frames * channels;
  }

  /** The packets of a track, first to last. */
  datatype Packets<T> = NoPackets | More(before: Packets<T>, stream: seq<T>, frames: nat)

  ghost predicate PacketsOk<T>(ps: Packets<T>, channels: nat) {
    ps.More? ==> PacketsOk(ps.before, channels) && |ps.stream| == Samples(ps.frames, channels)
  }

  function Decoded<T>(ps: Packets<T>): seq<T> {
    match ps
    case NoPackets => []
    case More(before, stream, _) => Decoded(before) + stream
  }

  function Frames<T>(ps: Packets<T>): nat {
    match ps
    case NoPackets => 0
    case More(before, _, frames) => Frames(before) + frames
  }

  /** How many frames remain to be skipped after some packets. */
  function Remaining<T>(ps: Packets<T>, preSkip: nat): nat {
    match ps
    case NoPackets => preSkip
    case More(before, _, frames) =>
      var remaining := Remaining(before, preSkip);
      remaining - Skip(remaining, frames)
  }

  /** What is played. */
  function Played<T>(ps: Packets<T>, channels: nat, preSkip: nat): seq<T>
    requires PacketsOk(ps, channels)
  {
    match ps
    case NoPackets => []
    case More(before, stream, frames) =>
      Played(before, channels, preSkip) + Audible(stream, channels, frames, Remaining(before, preSkip))
  }

  lemma {:induction false} RemainingIs<T>(ps: Packets<T>, preSkip: nat)
    ensures Remaining(ps, preSkip) == SatSub(preSkip, Frames(ps))
  {
    if ps.More? {
      RemainingIs(ps.before, preSkip);
    }
  }

  lemma {:induction false} DecodedSize<T>(ps: Packets<T>, channels: nat)
    requires PacketsOk(ps, channels)
    ensures |Decoded(ps)| == Samples(Frames(ps), channels)
  {
    SamplesAdd(0, 0, channels);
    if ps.More? {
      DecodedSize(ps.before, channels);
      SamplesAdd(Frames(ps.before), ps.frames, channels);
    }
  }

  /** Skipping packet by packet is skipping once. */
  lemma AudibleJoins<T>(a: seq<T>, b: seq<T>, channels: nat, n: nat, m: nat, remaining: nat)
    requires |a| == Samples(n, channels) && |b| == Samples(m, channels)
    ensures |a + b| == Samples(n + m, channels)
    ensures Audible(a, channels, n, remaining) + Audible(b, channels, m, SatSub(remaining, n))
         == Audible(a + b, channels, n + m, remaining)
  {
    SamplesAdd(n, m, channels);
    if remaining <= n {
      SamplesAdd(remaining, n - remaining, channels);
    } else {
      var skip := Skip(remaining - n, m);
      SamplesAdd(n, skip, channels);
      SamplesAdd(skip, m - skip, channels);
    }
    hide Samples;
  }

  /** Whatever the packets, exactly the first `preSkip` frames are missing. */
  lemma {:induction false} PlayedDropsPreSkip<T>(ps: Packets<T>, channels: nat, preSkip: nat)
    requires PacketsOk(ps, channels)
    ensures |Decoded(ps)| == Samples(Frames(ps), channels)
    ensures Played(ps, channels, preSkip) == Audible(Decoded(ps), channels, Frames(ps), preSkip)
  {
    DecodedSize(ps, channels);
    SamplesAdd(0, 0, channels);
    hide Samples, Audible, Skip;
    match ps
    case NoPackets =>
      AudibleNothing<T>(channels, preSkip);
    case More(before, stream, frames) =>
      DecodedSize(before, channels);
      PlayedDropsPreSkip(before, channels, preSkip);
      RemainingIs(before, preSkip);
      AudibleJoins(Decoded(before), stream, channels, Frames(before), frames, preSkip);
  }

  lemma AudibleNothing<T>(channels: nat, remaining: nat)
    requires Samples(0, channels) == 0
    ensures Audible<T>([], channels, 0, remaining) == []
  {
  }

  /* ---------- picture planes ---------- */

  /** The first `n` rows of a picture without the padding at their ends. */
  function Rows<T>(plane: seq<T>, stride: nat, width: nat, n: nat): (r: seq<T>)
    requires width <= stride && Samples(n, stride) <= |plane|
    ensures |r| == Samples(n, width)
  {
    if n == 0 then []
    else
      OneFrameMore(n - 1, n, stride);
      OneFrameMore(n - 1, n, width);
      hide Samples;
      Rows(plane, stride, width, n - 1) + plane[Samples(n - 1, stride)..Samples(n - 1, stride) + width]
  }

  /** Without padding, the rows are the plane itself. */
  lemma {:induction false} UnpaddedRows<T>(plane: seq<T>, width: nat, n: nat)
    requires Samples(n, width) <= |plane|
    ensures Rows(plane, width, width, n) == plane[..Samples(n, width)]
  {
    SamplesAdd(0, 0, width);
    hide Samples;
    if n > 0 {
      OneFrameMore(n - 1, n, width);
      UnpaddedRows(plane, width, n - 1);
    }
  }

  /** A plane is copied if it has all the rows its stride and height promise. */
  method CopyPlane<T>(plane: seq<T>, stride: nat, width: nat, height: nat) returns (output: Option<seq<T>>)
    ensures output.Some? <==> width <= stride && Samples(height, stride) <= |plane|
    ensures output.Some? ==> output.value == Rows(plane, stride, width, height)
  {
    if stride < width || |plane| < Samples(height, stride) {
      return None;
    }
    var rows := [];
    SamplesAdd(0, 0, stride);
    hide Samples;
    for row := 0 to height
      invariant Samples(row, stride) <= |plane| && rows == Rows(plane, stride, width, row)
    {
      OneFrameMore(row, height, stride);
      var start := Samples(row, stride);
      rows := rows + plane[start..start + width];
    }
    output := Some(rows);
  }

  datatype Format = I420 | Y444 | NV12

  datatype Size = Size(width: nat, height: nat)

  datatype Picture<T> = Picture(format: Format, data: seq<T>, dimensions: Size)

  /** Chroma planes of an I420 picture have half the size, rounded up. */
  function Half(n: nat): nat {
    (n + 1) / 2
  }

  datatype Plane<T> = Plane(bytes: seq<T>, stride: nat)

  /** The picture's planes one after the other; any that cannot be copied means none. */
  method PictureToYuv<T>(format: Format, dimensions: Size, y: Plane<T>, u: Plane<T>, v: Plane<T>)
    returns (r: Option<Picture<T>>)
    requires !format.NV12?
    ensures r.Some? <==> AllCopyable(format, dimensions, y, u, v)
    ensures r.Some? ==>
              var (cw, ch) := ChromaSize(format, dimensions);
              r.value == Picture(format,
                   Rows(y.bytes, y.stride, dimensions.width, dimensions.height)
                   + Rows(u.bytes, u.stride, cw, ch) + Rows(v.bytes, v.stride, cw, ch), dimensions)
  {
    var (cw, ch) := ChromaSize(format, dimensions);
    var ys := CopyPlane(y.bytes, y.stride, dimensions.width, dimensions.height);
    if ys.None? {
      return None;
    }
    var us := CopyPlane(u.bytes, u.stride, cw, ch);
    if us.None? {
      return None;
    }
    var vs := CopyPlane(v.bytes, v.stride, cw, ch);
    if vs.None? {
      return None;
    }
    r := Some(Picture(format, ys.value + us.value + vs.value, dimensions));
  }

  function ChromaSize(format: Format, dimensions: Size): (nat, nat) {
    if format.I420? then (Half(dimensions.width), Half(dimensions.height))
    else (dimensions.width, dimensions.height)
  }

  predicate AllCopyable<T>(format: Format, dimensions: Size, y: Plane<T>, u: Plane<T>, v: Plane<T>) {
    var (cw, ch) := ChromaSize(format, dimensions);
    Copyable(y, dimensions.width, dimensions.height) && Copyable(u, cw, ch) && Copyable(v, cw, ch)
  }

  predicate Copyable<T>(p: Plane<T>, width: nat, height: nat) {
    width <= p.stride && Samples(height, p.stride) <= |p.bytes|
  }

  /* ---------- taking the planes apart again ---------- */

  datatype Renderable<T> = Renderable(format: Format, data: seq<T>)

  function YOf<T>(r: Renderable<T>): seq<T> {
    if r.format.Y444? then r.data[..|r.data| / 3] else r.data[..|r.data| / 6 * 4]
  }

  function UOf<T>(r: Renderable<T>): seq<T> {
    if r.format.Y444? then r.data[|r.data| / 3..|r.data| / 3 * 2] else r.data[|r.data| / 6 * 4..|r.data| / 6 * 5]
  }

  function VOf<T>(r: Renderable<T>): seq<T> {
    if r.format.Y444? then r.data[|r.data| / 3 * 2..] else r.data[|r.data| / 6 * 5..]
  }

  /** The planes come out as they went in. */
  ghost predicate Recovered<T>(r: Renderable<T>, y: seq<T>, u: seq<T>, v: seq<T>) {
    YOf(r) == y && UOf(r) == u && VOf(r) == v
  }

  /** For Y444 they always do. */
  lemma Y444Recovered<T>(y: seq<T>, u: seq<T>, v: seq<T>)
    requires |y| == |u| == |v|
    ensures Recovered(Renderable(Y444, y + u + v), y, u, v)
  {
    var data := y + u + v;
    assert |data| / 3 == |y|;
    assert data[..|y|] == y && data[|y|..|y| * 2] == u && data[|y| * 2..] == v;
  }

  /** For I420 they do exactly if luma is four times the size of chroma. */
  lemma I420RecoveredIff<T>(y: seq<T>, u: seq<T>, v: seq<T>)
    requires |u| == |v|
    ensures Recovered(Renderable(I420, y + u + v), y, u, v) <==> |y| == 4 * |u|
  {
    var data := y + u + v;
    var n := |data| / 6;
    if |y| == 4 * |u| {
      assert n == |u|;
      assert data[..4 * n] == y && data[4 * n..5 * n] == u && data[5 * n..] == v;
    } else {
      assert |YOf(Renderable(I420, data))| == n * 4 && |UOf(Renderable(I420, data))| == n;
    }
  }

  /** Which is so exactly for pictures of even width and height, or without area: for
      others the planes are cut in the wrong places. */
  lemma EvenSizesIff(width: nat, height: nat)
    ensures Samples(height, width) == 4 * Samples(Half(height), Half(width))
       <==> (width % 2 == 0 && height % 2 == 0) || width == 0 || height == 0
  {
    var a, b := width % 2, height % 2;
    RoundedUp(width, height, a, b);
    hide Samples;
  }

  /** Rounding both sides up adds a row, a column, or both. */
  lemma RoundedUp(width: nat, height: nat, a: nat, b: nat)
    requires a == width % 2 && b == height % 2
    ensures 4 * Samples(Half(height), Half(width))
         == Samples(height, width) + (if a == 1 then height else 0) + (if b == 1 then width else 0) + Min(a, b)
    ensures width == 0 || height == 0 ==> Samples(height, width) == 0
  {
    var w, h := Half(width), Half(height);
    assert 2 * w == width + a && 2 * h == height + b;
    calc {
      4 * (h * w);
      (2 * h) * (2 * w);
      (height + b) * (width + a);
      height * width + height * a + b * width + b * a;
    }
  }

  /** So the planes `PictureToYuv` copied come out again, padding removed, exactly for
      Y444 and for even or empty pictures. */
  lemma PictureRecoveredIff<T>(format: Format, dimensions: Size, y: Plane<T>, u: Plane<T>, v: Plane<T>)
    requires !format.NV12? && AllCopyable(format, dimensions, y, u, v)
    ensures
      var (w, h) := (dimensions.width, dimensions.height);
      var (cw, ch) := ChromaSize(format, dimensions);
      var ys, us, vs := Rows(y.bytes, y.stride, w, h), Rows(u.bytes, u.stride, cw, ch), Rows(v.bytes, v.stride, cw, ch);
      (Recovered(Rendered(Picture(format, ys + us + vs, dimensions)), ys, us, vs)
       <==> format.Y444? || (w % 2 == 0 && h % 2 == 0) || w == 0 || h == 0)
  {
    var (w, h) := (dimensions.width, dimensions.height);
    var (cw, ch) := ChromaSize(format, dimensions);
    var ys, us, vs := Rows(y.bytes, y.stride, w, h), Rows(u.bytes, u.stride, cw, ch), Rows(v.bytes, v.stride, cw, ch);
    EvenSizesIff(w, h);
    hide Samples, Rows, Recovered;
    if format.I420? {
      I420RecoveredIff(ys, us, vs);
    } else {
      Y444Recovered(ys, us, vs);
    }
  }

  /** A 3 by 2 picture: its luma plane comes back with two of its six bytes missing. */
  lemma OddPictureIsCut()
    ensures
      var y, u, v := [1, 2, 3, 4, 5, 6], [7, 8], [9, 10];
      YOf(Renderable(I420, y + u + v)) == [1, 2, 3, 4]
  {
  }

  /** The bytes at even and at odd places. */
  function EvenPlaces<T>(s: seq<T>): seq<T> {
    seq((|s| + 1) / 2, i requires 0 <= i < (|s| + 1) / 2 => s[2 * i])
  }

  function OddPlaces<T>(s: seq<T>): seq<T> {
    seq(|s| / 2, i requires 0 <= i < |s| / 2 => s[2 * i + 1])
  }

  /** NV12 keeps U and V alternating behind Y. */
  function Rendered<T>(p: Picture<T>): Renderable<T> {
    if p.format.NV12? then
      var n := |p.data| / 6;
      Renderable(I420, p.data[..n * 4] + EvenPlaces(p.data[n * 4..]) + OddPlaces(p.data[n * 4..]))
    else Renderable(p.format, p.data)
  }

  /** They are taken apart in one pass. */
  method RenderableFrom<T>(p: Picture<T>) returns (r: Renderable<T>)
    ensures r == Rendered(p)
  {
    if !p.format.NV12? {
      return Renderable(p.format, p.data);
    }
    var n := |p.data| / 6;
    var chroma := p.data[n * 4..];
    var u, v := TakenApart(chroma);
    r := Renderable(I420, p.data[..n * 4] + u + v);
  }

  method TakenApart<T>(chroma: seq<T>) returns (u: seq<T>, v: seq<T>)
    ensures u == EvenPlaces(chroma) && v == OddPlaces(chroma)
  {
    u, v := [], [];
    for i := 0 to |chroma|
      invariant u == EvenPlaces(chroma[..i]) && v == OddPlaces(chroma[..i])
    {
      if i % 2 == 0 {
        u := u + [chroma[i]];
      } else {
        v := v + [chroma[i]];
      }
    }
    assert chroma[..|chroma|] == chroma;
  }

  /** U and V alternating, as NV12 stores them. */
  function Alternating<T>(u: seq<T>, v: seq<T>): seq<T>
    requires |u| == |v|
  {
    seq(2 * |u|, i requires 0 <= i < 2 * |u| => if i % 2 == 0 then u[i / 2] else v[i / 2])
  }

  lemma AlternatingTakenApart<T>(u: seq<T>, v: seq<T>)
    requires |u| == |v|
    ensures EvenPlaces(Alternating(u, v)) == u && OddPlaces(Alternating(u, v)) == v
  {
    forall i | 0 <= i < |v| ensures OddPlaces(Alternating(u, v))[i] == v[i] {
      assert (2 * i + 1) % 2 == 1 && (2 * i + 1) / 2 == i;
    }
  }

  /** An NV12 picture with a quarter of luma per chroma plane is rendered from its own
      three planes. */
  lemma Nv12Recovered<T>(y: seq<T>, u: seq<T>, v: seq<T>, dimensions: Size)
    requires |u| == |v| && |y| == 4 * |u|
    ensures Recovered(Rendered(Picture(NV12, y + Alternating(u, v), dimensions)), y, u, v)
  {
    var data := y + Alternating(u, v);
    assert |data| / 6 * 4 == |y|;
    assert data[..|y|] == y && data[|y|..] == Alternating(u, v);
    AlternatingTakenApart(u, v);
    I420RecoveredIff(y, u, v);
  }
}
