/** The per-event size guard on a server-sent-event stream
    (backend/a2a_adapter/bounded_http.py).

    `Iterate` is the guard's chunk loop. Its reference is `Split`, which cuts a
    whole byte string into frames in one pass and never sees a chunk border.
    Frames end at LF LF or CRLF CRLF, the two separators the guard looks for
    (framing as in section 9.2.5 of the WHATWG HTML Living Standard). */
module SseGuard {

  type Byte = b: int | 0 <= b < 256
  type Bytes = seq<Byte>

  const LF: Byte := 10
  const CR: Byte := 13

  /** One drained event and the separator that ended it. */
  datatype Frame = Frame(event: Bytes, sep: Bytes)

  datatype Framing = Framing(frames: seq<Frame>, rest: Bytes)

  // ----- separators

  const LFLF: Bytes := [LF, LF]
  const CRLFCRLF: Bytes := [CR, LF, CR, LF]

  predicate LfAt(s: Bytes, i: nat) {
    i + 2 <= |s| && s[i] == LF && s[i + 1] == LF
  }

  predicate CrlfAt(s: Bytes, i: nat) {
    i + 4 <= |s| && s[i] == CR && s[i + 1] == LF && s[i + 2] == CR && s[i + 3] == LF
  }

  predicate SepAt(s: Bytes, i: nat) {
    LfAt(s, i) || CrlfAt(s, i)
  }

  ghost predicate NoSep(s: Bytes) {
    forall i: nat :: !SepAt(s, i)
  }

  ghost predicate FirstSepAt(s: Bytes, b: nat) {
    SepAt(s, b) && forall i: nat :: i < b ==> !SepAt(s, i)
  }

  /** `bytearray.find` of LF LF at or after `from`; -1 when there is none. */
  function FindLf(s: Bytes, from: nat): (r: int)
    requires from <= |s|
    ensures -1 <= r < |s|
    decreases |s| - from
  {
    if from == |s| then -1 else if LfAt(s, from) then from else FindLf(s, from + 1)
  }

  /** `bytearray.find` of CRLF CRLF at or after `from`; -1 when there is none. */
  function FindCrlf(s: Bytes, from: nat): (r: int)
    requires from <= |s|
    ensures -1 <= r < |s|
    decreases |s| - from
  {
    if from == |s| then -1 else if CrlfAt(s, from) then from else FindCrlf(s, from + 1)
  }

  lemma {:induction false} FindLfFirst(s: Bytes, from: nat)
    requires from <= |s|
    ensures var r := FindLf(s, from);
            && (r >= 0 ==> from <= r && LfAt(s, r))
            && forall i: nat :: from <= i && (r < 0 || i < r) ==> !LfAt(s, i)
    decreases |s| - from
  {
    if from < |s| && !LfAt(s, from) {
      FindLfFirst(s, from + 1);
    }
  }

  lemma {:induction false} FindCrlfFirst(s: Bytes, from: nat)
    requires from <= |s|
    ensures var r := FindCrlf(s, from);
            && (r >= 0 ==> from <= r && CrlfAt(s, r))
            && forall i: nat :: from <= i && (r < 0 || i < r) ==> !CrlfAt(s, i)
    decreases |s| - from
  {
    if from < |s| && !CrlfAt(s, from) {
      FindCrlfFirst(s, from + 1);
    }
  }

  /** The smaller of the two `find` results, or -1 when both missed. */
  function Boundary(s: Bytes): (r: int)
    ensures -1 <= r < |s|
    ensures r >= 0 ==> SepAt(s, r)
  {
    FindLfFirst(s, 0);
    FindCrlfFirst(s, 0);
    var lf := FindLf(s, 0);
    var crlf := FindCrlf(s, 0);
    if lf < 0 then crlf else if crlf < 0 then lf else if lf < crlf then lf else crlf
  }

  lemma BoundaryFirst(s: Bytes)
    ensures Boundary(s) < 0 <==> NoSep(s)
    ensures Boundary(s) >= 0 ==> FirstSepAt(s, Boundary(s))
  {
    FindLfFirst(s, 0);
    FindCrlfFirst(s, 0);
    if Boundary(s) >= 0 {
      assert SepAt(s, Boundary(s));
    }
  }

  function SepLength(s: Bytes, b: nat): (n: nat)
    requires SepAt(s, b)
    ensures n == 2 || n == 4
    ensures b + n <= |s|
  {
    if CrlfAt(s, b) then 4 else 2
  }

  lemma SepBytes(s: Bytes, b: nat)
    requires SepAt(s, b)
    ensures s[b..b + SepLength(s, b)] == if CrlfAt(s, b) then CRLFCRLF else LFLF
  {
  }

  // ----- the one-shot reference

  function Split(s: Bytes): (f: Framing)
    decreases |s|
  {
    var b := Boundary(s);
    if b < 0 then Framing([], s)
    else
      var n := SepLength(s, b);
      Push(Frame(s[..b], s[b..b + n]), Split(s[b + n..]))
  }

  function Push(f: Frame, tail: Framing): Framing {
    Framing([f] + tail.frames, tail.rest)
  }

  function Render(f: Framing): Bytes
    decreases |f.frames|
  {
    if f.frames == [] then f.rest
    else f.frames[0].event + f.frames[0].sep + Render(Framing(f.frames[1..], f.rest))
  }

  ghost predicate WellFormed(f: Frame) {
    (f.sep == LFLF || f.sep == CRLFCRLF) && FirstSepAt(f.event + f.sep, |f.event|)
  }

  /** The declarative meaning of a framing: every frame's only separator is its
      own, and the remainder holds none. */
  ghost predicate WellFramed(f: Framing) {
    (forall i :: 0 <= i < |f.frames| ==> WellFormed(f.frames[i])) && NoSep(f.rest)
  }

  // ----- separators and concatenation

  /** The overlap argument: bytes that arrive later can neither move the first
      separator of a buffer to the left nor change which one it is. Only a
      CRLF CRLF starting one byte earlier could reach past an LF LF, and its
      third byte is CR where the LF LF has LF. */
  lemma FirstSepStable(a: Bytes, b: Bytes, p: nat)
    requires FirstSepAt(a, p)
    ensures FirstSepAt(a + b, p)
    ensures SepLength(a + b, p) == SepLength(a, p)
  {
    var s := a + b;
    assert SepAt(s, p);
    forall i: nat | i < p ensures !SepAt(s, i) {
      assert !SepAt(a, i);
    }
  }

  /** The first separator of a longer buffer, seen from a prefix that holds
      the whole of it. */
  lemma FirstSepShrink(a: Bytes, b: Bytes, p: nat)
    requires FirstSepAt(a + b, p)
    requires p + SepLength(a + b, p) <= |a|
    ensures FirstSepAt(a, p) && SepLength(a, p) == SepLength(a + b, p)
  {
    var s := a + b;
    assert SepAt(a, p);
    forall i: nat | i < p ensures !SepAt(a, i) {
      assert !SepAt(s, i);
    }
  }

  lemma FirstSepUnique(s: Bytes, p: nat)
    requires FirstSepAt(s, p)
    ensures Boundary(s) == p
  {
    BoundaryFirst(s);
    assert SepAt(s, p);
  }

  lemma FrameAtFirstSep(s: Bytes, p: nat)
    requires FirstSepAt(s, p)
    ensures WellFormed(Frame(s[..p], s[p..p + SepLength(s, p)]))
  {
    var n := SepLength(s, p);
    var a, b := s[..p + n], s[p + n..];
    assert s == a + b;
    FirstSepShrink(a, b, p);
    SepBytes(s, p);
    assert a == s[..p] + s[p..p + n];
  }

  // ----- Split is the one well-formed framing of its input

  lemma WellFramedPush(f: Frame, tail: Framing)
    requires WellFormed(f) && WellFramed(tail)
    ensures WellFramed(Push(f, tail))
    ensures Render(Push(f, tail)) == f.event + f.sep + Render(tail)
  {
    var whole := Push(f, tail);
    assert whole.frames[1..] == tail.frames;
    assert Framing(whole.frames[1..], whole.rest) == tail;
    forall i | 0 <= i < |whole.frames| ensures WellFormed(whole.frames[i]) {
      if i > 0 {
        assert whole.frames[i] == tail.frames[i - 1];
      }
    }
  }

  /** The first frame of a string that holds a separator. */
  lemma Peel(s: Bytes) returns (f: Frame, tail: Bytes)
    requires Boundary(s) >= 0
    ensures WellFormed(f) && f.event + f.sep + tail == s
    ensures |tail| < |s| && Split(s) == Push(f, Split(tail))
  {
    BoundaryFirst(s);
    var b := Boundary(s);
    var n := SepLength(s, b);
    f, tail := Frame(s[..b], s[b..b + n]), s[b + n..];
    FrameAtFirstSep(s, b);
    assert s[..b] + s[b..b + n] + s[b + n..] == s;
  }

  /** Splitting loses nothing and yields a well-formed framing. */
  lemma {:induction false} SplitSound(s: Bytes)
    ensures WellFramed(Split(s))
    ensures Render(Split(s)) == s
    decreases |s|
  {
    if Boundary(s) < 0 {
      BoundaryFirst(s);
    } else {
      var f, tail := Peel(s);
      SplitSound(tail);
      WellFramedPush(f, Split(tail));
    }
  }

  lemma SplitStep(f: Frame, s: Bytes)
    requires WellFormed(f)
    ensures Split(f.event + f.sep + s) == Push(f, Split(s))
  {
    var head := f.event + f.sep;
    var whole := head + s;
    var p := |f.event|;
    FirstSepStable(head, s, p);
    FirstSepUnique(whole, p);
    SepBytes(head, p);
    assert head[p..] == f.sep;
    assert SepLength(head, p) == |f.sep|;
    assert whole[..p] == f.event;
    assert whole[p..p + |f.sep|] == f.sep;
    assert whole[p + |f.sep|..] == s;
  }

  /** Any well-formed framing is the split of what it renders to. */
  lemma {:induction false} SplitUnique(f: Framing)
    requires WellFramed(f)
    ensures Split(Render(f)) == f
    decreases |f.frames|
  {
    if f.frames == [] {
      BoundaryFirst(f.rest);
    } else {
      var tail := Framing(f.frames[1..], f.rest);
      assert forall i :: 0 <= i < |tail.frames| ==> tail.frames[i] == f.frames[i + 1];
      assert WellFormed(f.frames[0]);
      SplitUnique(tail);
      hide WellFormed, Split;
      SplitStep(f.frames[0], Render(tail));
      assert f == Push(f.frames[0], tail);
    }
  }

  function Join(f: Framing, g: Framing): Framing {
    Framing(f.frames + g.frames, g.rest)
  }

  lemma JoinPush(f: Frame, g: Framing, h: Framing)
    ensures Join(Push(f, g), h) == Push(f, Join(g, h))
  {
    assert ([f] + g.frames) + h.frames == [f] + (g.frames + h.frames);
  }

  /** Cutting the input anywhere and splitting what the first half left over
      together with the second half gives the split of the whole. */
  lemma {:induction false} SplitAppend(a: Bytes, b: Bytes)
    ensures Split(a + b) == Join(Split(a), Split(Split(a).rest + b))
    decreases |a|
  {
    if Boundary(a) < 0 {
      assert [] + Split(a + b).frames == Split(a + b).frames;
    } else {
      var f, tail := Peel(a);
      SplitAppend(tail, b);
      AppendStep(f, tail, a, b);
    }
  }

  lemma AppendStep(f: Frame, tail: Bytes, a: Bytes, b: Bytes)
    requires WellFormed(f) && f.event + f.sep + tail == a && Split(a) == Push(f, Split(tail))
    requires Split(tail + b) == Join(Split(tail), Split(Split(tail).rest + b))
    ensures Split(a + b) == Join(Split(a), Split(Split(a).rest + b))
  {
    hide WellFormed, Split;
    SplitStep(f, tail + b);
    assert f.event + f.sep + (tail + b) == a + b;
    JoinPush(f, Split(tail), Split(Split(tail).rest + b));
  }

  // ----- the guard

  function Concat(chunks: seq<Bytes>): Bytes {
    if chunks == [] then [] else Concat(chunks[..|chunks| - 1]) + chunks[|chunks| - 1]
  }

  predicate EventsWithin(frames: seq<Frame>, maxBytes: nat) {
    forall i :: 0 <= i < |frames| ==> |frames[i].event| <= maxBytes
  }

  /** What the guard demands of the stream received so far, stated on the whole
      prefix and not on the buffer. */
  predicate PrefixOk(s: Bytes, maxBytes: nat, maxStreamBytes: nat) {
    && |s| <= maxStreamBytes
    && EventsWithin(Split(s).frames, maxBytes)
    && |Split(s).rest| <= maxBytes
  }

  ghost predicate Accepts(chunks: seq<Bytes>, maxBytes: nat, maxStreamBytes: nat) {
    forall k :: 0 < k <= |chunks| ==> PrefixOk(Concat(chunks[..k]), maxBytes, maxStreamBytes)
  }

  lemma EventsWithinAppend(f: seq<Frame>, g: seq<Frame>, maxBytes: nat)
    ensures EventsWithin(f + g, maxBytes) <==> EventsWithin(f, maxBytes) && EventsWithin(g, maxBytes)
  {
    var h := f + g;
    if EventsWithin(h, maxBytes) {
      forall i | 0 <= i < |f| ensures |f[i].event| <= maxBytes { assert h[i] == f[i]; }
      forall i | 0 <= i < |g| ensures |g[i].event| <= maxBytes { assert h[|f| + i] == g[i]; }
    }
  }

  /** The inner drain loop: removes complete events from the front of the
      buffer until none is left, or stops at the first oversized one. */
  method Drain(buffer: Bytes, maxBytes: nat)
    returns (pending: Bytes, drained: seq<Frame>, tooLarge: bool)
    ensures tooLarge <==> !EventsWithin(Split(buffer).frames, maxBytes)
    ensures !tooLarge ==> Framing(drained, pending) == Split(buffer)
  {
    hide SepAt, LfAt, CrlfAt;
    pending, drained, tooLarge := buffer, [], false;
    assert [] + Split(buffer).frames == Split(buffer).frames;
    var boundary := Boundary(pending);
    while boundary >= 0
      invariant boundary == Boundary(pending)
      invariant EventsWithin(drained, maxBytes)
      invariant Split(buffer) == Join(Framing(drained, []), Split(pending))
      decreases |pending|
    {
      var n := SepLength(pending, boundary);
      var f := Frame(pending[..boundary], pending[boundary..boundary + n]);
      ghost var next := Split(pending[boundary + n..]);
      assert drained + ([f] + next.frames) == (drained + [f]) + next.frames;
      if boundary > maxBytes {
        assert Split(buffer).frames[|drained|] == f;
        tooLarge := true;
        return;
      }
      drained := drained + [f];
      pending := pending[boundary + n..];
      boundary := Boundary(pending);
    }
    assert drained + [] == drained;
  }

  lemma ConcatStep(chunks: seq<Bytes>, i: nat)
    requires i < |chunks|
    ensures Concat(chunks[..i + 1]) == Concat(chunks[..i]) + chunks[i]
  {
    assert chunks[..i + 1][..i] == chunks[..i];
  }

  /** One chunk against the whole prefix: what the guard checks on its buffer
      is what `PrefixOk` says of everything received. */
  lemma ChunkCheck(before: Bytes, chunk: Bytes, maxBytes: nat, maxStreamBytes: nat)
    requires EventsWithin(Split(before).frames, maxBytes)
    ensures var now := Split(Split(before).rest + chunk);
            && Split(before + chunk) == Join(Split(before), now)
            && (PrefixOk(before + chunk, maxBytes, maxStreamBytes) <==>
                |before + chunk| <= maxStreamBytes && EventsWithin(now.frames, maxBytes) && |now.rest| <= maxBytes)
  {
    SplitAppend(before, chunk);
    EventsWithinAppend(Split(before).frames, Split(Split(before).rest + chunk).frames, maxBytes);
  }

  /** The guard's chunk loop. Chunks come out unchanged and in order; the loop
      raises at the first chunk after which the stream received so far breaks a
      limit, and its buffer and drained events are those of the one-shot split
      whatever the chunking was. */
  method Iterate(chunks: seq<Bytes>, maxBytes: nat, maxStreamBytes: nat)
    returns (yielded: nat, raised: bool, pending: Bytes, drained: seq<Frame>)
    ensures yielded <= |chunks| && (raised <==> yielded < |chunks|)
    ensures forall k :: 0 < k <= yielded ==> PrefixOk(Concat(chunks[..k]), maxBytes, maxStreamBytes)
    ensures raised ==> !PrefixOk(Concat(chunks[..yielded + 1]), maxBytes, maxStreamBytes)
    ensures Framing(drained, pending) == Split(Concat(chunks[..yielded]))
  {
    raised, pending, drained := false, [], [];
    var streamReceived := 0;
    for i := 0 to |chunks|
      invariant streamReceived == |Concat(chunks[..i])|
      invariant Framing(drained, pending) == Split(Concat(chunks[..i]))
      invariant EventsWithin(drained, maxBytes)
      invariant forall k :: 0 < k <= i ==> PrefixOk(Concat(chunks[..k]), maxBytes, maxStreamBytes)
    {
      ConcatStep(chunks, i);
      ChunkCheck(Concat(chunks[..i]), chunks[i], maxBytes, maxStreamBytes);
      streamReceived := streamReceived + |chunks[i]|;
      if streamReceived > maxStreamBytes {
        return i, true, pending, drained;
      }
      var rest, more, tooLarge := Drain(pending + chunks[i], maxBytes);
      if tooLarge || |rest| > maxBytes {
        return i, true, pending, drained;
      }
      EventsWithinAppend(drained, more, maxBytes);
      pending, drained := rest, drained + more;
    }
    yielded := |chunks|;
  }

  // ----- which streams the guard lets through

  /** A frame's buffer is largest one byte before its separator is complete. */
  function Peak(f: Frame): int {
    |f.event| + |f.sep| - 1
  }

  /** The stream is within both limits for every way of cutting it. */
  ghost predicate SafeFraming(s: Bytes, maxBytes: nat, maxStreamBytes: nat) {
    && |s| <= maxStreamBytes
    && |Split(s).rest| <= maxBytes
    && forall i :: 0 <= i < |Split(s).frames| ==> Peak(Split(s).frames[i]) <= maxBytes
  }

  /** Whatever prefix of a stream has arrived, its remainder is a proper prefix
      of the next frame or a prefix of the tail. */
  lemma RemainderBound(a: Bytes, b: Bytes)
    ensures var fa, f := Split(a), Split(a + b);
            && fa.frames <= f.frames
            && (fa.frames == f.frames ==> |fa.rest| <= |f.rest|)
            && (fa.frames != f.frames ==> |fa.rest| <= Peak(f.frames[|fa.frames|]))
  {
    var r := Split(a).rest;
    SplitSound(a);
    SplitAppend(a, b);
    if Boundary(r + b) >= 0 {
      var f, tail := Peel(r + b);
      FirstFrameLonger(r, b, f, tail);
      assert Split(a + b).frames[|Split(a).frames|] == f;
    }
  }

  lemma FirstFrameLonger(r: Bytes, b: Bytes, f: Frame, tail: Bytes)
    requires NoSep(r) && WellFormed(f) && f.event + f.sep + tail == r + b
    ensures |r| <= Peak(f)
  {
    var head := f.event + f.sep;
    if |head| <= |r| {
      assert (head + tail)[..|r|] == r;
      FirstSepStable(head, tail, |f.event|);
      FirstSepShrink(r, b, |f.event|);
      assert false;
    }
  }

  /** A stream is accepted under every chunking exactly when it, its tail and
      every event together with all but the last byte of its separator fit.
      An event of up to `maxBytes` - 3 bytes is therefore always safe. */
  lemma EveryChunkingAccepted(s: Bytes, maxBytes: nat, maxStreamBytes: nat)
    ensures (forall chunks :: Concat(chunks) == s ==> Accepts(chunks, maxBytes, maxStreamBytes))
       <==> SafeFraming(s, maxBytes, maxStreamBytes)
  {
    if SafeFraming(s, maxBytes, maxStreamBytes) {
      forall chunks | Concat(chunks) == s ensures Accepts(chunks, maxBytes, maxStreamBytes) {
        SafeAccepted(chunks, maxBytes, maxStreamBytes);
      }
    } else {
      var chunks := UnsafeChunking(s, maxBytes, maxStreamBytes);
    }
  }

  lemma {:induction false} ConcatSplit(chunks: seq<Bytes>, k: nat)
    requires k <= |chunks|
    ensures Concat(chunks) == Concat(chunks[..k]) + Concat(chunks[k..])
    decreases |chunks|
  {
    var n := |chunks|;
    if k == n {
      assert chunks[..k] == chunks;
    } else {
      var init := chunks[..n - 1];
      ConcatSplit(init, k);
      assert init[..k] == chunks[..k];
      assert init[k..] == chunks[k..][..n - 1 - k];
      assert Concat(chunks[k..]) == Concat(init[k..]) + chunks[n - 1];
    }
  }

  lemma SafeAccepted(chunks: seq<Bytes>, maxBytes: nat, maxStreamBytes: nat)
    requires SafeFraming(Concat(chunks), maxBytes, maxStreamBytes)
    ensures Accepts(chunks, maxBytes, maxStreamBytes)
  {
    var s := Concat(chunks);
    SplitSound(s);
    forall k | 0 < k <= |chunks| ensures PrefixOk(Concat(chunks[..k]), maxBytes, maxStreamBytes) {
      ConcatSplit(chunks, k);
      SafePrefix(Concat(chunks[..k]), Concat(chunks[k..]), maxBytes, maxStreamBytes);
    }
  }

  lemma SafePrefix(a: Bytes, b: Bytes, maxBytes: nat, maxStreamBytes: nat)
    requires SafeFraming(a + b, maxBytes, maxStreamBytes)
    ensures PrefixOk(a, maxBytes, maxStreamBytes)
  {
    RemainderBound(a, b);
    SplitSound(a + b);
    var f, fa := Split(a + b).frames, Split(a).frames;
    forall i | 0 <= i < |fa| ensures |fa[i].event| <= maxBytes {
      assert fa[i] == f[i];
      assert WellFormed(f[i]);
    }
  }

  /** The bytes up to the last one of frame `i`'s separator leave that much in
      the buffer. */
  lemma {:induction false} PeakPrefix(s: Bytes, i: nat) returns (p: nat)
    requires i < |Split(s).frames|
    ensures p < |s| && |Split(s[..p]).rest| == Peak(Split(s).frames[i])
    decreases |s|
  {
    hide Split, WellFormed;
    var f, tail := PeelAt(s, i);
    var n := |f.event| + |f.sep|;
    if i == 0 {
      p := n - 1;
      PeakRemainder(f);
      assert s[..p] == (f.event + f.sep)[..p];
    } else {
      var q := PeakPrefix(tail, i - 1);
      p := n + q;
      StepRemainder(f, tail[..q]);
      assert f.event + f.sep + tail[..q] == s[..p];
    }
  }

  lemma PeelAt(s: Bytes, i: nat) returns (f: Frame, tail: Bytes)
    requires i < |Split(s).frames|
    ensures WellFormed(f) && f.event + f.sep + tail == s && 2 <= |f.sep|
    ensures if i == 0 then Split(s).frames[0] == f
            else i - 1 < |Split(tail).frames| && Split(s).frames[i] == Split(tail).frames[i - 1]
  {
    f, tail := Peel(s);
  }

  lemma StepRemainder(f: Frame, s: Bytes)
    requires WellFormed(f)
    ensures Split(f.event + f.sep + s).rest == Split(s).rest
  {
    hide Split, WellFormed;
    SplitStep(f, s);
  }

  lemma PeakRemainder(f: Frame)
    requires WellFormed(f)
    ensures Split((f.event + f.sep)[..Peak(f)]).rest == (f.event + f.sep)[..Peak(f)]
  {
    NoSepBeforePeak(f);
    BoundaryFirst((f.event + f.sep)[..Peak(f)]);
  }

  lemma NoSepBeforePeak(f: Frame)
    requires WellFormed(f)
    ensures NoSep((f.event + f.sep)[..Peak(f)])
  {
    var s := f.event + f.sep;
    var a := s[..Peak(f)];
    forall i: nat ensures !SepAt(a, i) {
      if i < |f.event| {
        assert !SepAt(s, i);
      }
    }
  }

  lemma ConcatPair(x: Bytes, y: Bytes)
    ensures Concat([x]) == x && Concat([x, y]) == x + y
  {
    assert [x, y][..1] == [x];
    assert [x][..0] == [];
  }

  lemma UnsafeChunking(s: Bytes, maxBytes: nat, maxStreamBytes: nat) returns (chunks: seq<Bytes>)
    requires !SafeFraming(s, maxBytes, maxStreamBytes)
    ensures Concat(chunks) == s && !Accepts(chunks, maxBytes, maxStreamBytes)
  {
    hide Split, Concat, Accepts;
    if |s| > maxStreamBytes || |Split(s).rest| > maxBytes {
      chunks := [s];
      WholeRejected(s, maxBytes, maxStreamBytes);
    } else {
      var i :| 0 <= i < |Split(s).frames| && Peak(Split(s).frames[i]) > maxBytes;
      var p := PeakPrefix(s, i);
      chunks := [s[..p], s[p..]];
      PairRejected(s[..p], s[p..], maxBytes, maxStreamBytes);
      assert s[..p] + s[p..] == s;
    }
  }

  lemma WholeRejected(s: Bytes, maxBytes: nat, maxStreamBytes: nat)
    requires !PrefixOk(s, maxBytes, maxStreamBytes)
    ensures Concat([s]) == s && !Accepts([s], maxBytes, maxStreamBytes)
  {
    ConcatPair(s, []);
    assert [s][..1] == [s];
  }

  lemma PairRejected(x: Bytes, y: Bytes, maxBytes: nat, maxStreamBytes: nat)
    requires |Split(x).rest| > maxBytes
    ensures Concat([x, y]) == x + y && !Accepts([x, y], maxBytes, maxStreamBytes)
  {
    ConcatPair(x, y);
    assert [x, y][..1] == [x];
  }

  /** Some chunking lets a stream through exactly when delivering it
      in one piece does: the stream, every event and the tail fit. */
  lemma SomeChunkingAccepted(s: Bytes, maxBytes: nat, maxStreamBytes: nat)
    ensures (exists chunks :: Concat(chunks) == s && Accepts(chunks, maxBytes, maxStreamBytes))
       <==> PrefixOk(s, maxBytes, maxStreamBytes)
  {
    ConcatPair(s, []);
    if PrefixOk(s, maxBytes, maxStreamBytes) {
      assert forall k :: 0 < k <= 1 ==> [s][..k] == [s];
      assert Accepts([s], maxBytes, maxStreamBytes);
    }
    if chunks :| Concat(chunks) == s && Accepts(chunks, maxBytes, maxStreamBytes) {
      assert chunks[..|chunks|] == chunks;
    }
  }
}
