/** The frame format [magic:4][length:4][body], its encoder, and the two frame decoders:
    the server's, which caps the body length, and the client's, which does not. */
module Wire {

  import opened Basics

  type Byte = b: int | 0 <= b < 256

  type Bytes = seq<Byte>

  const MAGIC: nat := 0xCAFEBABE
  const HEADER: nat := 8
  const MAX_BODY: nat := 64 * 1024 * 1024

  // ---------- Network byte order ----------

  function BigEndian(n: nat): (r: Bytes)
    requires n < WORD
    ensures |r| == 4
  {
    [n / 0x100_0000, n / 0x1_0000 % 0x100, n / 0x100 % 0x100, n % 0x100]
  }

  function FromBigEndian(s: Bytes): (n: nat)
    requires |s| == 4
    ensures n < WORD
  {
    s[0] as int * 0x100_0000 + s[1] as int * 0x1_0000 + s[2] as int * 0x100 + s[3] as int
  }

  /** The two conversions are inverse to each other, on words and on byte quadruples. */
  lemma WordRoundTrip(n: nat)
    requires n < WORD
    ensures FromBigEndian(BigEndian(n)) == n
  {
    assert n / 0x1_0000 == n / 0x100_0000 * 0x100 + n / 0x1_0000 % 0x100;
    assert n / 0x100 == n / 0x1_0000 * 0x100 + n / 0x100 % 0x100;
  }

  lemma Quotients(hi: nat, lo: nat)
    ensures lo < 0x100 ==> (hi * 0x100 + lo) / 0x100 == hi && (hi * 0x100 + lo) % 0x100 == lo
    ensures lo < 0x1_0000 ==> (hi * 0x1_0000 + lo) / 0x1_0000 == hi
    ensures lo < 0x100_0000 ==> (hi * 0x100_0000 + lo) / 0x100_0000 == hi
  {
  }

  lemma BytesRoundTrip(s: Bytes)
    requires |s| == 4
    ensures BigEndian(FromBigEndian(s)) == s
  {
    var a: nat, b: nat, c: nat, d: nat := s[0], s[1], s[2], s[3];
    var m := FromBigEndian(s);
    Quotients(a, b * 0x1_0000 + c * 0x100 + d);
    Quotients(a * 0x100 + b, c * 0x100 + d);
    Quotients(a * 0x1_0000 + b * 0x100 + c, d);
    assert m / 0x100_0000 == a && m / 0x1_0000 == a * 0x100 + b && m / 0x100 == (a * 0x100 + b) * 0x100 + c;
    Quotients(a, b);
    Quotients(a * 0x100 + b, c);
  }

  /** Lexicographic order on byte strings of equal length. */
  predicate Precedes(a: Bytes, b: Bytes)
    requires |a| == |b|
  {
    a != [] && (a[0] < b[0] || (a[0] == b[0] && Precedes(a[1..], b[1..])))
  }

  lemma QuadPrecedes(a: Bytes, b: Bytes)
    requires |a| == |b| == 4
    ensures Precedes(a, b) <==>
              a[0] < b[0] || (a[0] == b[0] && (a[1] < b[1] || (a[1] == b[1] &&
                (a[2] < b[2] || (a[2] == b[2] && a[3] < b[3])))))
  {
    assert Precedes(a[1..], b[1..]) <==> a[1] < b[1] || (a[1] == b[1] && Precedes(a[2..], b[2..])) by {
      assert a[1..][1..] == a[2..] && b[1..][1..] == b[2..];
    }
    assert Precedes(a[2..], b[2..]) <==> a[2] < b[2] || (a[2] == b[2] && Precedes(a[3..], b[3..])) by {
      assert a[2..][1..] == a[3..] && b[2..][1..] == b[3..];
    }
    assert Precedes(a[3..], b[3..]) <==> a[3] < b[3] by {
      assert a[3..][1..] == [] && b[3..][1..] == [];
    }
  }

  /** The most significant byte comes first: byte strings are in order exactly when their words are. */
  lemma MostSignificantFirst(m: nat, n: nat)
    requires m < WORD && n < WORD
    ensures Precedes(BigEndian(m), BigEndian(n)) <==> m < n
  {
    QuadPrecedes(BigEndian(m), BigEndian(n));
    WordRoundTrip(m);
    WordRoundTrip(n);
  }

  // ---------- Encoding ----------

  /** What `send_raw` and the client's writer put on the wire; the length is cut to 32 bits. */
  function Encode(body: Bytes): (r: Bytes)
    ensures |r| == HEADER + |body|
  {
    BigEndian(MAGIC) + BigEndian(|body| % WORD) + body
  }

  /** The layout of a frame: the magic bytes, the length with its most significant byte first, the body. */
  lemma FrameLayout(body: Bytes)
    ensures Encode(body)[..4] == [0xCA, 0xFE, 0xBA, 0xBE] && Encode(body)[8..] == body
    ensures |body| < WORD ==> FromBigEndian(Encode(body)[4..8]) == |body|
  {
    assert Encode(body)[..4] == BigEndian(MAGIC);
    assert Encode(body)[4..8] == BigEndian(|body| % WORD);
    WordRoundTrip(|body| % WORD);
  }

  function EncodeAll(bodies: seq<Bytes>): Bytes {
    if bodies == [] then [] else Encode(bodies[0]) + EncodeAll(bodies[1..])
  }

  lemma {:induction false} EncodeAllAppend(a: seq<Bytes>, b: seq<Bytes>)
    ensures EncodeAll(a + b) == EncodeAll(a) + EncodeAll(b)
  {
    if a == [] {
      assert a + b == b;
    } else {
      assert (a + b)[1..] == a[1..] + b;
      EncodeAllAppend(a[1..], b);
    }
  }

  lemma EncodeAllSnoc(a: seq<Bytes>, body: Bytes)
    ensures EncodeAll(a + [body]) == EncodeAll(a) + Encode(body)
  {
    EncodeAllAppend(a, [body]);
    assert EncodeAll([body]) == Encode(body) + EncodeAll([]);
  }

  // ---------- Decoding ----------

  /** What the decoder loop finds at the front of its buffer. */
  datatype Head =
    | Partial
    | Corrupt(why: Verdict)
    | Frame(body: Bytes, rest: Bytes)

  datatype Verdict = NeedMore | BadMagic | TooLarge

  /** One turn of the decoder loop; `capped` is true for the server, false for the client. */
  function Peel(s: Bytes, capped: bool): (h: Head)
    ensures h.Frame? ==> |h.rest| < |s|
  {
    if |s| < HEADER then Partial
    else if FromBigEndian(s[..4]) != MAGIC then Corrupt(BadMagic)
    else
      var n := FromBigEndian(s[4..8]);
      if capped && n > MAX_BODY then Corrupt(TooLarge)
      else if |s| < HEADER + n then Partial
      else Frame(s[HEADER..HEADER + n], s[HEADER + n..])
  }

  datatype Decoded = Decoded(frames: seq<Bytes>, rest: Bytes, verdict: Verdict)

  /** The whole decoder loop on a buffer holding `s`: frames delivered, bytes left, and why it stopped. */
  function Decode(s: Bytes, capped: bool): (d: Decoded)
    ensures |d.rest| <= |s|
    decreases |s|
  {
    match Peel(s, capped)
    case Partial => Decoded([], s, NeedMore)
    case Corrupt(why) => Decoded([], s, why)
    case Frame(body, rest) =>
      var d := Decode(rest, capped);
      Decoded([body] + d.frames, d.rest, d.verdict)
  }

  /** A body the decoder can deliver. */
  predicate Fits(body: Bytes, capped: bool) {
    |body| < WORD && (capped ==> |body| <= MAX_BODY)
  }

  predicate AllFit(bodies: seq<Bytes>, capped: bool) {
    forall i :: 0 <= i < |bodies| ==> Fits(bodies[i], capped)
  }

  lemma PeelEncoded(body: Bytes, tail: Bytes, capped: bool)
    requires Fits(body, capped)
    ensures Peel(Encode(body) + tail, capped) == Frame(body, tail)
  {
    var s := Encode(body) + tail;
    assert s[..4] == BigEndian(MAGIC);
    assert s[4..8] == BigEndian(|body| % WORD);
    WordRoundTrip(MAGIC);
    WordRoundTrip(|body| % WORD);
    assert s[HEADER..HEADER + |body|] == body;
    assert s[HEADER + |body|..] == tail;
  }

  lemma PeelSound(s: Bytes, capped: bool)
    requires Peel(s, capped).Frame?
    ensures var h := Peel(s, capped); s == Encode(h.body) + h.rest && Fits(h.body, capped)
  {
    var n := FromBigEndian(s[4..8]);
    BytesRoundTrip(s[..4]);
    BytesRoundTrip(s[4..8]);
    assert s == s[..4] + s[4..8] + s[8..8 + n] + s[8 + n..];
    assert |s[8..8 + n]| == n && n % WORD == n;
  }

  /** Exactly which headers are rejected: other magic bytes, or for the server a length above 64 MiB. */
  lemma RejectedIff(s: Bytes, capped: bool)
    ensures Peel(s, capped) == Corrupt(BadMagic) <==> |s| >= 8 && s[..4] != [0xCA, 0xFE, 0xBA, 0xBE]
    ensures Peel(s, capped) == Corrupt(TooLarge) <==>
              capped && |s| >= 8 && s[..4] == [0xCA, 0xFE, 0xBA, 0xBE] && FromBigEndian(s[4..8]) > 0x400_0000
  {
    if |s| >= 8 {
      BytesRoundTrip(s[..4]);
      assert BigEndian(MAGIC) == [0xCA, 0xFE, 0xBA, 0xBE];
    }
  }

  /** More bytes behind a complete frame or a corrupt header change nothing in front. */
  lemma PeelExtend(s: Bytes, t: Bytes, capped: bool)
    requires !Peel(s, capped).Partial?
    ensures Peel(s, capped).Corrupt? ==> Peel(s + t, capped) == Peel(s, capped)
    ensures Peel(s, capped).Frame? ==>
              Peel(s + t, capped) == Frame(Peel(s, capped).body, Peel(s, capped).rest + t)
  {
    assert (s + t)[..4] == s[..4] && (s + t)[4..8] == s[4..8];
    if Peel(s, capped).Frame? {
      var n := FromBigEndian(s[4..8]);
      assert (s + t)[8..8 + n] == s[8..8 + n];
      assert (s + t)[8 + n..] == s[8 + n..] + t;
    }
  }

  /** What a decoder that stopped with verdict `v` has at the front of its buffer. */
  predicate StopsWith(rest: Bytes, v: Verdict, capped: bool) {
    match Peel(rest, capped)
    case Partial => v == NeedMore
    case Corrupt(why) => v == why
    case Frame(_, _) => false
  }

  lemma EncodeAllCons(body: Bytes, bodies: seq<Bytes>, tail: Bytes)
    ensures EncodeAll([body] + bodies) + tail == Encode(body) + (EncodeAll(bodies) + tail)
  {
    assert ([body] + bodies)[1..] == bodies;
  }

  lemma {:induction false} DecodeSound(s: Bytes, capped: bool)
    ensures var d := Decode(s, capped);
            s == EncodeAll(d.frames) + d.rest && AllFit(d.frames, capped) && StopsWith(d.rest, d.verdict, capped)
    decreases |s|
  {
    match Peel(s, capped)
    case Partial =>
    case Corrupt(_) =>
    case Frame(body, rest) =>
      PeelSound(s, capped);
      DecodeSound(rest, capped);
      var d := Decode(rest, capped);
      EncodeAllCons(body, d.frames, d.rest);
  }

  lemma {:induction false} DecodeComplete(bodies: seq<Bytes>, rest: Bytes, v: Verdict, capped: bool)
    requires AllFit(bodies, capped) && StopsWith(rest, v, capped)
    ensures Decode(EncodeAll(bodies) + rest, capped) == Decoded(bodies, rest, v)
  {
    if bodies == [] {
      assert EncodeAll(bodies) + rest == rest;
    } else {
      assert bodies == [bodies[0]] + bodies[1..];
      var tail := EncodeAll(bodies[1..]) + rest;
      EncodeAllCons(bodies[0], bodies[1..], rest);
      PeelEncoded(bodies[0], tail, capped);
      DecodeComplete(bodies[1..], rest, v, capped);
    }
  }

  /** The decoder computes the one decomposition of its input into encoded frames that fit
      and a remainder it cannot go past: sound, complete and unique. */
  lemma DecodeIsTheParse(s: Bytes, d: Decoded, capped: bool)
    ensures Decode(s, capped) == d <==>
              (s == EncodeAll(d.frames) + d.rest && AllFit(d.frames, capped) && StopsWith(d.rest, d.verdict, capped))
  {
    DecodeSound(s, capped);
    if s == EncodeAll(d.frames) + d.rest && AllFit(d.frames, capped) && StopsWith(d.rest, d.verdict, capped) {
      DecodeComplete(d.frames, d.rest, d.verdict, capped);
    }
  }

  /** Sent bodies come back as sent, in order, with nothing left over, exactly when each fits. */
  lemma EncodeDecodeRoundTrip(bodies: seq<Bytes>, capped: bool)
    ensures Decode(EncodeAll(bodies), capped) == Decoded(bodies, [], NeedMore) <==> AllFit(bodies, capped)
  {
    assert EncodeAll(bodies) + [] == EncodeAll(bodies);
    DecodeIsTheParse(EncodeAll(bodies), Decoded(bodies, [], NeedMore), capped);
  }

  // ---------- Splitting and sticking ----------

  /** One read event: the new chunk lands behind the leftover and the loop runs again. */
  function Feed(sofar: Decoded, chunk: Bytes, capped: bool): Decoded {
    var d := Decode(sofar.rest + chunk, capped);
    Decoded(sofar.frames + d.frames, d.rest, d.verdict)
  }

  function FeedAll(chunks: seq<Bytes>, capped: bool): Decoded {
    if chunks == [] then Decoded([], [], NeedMore)
    else Feed(FeedAll(chunks[..|chunks| - 1], capped), chunks[|chunks| - 1], capped)
  }

  function Flatten(chunks: seq<Bytes>): Bytes {
    if chunks == [] then [] else Flatten(chunks[..|chunks| - 1]) + chunks[|chunks| - 1]
  }

  lemma Regroup(s: Bytes, t: Bytes, a: Bytes, mid: Bytes, b: Bytes, rest: Bytes)
    requires s == a + mid && mid + t == b + rest
    ensures s + t == a + b + rest
  {
    assert a + mid + t == a + (mid + t);
    assert a + (b + rest) == a + b + rest;
  }

  /** Decoding a stream in two parts equals decoding it at once. */
  lemma DecodeSplit(s: Bytes, t: Bytes, capped: bool)
    ensures Decode(s + t, capped) == Feed(Decode(s, capped), t, capped)
  {
    var d := Decode(s, capped);
    var e := Decode(d.rest + t, capped);
    DecodeSound(s, capped);
    DecodeSound(d.rest + t, capped);
    Regroup(s, t, EncodeAll(d.frames), d.rest, EncodeAll(e.frames), e.rest);
    EncodeAllAppend(d.frames, e.frames);
    DecodeComplete(d.frames + e.frames, e.rest, e.verdict, capped);
  }

  /** However the stream is cut into chunks, the frames, the leftover and the verdict are those
      of a one-shot decode of the whole stream. */
  lemma {:induction false} ChunkingIsInvisible(chunks: seq<Bytes>, capped: bool)
    ensures FeedAll(chunks, capped) == Decode(Flatten(chunks), capped)
    decreases |chunks|
  {
    if chunks != [] {
      var init := chunks[..|chunks| - 1];
      ChunkingIsInvisible(init, capped);
      DecodeSplit(Flatten(init), chunks[|chunks| - 1], capped);
    }
  }

  /** Once the decoder has rejected its buffer no later bytes ever produce a frame, and the
      rejection stands. */
  lemma RejectionIsFinal(chunks: seq<Bytes>, later: seq<Bytes>, capped: bool)
    requires FeedAll(chunks, capped).verdict != NeedMore
    ensures var d := FeedAll(chunks, capped);
            FeedAll(chunks + later, capped) == d.(rest := d.rest + Flatten(later))
  {
    var d := FeedAll(chunks, capped);
    ChunkingIsInvisible(chunks, capped);
    ChunkingIsInvisible(chunks + later, capped);
    FlattenAppend(chunks, later);
    DecodeSplit(Flatten(chunks), Flatten(later), capped);
    DecodeSound(Flatten(chunks), capped);
    PeelExtend(d.rest, Flatten(later), capped);
  }

  lemma {:induction false} FlattenAppend(a: seq<Bytes>, b: seq<Bytes>)
    ensures Flatten(a + b) == Flatten(a) + Flatten(b)
    decreases |b|
  {
    if b == [] {
      assert a + b == a;
    } else {
      assert (a + b)[..|a + b| - 1] == a + b[..|b| - 1];
      FlattenAppend(a, b[..|b| - 1]);
      assert Flatten(a) + Flatten(b[..|b| - 1]) + b[|b| - 1] == Flatten(a) + (Flatten(b[..|b| - 1]) + b[|b| - 1]);
    }
  }

  /** On streams the server does not reject for size, the client's inlined decoder and the
      server's agree on everything; on the others they never do. */
  lemma {:induction false} ClientDecoderAgrees(s: Bytes)
    ensures Decode(s, false) == Decode(s, true) <==> Decode(s, true).verdict != TooLarge
    decreases |s|
  {
    if Peel(s, true).Frame? {
      ClientDecoderAgrees(Peel(s, true).rest);
      var c, d := Decode(Peel(s, true).rest, false), Decode(Peel(s, true).rest, true);
      assert ([Peel(s, true).body] + c.frames)[1..] == c.frames;
      assert ([Peel(s, true).body] + d.frames)[1..] == d.frames;
    } else {
      ClientNeverTooLarge(s);
    }
  }

  lemma {:induction false} ClientNeverTooLarge(s: Bytes)
    ensures Decode(s, false).verdict != TooLarge
    decreases |s|
  {
    if Peel(s, false).Frame? {
      ClientNeverTooLarge(Peel(s, false).rest);
    }
  }

  /** What a decoder leaves in its buffer when it waits for more is less than one full frame. */
  lemma LeftoverBound(s: Bytes)
    ensures Decode(s, true).verdict == NeedMore ==> |Decode(s, true).rest| < HEADER + MAX_BODY
  {
    DecodeSound(s, true);
  }

  /** A decoder fed any part of an encoded stream of bodies finds the first of them, or waits. */
  lemma PeelFromStream(held: Bytes, coming: Bytes, bodies: seq<Bytes>, capped: bool)
    requires AllFit(bodies, capped) && held + coming == EncodeAll(bodies)
    ensures !Peel(held, capped).Corrupt?
    ensures Peel(held, capped).Frame? ==>
              bodies != [] && Peel(held, capped).body == bodies[0]
              && Peel(held, capped).rest + coming == EncodeAll(bodies[1..])
  {
    if !Peel(held, capped).Partial? {
      PeelExtend(held, coming, capped);
      if bodies != [] {
        PeelEncoded(bodies[0], EncodeAll(bodies[1..]), capped);
      }
    }
  }

  /** However far a receiver has got with an encoded stream of bodies, and however it was cut, it has
      delivered a prefix of them and rejected nothing; it has delivered all once it has all the bytes. */
  lemma PartOfStreamDecodes(bodies: seq<Bytes>, chunks: seq<Bytes>, capped: bool)
    requires AllFit(bodies, capped) && Flatten(chunks) <= EncodeAll(bodies)
    ensures var d := FeedAll(chunks, capped);
            && d.frames <= bodies && d.verdict == NeedMore
            && (Flatten(chunks) == EncodeAll(bodies) ==> d == Decoded(bodies, [], NeedMore))
  {
    var s := Flatten(chunks);
    var t := EncodeAll(bodies)[|s|..];
    var d := Decode(s, capped);
    assert s + t == EncodeAll(bodies);
    ChunkingIsInvisible(chunks, capped);
    EncodeDecodeRoundTrip(bodies, capped);
    DecodeSplit(s, t, capped);
    DecodeSound(s, capped);
    if d.verdict != NeedMore {
      PeelExtend(d.rest, t, capped);
    }
  }

  /** Why the client needs whole writes: after `n` bytes of one frame and then another, the receiver
      delivers both bodies if and only if the first was written whole. */
  lemma WholeWritesNeeded(a: Bytes, b: Bytes, n: nat)
    requires Fits(a, true) && Fits(b, true) && n <= |Encode(a)|
    ensures Decode(Encode(a)[..n] + Encode(b), true) == Decoded([a, b], [], NeedMore) <==> n == |Encode(a)|
  {
    var s := Encode(a)[..n] + Encode(b);
    assert EncodeAll([a, b]) == Encode(a) + (Encode(b) + EncodeAll([a, b][1..][1..])) by {
      assert [a, b][1..] == [b];
    }
    DecodeIsTheParse(s, Decoded([a, b], [], NeedMore), true);
    if n == |Encode(a)| {
      assert Encode(a)[..n] == Encode(a);
      assert s == EncodeAll([a, b]) + [];
    }
  }
}
