/**
 The incremental length-prefixed frame decoder, against a parser of the whole stream.
 */
module Framing {
  import opened Wrappers

  type Byte = b: int | 0 <= b < 256

  datatype FrameError =
    | ZeroLength
    | Oversized(declared: nat, maximum: nat)
    | PartialHeader(received: nat)
    | PartialPayload(declaredBytes: nat, received: nat)

  const HEADER_BYTES: nat := 4

  /** Big-endian value of a complete header. */
  function Declared(header: seq<Byte>): nat
    requires |header| == HEADER_BYTES
  {
    ((header[0] as int * 256 + header[1] as int) * 256 + header[2] as int) * 256 + header[3] as int
  }

  function BigEndian(n: nat): (header: seq<Byte>)
    requires n <= U32_MAX
    ensures |header| == HEADER_BYTES && Declared(header) == n
  {
    var (high, upper, lower) := (n / 256 / 256 / 256, n / 256 / 256, n / 256);
    [high, upper % 256, lower % 256, n % 256]
  }

  // ---------------------------------------------------------------------------
  // The decoder

  datatype Decoder = Decoder(limit: nat, header: seq<Byte>, declared: Option<nat>, payload: seq<Byte>)

  function Fresh(limit: nat): Decoder {
    Decoder(limit, [], None, [])
  }

  function Min(a: nat, b: nat): nat {
    if a <= b then a else b
  }

  function TakePayload(d: Decoder, declared: nat, input: seq<Byte>, used: nat)
    : (Result<(nat, Option<seq<Byte>>), FrameError>, Decoder)
    requires used <= |input| && |d.payload| <= declared
  {
    var take := Min(declared - |d.payload|, |input| - used);
    var payload := d.payload + input[used..used + take];
    if |payload| == declared then (Ok((used + take, Some(payload))), Fresh(d.limit))
    else (Ok((used + take, None)), d.(payload := payload))
  }

  /** Consumes input up to the end of the frame in progress. */
  function Push(d: Decoder, input: seq<Byte>): (Result<(nat, Option<seq<Byte>>), FrameError>, Decoder)
    requires Valid(d)
  {
    if d.declared.Some? then TakePayload(d, d.declared.value, input, 0)
    else
      var take := Min(HEADER_BYTES - |d.header|, |input|);
      var header := d.header + input[..take];
      if |header| < HEADER_BYTES then (Ok((take, None)), d.(header := header))
      else if Declared(header) == 0 then (Err(ZeroLength), Fresh(d.limit))
      else if Declared(header) > d.limit then (Err(Oversized(Declared(header), d.limit)), Fresh(d.limit))
      else TakePayload(Decoder(d.limit, header, Some(Declared(header)), []), Declared(header), input, take)
  }

  function Finish(d: Decoder): Result<(), FrameError> {
    if |d.header| > 0 && d.declared.None? then Err(PartialHeader(|d.header|))
    else if d.declared.Some? then Err(PartialPayload(d.declared.value, |d.payload|))
    else Ok(())
  }

  /** Between calls a frame is always incomplete, and what is buffered stays within the bound. */
  predicate Valid(d: Decoder) {
    match d.declared
    case None => |d.header| < HEADER_BYTES && d.payload == []
    case Some(n) => |d.header| == HEADER_BYTES && Declared(d.header) == n && |d.payload| < n <= d.limit
  }

  /** The bytes of the frame in progress. */
  function Residue(d: Decoder): seq<Byte> {
    d.header + d.payload
  }

  lemma PushProgress(d: Decoder, input: seq<Byte>)
    requires Valid(d)
    ensures var (r, d') := Push(d, input);
            && Valid(d') && d'.limit == d.limit && |d'.payload| <= d.limit && |d'.header| <= HEADER_BYTES
            && (r.Ok? ==> r.value.0 <= |input|)
            && (r.Ok? && input != [] ==> 0 < r.value.0)
            && (r.Ok? && r.value.1.None? ==> r.value.0 == |input|)
  {
  }

  // ---------------------------------------------------------------------------
  // Driving the decoder over a stream

  datatype Decoded = Decoded(frames: seq<seq<Byte>>, error: Option<FrameError>, decoder: Decoder)

  /** Pushes until the input is used up, or the first error. */
  function Feed(d: Decoder, input: seq<Byte>): Decoded
    requires Valid(d)
    decreases |input|
  {
    if input == [] then Decoded([], None, d)
    else
      var (r, d') := Push(d, input);
      PushProgress(d, input);
      match r
      case Err(error) => Decoded([], Some(error), d')
      case Ok((used, None)) => Decoded([], None, d')
      case Ok((used, Some(frame))) =>
        var rest := Feed(d', input[used..]);
        rest.(frames := [frame] + rest.frames)
  }

  /** Feeds one chunk after another, up to the first error. */
  function FeedChunks(d: Decoder, chunks: seq<seq<Byte>>): Decoded
    requires Valid(d)
    decreases |chunks|
  {
    if chunks == [] then Decoded([], None, d)
    else
      var first := Feed(d, chunks[0]);
      FeedValid(d, chunks[0]);
      if first.error.Some? then first
      else
        var rest := FeedChunks(first.decoder, chunks[1..]);
        rest.(frames := first.frames + rest.frames)
  }

  lemma {:induction false} FeedValid(d: Decoder, input: seq<Byte>)
    requires Valid(d)
    ensures Valid(Feed(d, input).decoder) && Feed(d, input).decoder.limit == d.limit
    decreases |input|
  {
    if input != [] {
      PushProgress(d, input);
      var (r, d') := Push(d, input);
      if r.Ok? && r.value.1.Some? {
        FeedValid(d', input[r.value.0..]);
      }
    }
  }

  // ---------------------------------------------------------------------------
  // The reference: parsing the whole stream

  datatype Parsed = Parsed(frames: seq<seq<Byte>>, error: Option<FrameError>, rest: seq<Byte>)

  function Parse(limit: nat, s: seq<Byte>): Parsed
    decreases |s|
  {
    if |s| < HEADER_BYTES then Parsed([], None, s)
    else
      var n := Declared(s[..HEADER_BYTES]);
      if n == 0 then Parsed([], Some(ZeroLength), [])
      else if n > limit then Parsed([], Some(Oversized(n, limit)), [])
      else if |s| < HEADER_BYTES + n then Parsed([], None, s)
      else
        var later := Parse(limit, s[HEADER_BYTES + n..]);
        later.(frames := [s[HEADER_BYTES..HEADER_BYTES + n]] + later.frames)
  }

  /** What a decoder's buffer parses to on its own: nothing yet. */
  lemma ResidueIsIncomplete(d: Decoder)
    requires Valid(d)
    ensures Parse(d.limit, Residue(d)) == Parsed([], None, Residue(d))
  {
    if d.declared.Some? {
      assert Residue(d)[..HEADER_BYTES] == d.header;
    }
  }

  /** One push is one step of the parser on the buffered bytes followed by the input. */
  lemma PushParses(d: Decoder, input: seq<Byte>)
    requires Valid(d)
    ensures var (r, d') := Push(d, input);
            var s := Residue(d) + input;
            match r
            case Err(error) => Parse(d.limit, s) == Parsed([], Some(error), [])
            case Ok((used, None)) => Residue(d') == s
            case Ok((used, Some(frame))) =>
              && d' == Fresh(d.limit) && used <= |input|
              && Parse(d.limit, s) ==
                 Parse(d.limit, input[used..]).(frames := [frame] + Parse(d.limit, input[used..]).frames)
  {
    var s := Residue(d) + input;
    if d.declared.Some? {
      assert s[..HEADER_BYTES] == d.header;
      PayloadParses(d, d.declared.value, input, 0, s);
    } else {
      var take := Min(HEADER_BYTES - |d.header|, |input|);
      var header := d.header + input[..take];
      if |header| < HEADER_BYTES {
        assert input[..take] == input;
      } else {
        assert s[..HEADER_BYTES] == header;
        if 0 < Declared(header) <= d.limit {
          var d1 := Decoder(d.limit, header, Some(Declared(header)), []);
          assert s == header + input[take..];
          PayloadParses(d1, Declared(header), input, take, s);
        }
      }
    }
  }

  lemma PayloadParses(d: Decoder, n: nat, input: seq<Byte>, used: nat, s: seq<Byte>)
    requires |d.header| == HEADER_BYTES && Declared(d.header) == n && 0 < n <= d.limit
    requires |d.payload| <= n && used <= |input| && s == d.header + d.payload + input[used..]
    ensures var (r, d') := TakePayload(d, n, input, used);
            && r.Ok?
            && (r.value.1.None? ==> Residue(d') == s)
            && (r.value.1.Some? ==>
                  && d' == Fresh(d.limit) && r.value.0 <= |input|
                  && Parse(d.limit, s) ==
                     Parse(d.limit, input[r.value.0..])
                     .(frames := [r.value.1.value] + Parse(d.limit, input[r.value.0..]).frames))
  {
    hide Parse, Declared;
    var take := Min(n - |d.payload|, |input| - used);
    var payload := d.payload + input[used..used + take];
    if |payload| == n {
      var rest := input[used + take..];
      assert input[used..] == input[used..used + take] + rest;
      assert s == d.header + payload + rest;
      assert (d.header + payload)[..HEADER_BYTES] == d.header;
      assert (d.header + payload)[HEADER_BYTES..HEADER_BYTES + n] == payload;
      ParseLeadingFrame(d.limit, d.header + payload, rest);
      assert (d.header + payload)[HEADER_BYTES + n..] + rest == rest;
    } else {
      assert input[used..used + take] == input[used..];
    }
  }

  /** Feeding a decoder is parsing its buffer followed by the input. */
  lemma {:induction false} FeedIsParse(d: Decoder, input: seq<Byte>)
    requires Valid(d)
    ensures var fed := Feed(d, input);
            var parsed := Parse(d.limit, Residue(d) + input);
            && fed.frames == parsed.frames && fed.error == parsed.error
            && (fed.error.None? ==> Residue(fed.decoder) == parsed.rest)
    decreases |input|
  {
    if input == [] {
      ResidueIsIncomplete(d);
      assert Residue(d) + input == Residue(d);
    } else {
      PushProgress(d, input);
      PushParses(d, input);
      var (r, d') := Push(d, input);
      hide Push, Valid;
      if r.Ok? {
        if r.value.1.Some? {
          var rest := input[r.value.0..];
          FreshIsValid(d.limit);
          FeedIsParse(d', rest);
          assert Residue(d') + rest == rest;
        } else {
          ResidueIsIncomplete(d');
        }
      }
    }
  }

  lemma FreshIsValid(limit: nat)
    ensures Valid(Fresh(limit)) && Residue(Fresh(limit)) == []
  {
  }

  /** A complete frame of acceptable length stands at the front. */
  predicate FrameLeads(limit: nat, s: seq<Byte>) {
    && |s| >= HEADER_BYTES
    && 0 < Declared(s[..HEADER_BYTES]) <= limit
    && |s| >= HEADER_BYTES + Declared(s[..HEADER_BYTES])
  }

  /** A complete leading frame is parsed first, whatever follows it. */
  lemma ParseLeadingFrame(limit: nat, s: seq<Byte>, t: seq<Byte>)
    requires FrameLeads(limit, s)
    ensures var n := Declared(s[..HEADER_BYTES]);
            var later := Parse(limit, s[HEADER_BYTES + n..] + t);
            Parse(limit, s + t) == later.(frames := [s[HEADER_BYTES..HEADER_BYTES + n]] + later.frames)
  {
    hide Declared;
    var n := Declared(s[..HEADER_BYTES]);
    assert (s + t)[..HEADER_BYTES] == s[..HEADER_BYTES];
    assert (s + t)[HEADER_BYTES + n..] == s[HEADER_BYTES + n..] + t;
    assert (s + t)[HEADER_BYTES..HEADER_BYTES + n] == s[HEADER_BYTES..HEADER_BYTES + n];
  }

  /** Parsing goes on from what the first part left over, and stops for good at an error. */
  lemma {:induction false} ParseAppend(limit: nat, s: seq<Byte>, t: seq<Byte>)
    ensures var first := Parse(limit, s);
            var whole := Parse(limit, s + t);
            if first.error.Some? then whole.frames == first.frames && whole.error == first.error
            else
              var later := Parse(limit, first.rest + t);
              whole.frames == first.frames + later.frames && whole.error == later.error && whole.rest == later.rest
    decreases |s|
  {
    hide Declared, Parse;
    if FrameLeads(limit, s) {
      var n := Declared(s[..HEADER_BYTES]);
      var (s', frame) := (s[HEADER_BYTES + n..], s[HEADER_BYTES..HEADER_BYTES + n]);
      ParseLeadingFrame(limit, s, t);
      ParseLeadingFrame(limit, s, []);
      assert s + [] == s && s' + [] == s';
      ParseAppend(limit, s', t);
      var first := Parse(limit, s');
      var later := Parse(limit, first.rest + t);
      assert [frame] + (first.frames + later.frames) == [frame] + first.frames + later.frames;
    } else {
      ParseStops(limit, s, t);
    }
  }

  /** Without a complete leading frame nothing is parsed, and a bad header stays bad. */
  lemma ParseStops(limit: nat, s: seq<Byte>, t: seq<Byte>)
    requires !FrameLeads(limit, s)
    ensures var first := Parse(limit, s);
            && first.frames == []
            && (first.error.None? ==> first.rest == s)
            && (first.error.Some? ==> Parse(limit, s + t).frames == [] && Parse(limit, s + t).error == first.error)
  {
    hide Declared;
    if |s| >= HEADER_BYTES {
      assert (s + t)[..HEADER_BYTES] == s[..HEADER_BYTES];
    }
  }

  function Flatten(chunks: seq<seq<Byte>>): seq<Byte> {
    if chunks == [] then [] else chunks[0] + Flatten(chunks[1..])
  }

  /**
   Chunking independence: however a stream is cut into chunks, feeding them yields the same
   frames and the same first error as parsing the whole stream, and without an error the
   decoder is left holding exactly the unfinished tail.
   */
  lemma {:induction false} ChunkingDoesNotMatter(d: Decoder, chunks: seq<seq<Byte>>)
    requires Valid(d)
    ensures var fed := FeedChunks(d, chunks);
            var parsed := Parse(d.limit, Residue(d) + Flatten(chunks));
            && fed.frames == parsed.frames && fed.error == parsed.error
            && (fed.error.None? ==> Residue(fed.decoder) == parsed.rest && Valid(fed.decoder))
    decreases |chunks|
  {
    hide Parse, Feed, Residue;
    if chunks == [] {
      ResidueIsIncomplete(d);
      assert Residue(d) + [] == Residue(d);
    } else {
      var first := Feed(d, chunks[0]);
      FeedIsParse(d, chunks[0]);
      FeedValid(d, chunks[0]);
      var tail := Flatten(chunks[1..]);
      ParseAppend(d.limit, Residue(d) + chunks[0], tail);
      assert Residue(d) + chunks[0] + tail == Residue(d) + Flatten(chunks);
      hide Valid;
      if first.error.None? {
        ChunkingDoesNotMatter(first.decoder, chunks[1..]);
      }
    }
  }

  function Encode(frames: seq<seq<Byte>>): seq<Byte>
    requires forall i :: 0 <= i < |frames| ==> |frames[i]| <= U32_MAX
  {
    if frames == [] then [] else BigEndian(|frames[0]|) + frames[0] + Encode(frames[1..])
  }

  /** Frames that a sender may send: not empty, within the limit, of a length that a header can hold. */
  predicate Framed(limit: nat, frames: seq<seq<Byte>>) {
    forall i :: 0 <= i < |frames| ==> 0 < |frames[i]| <= limit && |frames[i]| <= U32_MAX
  }

  lemma {:induction false} ParseEncoded(limit: nat, frames: seq<seq<Byte>>)
    requires Framed(limit, frames)
    ensures Parse(limit, Encode(frames)) == Parsed(frames, None, [])
    decreases |frames|
  {
    if frames != [] {
      var (header, frame, later) := (BigEndian(|frames[0]|), frames[0], Encode(frames[1..]));
      var s := Encode(frames);
      assert s == header + frame + later;
      assert s[..HEADER_BYTES] == header;
      assert s[HEADER_BYTES..HEADER_BYTES + |frame|] == frame;
      assert s[HEADER_BYTES + |frame|..] == later;
      ParseEncoded(limit, frames[1..]);
      hide Encode, BigEndian;
      assert [frame] + frames[1..] == frames;
    }
  }

  /** Round trip: encoded frames, cut up in any way, decode to exactly those frames. */
  lemma RoundTrip(limit: nat, frames: seq<seq<Byte>>, chunks: seq<seq<Byte>>)
    requires Framed(limit, frames)
    requires Flatten(chunks) == Encode(frames)
    ensures FeedChunks(Fresh(limit), chunks).frames == frames
    ensures FeedChunks(Fresh(limit), chunks).error == None
    ensures Finish(FeedChunks(Fresh(limit), chunks).decoder) == Ok(())
  {
    FreshIsValid(limit);
    ChunkingDoesNotMatter(Fresh(limit), chunks);
    assert Residue(Fresh(limit)) + Flatten(chunks) == Flatten(chunks);
    hide Encode, Parse, FeedChunks;
    ParseEncoded(limit, frames);
    FinishMeansNothingBuffered(FeedChunks(Fresh(limit), chunks).decoder);
  }

  lemma FinishMeansNothingBuffered(d: Decoder)
    requires Valid(d)
    ensures Finish(d) == Ok(()) <==> Residue(d) == []
  {
  }

  // ---------------------------------------------------------------------------
  // What arbitrary bytes decode to

  lemma HeaderReadsBack(header: seq<Byte>)
    requires |header| == HEADER_BYTES
    ensures Declared(header) <= U32_MAX && BigEndian(Declared(header)) == header
  {
    var (a: nat, b: nat, c: nat, d: nat) := (header[0], header[1], header[2], header[3]);
    var lower: nat := (a * 256 + b) * 256 + c;
    assert Declared(header) == lower * 256 + d;
    assert Declared(header) / 256 == lower && Declared(header) % 256 == d;
    assert lower / 256 == a * 256 + b && lower % 256 == c;
    assert (a * 256 + b) / 256 == a && (a * 256 + b) % 256 == b;
  }

  /** Bytes that may still become a frame. */
  predicate Unfinished(limit: nat, tail: seq<Byte>) {
    || |tail| < HEADER_BYTES
    || (0 < Declared(tail[..HEADER_BYTES]) <= limit && |tail| < HEADER_BYTES + Declared(tail[..HEADER_BYTES]))
  }

  /** What follows the last complete frame accounts for how the parser ended. */
  predicate Accounts(limit: nat, parsed: Parsed, tail: seq<Byte>) {
    match parsed.error
    case None => tail == parsed.rest && Unfinished(limit, tail)
    case Some(ZeroLength) => |tail| >= HEADER_BYTES && Declared(tail[..HEADER_BYTES]) == 0
    case Some(Oversized(n, maximum)) =>
      |tail| >= HEADER_BYTES && Declared(tail[..HEADER_BYTES]) == n && n > limit && maximum == limit
    case Some(_) => false
  }

  /**
   Every stream is the encoding of exactly the frames it decodes to, followed by an
   unfinished frame if there was no error, and by the offending header if there was one.
   */
  lemma {:induction false} ParseIsEncoding(limit: nat, s: seq<Byte>) returns (tail: seq<Byte>)
    ensures var parsed := Parse(limit, s);
            Framed(limit, parsed.frames) && s == Encode(parsed.frames) + tail && Accounts(limit, parsed, tail)
    decreases |s|
  {
    hide Parse, Declared, Encode, Accounts;
    if FrameLeads(limit, s) {
      var n := Declared(s[..HEADER_BYTES]);
      var (frame, s') := (s[HEADER_BYTES..HEADER_BYTES + n], s[HEADER_BYTES + n..]);
      tail := ParseIsEncoding(limit, s');
      ParseLeadingFrame(limit, s, []);
      assert s + [] == s && s' + [] == s';
      AccountsForTail(limit, Parse(limit, s'), frame, tail);
      HeaderReadsBack(s[..HEADER_BYTES]);
      EncodeCons(limit, frame, Parse(limit, s').frames);
      assert s == s[..HEADER_BYTES] + frame + s';
    } else {
      tail := s;
      NothingParsed(limit, s);
    }
  }

  lemma AccountsForTail(limit: nat, later: Parsed, frame: seq<Byte>, tail: seq<Byte>)
    ensures Accounts(limit, later.(frames := [frame] + later.frames), tail) <==> Accounts(limit, later, tail)
  {
  }

  lemma NothingParsed(limit: nat, s: seq<Byte>)
    requires !FrameLeads(limit, s)
    ensures var parsed := Parse(limit, s);
            Framed(limit, parsed.frames) && s == Encode(parsed.frames) + s && Accounts(limit, parsed, s)
  {
    hide Declared;
    assert [] + s == s;
  }

  lemma EncodeCons(limit: nat, frame: seq<Byte>, frames: seq<seq<Byte>>)
    requires 0 < |frame| <= limit && |frame| <= U32_MAX && Framed(limit, frames)
    ensures Framed(limit, [frame] + frames)
    ensures Encode([frame] + frames) == BigEndian(|frame|) + frame + Encode(frames)
  {
    assert ([frame] + frames)[1..] == frames;
    hide BigEndian;
  }

  /**
   Ending a stream is fine exactly on a frame boundary: however the bytes were split, there
   was no error and finishing succeeds if and only if they are the encoding of some frames
   within the limit, and those are then the frames decoded.
   */
  lemma FinishOnBoundary(limit: nat, chunks: seq<seq<Byte>>)
    ensures var fed := FeedChunks(Fresh(limit), chunks);
            && (fed.error.None? && Finish(fed.decoder) == Ok(()) <==>
                  exists frames :: Framed(limit, frames) && Flatten(chunks) == Encode(frames))
            && (fed.error.None? && Finish(fed.decoder) == Ok(()) ==>
                  Framed(limit, fed.frames) && Flatten(chunks) == Encode(fed.frames))
  {
    FreshIsValid(limit);
    ChunkingDoesNotMatter(Fresh(limit), chunks);
    var s := Flatten(chunks);
    assert Residue(Fresh(limit)) + s == s;
    hide Encode, Parse, FeedChunks, Flatten, Valid, Finish, Unfinished;
    var fed := FeedChunks(Fresh(limit), chunks);
    var tail := ParseIsEncoding(limit, s);
    if fed.error.None? {
      FinishMeansNothingBuffered(fed.decoder);
      if tail == [] { assert s == Encode(fed.frames); }
    }
    if exists frames :: Framed(limit, frames) && s == Encode(frames) {
      var frames :| Framed(limit, frames) && s == Encode(frames);
      RoundTrip(limit, frames, chunks);
    }
  }
}
