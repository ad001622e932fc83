/**
 The frame decoder as a mutable object with its fixed header buffer; pushing, ending and
 resetting are proved against the decoder functions.
 */
module FramingObjects {
  import opened Wrappers
  import opened Framing

  class FrameDecoder {
    const limit: nat
    const header: array<Byte>
    var headerLen: nat
    var declared: Option<nat>
    var payload: seq<Byte>

    ghost predicate WellFormed()
      reads this, header
    {
      header.Length == HEADER_BYTES && headerLen <= HEADER_BYTES && Valid(Model())
    }

    ghost function Model(): Decoder
      reads this, header
      requires headerLen <= header.Length
    {
      Decoder(limit, header[..headerLen], declared, payload)
    }

    constructor (limit: nat)
      ensures WellFormed() && Model() == Fresh(limit) && fresh(header)
    {
      this.limit := limit;
      header := new Byte[HEADER_BYTES](i => 0);
      headerLen, declared, payload := 0, None, [];
    }

    method Reset()
      requires header.Length == HEADER_BYTES
      modifies this, header
      ensures WellFormed() && Model() == Fresh(limit)
    {
      forall i | 0 <= i < header.Length { header[i] := 0; }
      headerLen, declared, payload := 0, None, [];
    }

    /** Copies what is still missing of the header into the buffer. */
    method ReadHeader(input: seq<Byte>) returns (take: nat)
      requires header.Length == HEADER_BYTES && headerLen <= HEADER_BYTES
      modifies this`headerLen, header
      ensures take == Min(HEADER_BYTES - old(headerLen), |input|) && headerLen == old(headerLen) + take
      ensures header[..headerLen] == old(header[..headerLen]) + input[..take]
    {
      take := Min(HEADER_BYTES - headerLen, |input|);
      var start := headerLen;
      forall i | 0 <= i < take { header[start + i] := input[i]; }
      headerLen := headerLen + take;
    }

    method ReadPayload(input: seq<Byte>, before: nat) returns (r: Result<(nat, Option<seq<Byte>>), FrameError>)
      requires header.Length == HEADER_BYTES == headerLen && declared.Some?
      requires before <= |input| && |payload| <= declared.value
      modifies this, header
      ensures header.Length == HEADER_BYTES && headerLen <= HEADER_BYTES
      ensures (r, Model()) == TakePayload(old(Model()), old(declared).value, input, before)
    {
      var take := Min(declared.value - |payload|, |input| - before);
      payload := payload + input[before..before + take];
      if |payload| == declared.value {
        var frame := payload;
        Reset();
        return Ok((before + take, Some(frame)));
      }
      r := Ok((before + take, None));
    }

    /** Settles the length of the frame once its header is complete. */
    method Announce() returns (r: Result<(), FrameError>)
      requires header.Length == HEADER_BYTES == headerLen
      modifies this, header
      ensures header.Length == HEADER_BYTES
      ensures var n := Declared(old(header[..headerLen]));
              && (n == 0 ==> r == Err(ZeroLength) && headerLen == 0 && Model() == Fresh(limit))
              && (n > limit ==> r == Err(Oversized(n, limit)) && headerLen == 0 && Model() == Fresh(limit))
              && (0 < n <= limit ==>
                    r == Ok(()) && headerLen == HEADER_BYTES
                    && Model() == Decoder(limit, old(header[..headerLen]), Some(n), []))
    {
      assert header[..] == header[..headerLen];
      var length := Declared(header[..]);
      hide Declared;
      if length == 0 {
        Reset();
        return Err(ZeroLength);
      }
      if length > limit {
        Reset();
        return Err(Oversized(length, limit));
      }
      payload := [];
      declared := Some(length);
      r := Ok(());
    }

    method Push(input: seq<Byte>) returns (r: Result<(nat, Option<seq<Byte>>), FrameError>)
      requires WellFormed()
      modifies this, header
      ensures WellFormed()
      ensures (r, Model()) == Framing.Push(old(Model()), input)
    {
      PushProgress(Model(), input);
      ghost var d := Model();
      var used := 0;
      if declared.None? {
        used := ReadHeader(input);
        assert Model() == d.(header := d.header + input[..used]);
        hide Declared, TakePayload, Valid;
        if headerLen < HEADER_BYTES {
          return Ok((used, None));
        }
        var announced := Announce();
        if announced.Err? {
          return Err(announced.error);
        }
      }
      hide Declared, TakePayload;
      assert headerLen == HEADER_BYTES && declared.Some? && |payload| <= declared.value;
      r := ReadPayload(input, used);
    }

    method End() returns (r: Result<(), FrameError>)
      requires WellFormed()
      modifies this, header
      ensures WellFormed() && Model() == Fresh(limit)
      ensures r == Finish(old(Model()))
    {
      var error := None;
      if headerLen > 0 && declared.None? {
        error := Some(PartialHeader(headerLen));
      } else if declared.Some? {
        error := Some(PartialPayload(declared.value, |payload|));
      }
      Reset();
      r := if error.Some? then Err(error.value) else Ok(());
    }
  }
}
