/**
 NUL-framed messages over the browser's pipe (src/chrome/pipe.rs).  `CdpReader` is the read half;
 what the operating system's reads return is a list of `Read` values, and a reader whose list runs
 out is a pending read that its caller drops.
 */
module Pipe {
  import opened Prelude

  const NUL: Byte := 0

  datatype PipeError = Closed | FrameTooLarge(maxBytes: nat) | Io

  /** One completed read; an empty `Data` is end of file. */
  datatype Read = Data(bytes: Bytes) | BrokenPipe | Failed

  /** What one `recv_raw` came to; `Cancelled` is a future dropped while its read was pending. */
  datatype Recv = Frame(bytes: Bytes) | Error(error: PipeError) | Cancelled

  predicate IsFrame(f: Bytes, max: nat) {
    NUL !in f && |f| <= max
  }

  /** The position of the first NUL, or the length when there is none. */
  function FirstNul(s: Bytes): (r: nat)
    ensures r <= |s| && NUL !in s[..r] && (r < |s| ==> s[r] == NUL)
  {
    if s == [] || s[0] == NUL then 0
    else
      var r := FirstNul(s[1..]) + 1;
      assert s[..r] == [s[0]] + s[1..][..r - 1];
      r
  }

  datatype Taken = NeedMore | Got(frame: Bytes, rest: Bytes) | Oversize

  /** `take_frame` as a function of the buffer. */
  function Take(buf: Bytes, max: nat): Taken {
    var pos := FirstNul(buf);
    if pos < |buf| then
      if pos > max then Oversize else Got(buf[..pos], buf[pos + 1..])
    else if |buf| > max then Oversize
    else NeedMore
  }

  /** What `send_raw` puts on the wire for a list of frames. */
  function Encode(frames: seq<Bytes>): Bytes {
    if frames == [] then [] else frames[0] + [NUL] + Encode(frames[1..])
  }

  datatype Received = Received(recv: Recv, buf: Bytes, incoming: seq<Read>)

  function Weight(buf: Bytes, incoming: seq<Read>): nat {
    if incoming == [] then |buf|
    else (if incoming[0].Data? then |incoming[0].bytes| else 0) + 1 + Weight(buf, incoming[1..])
  }

  /** One `recv_raw`, from the buffer and the reads it will see. */
  function RecvOf(buf: Bytes, incoming: seq<Read>, max: nat): (r: Received)
    ensures r.recv.Frame? ==> Weight(r.buf, r.incoming) < Weight(buf, incoming)
    decreases |incoming|
  {
    match Take(buf, max)
    case Got(frame, rest) =>
      WeightOfBuffer(buf, rest, incoming);
      Received(Frame(frame), rest, incoming)
    case Oversize => Received(Error(FrameTooLarge(max)), buf, incoming)
    case NeedMore =>
      if incoming == [] then Received(Cancelled, buf, [])
      else
        match incoming[0]
        case BrokenPipe => Received(Error(Closed), buf, incoming[1..])
        case Failed => Received(Error(Io), buf, incoming[1..])
        case Data(bytes) =>
          if bytes == [] then Received(Error(Closed), buf, incoming[1..])
          else
            WeightOfBuffer(buf + bytes, buf, incoming[1..]);
            RecvOf(buf + bytes, incoming[1..], max)
  }

  lemma {:induction false} WeightOfBuffer(a: Bytes, b: Bytes, incoming: seq<Read>)
    ensures Weight(a, incoming) - |a| == Weight(b, incoming) - |b|
  {
    if incoming != [] {
      WeightOfBuffer(a, b, incoming[1..]);
    }
  }

  // ---------------------------------------------------------------- the read half

  class CdpReader {
    const maxFrame: nat
    var buf: Bytes
    var incoming: seq<Read>
    ghost var received: Bytes       // every byte read so far
    ghost var frames: seq<Bytes>    // every frame returned so far

    /** Nothing is lost, duplicated or split: the bytes read are the frames returned plus the buffer. */
    ghost predicate Valid()
      reads this
    {
      && received == Encode(frames) + buf
      && forall i :: 0 <= i < |frames| ==> IsFrame(frames[i], maxFrame)
    }

    constructor (maxFrame: nat)
      ensures Valid() && this.maxFrame == maxFrame && buf == [] && incoming == [] && frames == []
    {
      this.maxFrame := maxFrame;
      buf, incoming, received, frames := [], [], [], [];
    }

    method TakeFrame() returns (r: Result<Option<Bytes>, PipeError>)
      modifies this`buf
      ensures match Take(old(buf), maxFrame)
              case Got(frame, rest) => r == Ok(Some(frame)) && buf == rest
              case Oversize => r == Err(FrameTooLarge(maxFrame)) && buf == old(buf)
              case NeedMore => r == Ok(None) && buf == old(buf)
    {
      var pos := FirstNul(buf);
      if pos < |buf| {
        if pos > maxFrame {
          return Err(FrameTooLarge(maxFrame));
        }
        var frame := buf[..pos];
        buf := buf[pos..];
        buf := buf[1..];
        return Ok(Some(frame));
      }
      if |buf| > maxFrame {
        return Err(FrameTooLarge(maxFrame));
      }
      r := Ok(None);
    }

    /** One read into the buffer; `None` means bytes arrived. */
    method ReadBuf() returns (end: Option<Recv>)
      requires Valid()
      modifies this`buf, this`incoming, this`received
      ensures Valid() && old(received) <= received
      ensures |old(incoming)| > 0 ==> incoming == old(incoming)[1..]
      ensures end.None? <==> |old(incoming)| > 0 && old(incoming)[0].Data? && old(incoming)[0].bytes != []
      ensures end.None? ==> buf == old(buf) + old(incoming)[0].bytes
      ensures end.Some? ==> buf == old(buf) && end.value == Ending(old(incoming)) &&
                            (old(incoming) == [] ==> incoming == [])
    {
      if incoming == [] {
        return Some(Recv.Cancelled);
      }
      var read := incoming[0];
      incoming := incoming[1..];
      match read
      case BrokenPipe => end := Some(Error(Closed));
      case Failed => end := Some(Error(Io));
      case Data(bytes) =>
        if bytes == [] {
          return Some(Error(Closed));
        }
        assert Encode(frames) + buf + bytes == Encode(frames) + (buf + bytes);
        buf := buf + bytes;
        received := received + bytes;
        end := None;
    }

    /** `take_frame`, with the frame it yields entered in the history. */
    method NextFrame() returns (r: Result<Option<Bytes>, PipeError>)
      requires Valid()
      modifies this`buf, this`frames
      ensures Valid()
      ensures match Take(old(buf), maxFrame)
              case Got(frame, rest) => r == Ok(Some(frame)) && buf == rest && frames == old(frames) + [frame]
              case Oversize => r == Err(FrameTooLarge(maxFrame)) && buf == old(buf) && frames == old(frames)
              case NeedMore => r == Ok(None) && buf == old(buf) && frames == old(frames)
    {
      ghost var was := buf;
      r := TakeFrame();
      if r.Ok? && r.value.Some? {
        TakeKeepsBytes(frames, was, maxFrame);
        frames := frames + [r.value.value];
      }
    }

    /** `recv_raw` while `arrived` more reads complete. */
    method RecvRaw(arrived: seq<Read>) returns (r: Recv)
      requires Valid()
      modifies this
      ensures Valid()
      ensures Received(r, buf, incoming) == RecvOf(old(buf), old(incoming) + arrived, maxFrame)
      ensures frames == old(frames) + if r.Frame? then [r.bytes] else []
      ensures old(received) <= received
    {
      incoming := incoming + arrived;
      while true
        invariant Valid() && frames == old(frames) && old(received) <= received
        invariant RecvOf(buf, incoming, maxFrame) == RecvOf(old(buf), old(incoming) + arrived, maxFrame)
        decreases |incoming|
      {
        var taken := NextFrame();
        match taken
        case Err(e) => return Error(e);
        case Ok(Some(frame)) => return Frame(frame);
        case Ok(None) =>
        var end := ReadBuf();
        if end.Some? {
          return end.value;
        }
      }
    }
  }

  lemma {:induction false} FirstNulIs(s: Bytes, k: nat)
    requires k <= |s| && NUL !in s[..k] && (k < |s| ==> s[k] == NUL)
    ensures FirstNul(s) == k
  {
    if k > 0 {
      assert s[0] == s[..k][0];
      assert s[1..][..k - 1] == s[..k][1..];
      FirstNulIs(s[1..], k - 1);
    }
  }

  lemma FirstNulOf(f: Bytes, rest: Bytes)
    requires NUL !in f
    ensures FirstNul(f) == |f|
    ensures FirstNul(f + [NUL] + rest) == |f|
  {
    assert f[..|f|] == f && (f + [NUL] + rest)[..|f|] == f;
    FirstNulIs(f, |f|);
    FirstNulIs(f + [NUL] + rest, |f|);
  }

  lemma TakenIsFrame(buf: Bytes, max: nat)
    ensures match Take(buf, max)
            case Got(frame, rest) => IsFrame(frame, max) && buf == frame + [NUL] + rest
            case Oversize => FirstNul(buf) > max
            case NeedMore => IsFrame(buf, max)
  {
    assert buf[..|buf|] == buf;
  }

  lemma TakeOf(f: Bytes, rest: Bytes, max: nat)
    requires IsFrame(f, max)
    ensures Take(f + [NUL] + rest, max) == Got(f, rest)
  {
    FirstNulOf(f, rest);
    var s := f + [NUL] + rest;
    assert s[..|f|] == f && s[|f| + 1..] == rest;
  }

  lemma TakeKeepsBytes(frames: seq<Bytes>, buf: Bytes, max: nat)
    requires Take(buf, max).Got?
    ensures var t := Take(buf, max);
            IsFrame(t.frame, max) && Encode(frames + [t.frame]) + t.rest == Encode(frames) + buf
  {
    var t := Take(buf, max);
    TakenIsFrame(buf, max);
    EncodeSnoc(frames, t.frame);
    RegroupFour(Encode(frames), t.frame, [NUL], t.rest);
  }

  lemma RegroupFour(a: Bytes, b: Bytes, c: Bytes, d: Bytes)
    ensures a + (b + c + d) == a + b + c + d
  {
  }

  // ---------------------------------------------------------------- encoding

  lemma {:induction false} EncodeConcat(a: seq<Bytes>, b: seq<Bytes>)
    ensures Encode(a + b) == Encode(a) + Encode(b)
  {
    if a == [] {
      assert a + b == b;
    } else {
      assert (a + b)[1..] == a[1..] + b;
      EncodeConcat(a[1..], b);
    }
  }

  lemma ConsFront(a: seq<Bytes>, b: seq<Bytes>)
    requires a != []
    ensures [a[0]] + (a[1..] + b) == a + b
  {
  }

  lemma EncodeFront(frames: seq<Bytes>, buf: Bytes)
    requires frames != []
    ensures Encode(frames) + buf == frames[0] + [NUL] + (Encode(frames[1..]) + buf)
  {
  }

  lemma EncodeSnoc(a: seq<Bytes>, f: Bytes)
    ensures Encode(a + [f]) == Encode(a) + f + [NUL]
  {
    EncodeConcat(a, [f]);
    assert Encode([f]) == f + [NUL] + Encode([]);
  }

  // ---------------------------------------------------------------- decoding a whole stream

  datatype Decoded = Decoded(frames: seq<Bytes>, rest: Bytes, oversize: bool)

  function Decode(s: Bytes, max: nat): Decoded {
    match Take(s, max)
    case NeedMore => Decoded([], s, false)
    case Oversize => Decoded([], s, true)
    case Got(frame, rest) =>
      var d := Decode(rest, max);
      Decoded([frame] + d.frames, d.rest, d.oversize)
  }

  /**
   The decoding of a stream, said without the decoder: frames within the cap, then either an
   unterminated piece within the cap or a piece that exceeds it, terminated or not.
   */
  ghost predicate IsDecoding(s: Bytes, max: nat, d: Decoded) {
    && s == Encode(d.frames) + d.rest
    && (forall i :: 0 <= i < |d.frames| ==> IsFrame(d.frames[i], max))
    && (if d.oversize then FirstNul(d.rest) > max else IsFrame(d.rest, max))
  }

  lemma {:induction false} DecodeIsDecoding(s: Bytes, max: nat)
    ensures IsDecoding(s, max, Decode(s, max))
    decreases |s|
  {
    TakenIsFrame(s, max);
    match Take(s, max)
    case Got(frame, rest) =>
      DecodeIsDecoding(rest, max);
      var d := Decode(rest, max);
      assert ([frame] + d.frames)[1..] == d.frames;
      Regroup(frame + [NUL], Encode(d.frames), d.rest);
    case _ =>
  }

  lemma DecodeCons(f: Bytes, tail: Bytes, max: nat)
    requires IsFrame(f, max)
    ensures var d := Decode(tail, max);
            Decode(f + [NUL] + tail, max) == Decoded([f] + d.frames, d.rest, d.oversize)
  {
    TakeOf(f, tail, max);
  }

  /** Frames already taken off the front of a stream are the first frames of its decoding. */
  lemma {:induction false} DecodeAfter(frames: seq<Bytes>, buf: Bytes, max: nat)
    requires forall i :: 0 <= i < |frames| ==> IsFrame(frames[i], max)
    ensures var d := Decode(buf, max);
            Decode(Encode(frames) + buf, max) == Decoded(frames + d.frames, d.rest, d.oversize)
  {
    var d := Decode(buf, max);
    if frames == [] {
      assert Encode(frames) + buf == buf && frames + d.frames == d.frames;
    } else {
      DecodeAfter(frames[1..], buf, max);
      EncodeFront(frames, buf);
      DecodeCons(frames[0], Encode(frames[1..]) + buf, max);
      ConsFront(frames, d.frames);
    }
  }

  /** The description determines the decoding. */
  lemma DecodingIsUnique(s: Bytes, max: nat, d: Decoded)
    requires IsDecoding(s, max, d)
    ensures d == Decode(s, max)
  {
    DecodeAfter(d.frames, d.rest, max);
    if !d.oversize {
      FirstNulOf(d.rest, []);
    }
    assert Decode(d.rest, max) == Decoded([], d.rest, d.oversize);
    assert d.frames + [] == d.frames;
  }

  // ---------------------------------------------------------------- reading until it ends

  datatype All = All(frames: seq<Bytes>, end: Recv)

  /** `recv_raw` called again and again until it yields no frame. */
  function RecvAll(buf: Bytes, incoming: seq<Read>, max: nat): All
    decreases Weight(buf, incoming)
  {
    var r := RecvOf(buf, incoming, max);
    match r.recv
    case Frame(f) =>
      var rest := RecvAll(r.buf, r.incoming, max);
      All([f] + rest.frames, rest.end)
    case end => All([], end)
  }

  /** The bytes that arrive before the reads end. */
  function Delivered(incoming: seq<Read>): Bytes {
    if incoming == [] || !incoming[0].Data? || incoming[0].bytes == [] then []
    else incoming[0].bytes + Delivered(incoming[1..])
  }

  /** How the reads end once every byte before has been used. */
  function Ending(incoming: seq<Read>): Recv {
    if incoming == [] then Cancelled
    else
      match incoming[0]
      case BrokenPipe => Error(Closed)
      case Failed => Error(Io)
      case Data(bytes) => if bytes == [] then Error(Closed) else Ending(incoming[1..])
  }

  /** More bytes never change a frame, or an overrun, that is already there. */
  lemma TakeExtended(a: Bytes, b: Bytes, max: nat)
    ensures match Take(a, max)
            case Got(frame, rest) => Take(a + b, max) == Got(frame, rest + b)
            case Oversize => Take(a + b, max) == Oversize
            case NeedMore => true
  {
    var pos := FirstNul(a);
    if pos < |a| {
      assert a + b == a[..pos] + [NUL] + (a[pos + 1..] + b);
      FirstNulOf(a[..pos], a[pos + 1..] + b);
      assert (a + b)[..pos] == a[..pos] && (a + b)[pos + 1..] == a[pos + 1..] + b;
    } else {
      NulStaysBehind(a, b);
    }
  }

  lemma {:induction false} NulStaysBehind(a: Bytes, b: Bytes)
    requires FirstNul(a) == |a|
    ensures FirstNul(a + b) >= |a|
  {
    if a != [] {
      assert (a + b)[1..] == a[1..] + b;
      NulStaysBehind(a[1..], b);
    }
  }

  /**
   However a stream is cut into reads, decoding gives the frames of the whole stream before the
   first oversized one, and then the overrun if there is one, or the way the reads end.
   */
  lemma {:induction false} CutsDoNotMatter(buf: Bytes, incoming: seq<Read>, max: nat)
    ensures var d := Decode(buf + Delivered(incoming), max);
            RecvAll(buf, incoming, max)
            == All(d.frames, if d.oversize then Error(FrameTooLarge(max)) else Ending(incoming))
    decreases Weight(buf, incoming)
  {
    var all := buf + Delivered(incoming);
    TakeExtended(buf, Delivered(incoming), max);
    match Take(buf, max)
    case Got(frame, rest) =>
      CutsDoNotMatter(rest, incoming, max) by { WeightOfBuffer(buf, rest, incoming); }
    case Oversize =>
    case NeedMore =>
      if incoming == [] || !incoming[0].Data? || incoming[0].bytes == [] {
        assert all == buf;
      } else {
        var b := incoming[0].bytes;
        assert all == (buf + b) + Delivered(incoming[1..]);
        WeightOfBuffer(buf + b, buf, incoming[1..]);
        CutsDoNotMatter(buf + b, incoming[1..], max);
        assert RecvOf(buf, incoming, max) == RecvOf(buf + b, incoming[1..], max);
      }
  }

  /** Any list of frames within the cap survives the wire, however the wire is cut into reads. */
  lemma FramesRoundTrip(frames: seq<Bytes>, incoming: seq<Read>, max: nat)
    requires forall i :: 0 <= i < |frames| ==> IsFrame(frames[i], max)
    requires Delivered(incoming) == Encode(frames)
    ensures RecvAll([], incoming, max) == All(frames, Ending(incoming))
  {
    CutsDoNotMatter([], incoming, max);
    DecodeAfter(frames, [], max);
    assert Encode(frames) + [] == Encode(frames) && [] + Delivered(incoming) == Encode(frames);
    assert frames + Decode([], max).frames == frames;
  }

  lemma TakeOversize(big: Bytes, after: Bytes, max: nat)
    requires NUL !in big && |big| > max && (after == [] || after[0] == NUL)
    ensures Take(big + after, max) == Oversize
  {
    assert (big + after)[..|big|] == big;
    FirstNulIs(big + after, |big|);
  }

  /** A frame beyond the cap is refused at its own position, whether or not its end has arrived. */
  lemma OversizeIsCaughtInPlace(frames: seq<Bytes>, big: Bytes, after: Bytes, incoming: seq<Read>, max: nat)
    requires forall i :: 0 <= i < |frames| ==> IsFrame(frames[i], max)
    requires NUL !in big && |big| > max && (after == [] || after[0] == NUL)
    requires Delivered(incoming) == Encode(frames) + (big + after)
    ensures RecvAll([], incoming, max) == All(frames, Error(FrameTooLarge(max)))
  {
    CutsDoNotMatter([], incoming, max);
    DecodeAfter(frames, big + after, max);
    TakeOversize(big, after, max);
    assert [] + Delivered(incoming) == Delivered(incoming);
    assert frames + [] == frames;
  }

  // ---------------------------------------------------------------- what a reader has used

  /** All bytes of a list of reads. */
  function BytesOf(list: seq<Read>): Bytes {
    if list == [] then []
    else (if list[0].Data? then list[0].bytes else []) + BytesOf(list[1..])
  }

  lemma {:induction false} BytesOfConcat(a: seq<Read>, b: seq<Read>)
    ensures BytesOf(a + b) == BytesOf(a) + BytesOf(b)
  {
    if a == [] {
      assert a + b == b;
    } else {
      assert (a + b)[1..] == a[1..] + b;
      BytesOfConcat(a[1..], b);
    }
  }

  /**
   Of the reads `all`, those in `used` were taken in and `left` were not; the buffer and the bytes of
   `used` are the frames returned, terminated, and the buffer after.
   */
  ghost predicate Accounts(buf: Bytes, all: seq<Read>, used: seq<Read>, frames: seq<Bytes>, buf': Bytes,
                           left: seq<Read>)
  {
    all == used + left && buf + BytesOf(used) == Encode(frames) + buf'
  }

  lemma NothingUsed(buf: Bytes, all: seq<Read>)
    ensures Accounts(buf, all, [], [], buf, all)
  {
    assert buf + [] == buf && [] + buf == buf;
  }

  lemma FrameUsed(buf: Bytes, all: seq<Read>, max: nat)
    requires Take(buf, max).Got?
    ensures Accounts(buf, all, [], [Take(buf, max).frame], Take(buf, max).rest, all)
  {
    TakeKeepsBytes([], buf, max);
    assert [] + [Take(buf, max).frame] == [Take(buf, max).frame];
    assert buf + [] == buf && [] + buf == buf;
  }

  lemma BytesOfCons(read: Read, used: seq<Read>)
    ensures BytesOf([read] + used) == (if read.Data? then read.bytes else []) + BytesOf(used)
  {
    assert ([read] + used)[1..] == used;
  }

  lemma ReadUsed(buf: Bytes, read: Read, tail: seq<Read>, used: seq<Read>, frames: seq<Bytes>, buf': Bytes,
                 left: seq<Read>)
    requires read.Data? && Accounts(buf + read.bytes, tail, used, frames, buf', left)
    ensures Accounts(buf, [read] + tail, [read] + used, frames, buf', left)
  {
    BytesOfCons(read, used);
    Regroup(buf, read.bytes, BytesOf(used));
    assert [read] + tail == [read] + used + left;
  }

  lemma EndUsed(buf: Bytes, read: Read, tail: seq<Read>)
    requires !read.Data? || read.bytes == []
    ensures Accounts(buf, [read] + tail, [read], [], buf, tail)
  {
    BytesOfCons(read, []);
    assert [read] + [] == [read];
    assert buf + [] == buf && [] + buf == buf;
  }

  /** One `recv_raw` neither loses nor repeats a byte, whatever it comes to. */
  lemma {:induction false} RecvAccounts(buf: Bytes, incoming: seq<Read>, max: nat) returns (used: seq<Read>)
    ensures var r := RecvOf(buf, incoming, max);
            && Accounts(buf, incoming, used, if r.recv.Frame? then [r.recv.bytes] else [], r.buf, r.incoming)
            && (r.recv.Frame? ==> IsFrame(r.recv.bytes, max))
    decreases |incoming|
  {
    used := [];
    TakenIsFrame(buf, max);
    if Take(buf, max).Got? {
      FrameUsed(buf, incoming, max);
    } else if Take(buf, max).Oversize? || incoming == [] {
      NothingUsed(buf, incoming);
    } else {
      var read, tail := incoming[0], incoming[1..];
      assert incoming == [read] + tail;
      if read.Data? && read.bytes != [] {
        var more := RecvAccounts(buf + read.bytes, tail, max);
        var r := RecvOf(buf + read.bytes, tail, max);
        used := [read] + more;
        ReadUsed(buf, read, tail, more, if r.recv.Frame? then [r.recv.bytes] else [], r.buf, r.incoming);
      } else {
        used := [read];
        EndUsed(buf, read, tail);
      }
    }
  }

  /** Two stretches of reading, the second with reads that arrived later, make one. */
  lemma AccountsTwice(buf: Bytes, all: seq<Read>, used: seq<Read>, f: seq<Bytes>, mid: Bytes, left: seq<Read>,
                      more: seq<Read>, used': seq<Read>, g: seq<Bytes>, end: Bytes, left': seq<Read>)
    requires Accounts(buf, all, used, f, mid, left) && Accounts(mid, left + more, used', g, end, left')
    ensures Accounts(buf, all + more, used + used', f + g, end, left')
  {
    BytesOfConcat(used, used');
    EncodeConcat(f, g);
    assert all + more == used + (left + more);
    Regroup(buf, BytesOf(used), BytesOf(used'));
    Regroup(Encode(f), mid, BytesOf(used'));
    Regroup(Encode(f), Encode(g), end);
  }

  lemma Regroup(a: Bytes, b: Bytes, c: Bytes)
    ensures a + b + c == a + (b + c)
  {
  }

  // ---------------------------------------------------------------- how reading ends

  /** What one wait for a frame comes to when the buffer holds none: by its next read, or by being dropped. */
  lemma WaitEndsAs(buf: Bytes, rest: seq<Read>, max: nat)
    requires NUL !in buf && |buf| <= max
    ensures RecvOf(buf, [], max) == Received(Cancelled, buf, [])
    ensures RecvOf(buf, [BrokenPipe] + rest, max) == Received(Error(Closed), buf, rest)
    ensures RecvOf(buf, [Failed] + rest, max) == Received(Error(Io), buf, rest)
    ensures RecvOf(buf, [Data([])] + rest, max) == Received(Error(Closed), buf, rest)
  {
    assert buf[..|buf|] == buf;
    FirstNulIs(buf, |buf|);
    assert ([BrokenPipe] + rest)[1..] == rest && ([Failed] + rest)[1..] == rest && ([Data([])] + rest)[1..] == rest;
  }

  /** The wire form of a message is the message and one NUL byte. */
  lemma WireForm(f: Bytes, frames: seq<Bytes>)
    ensures Encode([]) == [] && Encode([f] + frames) == f + [0] + Encode(frames)
  {
    assert ([f] + frames)[1..] == frames;
  }
}
