/** Splitting Docker's multiplexed attach stream into stdout and stderr. */
module Demux {
  import opened Text

  newtype Byte = x: int | 0 <= x < 256

  /** A frame: its stream, three bytes that are not looked at, and its payload. */
  datatype Frame = Frame(stream: Byte, pad: seq<Byte>, payload: seq<Byte>)

  const LIMIT := 0x1_0000_0000

  predicate Framed(f: Frame) {
    |f.pad| == 3 && |f.payload| < LIMIT
  }

  /** A length as four bytes, most significant first. */
  function Size(n: nat): (r: seq<Byte>)
    requires n < LIMIT
  {
    [(n / 0x100_0000) as Byte, (n / 0x1_0000 % 0x100) as Byte, (n / 0x100 % 0x100) as Byte, (n % 0x100) as Byte]
  }

  /** binary.BigEndian.Uint32. */
  function Uint32(b: seq<Byte>): (n: nat)
    requires |b| == 4
  {
    b[0] as int * 0x100_0000 + b[1] as int * 0x1_0000 + b[2] as int * 0x100 + b[3] as int
  }

  lemma SizeReads(n: nat)
    requires n < LIMIT
    ensures Uint32(Size(n)) == n
  {
    Digits(n);
  }

  lemma Digits(n: nat)
    ensures n == n / 0x100_0000 * 0x100_0000 + n / 0x1_0000 % 0x100 * 0x1_0000 + n / 0x100 % 0x100 * 0x100 + n % 0x100
  {
    var c := n / 0x100;
    var d := c / 0x100;
    assert d == n / 0x1_0000 && d / 0x100 == n / 0x100_0000;
    assert n == c * 0x100 + n % 0x100 && c == d * 0x100 + c % 0x100 && d == d / 0x100 * 0x100 + d % 0x100;
  }

  function Encode(f: Frame): (r: seq<Byte>)
    requires Framed(f)
  {
    [f.stream] + f.pad + Size(|f.payload|) + f.payload
  }

  function EncodeAll(fs: seq<Frame>): (r: seq<Byte>)
    requires forall i :: 0 <= i < |fs| ==> Framed(fs[i])
  {
    if fs == [] then [] else Encode(fs[0]) + EncodeAll(fs[1..])
  }

  /** The payloads of stream 2 (err) or of all other streams, one after the other. */
  function Payloads(fs: seq<Frame>, err: bool): (r: seq<Byte>) {
    if fs == [] then [] else (if (fs[0].stream == 2) == err then fs[0].payload else []) + Payloads(fs[1..], err)
  }

  // ---------- the reader ----------

  /** How a read of a given number of bytes goes: the stream may end first, or break. */
  datatype Reading = Full | Eof | Broken

  /** A byte stream: what it delivers, and whether it then breaks rather than ends. */
  class Reader {
    const data: seq<Byte>
    const breaks: bool
    var pos: nat

    ghost predicate Valid()
      reads this
    {
      pos <= |data|
    }

    ghost function Rest(): seq<Byte>
      reads this
      requires Valid()
    {
      data[pos..]
    }

    constructor (data: seq<Byte>, breaks: bool)
      ensures Valid() && Rest() == data && this.breaks == breaks
    {
      this.data := data;
      this.breaks := breaks;
      pos := 0;
    }

    /** io.ReadFull: fills the buffer, or takes what is left. */
    method ReadFull(buf: array<Byte>) returns (r: Reading)
      requires Valid()
      modifies this, buf
      ensures Valid()
      ensures r.Full? <==> |old(Rest())| >= buf.Length
      ensures r.Broken? <==> !r.Full? && breaks
      ensures r.Full? ==> buf[..] == old(Rest())[..buf.Length] && Rest() == old(Rest())[buf.Length..]
      ensures !r.Full? ==> Rest() == []
    {
      if |data| - pos < buf.Length {
        pos := |data|;
        return if breaks then Broken else Eof;
      }
      for i := 0 to buf.Length
        invariant pos == old(pos) && buf[..i] == data[pos..pos + i]
        modifies buf
      {
        buf[i] := data[pos + i];
      }
      assert buf[..] == buf[..buf.Length] && data[pos..][..buf.Length] == data[pos..pos + buf.Length];
      pos := pos + buf.Length;
      return Full;
    }

    /** io.CopyN: n bytes, or what is left. */
    method CopyN(n: nat) returns (copied: seq<Byte>, ok: bool)
      requires Valid()
      modifies this
      ensures Valid()
      ensures ok <==> |old(Rest())| >= n
      ensures copied == (if ok then old(Rest())[..n] else old(Rest()))
      ensures Rest() == (if ok then old(Rest())[n..] else [])
    {
      if |data| - pos < n {
        copied := data[pos..];
        pos := |data|;
        return copied, false;
      }
      copied := data[pos..pos + n];
      pos := pos + n;
      return copied, true;
    }
  }

  // ---------- demultiplexing ----------

  datatype Split = Split(out: seq<Byte>, err: seq<Byte>, ok: bool)

  function To(stream: Byte, payload: seq<Byte>, s: Split): (r: Split) {
    if stream == 2 then s.(err := payload + s.err) else s.(out := payload + s.out)
  }

  /** What splitting a stream gives. */
  function SplitOf(data: seq<Byte>, breaks: bool): (r: Split)
    decreases |data|
  {
    if |data| < 8 then Split([], [], !breaks)
    else
      var n := Uint32(data[4..8]);
      if |data| - 8 < n then To(data[0], data[8..], Split([], [], false))
      else To(data[0], data[8..8 + n], SplitOf(data[8 + n..], breaks))
  }

  method Demux(r: Reader) returns (stdout: seq<Byte>, stderr: seq<Byte>, ok: bool)
    requires r.Valid()
    modifies r
    ensures Split(stdout, stderr, ok) == SplitOf(old(r.Rest()), r.breaks)
  {
    stdout, stderr := [], [];
    var header := new Byte[8];
    while true
      invariant r.Valid() && fresh(header) && header.Length == 8
      invariant SplitOf(old(r.Rest()), r.breaks) == After(stdout, stderr, SplitOf(r.Rest(), r.breaks))
      decreases |r.Rest()|
      modifies r, header
    {
      ghost var rest := r.Rest();
      var got := r.ReadFull(header);
      if got.Eof? {
        break;
      }
      if got.Broken? {
        return stdout, stderr, false;
      }
      assert header[..] == rest[..8];
      var size := Uint32(header[4..]);
      assert header[4..] == rest[4..8] && header[0] == rest[0];
      var copied, whole := r.CopyN(size);
      SplitStep(rest, size, copied, whole, r.Rest(), r.breaks, stdout, stderr);
      if header[0] == 2 {
        stderr := stderr + copied;
      } else {
        stdout := stdout + copied;
      }
      if !whole {
        return stdout, stderr, false;
      }
    }
    return stdout, stderr, true;
  }

  /** What was handed out so far, then the rest. */
  function After(out: seq<Byte>, err: seq<Byte>, s: Split): (r: Split) {
    Split(out + s.out, err + s.err, s.ok)
  }

  /** One frame more handed out. */
  lemma SplitStep(rest: seq<Byte>, size: nat, copied: seq<Byte>, whole: bool, left: seq<Byte>, breaks: bool,
                  out: seq<Byte>, err: seq<Byte>)
    requires |rest| >= 8 && size == Uint32(rest[4..8])
    requires whole <==> |rest| - 8 >= size
    requires copied == if whole then rest[8..][..size] else rest[8..]
    requires left == if whole then rest[8..][size..] else []
    ensures After(out, err, SplitOf(rest, breaks)) ==
            var o, e := if rest[0] == 2 then out else out + copied, if rest[0] == 2 then err + copied else err;
            if whole then After(o, e, SplitOf(left, breaks)) else Split(o, e, false)
  {
    if whole {
      assert rest[8..][..size] == rest[8..8 + size] && rest[8..][size..] == rest[8 + size..];
      Assoc(out, copied, SplitOf(left, breaks).out);
      Assoc(err, copied, SplitOf(left, breaks).err);
    } else {
      Units(copied);
      Units(out);
      Units(err);
    }
  }

  // ---------- what it means ----------

  /** A beginning of a frame: too short for a header, or for the payload that its header announces. */
  predicate Truncated(tail: seq<Byte>) {
    |tail| < 8 || |tail| - 8 < Uint32(tail[4..8])
  }

  lemma EncodedParts(f: Frame, more: seq<Byte>)
    requires Framed(f)
    ensures var data := Encode(f) + more;
            && |data| >= 8 && data[0] == f.stream && Uint32(data[4..8]) == |f.payload|
            && data[8..8 + |f.payload|] == f.payload && data[8 + |f.payload|..] == more
  {
    var data := Encode(f) + more;
    SizeReads(|f.payload|);
    assert data[4..8] == Size(|f.payload|);
  }

  lemma SplitFirst(f: Frame, more: seq<Byte>, breaks: bool)
    requires Framed(f)
    ensures SplitOf(Encode(f) + more, breaks) == To(f.stream, f.payload, SplitOf(more, breaks))
  {
    EncodedParts(f, more);
  }

  lemma {:induction false} SplitWhole(fs: seq<Frame>, tail: seq<Byte>, breaks: bool)
    requires forall i :: 0 <= i < |fs| ==> Framed(fs[i])
    ensures SplitOf(EncodeAll(fs) + tail, breaks)
            == After(Payloads(fs, false), Payloads(fs, true), SplitOf(tail, breaks))
    decreases |fs|
  {
    if fs == [] {
      assert EncodeAll(fs) + tail == tail;
      Units(SplitOf(tail, breaks).out);
      Units(SplitOf(tail, breaks).err);
    } else {
      var more, rest := EncodeAll(fs[1..]) + tail, SplitOf(tail, breaks);
      Assoc(Encode(fs[0]), EncodeAll(fs[1..]), tail);
      SplitFirst(fs[0], more, breaks);
      SplitWhole(fs[1..], tail, breaks);
      Assoc(fs[0].payload, Payloads(fs[1..], false), rest.out);
      Assoc(fs[0].payload, Payloads(fs[1..], true), rest.err);
      Units(Payloads(fs[1..], false));
      Units(Payloads(fs[1..], true));
    }
  }

  /** Demultiplexing inverts framing: whole frames give their payloads by stream. What follows them is
      dropped if it is less than a header, silently unless the stream broke there; a cut payload is handed
      out and reported. */
  lemma SplitFrames(fs: seq<Frame>, tail: seq<Byte>, breaks: bool)
    requires forall i :: 0 <= i < |fs| ==> Framed(fs[i])
    requires Truncated(tail)
    ensures var s := SplitOf(EncodeAll(fs) + tail, breaks);
            && (s.ok <==> |tail| < 8 && !breaks)
            && s.out == Payloads(fs, false) + (if |tail| >= 8 && tail[0] != 2 then tail[8..] else [])
            && s.err == Payloads(fs, true) + (if |tail| >= 8 && tail[0] == 2 then tail[8..] else [])
  {
    SplitWhole(fs, tail, breaks);
    if |tail| >= 8 {
      Units(tail[8..]);
    }
  }

  /** Every stream is whole frames followed by the beginning of one: the round trip covers all inputs. */
  lemma {:induction false} EveryStream(data: seq<Byte>) returns (fs: seq<Frame>, tail: seq<Byte>)
    ensures forall i :: 0 <= i < |fs| ==> Framed(fs[i])
    ensures Truncated(tail) && data == EncodeAll(fs) + tail
    decreases |data|
  {
    if Truncated(data) {
      fs, tail := [], data;
    } else {
      var n := Uint32(data[4..8]);
      var f := Frame(data[0], data[1..4], data[8..8 + n]);
      var more, rest := EveryStream(data[8 + n..]);
      fs, tail := [f] + more, rest;
      UintSizes(data[4..8]);
      FirstFrame(data, n);
      assert fs[1..] == more;
      Assoc(Encode(f), EncodeAll(more), rest);
    }
  }

  /** Header and payload, put together again. */
  lemma FirstFrame(data: seq<Byte>, n: nat)
    requires 8 + n <= |data| && n < LIMIT && Size(n) == data[4..8]
    ensures data == Encode(Frame(data[0], data[1..4], data[8..8 + n])) + data[8 + n..]
  {
    CutAt(data, 1, 4);
    CutAt(data, 4, 8);
    CutAt(data, 8, 8 + n);
    var last := data[8 + n..];
    assert data == [data[0]] + data[1..];
    assert data == [data[0]] + (data[1..4] + (data[4..8] + (data[8..8 + n] + last)));
    Assoc([data[0]], data[1..4], data[4..8] + (data[8..8 + n] + last));
    Assoc([data[0]] + data[1..4], data[4..8], data[8..8 + n] + last);
    Assoc([data[0]] + data[1..4] + data[4..8], data[8..8 + n], last);
  }

  lemma CutAt(data: seq<Byte>, a: nat, b: nat)
    requires a <= b <= |data|
    ensures data[a..] == data[a..b] + data[b..]
  {
  }

  lemma UintSizes(b: seq<Byte>)
    requires |b| == 4
    ensures Uint32(b) < LIMIT && Size(Uint32(b)) == b
  {
    BytesOf(b[0] as int, b[1] as int, b[2] as int, b[3] as int);
  }

  lemma BytesOf(b0: int, b1: int, b2: int, b3: int)
    requires 0 <= b0 < 256 && 0 <= b1 < 256 && 0 <= b2 < 256 && 0 <= b3 < 256
    ensures var n := b0 * 0x100_0000 + b1 * 0x1_0000 + b2 * 0x100 + b3;
            && 0 <= n < LIMIT && n / 0x100_0000 == b0 && n / 0x1_0000 % 0x100 == b1 && n / 0x100 % 0x100 == b2
                && n % 0x100 == b3
  {
    var n := b0 * 0x100_0000 + b1 * 0x1_0000 + b2 * 0x100 + b3;
    LowByte(b0, b1);
    LowByte(b0 * 0x100 + b1, b2);
    LowByte((b0 * 0x100 + b1) * 0x100 + b2, b3);
    assert n == ((b0 * 0x100 + b1) * 0x100 + b2) * 0x100 + b3;
    assert n / 0x1_0000 == n / 0x100 / 0x100 && n / 0x100_0000 == n / 0x100 / 0x100 / 0x100;
  }

  lemma LowByte(hi: int, lo: int)
    requires 0 <= hi && 0 <= lo < 256
    ensures (hi * 0x100 + lo) / 0x100 == hi && (hi * 0x100 + lo) % 0x100 == lo
  {
  }
}
