/**
 The ICO encoder: a directory whose entries point at the frames behind it. The reader follows the file
 format: sizes are one byte with 0 for 256, numbers are little-endian.
 */
module Ico {
  import opened Options

  type Byte = b: int | 0 <= b < 256
  type Bytes = seq<Byte>

  datatype Frame = Frame(size: int, data: Bytes)

  const MAX16: nat := 65536
  const MAX32: nat := 4294967296

  function Word16(v: int): (b: Bytes)
    requires 0 <= v < MAX16
    ensures |b| == 2
  {
    [v % 256, v / 256]
  }

  function Word32(v: int): (b: Bytes)
    requires 0 <= v < MAX32
    ensures |b| == 4
  {
    Word16(v % MAX16) + Word16(v / MAX16)
  }

  function Read16(s: Bytes, at: nat): nat
    requires at + 2 <= |s|
  {
    var low: int, high: int := s[at], s[at + 1];
    low + 256 * high
  }

  function Read32(s: Bytes, at: nat): nat
    requires at + 4 <= |s|
  {
    Read16(s, at) + MAX16 * Read16(s, at + 2)
  }

  /******* Encoding *******/

  function SizeByte(size: int): int {
    if size >= 256 then 0 else size
  }

  /** What one directory entry can hold; writing anything else throws. */
  predicate Writable(frame: Frame, offset: int) {
    0 <= frame.size && |frame.data| < MAX32 && 0 <= offset < MAX32
  }

  function Entry(frame: Frame, offset: int): (b: Bytes)
    requires Writable(frame, offset)
    ensures |b| == 16
  {
    [SizeByte(frame.size), SizeByte(frame.size), 0, 0] + Word16(1) + Word16(32) + Word32(|frame.data|) + Word32(offset)
  }

  predicate AllWritable(frames: seq<Frame>, offset: nat) {
    frames == [] || (Writable(frames[0], offset) && AllWritable(frames[1..], offset + |frames[0].data|))
  }

  function Entries(frames: seq<Frame>, offset: nat): (b: Bytes)
    requires AllWritable(frames, offset)
    ensures |b| == 16 * |frames|
  {
    if frames == [] then [] else Entry(frames[0], offset) + Entries(frames[1..], offset + |frames[0].data|)
  }

  function Data(frames: seq<Frame>): Bytes {
    if frames == [] then [] else frames[0].data + Data(frames[1..])
  }

  function Header(count: int): (b: Bytes)
    requires 0 <= count < MAX16
    ensures |b| == 6
  {
    Word16(0) + Word16(1) + Word16(count)
  }

  /** The file, or nothing when some number does not fit where it is written. */
  function Encode(frames: seq<Frame>): Option<Bytes> {
    var start := 6 + 16 * |frames|;
    if |frames| < MAX16 && AllWritable(frames, start) then
      Some(Header(|frames|) + Entries(frames, start) + Data(frames))
    else None
  }

  /******* The encoder itself *******/

  function Patched(s: Bytes, at: nat, b: Bytes): Bytes
    requires at + |b| <= |s|
  {
    s[..at] + b + s[at + |b|..]
  }

  method WriteUInt8(buffer: array<Byte>, value: int, at: nat) returns (ok: bool)
    requires at < buffer.Length
    modifies buffer
    ensures ok <==> 0 <= value < 256
    ensures buffer[..] == if ok then Patched(old(buffer[..]), at, [value]) else old(buffer[..])
  {
    ok := 0 <= value < 256;
    if ok {
      buffer[at] := value;
    }
  }

  method WriteUInt16LE(buffer: array<Byte>, value: int, at: nat) returns (ok: bool)
    requires at + 2 <= buffer.Length
    modifies buffer
    ensures ok <==> 0 <= value < MAX16
    ensures buffer[..] == if ok then Patched(old(buffer[..]), at, Word16(value)) else old(buffer[..])
  {
    ok := 0 <= value < MAX16;
    if ok {
      buffer[at] := value % 256;
      buffer[at + 1] := value / 256;
    }
  }

  method WriteUInt32LE(buffer: array<Byte>, value: int, at: nat) returns (ok: bool)
    requires at + 4 <= buffer.Length
    modifies buffer
    ensures ok <==> 0 <= value < MAX32
    ensures buffer[..] == if ok then Patched(old(buffer[..]), at, Word32(value)) else old(buffer[..])
  {
    ok := 0 <= value < MAX32;
    if ok {
      var low, high := value % MAX16, value / MAX16;
      buffer[at] := low % 256;
      buffer[at + 1] := low / 256;
      buffer[at + 2] := high % 256;
      buffer[at + 3] := high / 256;
    }
  }

  function Zeros(n: nat): (b: Bytes)
    ensures |b| == n
  {
    seq(n, _ => 0)
  }

  lemma PatchZeros(done: Bytes, n: nat, b: Bytes)
    requires |b| <= n
    ensures Patched(done + Zeros(n), |done|, b) == done + b + Zeros(n - |b|)
  {
  }

  method EncodeHeader(count: nat) returns (header: Option<Bytes>)
    ensures header == if count < MAX16 then Some(Header(count)) else None
  {
    var buffer := new Byte[6](_ => 0);
    assert buffer[..] == [] + Zeros(6);
    PatchZeros([], 6, Word16(0));
    var _ := WriteUInt16LE(buffer, 0, 0);
    PatchZeros(Word16(0), 4, Word16(1));
    assert [] + Word16(0) == Word16(0);
    var _ := WriteUInt16LE(buffer, 1, 2);
    if count < MAX16 {
      PatchZeros(Word16(0) + Word16(1), 2, Word16(count));
    }
    var ok := WriteUInt16LE(buffer, count, 4);
    header := if ok then Some(buffer[..]) else None;
    assert ok ==> buffer[..] == Header(count) + Zeros(0);
    assert ok ==> buffer[..] == Header(count);
  }

  /** Both size bytes; the two after them stay zero. */
  method WriteSizes(buffer: array<Byte>, size: int) returns (ok: bool)
    requires buffer.Length == 16 && buffer[..] == Zeros(16)
    modifies buffer
    ensures ok <==> 0 <= size
    ensures ok ==> buffer[..] == [SizeByte(size), SizeByte(size), 0, 0] + Zeros(12)
  {
    ok := WriteUInt8(buffer, SizeByte(size), 0);
    if ok {
      assert buffer[..] == [SizeByte(size)] + Zeros(15);
      ok := WriteUInt8(buffer, SizeByte(size), 1);
      assert buffer[..] == [SizeByte(size), SizeByte(size), 0, 0] + Zeros(12);
    }
  }

  method EncodeEntry(frame: Frame, offset: nat) returns (entry: Option<Bytes>)
    ensures entry == if Writable(frame, offset) then Some(Entry(frame, offset)) else None
  {
    var buffer := new Byte[16](_ => 0);
    assert buffer[..] == Zeros(16);
    var ok := WriteSizes(buffer, frame.size);
    if !ok {
      return None;
    }
    ghost var sizes: Bytes := [SizeByte(frame.size), SizeByte(frame.size), 0, 0];
    PatchZeros(sizes, 12, Word16(1));
    var _ := WriteUInt16LE(buffer, 1, 4);
    PatchZeros(sizes + Word16(1), 10, Word16(32));
    var _ := WriteUInt16LE(buffer, 32, 6);
    if |frame.data| < MAX32 {
      PatchZeros(sizes + Word16(1) + Word16(32), 8, Word32(|frame.data|));
    }
    ok := WriteUInt32LE(buffer, |frame.data|, 8);
    if !ok {
      return None;
    }
    if offset < MAX32 {
      PatchZeros(sizes + Word16(1) + Word16(32) + Word32(|frame.data|), 4, Word32(offset));
    }
    ok := WriteUInt32LE(buffer, offset, 12);
    if !ok {
      return None;
    }
    entry := Some(buffer[..]);
    assert buffer[..] == Entry(frame, offset) + Zeros(0);
    assert buffer[..] == Entry(frame, offset);
  }

  lemma {:induction false} FirstsWritable(frames: seq<Frame>, offset: nat, i: nat)
    requires i <= |frames|
    ensures AllWritable(frames, offset) <==>
              AllWritable(frames[..i], offset) && AllWritable(frames[i..], offset + Length(frames[..i]))
    ensures AllWritable(frames, offset) ==>
              Entries(frames, offset) ==
                  Entries(frames[..i], offset) + Entries(frames[i..], offset + Length(frames[..i]))
    decreases i
  {
    if i == 0 {
      assert frames[..0] == [] && frames[0..] == frames;
    } else {
      FirstsWritable(frames[1..], offset + |frames[0].data|, i - 1);
      assert frames[..i][1..] == frames[1..][..i - 1] && frames[1..][i - 1..] == frames[i..];
    }
  }

  /** How many bytes the frames' data take. */
  function Length(frames: seq<Frame>): nat {
    if frames == [] then 0 else |frames[0].data| + Length(frames[1..])
  }

  lemma {:induction false} LengthAppend(a: seq<Frame>, b: seq<Frame>)
    ensures Length(a + b) == Length(a) + Length(b) && Data(a + b) == Data(a) + Data(b)
    decreases a
  {
    if a == [] {
      assert a + b == b;
    } else {
      assert (a + b)[1..] == a[1..] + b;
      LengthAppend(a[1..], b);
    }
  }

  lemma {:induction false} DataLength(frames: seq<Frame>)
    ensures |Data(frames)| == Length(frames)
    decreases frames
  {
    if frames != [] {
      DataLength(frames[1..]);
    }
  }

  method EncodeIco(frames: seq<Frame>) returns (file: Option<Bytes>)
    ensures file == Encode(frames)
  {
    var header := EncodeHeader(|frames|);
    if header.None? {
      return None;
    }
    var entries, data := EncodeEntries(frames, 6 + |frames| * 16);
    file := if entries.Some? then Some(header.value + entries.value + data) else None;
  }

  /** Its loop, which carries the running offset from frame to frame. */
  method EncodeEntries(frames: seq<Frame>, start: nat) returns (entries: Option<Bytes>, data: Bytes)
    ensures entries == if AllWritable(frames, start) then Some(Entries(frames, start)) else None
    ensures entries.Some? ==> data == Data(frames)
  {
    var directory: Bytes, offset := [], start;
    data := [];
    var i := 0;
    while i < |frames|
      invariant i <= |frames|
      invariant offset == start + Length(frames[..i])
      invariant AllWritable(frames[..i], start) && directory == Entries(frames[..i], start)
      invariant data == Data(frames[..i])
    {
      var entry := EncodeEntry(frames[i], offset);
      OneMore(frames, start, i);
      if entry.None? {
        FirstsWritable(frames, start, i + 1);
        return None, [];
      }
      directory := directory + entry.value;
      data := data + frames[i].data;
      offset := offset + |frames[i].data|;
      i := i + 1;
    }
    assert frames[..i] == frames;
    entries := Some(directory);
  }

  lemma OneMore(frames: seq<Frame>, start: nat, i: nat)
    requires i < |frames| && AllWritable(frames[..i], start)
    ensures Length(frames[..i + 1]) == Length(frames[..i]) + |frames[i].data|
    ensures Data(frames[..i + 1]) == Data(frames[..i]) + frames[i].data
    ensures AllWritable(frames[..i + 1], start) <==> Writable(frames[i], start + Length(frames[..i]))
    ensures AllWritable(frames[..i + 1], start) ==>
              Entries(frames[..i + 1], start) ==
                  Entries(frames[..i], start) + Entry(frames[i], start + Length(frames[..i]))
  {
    var more := frames[..i + 1];
    assert more == frames[..i] + [frames[i]] && more[..i] == frames[..i] && more[i..] == [frames[i]];
    assert [frames[i]][1..] == [];
    LengthAppend(frames[..i], [frames[i]]);
    assert Data([frames[i]]) == frames[i].data + [] && frames[i].data + [] == frames[i].data;
    FirstsWritable(more, start, i);
    var offset := start + Length(frames[..i]);
    assert AllWritable([frames[i]], offset) <==> Writable(frames[i], offset);
    if Writable(frames[i], offset) {
      assert Entries([frames[i]], offset) == Entry(frames[i], offset) + [];
    }
  }

  /******* Reading *******/

  function ReadSize(b: Byte): int {
    if b == 0 then 256 else b
  }

  /** No palette, one colour plane, 32 bits a pixel. */
  predicate Describes32Bits(file: Bytes, at: nat)
    requires at + 16 <= |file|
  {
    file[at + 2] == 0 && file[at + 3] == 0 && Read16(file, at + 4) == 1 && Read16(file, at + 6) == 32
  }

  function ReadFrame(file: Bytes, at: nat): Option<Frame>
    requires at + 16 <= |file|
  {
    var length, offset := Read32(file, at + 8), Read32(file, at + 12);
    if file[at] != file[at + 1] || !Describes32Bits(file, at) || offset + length > |file| then None
    else Some(Frame(ReadSize(file[at]), file[offset..offset + length]))
  }

  function ReadFrames(file: Bytes, at: nat, count: nat): Option<seq<Frame>>
    decreases count
  {
    if count == 0 then Some([])
    else if at + 16 > |file| then None
    else
      match ReadFrame(file, at)
      case None => None
      case Some(frame) =>
        match ReadFrames(file, at + 16, count - 1)
        case None => None
        case Some(rest) => Some([frame] + rest)
  }

  function Decode(file: Bytes): Option<seq<Frame>> {
    if |file| < 6 || Read16(file, 0) != 0 || Read16(file, 2) != 1 then None
    else ReadFrames(file, 6, Read16(file, 4))
  }

  lemma Slice(s: Bytes, at: nat, n: nat, i: nat, j: nat)
    requires i <= j <= n && at + n <= |s|
    ensures s[at..at + n][i..j] == s[at + i..at + j]
  {
    var all := s[at..at + n];
    forall k | 0 <= k < j - i
      ensures all[i..j][k] == s[at + i..at + j][k]
    {
      assert all[i..j][k] == all[i + k] == s[at + i + k];
    }
  }

  lemma ReadWord16(v: int, s: Bytes, at: nat)
    requires 0 <= v < MAX16 && at + 2 <= |s| && s[at..at + 2] == Word16(v)
    ensures Read16(s, at) == v
  {
    assert s[at] == s[at..at + 2][0] && s[at + 1] == s[at..at + 2][1];
  }

  lemma ReadWord32(v: int, s: Bytes, at: nat)
    requires 0 <= v < MAX32 && at + 4 <= |s| && s[at..at + 4] == Word32(v)
    ensures Read32(s, at) == v
  {
    var w := s[at..at + 4];
    assert s[at..at + 2] == w[..2] == Word16(v % MAX16);
    assert s[at + 2..at + 4] == w[2..] == Word16(v / MAX16);
    ReadWord16(v % MAX16, s, at);
    ReadWord16(v / MAX16, s, at + 2);
  }

  /** A frame as it reads back: a size of 0 or above 256 becomes 256. */
  function ReadBack(frame: Frame): Frame
    requires 0 <= frame.size
  {
    frame.(size := if 1 <= frame.size <= 256 then frame.size else 256)
  }

  lemma EntryParts(frame: Frame, offset: int)
    requires Writable(frame, offset)
    ensures var e := Entry(frame, offset);
            && e[0] == e[1] == SizeByte(frame.size) && e[2] == e[3] == 0
            && e[4..6] == Word16(1) && e[6..8] == Word16(32) && e[8..12] == Word32(|frame.data|)
            && e[12..16] == Word32(offset)
  {
  }

  /** Reading an entry and the bytes it points at gives the frame. */
  lemma EntryReads(file: Bytes, at: nat, frame: Frame, offset: int)
    requires Writable(frame, offset) && at + 16 <= |file| && offset + |frame.data| <= |file|
    requires file[at..at + 16] == Entry(frame, offset) && file[offset..offset + |frame.data|] == frame.data
    ensures ReadFrame(file, at) == Some(ReadBack(frame))
  {
    var e := file[at..at + 16];
    EntryParts(frame, offset);
    assert file[at] == e[0] && file[at + 1] == e[1] && file[at + 2] == e[2] && file[at + 3] == e[3];
    Slice(file, at, 16, 4, 6);
    Slice(file, at, 16, 6, 8);
    ReadWord16(1, file, at + 4);
    ReadWord16(32, file, at + 6);
    Slice(file, at, 16, 8, 12);
    Slice(file, at, 16, 12, 16);
    ReadWord32(|frame.data|, file, at + 8);
    ReadWord32(offset, file, at + 12);
  }

  ghost predicate HoldsAt(file: Bytes, at: nat, b: Bytes) {
    at + |b| <= |file| && file[at..at + |b|] == b
  }

  lemma HoldsParts(file: Bytes, at: nat, a: Bytes, b: Bytes)
    requires HoldsAt(file, at, a + b)
    ensures HoldsAt(file, at, a) && HoldsAt(file, at + |a|, b)
  {
    var s := file[at..at + |a + b|];
    assert file[at..at + |a|] == s[..|a|] && file[at + |a|..at + |a| + |b|] == s[|a|..];
  }

  predicate SizesFit(frames: seq<Frame>) {
    forall i :: 0 <= i < |frames| ==> 0 <= frames[i].size
  }

  function AllReadBack(frames: seq<Frame>): (r: seq<Frame>)
    requires SizesFit(frames)
    ensures |r| == |frames|
    ensures forall i :: 0 <= i < |frames| ==> r[i] == ReadBack(frames[i])
  {
    seq(|frames|, i requires 0 <= i < |frames| => ReadBack(frames[i]))
  }

  lemma FramesRead(file: Bytes, at: nat, count: nat, first: Frame, rest: seq<Frame>)
    requires at + 16 <= |file| && ReadFrame(file, at) == Some(first) && ReadFrames(file, at + 16, count) == Some(rest)
    ensures ReadFrames(file, at, count + 1) == Some([first] + rest)
  {
  }

  lemma {:induction false} EntriesRead(file: Bytes, frames: seq<Frame>, at: nat, offset: nat)
    requires AllWritable(frames, offset) && SizesFit(frames)
    requires HoldsAt(file, at, Entries(frames, offset)) && HoldsAt(file, offset, Data(frames))
    ensures ReadFrames(file, at, |frames|) == Some(AllReadBack(frames))
    decreases frames
  {
    if frames != [] {
      var frame := frames[0];
      HoldsParts(file, at, Entry(frame, offset), Entries(frames[1..], offset + |frame.data|));
      HoldsParts(file, offset, frame.data, Data(frames[1..]));
      EntryReads(file, at, frame, offset);
      EntriesRead(file, frames[1..], at + 16, offset + |frame.data|);
      FramesRead(file, at, |frames| - 1, ReadBack(frame), AllReadBack(frames[1..]));
      assert AllReadBack(frames) == [ReadBack(frame)] + AllReadBack(frames[1..]);
    }
  }

  lemma {:induction false} WritableSizes(frames: seq<Frame>, offset: nat)
    requires AllWritable(frames, offset)
    ensures SizesFit(frames)
    decreases frames
  {
    if frames != [] {
      WritableSizes(frames[1..], offset + |frames[0].data|);
      assert frames == [frames[0]] + frames[1..];
    }
  }

  lemma HeaderReads(file: Bytes, count: nat)
    requires count < MAX16 && HoldsAt(file, 0, Header(count))
    ensures Read16(file, 0) == 0 && Read16(file, 2) == 1 && Read16(file, 4) == count
  {
    HoldsParts(file, 0, Word16(0) + Word16(1), Word16(count));
    HoldsParts(file, 0, Word16(0), Word16(1));
    ReadWord16(0, file, 0);
    ReadWord16(1, file, 2);
    ReadWord16(count, file, 4);
  }

  lemma DecodeEncoded(frames: seq<Frame>)
    requires Encode(frames).Some?
    ensures SizesFit(frames) && Decode(Encode(frames).value) == Some(AllReadBack(frames))
  {
    var start := 6 + 16 * |frames|;
    var file := Encode(frames).value;
    WritableSizes(frames, start);
    FileHolds(frames);
    HeaderReads(file, |frames|);
    EntriesRead(file, frames, 6, start);
  }

  /** Reading what was written gives every frame back just when every size is 1 to 256. */
  lemma IcoRoundTrip(frames: seq<Frame>)
    requires Encode(frames).Some?
    ensures Decode(Encode(frames).value) == Some(frames) <==>
              forall i :: 0 <= i < |frames| ==> 1 <= frames[i].size <= 256
  {
    DecodeEncoded(frames);
    var back := AllReadBack(frames);
    if back == frames {
      forall i | 0 <= i < |frames|
        ensures 1 <= frames[i].size <= 256
      {
        assert back[i] == ReadBack(frames[i]);
      }
    }
  }

  /******* Layout *******/

  /** Where the directory says the i-th frame's data begin. */
  function OffsetOf(file: Bytes, i: nat): nat
    requires 6 + 16 * i + 16 <= |file|
  {
    Read32(file, 6 + 16 * i + 12)
  }

  function LengthOf(file: Bytes, i: nat): nat
    requires 6 + 16 * i + 16 <= |file|
  {
    Read32(file, 6 + 16 * i + 8)
  }

  /** What an encoded file is made of. */
  ghost predicate IsFileOf(file: Bytes, frames: seq<Frame>) {
    var start := 6 + 16 * |frames|;
    && |frames| < MAX16 && AllWritable(frames, start)
    && |file| == start + Length(frames) && HoldsAt(file, 0, Header(|frames|))
    && HoldsAt(file, 6, Entries(frames, start)) && HoldsAt(file, start, Data(frames))
  }

  lemma FileHolds(frames: seq<Frame>)
    requires Encode(frames).Some?
    ensures IsFileOf(Encode(frames).value, frames)
  {
    var file := Encode(frames).value;
    var start := 6 + 16 * |frames|;
    DataLength(frames);
    assert HoldsAt(file, 0, file) by { assert file[0..|file|] == file; }
    HoldsParts(file, 0, Header(|frames|) + Entries(frames, start), Data(frames));
    HoldsParts(file, 0, Header(|frames|), Entries(frames, start));
  }

  lemma EntryAt(file: Bytes, frames: seq<Frame>, i: nat)
    requires IsFileOf(file, frames) && i < |frames|
    ensures 6 + 16 * i + 16 <= |file|
    ensures OffsetOf(file, i) == 6 + 16 * |frames| + Length(frames[..i]) && LengthOf(file, i) == |frames[i].data|
  {
    var start := 6 + 16 * |frames|;
    EntryHeld(file, 6, frames, start, i);
    EntryFields(file, 6 + 16 * i, frames[i], start + Length(frames[..i]));
  }

  lemma {:induction false} EntryHeld(file: Bytes, at: nat, frames: seq<Frame>, start: nat, i: nat)
    requires AllWritable(frames, start) && i < |frames| && HoldsAt(file, at, Entries(frames, start))
    ensures var offset := start + Length(frames[..i]);
            Writable(frames[i], offset) && HoldsAt(file, at + 16 * i, Entry(frames[i], offset))
    decreases i
  {
    var next := start + |frames[0].data|;
    HoldsParts(file, at, Entry(frames[0], start), Entries(frames[1..], next));
    if i > 0 {
      EntryHeld(file, at + 16, frames[1..], next, i - 1);
      assert frames[..i][1..] == frames[1..][..i - 1];
    }
  }

  lemma EntryFields(file: Bytes, at: nat, frame: Frame, offset: int)
    requires Writable(frame, offset) && HoldsAt(file, at, Entry(frame, offset))
    ensures Read32(file, at + 8) == |frame.data| && Read32(file, at + 12) == offset
  {
    var e := file[at..at + 16];
    EntryParts(frame, offset);
    Slice(file, at, 16, 8, 12);
    Slice(file, at, 16, 12, 16);
    ReadWord32(|frame.data|, file, at + 8);
    ReadWord32(offset, file, at + 12);
  }

  /**
   The data ranges the directory names follow one another without gap or overlap: the first begins where
   the directory ends, each next where the one before ends, and the last ends with the file.
   */
  lemma RangesCoverTheFile(frames: seq<Frame>, file: Bytes, i: nat)
    requires Encode(frames) == Some(file) && i < |frames|
    ensures 6 + 16 * |frames| <= |file|
    ensures i == 0 ==> OffsetOf(file, i) == 6 + 16 * |frames|
    ensures i + 1 < |frames| ==> OffsetOf(file, i + 1) == OffsetOf(file, i) + LengthOf(file, i)
    ensures i + 1 == |frames| ==> OffsetOf(file, i) + LengthOf(file, i) == |file|
  {
    FileHolds(frames);
    EntryAt(file, frames, i);
    LengthOneMore(frames, i);
    if i + 1 < |frames| {
      EntryAt(file, frames, i + 1);
    }
  }

  lemma LengthOneMore(frames: seq<Frame>, i: nat)
    requires i < |frames|
    ensures Length(frames[..i + 1]) == Length(frames[..i]) + |frames[i].data|
    ensures i + 1 == |frames| ==> Length(frames[..i + 1]) == Length(frames)
  {
    assert frames[..i + 1] == frames[..i] + [frames[i]];
    assert [frames[i]][1..] == [];
    LengthAppend(frames[..i], [frames[i]]);
    assert frames[..|frames|] == frames;
  }

  lemma {:induction false} RangesDisjoint(frames: seq<Frame>, file: Bytes, i: nat, j: nat)
    requires Encode(frames) == Some(file) && i < j < |frames|
    ensures 6 + 16 * |frames| <= |file| && OffsetOf(file, i) + LengthOf(file, i) <= OffsetOf(file, j)
    decreases j
  {
    RangesCoverTheFile(frames, file, j - 1);
    if i < j - 1 {
      RangesDisjoint(frames, file, i, j - 1);
    }
  }

  /** Encoding succeeds just when every number fits: the count, the sizes, and each length and offset. */
  lemma {:induction false} WritableIs(frames: seq<Frame>, offset: nat)
    ensures AllWritable(frames, offset) <==>
              forall i :: 0 <= i < |frames| ==>
                0 <= frames[i].size && |frames[i].data| < MAX32 && offset + Length(frames[..i]) < MAX32
    decreases frames
  {
    if frames != [] {
      var next := offset + |frames[0].data|;
      WritableIs(frames[1..], next);
      forall i | 0 < i < |frames|
        ensures offset + Length(frames[..i]) == next + Length(frames[1..][..i - 1]) && frames[i] == frames[1..][i - 1]
      {
        assert frames[..i][1..] == frames[1..][..i - 1];
      }
      assert frames[..0] == [];
    }
  }

  lemma EncodesWhen(frames: seq<Frame>)
    ensures Encode(frames).Some? <==>
              |frames| < MAX16 &&
              forall i :: 0 <= i < |frames| ==>
                0 <= frames[i].size && |frames[i].data| < MAX32 && 6 + 16 * |frames| + Length(frames[..i]) < MAX32
  {
    WritableIs(frames, 6 + 16 * |frames|);
  }
}
