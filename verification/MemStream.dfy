/**
 open_memstream: a growing buffer kept NUL-terminated where the caller is told the stream
 ends.  When that is inside the data, the byte stomped by the NUL is saved on the side.
 */
module MemStreams {
  import opened Arith

  newtype byte = x: int | 0 <= x < 256

  const INITIAL_SIZE: nat := 1024

  // ------------------------------------------------------------- a simple seekable file

  datatype File = File(data: seq<byte>, pos: nat)

  datatype Whence = Set | Current | End

  function Zeros(n: nat): (z: seq<byte>)
    ensures |z| == n && forall i :: 0 <= i < n ==> z[i] == 0
  {
    seq(n, _ => 0)
  }

  /** Writing past the end fills the gap with zeros; writing nothing does nothing. */
  function Write(f: File, bytes: seq<byte>): File {
    if bytes == [] then f
    else
      var base := if f.pos <= |f.data| then f.data[..f.pos] else f.data + Zeros(f.pos - |f.data|);
      var end := f.pos + |bytes|;
      File(base + bytes + (if end < |f.data| then f.data[end..] else []), end)
  }

  function Target(f: File, offset: int, whence: Whence): int {
    match whence
    case Set => offset
    case Current => f.pos + offset
    case End => |f.data| + offset
  }

  function Seek(f: File, offset: int, whence: Whence): File {
    if Target(f, offset, whence) < 0 then f else f.(pos := Target(f, offset, whence))
  }

  // --------------------------------------------------------------------- the stream

  /** size is what the caller sees as *sizep. */
  datatype Stream = Stream(buf: seq<byte>, eof: nat, offset: nat, saved: byte, size: nat)

  ghost predicate Shaped(s: Stream) {
    if s.buf == [] then s.eof == 0 else s.eof < |s.buf|
  }

  /** NUL at what the caller is told is the end, and at the true end. */
  ghost predicate Valid(s: Stream) {
    && Shaped(s) && s.size == Min(s.offset, s.eof)
    && (s.buf != [] ==> s.buf[s.size] == 0 && s.buf[s.eof] == 0)
  }

  /** The buffer with the saved byte put back. */
  function Contents(s: Stream): seq<byte>
    requires Shaped(s)
  {
    if s.offset < s.eof then s.buf[..s.eof][s.offset := s.saved] else s.buf[..s.eof]
  }

  function View(s: Stream): File
    requires Shaped(s)
  {
    File(Contents(s), s.offset)
  }

  function Overwrite(buf: seq<byte>, at: nat, bytes: seq<byte>): (r: seq<byte>)
    requires at + |bytes| <= |buf|
    ensures |r| == |buf|
    ensures forall i :: 0 <= i < |buf| ==> r[i] == if at <= i < at + |bytes| then bytes[i - at] else buf[i]
  {
    buf[..at] + bytes + buf[at + |bytes|..]
  }

  /** Enough room for n more bytes and the NUL. */
  ghost predicate Roomy(s: Stream, grown: seq<byte>, n: nat) {
    s.buf <= grown && s.offset + n < |grown| && s.eof < |grown|
  }

  /** The gap up to the position filled with zeros and the bytes copied in. */
  function Copied(s: Stream, grown: seq<byte>, bytes: seq<byte>): (r: seq<byte>)
    requires Roomy(s, grown, |bytes|)
    ensures |r| == |grown|
  {
    var filled := if s.eof < s.offset then Overwrite(grown, s.eof, Zeros(s.offset - s.eof)) else grown;
    Overwrite(filled, s.offset, bytes)
  }

  /** write_memstream once the buffer has grown. */
  function WriteStream(s: Stream, grown: seq<byte>, bytes: seq<byte>): Stream
    requires Roomy(s, grown, |bytes|)
  {
    var b, offset := Copied(s, grown, bytes), s.offset + |bytes|;
    if offset > s.eof then Stream(b[offset := 0], offset, offset, s.saved, offset)
    else Stream(b[offset := 0], s.eof, offset, b[offset], offset)
  }

  /** seek_memstream: -1 for a negative target. */
  function SeekStream(s: Stream, offset: int, whence: Whence): (Stream, int)
    requires Shaped(s)
  {
    var target := Target(View(s), offset, whence);
    if target < 0 then (s, -1)
    else
      var b := if s.offset < s.eof then s.buf[s.offset := s.saved] else s.buf;
      if target < s.eof then (Stream(b[target := 0], s.eof, target, b[target], target), target)
      else (Stream(b, s.eof, target, s.saved, s.eof), target)
  }

  // ------------------------------------------------------------------ it is that file

  lemma CopiedAt(s: Stream, grown: seq<byte>, bytes: seq<byte>, i: nat)
    requires Roomy(s, grown, |bytes|) && i < |grown|
    ensures Copied(s, grown, bytes)[i] ==
              if s.offset <= i < s.offset + |bytes| then bytes[i - s.offset]
              else if s.eof <= i < s.offset then 0
              else grown[i]
  {
    hide Overwrite, Zeros;
  }

  lemma WriteAt(f: File, bytes: seq<byte>, i: nat)
    requires bytes != []
    ensures var w := Write(f, bytes).data;
      && |w| == (if f.pos + |bytes| < |f.data| then |f.data| else f.pos + |bytes|)
      && (i < |w| ==> w[i] == if f.pos <= i < f.pos + |bytes| then bytes[i - f.pos]
                              else if |f.data| <= i then 0
                              else f.data[i])
  {
  }

  lemma ContentsAfter(s: Stream, grown: seq<byte>, bytes: seq<byte>)
    requires Valid(s) && Roomy(s, grown, |bytes|)
    ensures var t := WriteStream(s, grown, bytes);
      Valid(t) && Contents(t) == Copied(s, grown, bytes)[..t.eof]
  {
    hide Copied;
    CopiedAt(s, grown, bytes, s.eof);
  }

  /** A write of at least one byte does to the stream what it does to a file. */
  lemma WriteIsWrite(s: Stream, grown: seq<byte>, bytes: seq<byte>)
    requires Valid(s) && Roomy(s, grown, |bytes|) && bytes != []
    ensures var t := WriteStream(s, grown, bytes);
      Valid(t) && View(t) == Write(View(s), bytes)
  {
    hide Copied, Write;
    var t, w := WriteStream(s, grown, bytes), Write(View(s), bytes);
    ContentsAfter(s, grown, bytes);
    WriteAt(View(s), bytes, 0);
    forall i | 0 <= i < t.eof ensures Contents(t)[i] == w.data[i] {
      CopiedAt(s, grown, bytes, i);
      WriteAt(View(s), bytes, i);
    }
    WritePos(View(s), bytes);
  }

  lemma WritePos(f: File, bytes: seq<byte>)
    ensures Write(f, bytes).pos == f.pos + |bytes|
  {
  }

  /** What writing nothing does to the file behind the stream: the byte at the position is
      lost to the NUL, or the file grows up to the position. */
  function Stomped(f: File): File {
    f.(data := if f.pos < |f.data| then f.data[f.pos := 0] else f.data + Zeros(f.pos - |f.data|))
  }

  /** The position is at the end of the file, or inside it on a zero byte. */
  predicate StompHarmless(f: File) {
    f.pos == |f.data| || (f.pos < |f.data| && f.data[f.pos] == 0)
  }

  lemma StompedSame(f: File)
    ensures Stomped(f) == f <==> StompHarmless(f)
  {
    if f.pos < |f.data| {
      assert Stomped(f).data[f.pos] == 0;
      if f.data[f.pos] == 0 { assert Stomped(f).data == f.data; }
    }
  }

  /** Writing nothing keeps the file exactly when the position is at its end, or inside it on
      a zero byte. */
  lemma EmptyWrite(s: Stream, grown: seq<byte>)
    requires Valid(s) && Roomy(s, grown, 0)
    ensures var t := WriteStream(s, grown, []);
      && Valid(t) && View(t) == Stomped(View(s))
      && (View(t) == Write(View(s), []) <==> s.offset == s.eof || (s.offset < s.eof && s.saved == 0))
  {
    hide Copied;
    var t := WriteStream(s, grown, []);
    ContentsAfter(s, grown, []);
    forall i | 0 <= i < |grown| ensures Copied(s, grown, [])[i] == if s.eof <= i < s.offset then 0 else grown[i] {
      CopiedAt(s, grown, [], i);
    }
    StompedAt(s, t);
    StompedSame(View(s));
  }

  lemma StompedAt(s: Stream, t: Stream)
    requires Valid(s) && Shaped(t) && t.offset == s.offset && t.eof == Max(s.offset, s.eof) && s.eof <= |s.buf|
    requires t.offset < t.eof ==> t.saved == s.buf[t.offset]
    requires forall i :: 0 <= i < t.eof ==> t.buf[i] == if s.eof <= i then 0 else s.buf[i]
    ensures View(t) == Stomped(View(s))
  {
  }

  /** "ab", back to the start, and nothing written: the "a" is gone. */
  lemma EmptyWriteLoses()
    ensures var s := Stream([0, 98, 0], 2, 0, 97, 0);
      && Valid(s) && View(s) == File([97, 98], 0) && Roomy(s, s.buf, 0)
      && View(WriteStream(s, s.buf, [])) == File([0, 98], 0)
  {
    var s := Stream([0, 98, 0], 2, 0, 97, 0);
    assert Contents(s) == [97, 98];
    EmptyWrite(s, s.buf);
  }

  lemma SeekIsSeek(s: Stream, offset: int, whence: Whence)
    requires Valid(s)
    ensures var (t, r) := SeekStream(s, offset, whence);
      && Valid(t) && View(t) == Seek(View(s), offset, whence)
      && r == (if Target(View(s), offset, whence) < 0 then -1 else View(t).pos)
      && var target := if whence == Set then offset
                       else if whence == Current then View(s).pos + offset else |View(s).data| + offset;
         if target < 0 then r == -1 && t == s else r == target == View(t).pos
  {
    var t := SeekStream(s, offset, whence).0;
    assert Contents(t) == Contents(s);
  }

  // ----------------------------------------------------------------------------- runs

  datatype Op = Put(bytes: seq<byte>) | Move(offset: int, whence: Whence)

  /** What an operation is for. */
  function Should(f: File, op: Op): File {
    match op
    case Put(bytes) => Write(f, bytes)
    case Move(offset, whence) => Seek(f, offset, whence)
  }

  /** What it does, seen through the saved byte. */
  function Does(f: File, op: Op): File {
    if op == Put([]) then Stomped(f) else Should(f, op)
  }

  function OnFile(f: File, ops: seq<Op>): File
    decreases |ops|
  {
    if ops == [] then f else OnFile(Should(f, ops[0]), ops[1..])
  }

  function OnStream(f: File, ops: seq<Op>): File
    decreases |ops|
  {
    if ops == [] then f else OnStream(Does(f, ops[0]), ops[1..])
  }

  /** Nothing is written only at the end of the file or on a zero byte. */
  predicate Harmless(f: File, ops: seq<Op>)
    decreases |ops|
  {
    ops != [] ==> (ops[0] == Put([]) ==> StompHarmless(f)) && Harmless(Should(f, ops[0]), ops[1..])
  }

  lemma {:induction false} OnStreamSnoc(f: File, ops: seq<Op>, op: Op)
    ensures OnStream(f, ops + [op]) == Does(OnStream(f, ops), op)
    decreases |ops|
  {
    if ops == [] {
      assert (ops + [op])[1..] == [];
    } else {
      assert (ops + [op])[1..] == ops[1..] + [op];
      OnStreamSnoc(Does(f, ops[0]), ops[1..], op);
    }
  }

  lemma DoesSame(f: File, op: Op)
    ensures Does(f, op) == Should(f, op) <==> (op == Put([]) ==> StompHarmless(f))
  {
    StompedSame(f);
  }

  lemma {:induction false} HarmlessPrefix(f: File, ops: seq<Op>, k: nat)
    requires Harmless(f, ops) && k <= |ops|
    ensures OnStream(f, ops[..k]) == OnFile(f, ops[..k])
    decreases |ops|
  {
    if k > 0 {
      DoesSame(f, ops[0]);
      assert ops[..k][1..] == ops[1..][..k - 1];
      HarmlessPrefix(Should(f, ops[0]), ops[1..], k - 1);
    }
  }

  ghost predicate FollowsFile(f: File, ops: seq<Op>) {
    forall k :: 0 <= k <= |ops| ==> OnStream(f, ops[..k]) == OnFile(f, ops[..k])
  }

  /** The stream is the file all along a run exactly when the run is harmless. */
  lemma {:induction false} HarmlessExactly(f: File, ops: seq<Op>)
    ensures FollowsFile(f, ops) <==> Harmless(f, ops)
    decreases |ops|
  {
    if Harmless(f, ops) {
      forall k | 0 <= k <= |ops| ensures OnStream(f, ops[..k]) == OnFile(f, ops[..k]) {
        HarmlessPrefix(f, ops, k);
      }
    } else {
      DoesSame(f, ops[0]);
      var rest := ops[1..];
      HarmlessExactly(Should(f, ops[0]), rest);
      if FollowsFile(f, ops) {
        FirstFollows(f, ops);
        forall k | 0 <= k <= |rest|
          ensures OnStream(Should(f, ops[0]), rest[..k]) == OnFile(Should(f, ops[0]), rest[..k])
        {
          assert ops[..k + 1][1..] == rest[..k];
          assert OnStream(f, ops[..k + 1]) == OnFile(f, ops[..k + 1]);
        }
      }
    }
  }

  lemma FirstFollows(f: File, ops: seq<Op>)
    requires ops != [] && FollowsFile(f, ops)
    ensures Does(f, ops[0]) == Should(f, ops[0])
  {
    assert ops[..1] == [ops[0]] && ops[..1][1..] == [];
    assert OnStream(f, ops[..1]) == OnFile(f, ops[..1]);
    assert OnStream(f, [ops[0]]) == OnStream(Does(f, ops[0]), []);
  }

  // ------------------------------------------------------------------------- in place

  class MemStream {
    var buf: array<byte>
    var eof: nat
    var offset: nat
    var saved: byte
    var size: nat

    ghost function State(): Stream
      reads this, buf
    {
      Stream(buf[..], eof, offset, saved, size)
    }

    constructor ()
      ensures Valid(State()) && View(State()) == File([], 0) && fresh(buf)
    {
      buf := new byte[0];
      eof, offset, saved, size := 0, 0, 0, 0;
    }

    method EnsureCapacity(writeSize: nat)
      requires Shaped(State())
      modifies this`buf
      ensures Roomy(old(State()), buf[..], writeSize) && (buf == old(buf) || fresh(buf))
    {
      var needed := offset + writeSize + 1;
      if needed <= buf.Length { return; }
      var newSize: nat := if buf.Length == 0 then INITIAL_SIZE else buf.Length + buf.Length / 2;
      if newSize < needed { newSize := needed; }
      var newBuf := new byte[newSize];
      forall i | 0 <= i < buf.Length { newBuf[i] := buf[i]; }
      assert newBuf[..buf.Length] == buf[..];
      buf := newBuf;
    }

    method CopyIn(bytes: seq<byte>)
      requires Roomy(State(), buf[..], |bytes|)
      modifies buf
      ensures buf[..] == Copied(old(State()), old(buf[..]), bytes)
    {
      ghost var s, grown := State(), buf[..];
      if eof < offset {
        forall i | eof <= i < offset { buf[i] := 0; }
      }
      forall i | 0 <= i < |bytes| { buf[offset + i] := bytes[i]; }
      forall i | 0 <= i < |grown| ensures buf[i] == Copied(s, grown, bytes)[i] {
        CopiedAt(s, grown, bytes, i);
      }
    }

    method WriteBytes(bytes: seq<byte>) returns (written: nat)
      requires Valid(State())
      modifies this, buf
      ensures Valid(State()) && written == |bytes| && (buf == old(buf) || fresh(buf))
      ensures View(State()) == Does(old(View(State())), Put(bytes))
      ensures bytes == [] ==>
        (View(State()) == Write(old(View(State())), bytes) <==> old(offset == eof || (offset < eof && saved == 0)))
    {
      hide Copied, Write, Contents, Valid, Shaped, Overwrite, WriteStream, Stomped;
      ghost var s := State();
      ValidShaped(s);
      EnsureCapacity(|bytes|);
      ghost var grown := buf[..];
      if bytes == [] { EmptyWrite(s, grown); } else { WriteIsWrite(s, grown, bytes); }
      CopiedSame(s, State(), grown, bytes);
      CopyIn(bytes);
      Publish(s, grown, bytes);
      written := |bytes|;
    }

    /** Move the position past the bytes copied in and put the NUL there. */
    method Publish(ghost s: Stream, ghost grown: seq<byte>, bytes: seq<byte>)
      requires Roomy(s, grown, |bytes|) && buf[..] == Copied(s, grown, bytes)
      requires offset == s.offset && eof == s.eof && saved == s.saved
      modifies this, buf
      ensures State() == WriteStream(s, grown, bytes) && buf == old(buf)
    {
      hide Copied;
      ghost var b := buf[..];
      offset := offset + |bytes|;
      if offset > eof {
        eof := offset;
      } else {
        saved := buf[offset];
      }
      buf[offset] := 0;
      size := offset;
      assert buf[..] == b[offset := 0];
    }

    method SeekTo(off: int, whence: Whence) returns (r: int)
      requires Valid(State())
      modifies this, buf
      ensures Valid(State()) && buf == old(buf) && View(State()) == Seek(old(View(State())), off, whence)
      ensures r == if Target(old(View(State())), off, whence) < 0 then -1 else offset
    {
      ghost var s := State();
      SeekIsSeek(s, off, whence);
      var target := off;
      if whence == Current {
        target := target + offset;
      } else if whence == End {
        target := target + eof;
      }
      if target < 0 { return -1; }
      if offset < eof { buf[offset] := saved; }
      assert buf[..] == if s.offset < s.eof then s.buf[s.offset := s.saved] else s.buf;
      offset := target;
      ghost var b := buf[..];
      if offset < eof {
        saved := buf[offset];
        buf[offset] := 0;
        size := offset;
        assert buf[..] == b[offset := 0];
      } else {
        size := eof;
      }
      assert State() == SeekStream(s, off, whence).0;
      r := target;
    }
  }

  lemma ValidShaped(s: Stream)
    requires Valid(s)
    ensures Shaped(s)
  {
  }

  lemma CopiedSame(s: Stream, t: Stream, grown: seq<byte>, bytes: seq<byte>)
    requires Roomy(s, grown, |bytes|) && t == s.(buf := grown)
    ensures Roomy(t, grown, |bytes|) && Copied(t, grown, bytes) == Copied(s, grown, bytes)
  {
  }

  /** Any run of writes and seeks. The buffer with the saved byte put back is what the run makes
      of a file, an empty write stomping the byte at the position; without such a loss it is the
      zero-filling file itself. What the caller sees is that data with a NUL at the reported
      size, which is the position or the end of the file, whichever comes first. */
  method Replay(ops: seq<Op>) returns (s: Stream)
    ensures Valid(s) && View(s) == OnStream(File([], 0), ops)
    ensures Harmless(File([], 0), ops) ==> View(s) == OnFile(File([], 0), ops)
    ensures var f := OnStream(File([], 0), ops);
      && s.size == Min(f.pos, |f.data|)
      && (s.buf != [] ==> s.size < |s.buf| && s.buf[..s.size] == f.data[..s.size] && s.buf[s.size] == 0)
      && (s.buf == [] ==> f.data == [])
  {
    hide Write, Seek, Target, Stomped, Harmless, OnFile;
    var m := new MemStream();
    var k := 0;
    while k < |ops|
      invariant k <= |ops| && Valid(m.State()) && fresh(m) && fresh(m.buf)
      invariant View(m.State()) == OnStream(File([], 0), ops[..k])
    {
      assert ops[..k + 1] == ops[..k] + [ops[k]];
      OnStreamSnoc(File([], 0), ops[..k], ops[k]);
      match ops[k] {
        case Put(bytes) => var _ := m.WriteBytes(bytes);
        case Move(o, w) => var _ := m.SeekTo(o, w);
      }
      k := k + 1;
    }
    assert ops[..k] == ops;
    if Harmless(File([], 0), ops) { HarmlessPrefix(File([], 0), ops, |ops|); }
    s := Stream(m.buf[..], m.eof, m.offset, m.saved, m.size);
  }
}
