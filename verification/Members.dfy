/** The bounded reader of one member: chunks, a running checksum, and a verdict
    that callers ask for explicitly. */
module Members {
  import opened Support
  import opened Sequences
  import opened Checksums

  /** The member's checksum is judged before its folder's. */
  function Integrity(member: Bytes, expectedCrc: Option<bv32>, folderCrcMismatch: bool, encrypted: bool,
                     memberIndex: nat): Result<()> {
    if expectedCrc.Some? && Crc(member) != expectedCrc.value then
      Failure(if encrypted then WrongPasswordOrCorrupt else Checksum(Member, Some(memberIndex)))
    else if folderCrcMismatch then
      Failure(if encrypted then WrongPasswordOrCorrupt else Checksum(ChecksumScope.Folder, None))
    else Success(())
  }

  /** The verdict is good exactly if both checksums fit. A plain member is blamed before its
      folder; in an encrypted folder the password is. */
  lemma VerdictCases(member: Bytes, expectedCrc: Option<bv32>, folderCrcMismatch: bool, encrypted: bool,
                     memberIndex: nat)
    ensures
      var r := Integrity(member, expectedCrc, folderCrcMismatch, encrypted, memberIndex);
      var wrong := expectedCrc.Some? && Crc(member) != expectedCrc.value;
      && (r.Success? <==> !wrong && !folderCrcMismatch)
      && (r.Failure? && encrypted ==> r.error == WrongPasswordOrCorrupt)
      && (wrong && !encrypted ==> r == Failure(Checksum(Member, Some(memberIndex))))
      && (!wrong && folderCrcMismatch && !encrypted ==> r == Failure(Checksum(ChecksumScope.Folder, None)))
  {
    hide Crc;
  }

  function Smaller(a: nat, b: nat): nat {
    if a < b then a else b
  }

  class MemberReader {
    const data: Bytes
    const start: nat
    const end: nat
    var position: nat
    const expectedCrc: Option<bv32>
    const checksum: Crc32
    const folderCrcMismatch: bool
    const encrypted: bool
    const memberIndex: nat
    const control: ParseControl

    constructor (data: Bytes, start: nat, end: nat, expectedCrc: Option<bv32>, folderCrcMismatch: bool, encrypted: bool,
                 memberIndex: nat, control: ParseControl)
      requires start <= end <= |data| <= U64_MAX
      ensures Valid() && fresh(checksum) && this.control == control && position == 0
      ensures Bytes() == data[start..end]
      ensures Verdict() == Integrity(data[start..end], expectedCrc, folderCrcMismatch, encrypted, memberIndex)
    {
      this.data, this.start, this.end, position := data, start, end, 0;
      this.expectedCrc, this.folderCrcMismatch, this.encrypted := expectedCrc, folderCrcMismatch, encrypted;
      this.memberIndex, this.control := memberIndex, control;
      var crc := new Crc32();
      checksum := crc;
    }

    /** The member's bytes. */
    function Bytes(): Bytes
      requires start <= end <= |data|
    {
      data[start..end]
    }

    /** What `finish` decides when nothing interrupts it. */
    function Verdict(): Result<()>
      requires start <= end <= |data|
    {
      Integrity(Bytes(), expectedCrc, folderCrcMismatch, encrypted, memberIndex)
    }

    /** The checksum state is that of the prefix read so far. */
    ghost predicate Valid()
      reads this, checksum
    {
      && start <= end <= |data| <= U64_MAX
      && position <= |Bytes()|
      && checksum.state == Feed(INITIAL, Bytes()[..position])
    }

    /** Charges and checksums the next `count` bytes a chunk at a time. When it stops
        half-way the checksum has run ahead of the position. */
    method Absorb(count: nat) returns (r: Result<()>)
      requires Valid() && position + count <= |Bytes()|
      modifies this`position, checksum, control
      ensures r.Success? ==> Valid() && position == old(position) + count && control.Charged(count)
      ensures r.Failure? ==> Interrupted(r) && control.stopped
      ensures old(control.Ample(count)) ==> r.Success?
    {
      hide ByteStep, Feed;
      var source := data[start + position..start + position + count];
      Subslice(data, start, end, position, position + count);
      var done := 0;
      while done < count
        invariant 0 <= done <= count && control.Charged(done) && position == old(position)
        invariant checksum.state == Feed(INITIAL, Bytes()[..position + done])
      {
        var next := if count - done < CONTROL_CHUNK_SIZE then count else done + CONTROL_CHUNK_SIZE;
        var _ :- control.Checkpoint(next - done);
        checksum.Update(source[done..next]);
        Subslice(Bytes(), position, position + count, done, next);
        assert Bytes()[..position + next] == Bytes()[..position + done] + source[done..next];
        FeedSplit(INITIAL, Bytes()[..position + done], source[done..next]);
        done := next;
      }
      position := position + count;
      return Success(());
    }

    method ReadChunk(output: array<u8>) returns (r: Result<nat>)
      requires Valid()
      modifies this`position, checksum, control, output
      ensures r.Success? ==>
        && Valid() && r.value == Smaller(|Bytes()| - old(position), output.Length)
           && position == old(position) + r.value
        && output[..r.value] == Bytes()[old(position)..position] && output[r.value..] == old(output[..])[r.value..]
        && control.Charged(r.value)
      ensures r.Failure? ==> Interrupted(r) && control.stopped
      ensures old(control.Ample(|Bytes()| - position)) ==> r.Success?
    {
      hide Feed;
      var memberLength := end - start;
      if output.Length == 0 || position >= memberLength {
        var _ :- control.Checkpoint(0);
        assert output[0..] == output[..] && output[..0] == [];
        return Success(0);
      }
      var remaining := memberLength - position;
      var count := Smaller(remaining, output.Length);
      var source := data[start + position..start + position + count];
      Subslice(data, start, end, position, position + count);
      var _ :- Absorb(count);
      forall i | 0 <= i < count {
        output[i] := source[i];
      }
      assert output[..count] == source;
      return Success(count);
    }

    method ConsumeRemaining() returns (r: Result<()>)
      requires Valid()
      modifies this`position, checksum, control
      ensures r.Success? ==> Valid() && position == |Bytes()| && control.Charged(|Bytes()| - old(position))
      ensures r.Failure? ==> Interrupted(r) && control.stopped
      ensures old(control.Ample(|Bytes()| - position)) ==> r.Success?
    {
      hide Feed;
      var memberLength := end - start;
      while position < memberLength
        invariant Valid() && old(position) <= position && control.Charged(position - old(position))
        decreases memberLength - position
      {
        var remaining := memberLength - position;
        var count := Smaller(remaining, IO_CHUNK_SIZE);
        var _ :- Absorb(count);
      }
      return Success(());
    }

    method VerifyIntegrity() returns (r: Result<()>)
      requires Valid() && position == |Bytes()|
      ensures r == Verdict()
    {
      assert Bytes()[..position] == Bytes();
      if expectedCrc.Some? && checksum.Finalize() != expectedCrc.value {
        if encrypted {
          return Failure(WrongPasswordOrCorrupt);
        }
        return Failure(Checksum(Member, Some(memberIndex)));
      }
      if folderCrcMismatch {
        if encrypted {
          return Failure(WrongPasswordOrCorrupt);
        }
        return Failure(Checksum(ChecksumScope.Folder, None));
      }
      return Success(());
    }

    /** However much was read before, the verdict is that of the whole member. */
    method Finish() returns (r: Result<()>)
      requires Valid()
      modifies this`position, checksum, control
      ensures r == Verdict() || (Interrupted(r) && control.stopped)
      ensures r.Success? ==> control.Charged(|Bytes()| - old(position))
      ensures old(control.Ample(|Bytes()| - position)) ==> r == Verdict()
    {
      var _ :- ConsumeRemaining();
      r := VerifyIntegrity();
    }

    method IntoBytes() returns (r: Result<Bytes>)
      requires Valid()
      modifies this`position, checksum, control
      ensures r.Success? ==> r.value == Bytes() && Verdict().Success?
      ensures r.Failure? ==> (Interrupted(r) && control.stopped) || Verdict() == Failure(r.error)
      ensures old(control.Ample(|Bytes()| - position)) ==> (r.Success? <==> Verdict().Success?)
    {
      var _ :- ConsumeRemaining();
      var _ :- VerifyIntegrity();
      if start == 0 && end == |data| {
        return Success(data);
      }
      return Success(data[start..end]);
    }
  }

  /** Reads with buffers of the given sizes; after each success the chunks so far
      are a prefix of the member. */
  method ReadInChunks(reader: MemberReader, sizes: seq<nat>) returns (r: Result<seq<Bytes>>)
    requires reader.Valid() && reader.position == 0
    modifies reader`position, reader.checksum, reader.control
    ensures r.Success? ==>
      && reader.Valid() && |r.value| == |sizes|
      && Concat(r.value) == reader.Bytes()[..reader.position]
      && reader.checksum.state == Feed(INITIAL, Concat(r.value))
      && reader.control.Charged(reader.position)
    ensures r.Failure? ==> Interrupted(r) && reader.control.stopped
  {
    hide Feed;
    var chunks: seq<Bytes> := [];
    for k := 0 to |sizes|
      invariant reader.Valid() && |chunks| == k && Concat(chunks) == reader.Bytes()[..reader.position]
      invariant reader.control.Charged(reader.position)
    {
      ghost var before := reader.position;
      var buffer := new u8[sizes[k]](_ => 0);
      var count :- reader.ReadChunk(buffer);
      assert chunks + [buffer[..count]] != [] && (chunks + [buffer[..count]])[..k] == chunks;
      assert reader.Bytes()[..reader.position] == reader.Bytes()[..before] + buffer[..count];
      chunks := chunks + [buffer[..count]];
    }
    return Success(chunks);
  }
}
