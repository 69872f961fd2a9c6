/** Budgeted reads of the 7z header, each specified by a function of the bytes. */
module Reading {
  import opened Support
  import opened Bounded

  /** Nine units for every byte left, and for one read past the end. */
  ghost predicate Enough(reader: BoundedReader, control: ParseControl)
    reads reader, control
  {
    control.Ample(9 * (if reader.position <= |reader.bytes| then |reader.bytes| - reader.position + 1 else 1))
  }

  /** The answer the bytes dictate, unless the control stopped the read. */
  twostate predicate Follows<T>(reader: BoundedReader, control: ParseControl, new found: Result<Parsed<T>>,
                                new r: Result<T>)
    reads reader, control
  {
    && reader.Valid()
    && ((Interrupted(r) && control.stopped) || Answers(found, old(reader.position), reader.position, r))
    && (r.Success? ==> control.stopped == old(control.stopped))
  }

  /** The same, where a sufficient budget rules the interruption out. */
  twostate predicate Reads<T>(reader: BoundedReader, control: ParseControl, new found: Result<Parsed<T>>,
                              new r: Result<T>)
    reads reader, control
  {
    && Follows(reader, control, found, r)
    && (old(Enough(reader, control)) ==> !Interrupted(r) && (r.Success? ==> Enough(reader, control)))
  }

  method ReadU8(reader: BoundedReader, control: ParseControl) returns (r: Result<u8>)
    requires reader.Valid()
    modifies reader, control
    ensures Reads(reader, control, U8At(reader.bytes, old(reader.position)), r)
  {
    var _ :- control.Checkpoint(1);
    r := reader.ReadU8();
  }

  method ReadU32Le(reader: BoundedReader, control: ParseControl) returns (r: Result<u32>)
    requires reader.Valid()
    modifies reader, control
    ensures Reads(reader, control, U32At(reader.bytes, old(reader.position)), r)
  {
    hide LittleEndian;
    var _ :- control.Checkpoint(4);
    r := reader.ReadU32Le();
  }

  method ReadUint(reader: BoundedReader, control: ParseControl) returns (r: Result<u64>)
    requires reader.Valid()
    modifies reader, control
    ensures Reads(reader, control, UintAt(reader.bytes, old(reader.position)), r)
  {
    hide UintAt;
    var _ :- control.Checkpoint(9);
    r := reader.Read7zUint();
  }

  method ReadBytes(reader: BoundedReader, length: nat, control: ParseControl) returns (r: Result<Bytes>)
    requires reader.Valid() && |reader.bytes| <= U64_MAX
    modifies reader, control
    ensures Reads(reader, control, BytesAt(reader.bytes, old(reader.position), length), r)
  {
    var taken :- reader.ReadBytes(length);
    var _ :- control.ConsumeBytes(|taken|);
    return Success(taken);
  }

  // ----- Runs of integers, bits and digests.

  function Push<T>(before: Parsed<seq<T>>, next: Parsed<T>): Parsed<seq<T>> {
    Parsed(before.value + [next.value], next.end)
  }

  function UintsAt(bytes: Bytes, p: nat, count: nat): (r: Result<Parsed<seq<u64>>>)
    requires p <= |bytes|
    ensures r.Success? ==> p <= r.value.end <= |bytes| && |r.value.value| == count
    ensures r.Failure? ==> SyntaxFault(r.error)
  {
    if count == 0 then Success(Parsed([], p))
    else
      var before :- UintsAt(bytes, p, count - 1);
      var next :- UintAt(bytes, before.end);
      Success(Push(before, next))
  }

  /** Reading stops at the first failure, so longer runs fail alike. */
  lemma {:induction false} UintsFail(bytes: Bytes, p: nat, a: nat, b: nat)
    requires p <= |bytes| && a <= b && UintsAt(bytes, p, a).Failure?
    ensures UintsAt(bytes, p, b) == UintsAt(bytes, p, a)
    decreases b
  {
    if a < b {
      UintsFail(bytes, p, a, b - 1);
    }
  }

  method ReadUints(reader: BoundedReader, count: nat, control: ParseControl) returns (r: Result<seq<u64>>)
    requires reader.Valid()
    modifies reader, control
    ensures Reads(reader, control, UintsAt(reader.bytes, old(reader.position), count), r)
  {
    hide UintAt, SyntaxFault;
    SyntaxIsNoInterruption();
    ghost var start := reader.position;
    var values: seq<u64> := [];
    for i := 0 to count
      invariant reader.Valid() && UintsAt(reader.bytes, start, i) == Success(Parsed(values, reader.position))
      invariant control.stopped == old(control.stopped)
      invariant old(Enough(reader, control)) ==> Enough(reader, control)
    {
      var next := ReadUint(reader, control);
      if next.Failure? {
        if !Interruption(next.error) {
          UintsFail(reader.bytes, start, i + 1, count);
        }
        return Failure(next.error);
      }
      values := values + [next.value];
    }
    return Success(values);
  }
}
