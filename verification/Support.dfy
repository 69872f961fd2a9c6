/** Shared vocabulary of the model: results, errors, fixed-width integers,
    limits and the operation control (cancellation plus work budget). */
module Support {

  datatype Option<+T> = None | Some(value: T)

  datatype Result<+T> = Success(value: T) | Failure(error: Error) {
    predicate IsFailure() {
      Failure?
    }

    function PropagateFailure<U>(): Result<U>
      requires Failure?
    {
      Failure(error)
    }

    function Extract(): T
      requires Success?
    {
      value
    }
  }

  datatype LimitKind =
    | WorkUnits
    | DictionaryBytes
    | TotalOutputBytes
    | EntryOutputBytes
    | CoderPropertyBytes
    | CodersPerFolder
    | TotalCoders
    | TotalFolders
    | StreamsPerFolder
    | TotalStreams
    | Substreams
    | HeaderBytes
    | Files
    | HeaderProperties
    | RecursionDepth
    | KdfPower
    | NameBytesPerEntry
    | TotalNameBytes

  datatype ChecksumScope = PackedStream | Folder | Member

  /** Every rejection of the source, without its text: the detail stands for the
      message, and an exceeded limit drops the two numbers it reports. */
  datatype Error =
    | Format(detail: Detail)
    | LimitExceeded(limit: LimitKind)
    | UnsupportedFeature(feature: Feature)
    | UnsupportedMethod
    | Checksum(scope: ChecksumScope, member: Option<nat>)
    | WrongPasswordOrCorrupt
    | Cancelled
    | Codec(reason: nat)
    | Sink

  datatype Feature =
    | MultiOutputCoder
    | CoderUnknownUnpackedSize
    | UnknownPackedStreamSize
    | UnknownNonfinalSubstreamSize
    | UnknownPrecedingSubstreamSize
    | AlternativeCoderMethods
    | AntiItemExtraction
    | StreamlessDirectoryExtraction
    | LargeFileCpio

  datatype Detail =
    // bounded reader
    | TruncatedRange
    | Unconsumed
    // header syntax
    | ReservedCoderFlag
    | EmptyMethod
    | ZeroStreamCount
    | StreamCountOverflows
    | ZeroCoders
    | TotalOverflows
    | FewerInputsThanOutputs
    | NoPackedInput
    | UnexpectedIdentifier
    | SubstreamCountOverflows
    | ExplicitCountOverflows
    | DigestCountOverflows
    | ZeroPackedStreams
    | MissingFolder
    | ZeroFolders
    | ExternalIndexChanged
    | MissingUnpackSizes
    | SubstreamsWithoutUnpackInfo
    | FolderSourceMissing
    // stream validation
    | DictionaryAccountingOverflows
    | PortTotalsInconsistent
    | UnpackSizeCountInconsistent
    | RootSizeMissing
    | ExplicitSizesTooShort
    | SubstreamSumOverflows
    | SubstreamsExceedFolder
    | SubstreamCrcsTooShort
    | MissingPackSizes
    | PackSizeCountInconsistent
    | PackCrcCountInconsistent
    | PackRangeOverflows
    | PackOverlapsNextHeader
    | PackRangeOutsideArchive
    | PackWithoutUnpack
    | SubstreamsWithoutStreams
    | FolderCrcCountInconsistent
    | PackedTotalMismatch
    | AssignedPackedOverflows
    | SubstreamCountsInconsistent
    | ExplicitSizesUnused
    | SubstreamCrcsUnused
    | PackRangesOverlap
    // files
    | PropertyDuplicated
    | DummyNonzero
    | MemberCountInconsistent
    | FileStreamCountMismatch
    | EmptyStreamTooShort
    | EmptyFileTooShort
    | AntiTooShort
    | MappingTooShort
    | NamesTooShort
    | DetailsTooShort
    | FileVectorsUnused
    | NamePropertyChanged
    | NameBytesOverflow
    | DefinitionCountMismatch
    | DataIndexOutside
    // extraction
    | AllowanceOverflows
    | SubstreamSizesMismatch
    | SubstreamIndexOutside
    | MemberRangeOverflows
    | MemberRangeOutside
    | MemberIndexOutside
    | NoMainStreams
    | FolderIndexOutside
    | SubstreamsUnmapped
    | MappingOutOfOrder
    | FolderUnavailable
    | DeliveredOverflows
    // CPIO
    | CpioTruncated
    | CpioMagicInvalid
    | CpioFieldInvalid
    | CpioChecksumField
    | CpioNameInvalid
    | CpioPaddingNonzero
    | CpioCountOverflows
    | CpioTrailerData
    | CpioTrailerMissing
    | CpioTrailingNonzero
    | CpioEmpty
    // coder graph
    | PortCountOverflows
    | OwnerTotalsInconsistent
    | BindInputOutOfRange
    | BindInputDuplicated
    | BindOutputOutOfRange
    | BindOutputDuplicated
    | MultipleRoots
    | NoRoot
    | NoUnboundInput
    | PackedCountInconsistent
    | PackedOutOfRange
    | PackedDuplicated
    | PackedAlreadyBound
    | InputsNotPartitioned
    | GraphHasCycle
    // folder execution
    | CoderArity
    | CoderProperties
    | SingleInputCount
    | OutputSizeMismatch
    | DuplicateOutputBinding
    | PackedPopulatedTwice
    | PackedRangeTruncated
    | InputUnavailable
    | InputPopulatedTwice
    | RootPopulatedTwice
    | InputUnconsumed
    | RootUnavailable
    | MultipleRootStreams
    // ARJ bit stream
    | BitReadTooWide
    | BitStreamTruncated
    | BitArithmeticOverflows
    | MatchExceedsOutput
    | MatchBeforeOutput

  type u8 = x: int | 0 <= x < 0x100
  type u16 = x: int | 0 <= x < 0x1_0000
  type u32 = x: int | 0 <= x < 0x1_0000_0000
  type u64 = x: int | 0 <= x < 0x1_0000_0000_0000_0000

  const U64_MAX: int := 0xffff_ffff_ffff_ffff

  type Bytes = seq<u8>

  const CONTROL_CHUNK_SIZE: nat := 4096
  const IO_CHUNK_SIZE: nat := 8192

  /** The control an operation threads through its loops. The token is shared
      with other threads, so the moment it fires is an input: `polls` counts the
      checkpoints that still pass before it is seen set (None: never). */
  class ParseControl {
    var polls: Option<nat>
    var remaining: Option<u64>
    var consumed: u64
    /** True once a checkpoint has refused to go on. */
    ghost var stopped: bool

    constructor (polls: Option<nat>, remaining: Option<u64>)
      ensures this.polls == polls && this.remaining == remaining
      ensures consumed == 0 && !stopped
    {
      this.polls, this.remaining, this.consumed, this.stopped := polls, remaining, 0, false;
    }

    /** The work that can still be charged, cancellation aside. */
    ghost function Room(): int
      reads this
    {
      if remaining.Some? && remaining.value <= U64_MAX - consumed then remaining.value
      else U64_MAX - consumed
    }

    /** `units` more work will be granted: enough room, and nobody cancels. */
    ghost predicate Ample(units: nat)
      reads this
    {
      polls.None? && units <= Room()
    }

    /** Since the old state exactly `units` were charged and nothing was refused. */
    twostate predicate Charged(units: int)
      reads this
    {
      && consumed == old(consumed) + units
      && Room() == old(Room()) - units
      && polls.None? == old(polls.None?)
      && stopped == old(stopped)
    }

    /** What a checkpoint decides: a cancelled token goes before an exhausted budget, and
        only the polls left go down when the budget refuses. */
    twostate predicate Decided(units: int, new r: Result<()>)
      reads this
    {
      && polls == (if old(polls).Some? && old(polls).value > 0 then Some(old(polls).value - 1) else old(polls))
      && (old(polls) == Some(0) ==> r == Failure(Cancelled))
      && (old(polls) != Some(0) ==>
            var enough := (old(remaining).Some? ==> units <= old(remaining).value) && old(consumed) + units <= U64_MAX;
            r == if enough then Success(()) else Failure(LimitExceeded(WorkUnits)))
    }

    /** Checks the token, then charges atomically: a refused charge leaves the budget alone. */
    method Checkpoint(units: u64) returns (r: Result<()>)
      modifies this
      ensures Decided(units, r)
      ensures r.Success? ==> Charged(units)
      ensures r.Failure? ==> consumed == old(consumed) && remaining == old(remaining)
      ensures r.Failure? ==> stopped && Interruption(r.error)
      ensures old(Ample(units)) ==> r.Success?
    {
      if polls.Some? {
        if polls.value == 0 {
          stopped := true;
          return Failure(Cancelled);
        }
        polls := Some(polls.value - 1);
      }
      if (remaining.Some? && units > remaining.value) || consumed + units > U64_MAX {
        stopped := true;
        return Failure(LimitExceeded(WorkUnits));
      }
      if remaining.Some? {
        remaining := Some(remaining.value - units);
      }
      consumed := consumed + units;
      return Success(());
    }

    /** Charges a byte count chunk by chunk; an empty range only polls the token. */
    method ConsumeBytes(count: u64) returns (r: Result<()>)
      modifies this
      ensures r.Success? ==> Charged(count)
      ensures r.Failure? ==> stopped && Interruption(r.error)
      ensures old(Ample(count)) ==> r.Success?
    {
      if count == 0 {
        r := Checkpoint(0);
        return;
      }
      var done := 0;
      while done < count
        invariant 0 <= done <= count && Charged(done)
      {
        var size := if count - done < CONTROL_CHUNK_SIZE then count - done else CONTROL_CHUNK_SIZE;
        var _ :- Checkpoint(size);
        done := done + size;
      }
      return Success(());
    }
  }

  /** Charges the whole length first, then polls before each chunk it copies. */
  method CopyBytes(bytes: Bytes, control: ParseControl) returns (r: Result<Bytes>)
    requires |bytes| <= U64_MAX
    modifies control
    ensures r.Success? ==> r.value == bytes && control.Charged(|bytes|)
    ensures r.Failure? ==> Interrupted(r) && control.stopped
    ensures old(control.Ample(|bytes|)) ==> r.Success?
  {
    var _ :- control.Checkpoint(|bytes|);
    var copy: Bytes := [];
    while |copy| < |bytes|
      invariant copy <= bytes && control.Charged(|bytes|)
      decreases |bytes| - |copy|
    {
      var end := if |bytes| - |copy| < CONTROL_CHUNK_SIZE then |bytes| else |copy| + CONTROL_CHUNK_SIZE;
      var _ :- control.Checkpoint(0);
      copy := copy + bytes[|copy|..end];
    }
    return Success(copy);
  }

  /** The configured maxima, as far as the model uses them. */
  datatype Limits = Limits(
    maxDictionaryBytes: u64,
    maxTotalOutputBytes: u64,
    maxEntryOutputBytes: u64,
    maxCoderPropertyBytes: u64,
    maxCodersPerFolder: u64,
    maxTotalCoders: u64,
    maxFolders: u64,
    maxStreamsPerFolder: u64,
    maxTotalStreams: u64,
    maxSubstreams: u64,
    maxHeaderBytes: u64,
    maxFiles: u64,
    maxHeaderProperties: u64,
    maxRecursionDepth: u64,
    maxNameBytesPerEntry: u64,
    maxTotalNameBytes: u64)

  predicate Interruption(e: Error) {
    e == Cancelled || e == LimitExceeded(WorkUnits)
  }

  /** How header syntax is rejected, whatever a validator may find later. */
  predicate SyntaxFault(e: Error) {
    match e
    case Format(detail) => SyntaxDetail(detail)
    case LimitExceeded(limit) => !limit.WorkUnits?
    case UnsupportedFeature(_) => true
    case _ => false
  }

  predicate SyntaxDetail(d: Detail) {
    || d.TruncatedRange? || d.Unconsumed? || d.ReservedCoderFlag? || d.EmptyMethod? || d.ZeroStreamCount?
    || d.StreamCountOverflows? || d.ZeroCoders? || d.TotalOverflows? || d.FewerInputsThanOutputs? || d.NoPackedInput?
    || d.UnexpectedIdentifier? || d.SubstreamCountOverflows? || d.ZeroPackedStreams? || d.MissingFolder?
       || d.ZeroFolders?
    || d.ExternalIndexChanged? || d.MissingUnpackSizes? || d.SubstreamsWithoutUnpackInfo? || d.FolderSourceMissing?
  }

  lemma SyntaxIsNoInterruption()
    ensures forall e :: SyntaxFault(e) ==> !Interruption(e)
  {
  }

  predicate Interrupted<T>(r: Result<T>) {
    r.Failure? && Interruption(r.error)
  }

  function CheckLimit(value: nat, maximum: nat, limit: LimitKind): Result<()> {
    if value > maximum then Failure(LimitExceeded(limit)) else Success(())
  }
}
