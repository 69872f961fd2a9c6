# unpackio: the plan, its execution, and what it hands out

unpackio opens untrusted archives. This project models the part of it that turns a
7z header into a plan, runs the plan and delivers member bytes, together with three
self-contained codecs of the same repository: CRC-32, ARJ method 4 and CPIO. Codecs
that the library takes from elsewhere are one arbitrary pure function, a parameter
of every theorem.

Verify everything with `dafny verify dfyconfig.toml`.

Two results span the whole of it. `ValidatedArchives.OpenNextHeader`: from arbitrary
header bytes on, exactly the acceptable headers are accepted, and what is accepted is
all that extraction needs. `StoredHeaders.StoredArchiveOpens` and
`StoredHeaders.StoredFileReturned`: an archive of stored folders, put down by writers
that have the format's identifiers from nobody else, is opened, and every file comes
back with its metadata and its bytes.

How to read it, from the bytes to the members:

- `Support`, `Sequences`, `Numbers`: results, errors, limits, and the operation control. A
  cancellation that other threads may raise is an input (`polls`); `Charged` says
  exactly how much work was charged, `Ample` that budget and token allow an amount.
- `Bounded`, `Reading`, `FolderSyntax`, `SubstreamSyntax`, `StreamSyntax`,
  `HeaderSyntax`: the header syntax. Each parser is a reading loop proved equal to a
  function of the bytes.
- `FolderWriter`, `VectorWriter`, `StreamWriter`, `HeaderEncoding`, `HeaderWriter`:
  what those functions mean. Writers of every record, with the identifiers and weights
  written out again, that the parser inverts; `AcceptedHeaders`: the parser lets nothing
  else through, and only within the limits. `HeaderWriter` is the seed builder of the
  fuzz targets.
- `Scheduling`, `Graph`, `Folders`: the coder graph, accepted exactly when its ports
  are partitioned, its root is unique and its coder relation is acyclic.
- `FolderValidation`, `StreamValidation`, `Ranges`, `HeaderValidation`, `Names`,
  `FileDetails`, `FileMapping`, `NextHeaders`: semantic validation. Cursors that move
  over parsed vectors neither run out nor leave values over, streams do not overlap,
  files map onto substreams. Each validator accepts exactly what a predicate over the
  parsed record describes; what the parser accepts is all that validation asks of its
  input.
- `SectionMeaning`, `FileWriter`, `FileMeaning`, `FileRoundTrip`: what the validated
  sections and file lists say of the records, field by field and in numbers, and the
  file lists that writers put down.
- `Evaluation`, `Ports`, `Execution`: a folder means the recursive evaluation of its
  bindings; the executor over mutable port buffers computes exactly that.
- `Slicing`, `Members`, `Archives`, `RandomAccess`, `Sinks`, `Extraction`,
  `ValidatedArchives`: random access, the chunked reader and natural-order extraction,
  and their agreement. Natural order caps a later folder by the output still allowed,
  so agreement assumes codecs that a larger cap does not change (`Monotone`).
- `StoredArchives`, `StoredWriter`, `StoredRoundTrip`, `StoredHeaders`: stored archives
  from end to end. `KnowsCopy` says that the method tables know the Copy method.
- `Checksums`: table-driven CRC-32 against the bitwise definition (CRC-32 as in
  section 8 of RFC 1952), and the error bursts it detects; `CrcDivision`: that
  definition is polynomial division.
- `ArjBits`, `ArjFastest`: the bit reader, the prefix code and the sliding-window
  decoder of ARJ method 4, with the encoder they invert.
- `CpioFields`, `CpioHeaders`, `CpioEntries`, `CpioWriter`: the four CPIO layouts (odc
  is the cpio interchange format of the pax utility in IEEE Std 1003.1), with writers
  that the parser inverts.

Errors keep their kind, limit and meaning and drop their texts and numbers. Checks
that validation makes redundant are kept in the loops where the original has them;
that their errors are not among the results is part of the contracts.

## Model

| member | source | states |
|---|---|---|
| Support.ParseControl.Checkpoint | crates/unpackio/src/cancel.rs:89-115 | The token is asked first and its polls go down even when the budget then refuses; a granted charge is taken whole, a refused one leaves the budget as it was, and the outcome is exactly determined |
| Support.CopyBytes | crates/unpackio/src/parse_util.rs:104-116 | The copy equals the input and costs exactly its length, however often the token is polled |
| Bounded.BoundedReader.ReadBytes | crates/unpackio/src/bounded.rs:15-33 | Answers the bytes at the position and moves past them, or fails without moving |
| Bounded.BoundedReader.Read7zUint | crates/unpackio/src/bounded.rs:58-77 | The mask loop reads exactly the number the leading one bits announce, or reports truncation; no u64 overflow is possible |
| Bounded.PushUint | fuzz/fuzz_targets/support.rs:276-297 | The length search appends the canonical encoding of every u64 |
| Bounded.UintRoundTrip | fuzz/fuzz_targets/support.rs:276-297 | Reading inverts writing for every u64, wherever the encoding stands and whatever surrounds it |
| Bounded.WrittenIsShortest | crates/unpackio/src/bounded.rs:58-77 | No encoding the reader accepts for a value is shorter than the one the writer pushes |
| Bounded.UintMeaning | crates/unpackio/src/bounded.rs:58-77 | The nine lengths by the numbers: which first bytes announce how many more, and what they add above the little-endian rest |
| Bounded.LowFirst | crates/unpackio/src/bounded.rs:35-56 | Of a little-endian number the first byte counts once and what follows 256 times |
| Reading.ReadUints | crates/unpackio/src/raw.rs:313-324 | A run of integers is read left to right and stops at the first truncation; a sufficient budget rules out interruption |
| FolderSyntax.ParseCoder | crates/unpackio/src/raw.rs:366-416 | The coder record is what the bytes dictate: flag bits, method id, explicit or implied port counts, limited properties |
| FolderSyntax.CoderRefused | crates/unpackio/src/raw.rs:366-386 | First bytes from 0x80 on, from 0x40 on, and those with a zero low half are refused, each with its own error |
| FolderSyntax.ParseCoders | crates/unpackio/src/raw.rs:435-450 | The coder loop equals the prefix-by-prefix reading, with port sums that stay within u64 |
| FolderSyntax.ParseBinds | crates/unpackio/src/raw.rs:467-479 | Binding pairs are read in order, input before output |
| FolderSyntax.ParseFolder | crates/unpackio/src/raw.rs:418-509 | The folder record and the running coder and stream totals are a function of the bytes; success leaves one binding fewer than outputs and a packed input for every other input |
| FolderWriter.FolderRoundTrip | fuzz/fuzz_targets/support.rs:543-587 | Parsing the record the writer pushes, anywhere in a longer header and under ample limits, consumes it exactly and returns the same coders, bindings and packed inputs, if and only if every coder has inputs and outputs; a coder without either, which the writer accepts, is refused with the zero-count error |
| FolderWriter.PushFolder | fuzz/fuzz_targets/support.rs:543-587 | The pushing loops append exactly that record |
| FolderWriter.CoderRoundTrip | fuzz/fuzz_targets/support.rs:546-575 | Flag byte, id, port counts and properties of one coder read back as written when both counts are non-zero; otherwise the coder is refused |
| SubstreamSyntax.ParseBits | crates/unpackio/src/raw.rs:254-275 | The flags are those of the bit vector (see EightFlags for which bit is which), and exactly the bytes that hold them are consumed |
| SubstreamSyntax.EightFlags | crates/unpackio/src/raw.rs:254-275 | A byte is the sum of the eight flags read from it, weighing 128, 64, 32, 16, 8, 4, 2 and 1 in that order |
| VectorWriter.FlagsRoundTrip | crates/unpackio/src/raw.rs:254-275 | Flags packed with those weights read back at any position, whatever surrounds them |
| VectorWriter.DigestsRoundTrip | crates/unpackio/src/raw.rs:278-311 | A written digest vector reads back at any position, whichever digests are undefined |
| SubstreamSyntax.ParseDigests | crates/unpackio/src/raw.rs:278-311 | One optional digest a definition bit, read only where the bit is set |
| SubstreamSyntax.AddUpCounts | crates/unpackio/src/raw.rs:612-628 | Fails exactly when the substream total exceeds u64; the explicit-size total can then not overflow |
| SubstreamSyntax.CountDigests | crates/unpackio/src/raw.rs:639-650 | Never fails: digests number at most the substreams, whose total fits |
| SubstreamSyntax.ParseSubstreamsInfo | crates/unpackio/src/raw.rs:587-668 | The record is a function of the bytes, and its vectors have the lengths the counts call for |
| StreamSyntax.ParsedFolderCounted | crates/unpackio/src/raw.rs:439-460 | The declared port totals of a parsed folder are the sums over its coders |
| StreamSyntax.ParseFolders | crates/unpackio/src/raw.rs:511-526 | The folder loop equals the reading record by record, with the totals carried from one to the next |
| StreamSyntax.ParsePackInfo | crates/unpackio/src/raw.rs:326-364 | PackInfo is what the bytes dictate, and its size and digest vectors are as long as its stream count |
| StreamSyntax.ParseUnpackInfo | crates/unpackio/src/raw.rs:528-584 | UnpackInfo is what the bytes dictate, its folders inline or in an external stream used to the last byte; every folder has consistent counts and one size an output |
| StreamSyntax.ParseStreamsInfo | crates/unpackio/src/raw.rs:670-723 | StreamsInfo and all running totals are what the bytes dictate, all vector lengths agree, and every length fits a u64 |
| StreamSyntax.CountedIsStored | crates/unpackio/src/raw.rs:670-723 | What the parser accepts is all the validator asks of its input |
| StreamWriter.FolderReads | crates/unpackio/src/raw.rs:418-509 | Every folder record a parser can return has a written form that reads back to it, with the totals brought forward |
| StreamWriter.PackReads | crates/unpackio/src/raw.rs:326-364 | PackInfo, with or without sizes and digests, reads back from its written form |
| StreamWriter.UnpackReads | crates/unpackio/src/raw.rs:528-584 | UnpackInfo with any number of folders, inline or in an external stream, reads back from its written form |
| StreamWriter.SubstreamsRead | crates/unpackio/src/raw.rs:587-668 | SubStreamsInfo reads back from its written form, counts of one each left out |
| StreamWriter.StreamsRead | crates/unpackio/src/raw.rs:670-723 | A whole streams section, any part of it absent, reads back from its written form exactly and brings the totals forward by its folders, coders, ports, packed streams and substreams |
| StreamWriter.PendingReads | crates/unpackio/src/raw.rs:528-584 | At folder records in a stream not decoded yet the parser stops and names that stream |
| StreamWriter.OtherStreamRefused | crates/unpackio/src/raw.rs:528-584 | Folder records in another stream than the one asked for, or with bytes behind them, are refused |
| AcceptedHeaders.StreamsLetThrough | crates/unpackio/src/raw.rs:142-216 | Whatever the bytes, an accepted section is one the writer can put down, keeps every folder limit, and moves the totals by exactly what it holds and never beyond their limits |
| HeaderSyntax.ParsePropertyList | crates/unpackio/src/raw.rs:725-749 | The property loop equals the reading up to the end identifier, with the running property total |
| HeaderSyntax.ParseHeaderBody | crates/unpackio/src/raw.rs:763-829 | The header body is what the bytes dictate, section by section; a header whose folders are in an undecoded stream stays pending |
| HeaderSyntax.ParseNextHeader | crates/unpackio/src/raw.rs:831-889 | Any header bytes are parsed to what they dictate, used to the last byte unless pending; whatever is accepted has agreeing lengths, and every rejection is a syntax error, an exceeded limit or an interruption |
| HeaderEncoding.ListReads | crates/unpackio/src/raw.rs:725-749 | Any property list reads back from its written form |
| HeaderEncoding.WrittenHeaderParses | crates/unpackio/src/raw.rs:763-829 | Any header (archive properties, additional and main streams, files, each optional) parses from its written form to its last byte, wherever the main folder records stand, if it keeps the limits; with bytes behind it it is refused as unconsumed |
| HeaderEncoding.WrittenEncodedHeaderParses | crates/unpackio/src/raw.rs:831-860 | So does any encoded header |
| HeaderEncoding.ParsedInTwoPasses | crates/unpackio/src/raw.rs:862-889 | With the folder records in an additional stream the same bytes first parse to a pending header that names the stream, and with that stream to the whole header |
| HeaderEncoding.AcceptedIsHeld | crates/unpackio/src/raw.rs:831-889 | Whatever the bytes, an accepted next header can be written down again and keeps every limit |
| HeaderEncoding.CanonicalForm | crates/unpackio/src/raw.rs:831-889 | Every accepted plain or encoded header has a canonical form that parses to the same record |
| HeaderWriter.HeaderRoundTrip | fuzz/fuzz_targets/support.rs:526-603 | Under ample limits a header the builder writes (packed streams, folder, sizes, digest, file list) parses, to the last byte, to exactly the record it was built from, if and only if every coder has inputs and outputs; otherwise it is refused with the zero-count error |
| HeaderWriter.DrainRejected | fuzz/fuzz_targets/support.rs:497-513 | A concrete seed the builder writes and the parser refuses: its second coder has no output |
| FolderSyntax.FolderHasPorts | crates/unpackio/src/raw.rs:387-396 | Whatever the limits, no parsed folder has a coder without inputs or without outputs |
| HeaderWriter.BuildHeader | fuzz/fuzz_targets/support.rs:485-603 | The builder writes exactly that header, and refuses exactly the seeds it cannot write |
| Graph.ListOwners | crates/unpackio/src/graph.rs:157-176 | Every port gets the coder whose interval it lies in, at a cost of one unit a port |
| Graph.ValidateBindPair | crates/unpackio/src/graph.rs:36-64 | A pair is accepted exactly when both ports are in range and unused, and marks them |
| Graph.ValidateBinds | crates/unpackio/src/graph.rs:178-190 | Accepts exactly the injective, in-range binding lists; afterwards the flags say which ports are bound |
| Graph.FindRoot | crates/unpackio/src/graph.rs:192-205 | Finds the single unused output, or tells none from several |
| Graph.CheckPacked | crates/unpackio/src/graph.rs:229-259 | Accepts exactly the duplicate-free lists that complement the bound inputs |
| Graph.OneRootLeft | crates/unpackio/src/graph.rs:178-219 | With one binding fewer than outputs, counting alone leaves exactly one root and some unbound input |
| Graph.InduceEdges | crates/unpackio/src/graph.rs:73-96 | The coder relation and its indegrees, self-loops and parallel edges included |
| Graph.ValidateFolderGraph | crates/unpackio/src/graph.rs:140-273 | Accepts exactly the acceptable graphs; success costs exactly 2 ports + coders (1 + bindings); on parsed counts the errors about totals, roots and partition cannot occur |
| Graph.ValidMeansAcceptable | crates/unpackio/src/graph.rs:140-273 | An accepted graph has an acyclic coder relation |
| Graph.OwnerInterval | crates/unpackio/src/graph.rs:28-34 | A port belongs to a coder exactly when it lies in that coder's interval |
| Scheduling.Schedule | crates/unpackio/src/graph.rs:98-137 | The queue loop succeeds exactly when the relation is acyclic, with a permutation that puts every source before its destinations, for coders (1 + edges) units |
| Scheduling.OrderedMeansAcyclic | crates/unpackio/src/graph.rs:98-137 | A topological order excludes every closed walk |
| Scheduling.StuckMeansCyclic | crates/unpackio/src/graph.rs:133-135 | If the queue drains early, the coders left over contain a closed walk |
| Scheduling.ReleaseCoder | crates/unpackio/src/graph.rs:108-132 | Taking a coder lowers exactly the indegrees its edges contribute to and queues exactly those that reach zero |
| Folders.BindingsMatch | crates/unpackio/src/graph.rs:178-190 | On injective bindings the source of an input and the destination of an output are inverse to each other |
| Folders.SourceEarlier | crates/unpackio/src/execute.rs:464-554 | A bound input's source coder runs before the coder that owns the input |
| Evaluation.ScheduleIrrelevant | crates/unpackio/src/execute.rs:464-554 | Any topological order of the same folder gives the same bytes |
| Evaluation.LargerCap | crates/unpackio/src/execute.rs:513-526 | With monotone codecs a folder decoded under one root cap decodes alike under a larger one |
| Evaluation.TreeIntoRoot | crates/unpackio/src/graph.rs:178-205 | From every coder the bindings lead to the root in fewer steps than there are coders |
| Evaluation.FedExactlyOnce | crates/unpackio/src/graph.rs:207-259 | Every input port is fed by exactly one binding or exactly one packed stream |
| Evaluation.FailureReachesRoot | crates/unpackio/src/execute.rs:464-554 | A coder without an output leaves the folder without a value |
| Evaluation.RegisteredCoderFails | crates/unpackio/src/execute.rs:206-332 | A registered coder fails only through its codec, its declared size, an unknown size it does not permit, or the cap |
| Evaluation.RegisteredExactly | crates/unpackio/src/execute.rs:87-170 | Which coders are registered: one output, four inputs for BCJ2 and one for the others, and properties of the method's length and range |
| Evaluation.CopyReturnsInput | crates/unpackio/src/execute.rs:206-232 | A registered Copy coder succeeds exactly when its input fits the cap and the declared size, and then returns that input |
| Evaluation.CodecReturned | crates/unpackio/src/execute.rs:206-332 | Any other coder succeeds with some bytes exactly when its codec decodes to them from the same inputs, size and cap, they fit both, an unknown size is permitted and a filter's input fits |
| Evaluation.BoundInput | crates/unpackio/src/execute.rs:464-554 | A bound input receives what the output bound to it evaluates to |
| Evaluation.PackedInput | crates/unpackio/src/execute.rs:358-413 | The k-th packed input receives the k-th packed stream |
| Evaluation.InputsInOrder | crates/unpackio/src/execute.rs:478-500 | A coder's inputs are handed over in the order of its ports |
| Execution.FetchStream | crates/unpackio/src/execute.rs:365-397 | A packed stream is delivered exactly when it is in the archive and its CRC fits; when it is missing the error says so |
| Execution.LoadPackedInputs | crates/unpackio/src/execute.rs:358-413 | Each packed input port holds its own stream; the doubly populated error cannot occur, missing streams included |
| Execution.OutputDestinations | crates/unpackio/src/execute.rs:334-356 | The table is the inverse of the bindings; the duplicate error cannot occur |
| Execution.RunCoder | crates/unpackio/src/execute.rs:465-554 | One coder's turn keeps the buffer invariant: ports hold exactly what waits to be consumed; missing inputs cannot occur |
| Execution.RunSchedule | crates/unpackio/src/execute.rs:464-554 | After the schedule the buffers hold the root's value and nothing else, or a coder failed and the folder has no value |
| Execution.DecodeFolder | crates/unpackio/src/execute.rs:415-583 | Returns the recursive evaluation of the bindings at the root, for a stored folder the packed bytes of the archive, with the folder CRC verdict and an exact charge, and records the decode; fails only by admission, packed data, a coder or interruption |
| Execution.CoderCaps | crates/unpackio/src/execute.rs:513-526 | The root coder runs under the caller's cap, every other under the total output limit, each with its own declared size |
| Execution.StoredFolder | crates/unpackio/src/execute.rs:415-583 | An admitted folder of one Copy coder evaluates to its packed stream's bytes of the archive, if they fit |
| Checksums.TableStep | crates/unpackio/src/checksum.rs:44-56 | One table step equals eight bit steps |
| Checksums.MakeCrc32Table | crates/unpackio/src/checksum.rs:9-29 | Entry i is eight bit steps from i (CrcIsRemainder says of which polynomial) |
| Checksums.Crc32.Update | crates/unpackio/src/checksum.rs:44-56 | The table-driven state equals the bitwise register after the same bytes |
| Checksums.BitwiseCrc32 | fuzz/fuzz_targets/support.rs:242-255 | The bitwise loop, with the polynomial and the initial value written out, computes the same checksum |
| Checksums.FeedSplit | crates/unpackio/src/checksum.rs:44-56 | Feeding a concatenation is feeding its parts in turn |
| Checksums.CrcOfChunks | crates/unpackio/src/checksum.rs:82-98 | Every split of the input into updates gives the checksum of the whole |
| Checksums.Checksum | crates/unpackio/src/execute.rs:29-39 | The chunked helper returns the checksum and charges exactly the input length |
| Checksums.BurstDetected | crates/unpackio/src/checksum.rs:9-60 | Inputs of equal length that differ, but only within 32 consecutive bits taken in the order of the register, have different checksums, also when the bits straddle five bytes |
| Checksums.FeedIsBits | crates/unpackio/src/checksum.rs:9-56 | The byte-wise register is the bit-wise one fed each byte from its lowest bit |
| CrcDivision.CrcIsRemainder | crates/unpackio/src/checksum.rs:5-60 | The checksum is polynomial division: the message behind the initial complement, shifted by 32, leaves the complemented checksum as its remainder modulo the generator with exponents 32, 26, 23, 22, 16, 12, 11, 10, 8, 7, 5, 4, 2, 1 and 0 |
| ArjBits.MsbBits.Read | crates/unpackio/src/arj/decode.rs:224-260 | The chunked loop reads the big-endian number of the next bits, at most sixteen, or reports truncation |
| ArjBits.DecodeInvertsCode | crates/unpackio/src/arj/decode.rs:183-207 | Decoding inverts the prefix code wherever a code word stands |
| ArjBits.CodeInvertsDecode | crates/unpackio/src/arj/decode.rs:183-207 | Whatever is decoded is the code word of its value: the code is a bijection onto its range |
| ArjBits.PrefixFree | crates/unpackio/src/arj/decode.rs:183-207 | No code word begins another |
| ArjBits.CodeShape | crates/unpackio/src/arj/decode.rs:179-207 | The word of a value: a one bit for every width passed, a zero bit below the last width, and as many digits as the width |
| ArjBits.FirstBitHighest | crates/unpackio/src/arj/decode.rs:222-262 | The first of the bits read weighs the most |
| ArjBits.DecodeVariable | crates/unpackio/src/arj/decode.rs:183-207 | The exponent loop computes the decoding; its overflow and underflow errors cannot occur for the exponents in use |
| ArjFastest.RunInvertsEncode | crates/unpackio/src/arj/decode.rs:123-181 | Every writable token list is decoded from its encoding, whatever bits follow |
| ArjFastest.EncodeInvertsRun | crates/unpackio/src/arj/decode.rs:123-181 | Accepted bits begin with the encoding of a token list that expands to exactly the declared size |
| ArjFastest.EncodingUnique | crates/unpackio/src/arj/decode.rs:123-181 | No two token lists share an encoding |
| ArjFastest.RoundTrip | crates/unpackio/src/arj/decode.rs:123-181 | Packed into bytes, the encoding of every writable token list decodes to its expansion |
| ArjFastest.LiteralBits | crates/unpackio/src/arj/decode.rs:145-152 | A literal is a zero bit and the byte's eight |
| ArjFastest.MatchBits | crates/unpackio/src/arj/decode.rs:153-172 | A match is its length in a width from 1 to 7 and its distance in a width from 9 to 13 |
| ArjFastest.CopyMatch | crates/unpackio/src/arj/decode.rs:160-178 | A match copies byte by byte and so repeats its own output when it overlaps |
| ArjFastest.DecodeFastest | crates/unpackio/src/arj/decode.rs:123-181 | Returns the expansion at exactly the declared length for compressed + output + matches units |
| FolderValidation.ListCoders | crates/unpackio/src/validate.rs:330-368 | Coders are numbered by the ports before them; given enough work the call succeeds exactly when all properties are well-formed, the declared dictionaries fit the limit together and the port sums match, at an exact charge |
| SectionMeaning.CodersAcceptedExactly | crates/unpackio/src/validate.rs:330-368 | Coders are accepted exactly when none declares malformed properties or too costly a key derivation, all dictionaries together keep the limit and the ports add up |
| SectionMeaning.CoderFields | crates/unpackio/src/validate.rs:330-368 | Every validated coder keeps its method, port counts and properties, and starts where the coders before it end |
| FolderValidation.ValidateFolder | crates/unpackio/src/validate.rs:316-400 | Given enough work, succeeds exactly when the coders are acceptable, the graph is acceptable and there is one size an output, at an exact charge; success makes a valid folder, and on parsed counts no length error is among the results |
| FolderValidation.ListSizes | crates/unpackio/src/validate.rs:411-456 | Explicit sizes from the cursor, then the remainder; it exceeds the folder only if the known sizes do |
| FolderValidation.PairSizes | crates/unpackio/src/validate.rs:458-482 | A lone substream takes its folder's CRC, others take listed ones in turn |
| FolderValidation.BuildSubstreams | crates/unpackio/src/validate.rs:402-483 | Given enough work, succeeds exactly when both vectors hold what the count calls for and the explicit sizes fit the folder; both cursors advance by exactly that, at an exact charge |
| FolderValidation.SizesAddUp | crates/unpackio/src/validate.rs:447-454 | With the folder and explicit sizes known, the substream sizes sum to the folder's |
| StreamValidation.ValidatePackRanges | crates/unpackio/src/validate.rs:485-560 | Given enough work, succeeds exactly when every size is known and every stream, placed right after the one before it, ends before the next header and inside the archive |
| StreamValidation.PackStreamsConsecutive | crates/unpackio/src/validate.rs:514-554 | Streams of a section are adjacent and in order |
| StreamValidation.PackStreamInSection | crates/unpackio/src/validate.rs:514-558 | Every packed byte lies between the fixed header and the next header, inside the section's recorded range |
| SectionMeaning.PackAcceptedExactly | crates/unpackio/src/validate.rs:485-560 | Packed streams are accepted exactly when all sizes are there and known, their digests as many, and their sum behind signature, fixed header and position ends before the next header and inside the archive |
| SectionMeaning.FirstStream | crates/unpackio/src/validate.rs:513-521 | The first packed stream stands 32 bytes and the recorded position behind the signature |
| SectionMeaning.StreamFields | crates/unpackio/src/validate.rs:522-556 | Stream k has the k-th size and digest and ends where the next one starts |
| SectionMeaning.SectionPlace | crates/unpackio/src/validate.rs:563-600 | The section records the pack position beside its streams, and its last stream ends at signature, 32, position and the sum of the sizes |
| StreamValidation.DraftFolders | crates/unpackio/src/validate.rs:585-626 | Given enough work, succeeds exactly when every folder is acceptable and together they use the packed streams up; folders take consecutive streams |
| StreamValidation.CursorsInside | crates/unpackio/src/validate.rs:402-483 | Counts the parser accepts never let a cursor pass the end of its vector |
| StreamValidation.CursorsEnd | crates/unpackio/src/validate.rs:689-694 | Counts the parser accepts leave no value unused |
| StreamValidation.AttachSubstreams | crates/unpackio/src/validate.rs:628-694 | Given enough work, succeeds exactly when the counts fit the limit, every folder can be divided as its count says and both vectors are used up; on parsed counts the too-short and unused errors cannot occur |
| HeaderValidation.ValidateStreams | crates/unpackio/src/validate.rs:563-701 | Given enough work, a section is accepted exactly when its streams are placed, its folders acceptable, their packed streams used up and their division possible, all stated of the parsed record, at an exact charge; on parsed input no length error is among the results |
| HeaderValidation.FolderReady | crates/unpackio/src/validate.rs:597-626 | Every validated folder is valid and all its packed streams are in the archive |
| HeaderValidation.StreamFeedsSome | crates/unpackio/src/validate.rs:597-626 | Every packed stream feeds some input of some folder |
| HeaderValidation.StreamFeedsOne | crates/unpackio/src/validate.rs:597-626 | No packed stream feeds two inputs |
| HeaderValidation.InputFedOnce | crates/unpackio/src/execute.rs:358-413 | No input is fed by two packed streams |
| HeaderValidation.SubstreamCountExact | crates/unpackio/src/validate.rs:650-688 | The recorded substream count is the number of substreams |
| HeaderValidation.SubstreamsFillFolder | crates/unpackio/src/validate.rs:418-456 | In a validated section, a folder whose size and all but its last substream sizes are known is filled exactly |
| SectionMeaning.FolderFields | crates/unpackio/src/validate.rs:316-400 | Every validated folder keeps its bindings, packed inputs and sizes, the all-ones size meaning unknown, and has its own CRC |
| SectionMeaning.DigestsInTurn | crates/unpackio/src/validate.rs:418-482 | Folder by folder, the digests of the substreams that do not inherit one are the parsed list, used to its end |
| SectionMeaning.DigestsAbsent | crates/unpackio/src/validate.rs:457-482 | A substream alone in its folder has the folder's digest if there is one; without a list no other substream has any |
| SectionMeaning.SizesInTurn | crates/unpackio/src/validate.rs:418-456 | Folder by folder, the sizes of all but the last substreams are the parsed list, used to its end |
| SectionMeaning.LoneSize | crates/unpackio/src/validate.rs:418-430 | A substream alone in its folder has the folder's size |
| SectionMeaning.CountsInTurn | crates/unpackio/src/validate.rs:650-688 | Folder i has as many substreams as its count says, or one if no counts are given |
| SectionMeaning.SubstreamsLimited | crates/unpackio/src/validate.rs:650-688 | An accepted section has no more substreams than the limit; without counts, no more folders |
| HeaderValidation.ValidateHeaderStreams | crates/unpackio/src/validate.rs:1123-1146 | Given enough work, both sections are accepted exactly when each is acceptable and their ranges are disjoint; on parsed input no length error is among the results |
| HeaderValidation.HeldOnceInSection | crates/unpackio/src/validate.rs:485-560 | Within a section a byte belongs to at most one packed stream |
| HeaderValidation.NoByteSharedAcross | crates/unpackio/src/validate.rs:1123-1146 | No byte belongs to a packed stream of both sections |
| Ranges.CheckNonOverlapping | crates/unpackio/src/validate.rs:703-713 | Sort and scan accepts a list of non-empty ranges exactly when it is pairwise disjoint |
| Ranges.ChainedMeansDisjoint | crates/unpackio/src/validate.rs:705-712 | Sorted by start, comparing neighbours decides disjointness of all pairs |
| Ranges.DisjointPermuted | crates/unpackio/src/validate.rs:704 | Disjointness does not depend on the order, ties in the sort included |
| Ranges.SortByStart | crates/unpackio/src/validate.rs:704 | The array is permuted into order of starts |
| Names.ScanNames | crates/unpackio/src/validate.rs:781-818 | The first pass succeeds exactly when the names fill the data within the limits |
| Names.CollectNames | crates/unpackio/src/validate.rs:820-844 | The second pass reads the same names; only an interruption stops it on data the first pass let through |
| Names.ParseNames | crates/unpackio/src/validate.rs:762-845 | Accepts exactly the well-formed inline or external property; with budget for two passes nothing else fails |
| Names.ApplyExternalNames | crates/unpackio/src/metadata.rs:309-356 | The one-pass reader accepts exactly the same names within the same limits, hands them to the defined entries in turn and leaves the others alone |
| Names.SameNames | crates/unpackio/src/metadata.rs:309-356 | The inline form of a byte string satisfies its acceptance condition exactly when the external form does, with the same names |
| Names.ReadBothStorages | crates/unpackio/src/metadata.rs:309-356 | Run on the same names, inline behind a zero byte and as an external stream for files all defined and not yet named, the two readers succeed together and leave the same names |
| Names.InitialNameBytes | crates/unpackio/src/metadata.rs:400-412 | Adds up the bytes of the names already held, and fails exactly when they exceed u64 |
| Names.NameGoesOn | crates/unpackio/src/validate.rs:827-842 | A name read unit by unit is the name the bytes hold |
| FileWriter.NamesFill | crates/unpackio/src/metadata.rs:309-356 | Names fill the data exactly if writing them, low byte first and a zero unit behind each, gives the data |
| FileWriter.StreamAccepted | crates/unpackio/src/metadata.rs:309-356 | The one-pass reader accepts a stream exactly when it is names as written whose bytes, with those already held, keep the limits |
| FileWriter.HeldIsWritten | crates/unpackio/src/metadata.rs:400-412 | The name bytes held are those written, less the two that end each name |
| FileMapping.CollectStreamMappings | crates/unpackio/src/validate.rs:715-749 | Lists all substreams folder by folder; the count error occurs only when the recorded count is wrong |
| FileMapping.MappingsOrdered | crates/unpackio/src/validate.rs:727-744 | The list is in lexicographic order of folder and substream |
| FileMapping.ParsePlainBits | crates/unpackio/src/validate.rs:194-203 | A bit vector must be used to its last byte |
| FileMapping.ListEntries | crates/unpackio/src/validate.rs:1021-1107 | When the vectors fit, no cursor runs out and none has values left; every file gets its name, flags, times, attributes, position and stream |
| FileMapping.ValidateFiles | crates/unpackio/src/validate.rs:872-1113 | Accepts, unless interrupted, exactly the well-formed properties with one substream for every file with a stream, and gives every file its flags, name, times, attributes, position and stream; on a validated section none of the length and cursor errors, the unused-values error included, can occur |
| FileDetails.CollectProperties | crates/unpackio/src/validate.rs:751-760 | Accepts exactly the lists that name no known property twice and keep dummies zero; each known property is in its slot and the unknown ones are kept in order |
| FileDetails.SlotIsProperty | crates/unpackio/src/validate.rs:888-912 | Looking a slot up is looking the property up in the list |
| FileDetails.ParseDefinedValues | crates/unpackio/src/validate.rs:159-192 | Definition bits, then inline numbers or a stream index, used to the last byte |
| FileDetails.NumbersInTurn | crates/unpackio/src/validate.rs:181-189 | The number of a file stands behind those of the defined files before it |
| FileWriter.NumbersExactly | crates/unpackio/src/validate.rs:159-192 | A property reads as inline numbers exactly if it is definition flags, a zero byte and the defined numbers, lowest byte first |
| FileWriter.IndexExactly | crates/unpackio/src/validate.rs:159-192 | It reads as a stream index exactly if it is definition flags, a non-zero byte and the index |
| FileMapping.ValidateFilesInfo | crates/unpackio/src/validate.rs:872-1113 | The whole file list from its properties: accepts, unless interrupted, exactly the acceptable lists; what the entries then say is stated by FileMeaning, property by property |
| FileMeaning.FlagFields | crates/unpackio/src/validate.rs:888-1058 | Of the returned entries: property 0x0e marks those without a stream, 0x0f and 0x10 in turn the empty files and anti-items among them, and the others have the substreams in turn |
| FileMeaning.FlagLengths | crates/unpackio/src/validate.rs:194-203 | The bit vectors have exactly the bytes their flags need, those of 0x0f and 0x10 counted by the marks of 0x0e |
| FileMeaning.NumberFields | crates/unpackio/src/validate.rs:888-1100 | Of the returned entries: 0x12, 0x13 and 0x14 hold the creation, access and modification times, 0x15 the attributes and 0x18 the start positions, or refer to another stream |
| FileMeaning.NameFields | crates/unpackio/src/validate.rs:762-845 | Of the returned entries: property 0x11 is a zero byte and their names as written, within the limits, or refers to another stream |
| FileMeaning.ExternalFields | crates/unpackio/src/validate.rs:205-213 | Only those properties refer to other streams, and only to existing ones |
| FileMeaning.PropertiesKept | crates/unpackio/src/validate.rs:888-912 | Properties 0x0e to 0x15 and 0x18 are given once, 0x19 holds zeros, and exactly the others are kept |
| FileRoundTrip.WrittenListAccepted | crates/unpackio/src/validate.rs:872-1113 | A file list put down by a writer is accepted exactly when there is one substream for each file with a stream and the names keep the limits |
| FileRoundTrip.WrittenListReturned | crates/unpackio/src/validate.rs:872-1113 | Validation gives back exactly the files it was written from |
| FileMapping.FileHasSubstream | crates/unpackio/src/validate.rs:1045-1056 | The k-th file with a stream has the k-th substream, with its size and CRC |
| FileMapping.SubstreamHasFile | crates/unpackio/src/validate.rs:1008-1014 | Every substream belongs to a file |
| FileMapping.FilesInStreamOrder | crates/unpackio/src/validate.rs:1023-1056 | Later files have later substreams, so no two share one |
| Slicing.FolderDecodeMaximum | crates/unpackio/src/archive.rs:1372-1427 | Succeeds exactly when the declared sizes are decodable in the room left, with the smaller of the allowance and that room |
| Slicing.MemberBounds | crates/unpackio/src/archive.rs:1513-1564 | Finds where a member lies, and fails only on members that cannot be cut out |
| Slicing.MoreRoom | crates/unpackio/src/archive.rs:1372-1427 | More room keeps a folder decodable, with a cap at least as large |
| Slicing.MembersEndWithFolder | crates/unpackio/src/archive.rs:1421-1426 | The last member of a decodable folder ends where the folder ends |
| Members.MemberReader.ReadChunk | crates/unpackio/src/archive.rs:1672-1713 | Copies the next bytes of the member; the checksum state stays that of the prefix read |
| Members.MemberReader.ConsumeRemaining | crates/unpackio/src/archive.rs:1715-1750 | Reads to the end without output, for one unit a byte |
| Members.MemberReader.VerifyIntegrity | crates/unpackio/src/archive.rs:1752-1775 | Judges the member CRC before the folder flag, and blames encrypted members on the password |
| Members.VerdictCases | crates/unpackio/src/archive.rs:1752-1775 | The verdict is good exactly if both checksums fit; a plain member is blamed before its folder, an encrypted one always by its password |
| Members.MemberReader.Finish | crates/unpackio/src/archive.rs:1807-1810 | The verdict is that of the whole member, however much was read before |
| Members.MemberReader.IntoBytes | crates/unpackio/src/archive.rs:1777-1795 | Returns the member exactly when the verdict is good and nothing interrupts |
| Members.ReadInChunks | crates/unpackio/src/archive.rs:1672-1713 | With any buffer sizes, the chunks so far are a prefix of the member and the checksum is that prefix's |
| RandomAccess.DecodeWithin | crates/unpackio/src/archive.rs:570-588 | Decodes a folder into the room left; a failure is the cause in decoding itself, or the password if the folder is encrypted and its contents were rejected |
| RandomAccess.OpenMember | crates/unpackio/src/archive.rs:525-615 | Opens exactly the members that can be opened, with the reader set on the member's bytes |
| RandomAccess.ExtractEntry | crates/unpackio/src/archive.rs:625-633 | With enough budget, succeeds exactly when the member can be opened and all its checksums fit |
| Sinks.FollowedInOrder | crates/unpackio/src/archive.rs:39-48 | Any event sequence the protocol allows finishes members in increasing order |
| Sinks.FollowedWrites | crates/unpackio/src/archive.rs:39-48 | A finished member's bytes are all that was ever written for it, in order |
| Sinks.EventsKnown | crates/unpackio/src/archive.rs:39-48 | Every event of an allowed sequence belongs to a finished member or to the one still open |
| Sinks.FinishCloses | crates/unpackio/src/archive.rs:39-48 | Every finish closes a bracket: the member was begun with a size and since then only written to, never emptily, and all that was written has that size |
| Sinks.WriteInside | crates/unpackio/src/archive.rs:39-48 | Every write lies in the bracket of its member and does not exceed its size |
| Sinks.BeginsApart | crates/unpackio/src/archive.rs:39-48 | A member is begun first of all, or right after an earlier one was finished |
| Sinks.DeliverMember | crates/unpackio/src/archive.rs:927-946 | Begin, writes and finish of one member; finish comes only after the announced size was written and the CRC fitted |
| Extraction.MoveTo | crates/unpackio/src/archive.rs:797-888 | Switching folders: the out-of-order and unmapped-substream errors cannot occur |
| Extraction.EnterFolder | crates/unpackio/src/archive.rs:823-862 | A folder is decoded into the output still allowed, and must pass its CRC; it fails only if one of the two does, or by interruption |
| Extraction.DeliverNext | crates/unpackio/src/archive.rs:883-954 | The next member is cut where random access cuts it, and delivered |
| Extraction.ReportEmpty | crates/unpackio/src/archive.rs:787-793 | Empty files are begun and finished; for directories and anti-items the call succeeds and leaves the event list as it was |
| Extraction.ExtractEntriesTo | crates/unpackio/src/archive.rs:768-975 | On every run, successful or not: the events follow the protocol, what is finished is justified by random access, the sink is given no more than the total output limit, and folders are decoded in order and once; success reports everything due, and failure means interruption, a refusing sink, or a folder that cannot be decoded in the room the earlier ones leave or does not fit its sizes or checksums |
| Extraction.OnlyDueEvents | crates/unpackio/src/archive.rs:787-793 | On every run, every event is about an entry that is due: directories and anti-items cause none |
| Extraction.RunFillsFolder | crates/unpackio/src/archive.rs:768-975 | In a run that finished everything due, under monotone codecs, the deliveries of a folder's members, in order, concatenate to the whole decoded folder |
| Extraction.DeliveredIsExtracted | crates/unpackio/src/archive.rs:768-975 | With monotone codecs a delivered member is exactly what extracting it alone returns |
| Extraction.OnlyReported | crates/unpackio/src/archive.rs:787-793 | Only entries with a stream and true empty files are reported |
| Extraction.AllReported | crates/unpackio/src/archive.rs:783-793 | All of those are |
| Archives.ExtractedWithMoreRoom | crates/unpackio/src/archive.rs:525-633 | Extraction does not depend on spare room for output |
| Archives.MembersFillFolder | crates/unpackio/src/archive.rs:768-975 | Members that can all be extracted concatenate to the whole decoded folder; the step from members to deliveries is RunFillsFolder |
| Archives.DecodedSize | crates/unpackio/src/archive.rs:1421-1426 | A decoded folder has its declared size |
| StoredArchives.StoredEntryExtracted | crates/unpackio/src/archive.rs:525-633 | A member of a folder of one Copy coder is extracted as given bytes exactly when the packed stream is there and intact, all sizes agree with the limits and the declared total, and the bytes are that part of it and fit both checksums |
| StoredRoundTrip.StoredMemberExtracted | crates/unpackio/src/archive.rs:2034-2127 | Members stored in any number of Copy folders are extracted byte for byte once the section is validated |
| StoredHeaders.StoredArchiveOpens | crates/unpackio/src/archive.rs:2437-2459 | A whole stored archive (folders of one Copy coder with any members, and a list of files) put down by the writers is opened, if its header keeps the limits |
| StoredHeaders.StoredFileReturned | crates/unpackio/src/archive.rs:2437-2459 | Every file of the opened archive has its name, flags, times and attributes as written and is extracted to the very bytes stored for it |
| NextHeaders.ValidatePlainHeader | crates/unpackio/src/validate.rs:1116-1163 | Accepts, unless interrupted, exactly the headers whose sections and file list are acceptable together; on a parsed header no length or cursor error is among the results |
| NextHeaders.ValidatePending | crates/unpackio/src/validate.rs:1180-1216 | Accepts, unless interrupted, exactly the pending headers with acceptable additional streams, a placed main pack section disjoint from them, and a stream index inside them |
| NextHeaders.ValidateNextHeader | crates/unpackio/src/validate.rs:1165-1232 | Accepts, unless interrupted, exactly the acceptable next headers, encoded and pending ones included; none of the length and cursor errors is among the results |
| NextHeaders.SectionsAcceptedExactly | crates/unpackio/src/validate.rs:1123-1146 | Two sections are accepted together exactly when each is and their packed bytes, by position and sum of sizes, are apart |
| NextHeaders.PendingAcceptedExactly | crates/unpackio/src/validate.rs:1180-1216 | A pending header is accepted exactly when its additional section and placed main pack are, both apart, and the stream it asks for is one of the additional folders |
| NextHeaders.PendingKeeps | crates/unpackio/src/validate.rs:1180-1216 | It keeps the bytes to parse again and the index of a folder it has |
| ValidatedArchives.ValidatedIsValid | crates/unpackio/src/validate.rs:1116-1163 | A validated header, with or without streams and with or without a file list, satisfies all that extraction assumes, for every codec |
| ValidatedArchives.OpenNextHeader | crates/unpackio/src/parser.rs:432-483 | From arbitrary header bytes: accepts, unless interrupted, exactly the bytes that hold a header whose every part is acceptable; no refusal is one of the count, vector-length and cursor errors listed in LengthFault (the packed-stream total and the file-stream count, which compare declarations, stay possible); a complete header makes a valid archive |
| CpioFields.HexU32 | crates/unpackio/src/cpio.rs:801-821 | Eight digits of either case denote their number; the overflow checks cannot fire |
| CpioFields.OctalU64 | crates/unpackio/src/cpio.rs:828-842 | Up to eleven octal digits denote their number; the overflow checks cannot fire |
| CpioFields.DigitsDenote | crates/unpackio/src/cpio.rs:919-921 | Printed digits read back as the number, in both radixes |
| CpioFields.FieldAt | crates/unpackio/src/cpio.rs:965-987 | Every field of a printed run reads back at the sum of the widths before it |
| CpioHeaders.NewcHeaderRoundTrip | crates/unpackio/src/cpio.rs:923-947 | A printed newc header, with or without checksum and with any metadata, parses to its fields |
| CpioHeaders.OdcHeaderRoundTrip | crates/unpackio/src/cpio.rs:965-983 | A printed odc header, with any metadata its fields hold, parses to them |
| CpioHeaders.BinaryHeaderRoundTrip | crates/unpackio/src/cpio.rs:1005-1025 | A printed binary header with any metadata parses to its fields, and the two byte orders are told apart |
| CpioFields.CaseIgnored | crates/unpackio/src/cpio.rs:801-821 | Capital digits denote what small ones do |
| CpioHeaders.NewcHeaderPrinted | crates/unpackio/src/cpio.rs:626-660 | Every accepted newc header is, up to the case of its digits, the one printed from its fields |
| CpioHeaders.OdcHeaderPrinted | crates/unpackio/src/cpio.rs:662-690 | Every accepted odc header is the one printed from its fields |
| CpioHeaders.BinaryHeaderPrinted | crates/unpackio/src/cpio.rs:692-748 | Every accepted binary header is the one printed from its fields, in its byte order |
| CpioHeaders.LargeFilesUnsupported | crates/unpackio/src/cpio.rs:583-624 | The large-file magic is reported as unsupported, not as damage |
| CpioEntries.SumBytes | crates/unpackio/src/cpio.rs:569-581 | The chunked sum is the byte sum modulo 2^32, for one unit a byte |
| CpioEntries.ByteSumIsTotal | crates/unpackio/src/cpio.rs:569-581 | The checksum is the sum of all bytes modulo 2^32 |
| CpioEntries.ParseEntries | crates/unpackio/src/cpio.rs:412-567 | The loop computes the entries the payload determines, and a budget of one unit a payload byte always suffices |
| CpioEntries.AcceptedIsSafe | crates/unpackio/src/cpio.rs:412-567 | On every accepted payload the data ranges are ordered, disjoint and in bounds before a trailer record that holds no data, and only zeros follow that record |
| CpioEntries.AcceptedWithinLimits | crates/unpackio/src/cpio.rs:412-567 | Every accepted payload keeps the limits on files, names, member sizes and headers, the trailer's included |
| CpioWriter.RecordRoundTrip | crates/unpackio/src/cpio.rs:923-1034 | A written record of any format reads back whole at its position, padding included |
| CpioWriter.RoundTrip | crates/unpackio/src/cpio.rs:923-1034 | For NUL-free names other than the trailer's, field-sized data and metadata and ample limits, every written image, each record in a format of its own, parses to exactly its items with their metadata and checksums, and its format is mixed unless all agree |
| CpioWriter.AppendNewc | crates/unpackio/src/cpio.rs:923-956 | Appends the aligned newc record |
| CpioWriter.AppendOdc | crates/unpackio/src/cpio.rs:965-987 | Appends the unaligned odc record |
| CpioWriter.AppendBinary | crates/unpackio/src/cpio.rs:1005-1034 | Appends the even-aligned binary record in either byte order |
| CpioWriter.WriteImage | crates/unpackio/src/cpio.rs:958-963 | The writers, record by record and then the trailer, append exactly the image that RoundTrip parses |

## Left out

- HeaderValidation.ValidateHeaderStreams: which of several defects is reported first is not stated
- Names.ApplyExternalNames: the entries a failed call has already renamed are not described
- Members.MemberReader.ReadChunk: says nothing about the reader after a failed read, whose checksum may have run ahead of its position
- Ranges.SortByStart: the library's unstable sort is an insertion sort of the contents; the check is proved for any order of equal starts
- Codecs (LZMA, LZMA2, PPMd, Deflate, BZip2, Brotli, LZ4, Zstandard, AES, branch filters): one arbitrary pure function of coder, inputs, declared size and cap
- Work that codecs charge, and reverse-filter budgets: the model charges what the executor itself charges
- Passwords, key derivation and zeroization
- Method-id and coder-property tables: which method an id names, and whether properties are well-formed and what dictionary they declare, are parameters of validation
- Error texts and the numbers an exceeded limit reports
- Allocation failure, panics caught at codec boundaries, and platforms whose usize is narrower than u64
- File, volume and stream input, and the container openers of the other formats
- Times, attributes and start positions in additional streams (only names are followed there)
- Decoding encoded headers and additional streams, the signature header and its search, and the verification walk over all folders
- Resource accounting and retained-memory sizes
- CPIO extraction after parsing, which slices the ranges proved here
- ARJ methods 0 to 3, and every other archive format of the repository
- The deb member parser, path checks and coder-property parsing
