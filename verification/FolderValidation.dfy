/** Validation of one folder record, and of its substreams against the shared
    vectors that moving cursors consume. */
module FolderValidation {
  import opened Support
  import opened Model
  import opened Graph
  import opened Folders
  import opened SubstreamSyntax
  import opened StreamSyntax
  import Scheduling

  const UNKNOWN_SIZE: u64 := U64_MAX

  function OptionalSize(value: u64): Option<u64> {
    if value == UNKNOWN_SIZE then None else Some(value)
  }

  /** What a coder's properties declare about its dictionary, or how they are refused. */
  datatype Declaration = NoDictionary | Dictionary(size: u64) | Malformed | KdfTooCostly

  /** The tables of known methods: which method an id names, and what its properties declare. */
  datatype Tables = Tables(kindOf: Bytes -> Method, declarationOf: (Bytes, Bytes) -> Declaration)

  function CheckProperties(c: RawCoder, tables: Tables, limits: Limits): (r: Result<Option<u64>>)
    ensures r.Failure? ==>
      r.error == Format(CoderProperties) || r.error == LimitExceeded(DictionaryBytes)
        || r.error == LimitExceeded(KdfPower)
  {
    match tables.declarationOf(c.methodId, c.properties)
    case NoDictionary => Success(None)
    case Dictionary(size) =>
      var _ :- CheckLimit(size, limits.maxDictionaryBytes, DictionaryBytes);
      Success(Some(size))
    case Malformed => Failure(Format(CoderProperties))
    case KdfTooCostly => Failure(LimitExceeded(KdfPower))
  }

  // ----- The coders.

  function CoderOf(coders: seq<RawCoder>, kindOf: Bytes -> Method, i: nat): Coder
    requires i < |coders|
  {
    Coder(kindOf(coders[i].methodId), Before(InputCounts(coders), i), coders[i].inputs,
          Before(OutputCounts(coders), i), coders[i].outputs, coders[i].properties)
  }

  function PlacedCoder(c: RawCoder, tables: Tables, inputStart: nat, outputStart: nat): Coder {
    Coder(tables.kindOf(c.methodId), inputStart, c.inputs, outputStart, c.outputs, c.properties)
  }

  function CodersOf(coders: seq<RawCoder>, kindOf: Bytes -> Method): (cs: seq<Coder>)
    ensures |cs| == |coders|
    ensures InCounts(cs) == InputCounts(coders) && OutCounts(cs) == OutputCounts(coders)
    ensures Numbered(cs)
  {
    seq(|coders|, i requires 0 <= i < |coders| => CoderOf(coders, kindOf, i))
  }

  /** What the first k coders' properties declare about their dictionaries, added up. */
  function DictionaryTotal(coders: seq<RawCoder>, tables: Tables, k: nat): nat
    requires k <= |coders|
  {
    if k == 0 then 0
    else
      var declared := tables.declarationOf(coders[k - 1].methodId, coders[k - 1].properties);
      DictionaryTotal(coders, tables, k - 1) + if declared.Dictionary? then declared.size else 0
  }

  /** The properties of the first k coders are well-formed and within the limits. */
  predicate DeclarationsOk(coders: seq<RawCoder>, tables: Tables, limits: Limits, k: nat)
    requires k <= |coders|
  {
    forall i :: 0 <= i < k ==> CheckProperties(coders[i], tables, limits).Success?
  }

  /** What the lengths of parsed vectors rule out. */
  predicate LengthFault(e: Error) {
    CountFault(e) || (e.Format? && (LengthDetail(e.detail) || CursorDetail(e.detail)))
  }

  predicate LengthDetail(d: Detail) {
    || d.PortTotalsInconsistent? || d.UnpackSizeCountInconsistent? || d.RootSizeMissing?
    || d.PackSizeCountInconsistent? || d.PackCrcCountInconsistent? || d.FolderCrcCountInconsistent?
    || d.SubstreamCountsInconsistent? || d.ExplicitSizesTooShort? || d.SubstreamCrcsTooShort?
    || d.ExplicitSizesUnused? || d.SubstreamCrcsUnused?
  }

  /** Among them: a cursor over the vectors of the file list runs out, or leaves values over. */
  predicate CursorDetail(d: Detail) {
    || d.EmptyStreamTooShort? || d.EmptyFileTooShort? || d.AntiTooShort? || d.MappingTooShort? || d.NamesTooShort?
    || d.DetailsTooShort? || d.FileVectorsUnused? || d.MemberCountInconsistent?
  }

  lemma NotLengths()
    ensures forall e :: Interruption(e) ==> !LengthFault(e)
    ensures forall e :: GraphFault(e) && !CountFault(e) ==> !LengthFault(e)
    ensures forall limit :: !LengthFault(LimitExceeded(limit))
    ensures !LengthFault(Format(DictionaryAccountingOverflows)) && !LengthFault(Format(CoderProperties))
  {
  }

  /** The first i coders have been listed, with the ports and the dictionary bytes they use. */
  ghost predicate Listed(list: seq<Coder>, coders: seq<RawCoder>, tables: Tables, limits: Limits, i: nat, inputs: nat,
                         outputs: nat, dictionary: nat) {
    && |list| == i <= |coders| && (forall j :: 0 <= j < i ==> list[j] == CoderOf(coders, tables.kindOf, j))
    && inputs == Before(InputCounts(coders), i) && outputs == Before(OutputCounts(coders), i)
    && dictionary == DictionaryTotal(coders, tables, i) && DeclarationsOk(coders, tables, limits, i)
  }

  lemma NothingListed(coders: seq<RawCoder>, tables: Tables, limits: Limits)
    ensures Listed([], coders, tables, limits, 0, 0, 0, 0)
  {
  }

  lemma NextListed(list: seq<Coder>, coders: seq<RawCoder>, tables: Tables, limits: Limits, i: nat, inputs: nat,
                   outputs: nat, dictionary: nat)
    requires i < |coders| && CheckProperties(coders[i], tables, limits).Success?
    requires Listed(list, coders, tables, limits, i, inputs, outputs, dictionary)
    ensures
      var c, declared := coders[i], CheckProperties(coders[i], tables, limits);
      Listed(list + [PlacedCoder(c, tables, inputs, outputs)], coders, tables, limits, i + 1, inputs + c.inputs,
             outputs + c.outputs, dictionary + if declared.value.Some? then declared.value.value else 0)
  {
    hide CheckProperties;
    ListedCoder(coders, tables, limits, i);
  }

  lemma Undeclared(coders: seq<RawCoder>, tables: Tables, limits: Limits, i: nat)
    requires i < |coders|
    ensures CheckProperties(coders[i], tables, limits).Failure? ==> !DeclarationsOk(coders, tables, limits, |coders|)
  {
    hide CheckProperties;
  }

  lemma ListedCoder(coders: seq<RawCoder>, tables: Tables, limits: Limits, i: nat)
    requires i < |coders|
    ensures Before(InputCounts(coders), i + 1) == Before(InputCounts(coders), i) + coders[i].inputs
    ensures Before(OutputCounts(coders), i + 1) == Before(OutputCounts(coders), i) + coders[i].outputs
    ensures
      var declared := CheckProperties(coders[i], tables, limits);
      declared.Success? ==>
        DictionaryTotal(coders, tables, i + 1)
          == DictionaryTotal(coders, tables, i) + if declared.value.Some? then declared.value.value else 0
  {
  }

  lemma AllListed(list: seq<Coder>, coders: seq<RawCoder>, tables: Tables, limits: Limits, inputs: nat, outputs: nat,
                  dictionary: nat)
    requires Listed(list, coders, tables, limits, |coders|, inputs, outputs, dictionary)
    ensures list == CodersOf(coders, tables.kindOf) && DeclarationsOk(coders, tables, limits, |coders|)
    ensures inputs == Before(InputCounts(coders), |coders|) && outputs == Before(OutputCounts(coders), |coders|)
    ensures dictionary == DictionaryTotal(coders, tables, |coders|)
  {
    hide CoderOf, Before, DictionaryTotal, CheckProperties;
  }

  /** The dictionary bytes so far and a coder's own, within the limit. */
  function AddDictionary(before: u64, declared: Option<u64>, limits: Limits): (r: Result<u64>)
    ensures r.Success? ==> r.value == before + if declared.Some? then declared.value else 0
    ensures r.Success? && before <= limits.maxDictionaryBytes ==> r.value <= limits.maxDictionaryBytes
    ensures r.Failure? ==> r.error == Format(DictionaryAccountingOverflows) || r.error == LimitExceeded(DictionaryBytes)
  {
    if declared.None? then Success(before)
    else if before + declared.value > U64_MAX then Failure(Format(DictionaryAccountingOverflows))
    else
      var _ :- CheckLimit(before + declared.value, limits.maxDictionaryBytes, DictionaryBytes);
      Success(before + declared.value)
  }

  /** The coders' share of an acceptable folder. */
  predicate CodersAcceptable(raw: RawFolder, tables: Tables, limits: Limits) {
    && DeclarationsOk(raw.coders, tables, limits, |raw.coders|)
    && DictionaryTotal(raw.coders, tables, |raw.coders|) <= limits.maxDictionaryBytes
    && Before(InputCounts(raw.coders), |raw.coders|) == raw.inputStreams
    && Before(OutputCounts(raw.coders), |raw.coders|) == raw.outputStreams
  }

  function CoderWork(c: RawCoder): nat {
    1 + |c.methodId| + |c.properties|
  }

  function ListWork(coders: seq<RawCoder>, k: nat): nat
    requires k <= |coders|
  {
    if k == 0 then 0 else ListWork(coders, k - 1) + CoderWork(coders[k - 1])
  }

  lemma {:induction false} ListWorkGrows(coders: seq<RawCoder>, a: nat, b: nat)
    requires a <= b <= |coders|
    ensures ListWork(coders, a) <= ListWork(coders, b) && ListWork(coders, 0) == 0
    decreases b
  {
    hide CoderWork;
    if a < b {
      ListWorkGrows(coders, a, b - 1);
    }
  }

  lemma NextListWork(coders: seq<RawCoder>, k: nat)
    requires k < |coders|
    ensures ListWork(coders, k + 1) == ListWork(coders, k) + CoderWork(coders[k])
    ensures ListWork(coders, k + 1) <= ListWork(coders, |coders|)
  {
    ListWorkGrows(coders, k + 1, |coders|);
  }

  lemma {:induction false} DictionaryGrows(coders: seq<RawCoder>, tables: Tables, a: nat, b: nat)
    requires a <= b <= |coders|
    ensures DictionaryTotal(coders, tables, a) <= DictionaryTotal(coders, tables, b)
    decreases b
  {
    if a < b {
      DictionaryGrows(coders, tables, a, b - 1);
    }
  }

  /** A coder whose dictionary no longer fits makes the folder unacceptable. */
  lemma Overfull(list: seq<Coder>, raw: RawFolder, tables: Tables, limits: Limits, i: nat, inputs: nat, outputs: nat,
                 dictionary: u64)
    requires i < |raw.coders| && Listed(list, raw.coders, tables, limits, i, inputs, outputs, dictionary)
    ensures
      var declared := CheckProperties(raw.coders[i], tables, limits);
      declared.Failure? || AddDictionary(dictionary, declared.value, limits).Failure? ==>
        !CodersAcceptable(raw, tables, limits)
  {
    hide CheckProperties, Before;
    Undeclared(raw.coders, tables, limits, i);
    ListedCoder(raw.coders, tables, limits, i);
    DictionaryGrows(raw.coders, tables, i + 1, |raw.coders|);
  }

  lemma PropertyFaults(c: RawCoder, tables: Tables, limits: Limits)
    ensures forall e :: Interruption(e) ==> !LengthFault(e) && e != Format(CoderProperties)
    ensures CheckProperties(c, tables, limits).Failure? ==>
      !LengthFault(CheckProperties(c, tables, limits).error) && !Interruption(CheckProperties(c, tables, limits).error)
    ensures !LengthFault(Format(DictionaryAccountingOverflows)) && !LengthFault(LimitExceeded(DictionaryBytes))
  {
    hide CheckProperties;
  }

  /** One coder, placed behind the ports before it, and the dictionary bytes with its own. */
  method ListCoder(c: RawCoder, tables: Tables, limits: Limits, inputStart: nat, outputStart: nat, dictionaryBytes: u64,
                   control: ParseControl)
      returns (r: Result<(Coder, u64)>)
    requires StoredCoder(c)
    modifies control
    ensures r.Success? ==>
      && CheckProperties(c, tables, limits).Success? && r.value.0 == PlacedCoder(c, tables, inputStart, outputStart)
      && AddDictionary(dictionaryBytes, CheckProperties(c, tables, limits).value, limits) == Success(r.value.1)
    ensures r.Success? ==> control.Charged(CoderWork(c))
    ensures r.Failure? ==> !LengthFault(r.error)
    ensures r.Failure? ==>
      || (Interrupted(r) && control.stopped) || CheckProperties(c, tables, limits).Failure?
      || AddDictionary(dictionaryBytes, CheckProperties(c, tables, limits).value, limits).Failure?
    ensures r == Failure(Format(CoderProperties)) ==> CheckProperties(c, tables, limits).Failure?
    ensures old(control.Ample(CoderWork(c))) ==> !Interrupted(r)
  {
    hide LengthFault, CheckProperties, AddDictionary;
    PropertyFaults(c, tables, limits);
    var _ :- control.Checkpoint(1);
    var declared: Option<u64> :- CheckProperties(c, tables, limits);
    var total: u64 :- AddDictionary(dictionaryBytes, declared, limits);
    var methodId :- CopyBytes(c.methodId, control);
    var properties :- CopyBytes(c.properties, control);
    return Success((Coder(tables.kindOf(methodId), inputStart, c.inputs, outputStart, c.outputs, properties), total));
  }

  method ListCoders(raw: RawFolder, tables: Tables, limits: Limits, control: ParseControl)
      returns (r: Result<(seq<Coder>, u64)>)
    requires Stored(raw)
    modifies control
    ensures r.Success? ==>
      && r.value.0 == CodersOf(raw.coders, tables.kindOf)
      && r.value.1 == DictionaryTotal(raw.coders, tables, |raw.coders|) <= limits.maxDictionaryBytes
      && Before(InputCounts(raw.coders), |raw.coders|) == raw.inputStreams
      && Before(OutputCounts(raw.coders), |raw.coders|) == raw.outputStreams
    ensures r.Success? ==> DeclarationsOk(raw.coders, tables, limits, |raw.coders|)
    ensures r == Failure(Format(CoderProperties)) ==> !DeclarationsOk(raw.coders, tables, limits, |raw.coders|)
    ensures r.Failure? && TotalsOk(raw) ==> !LengthFault(r.error)
    ensures r.Success? ==> CodersAcceptable(raw, tables, limits) && control.Charged(ListWork(raw.coders, |raw.coders|))
    ensures r.Failure? ==> (Interrupted(r) && control.stopped) || !CodersAcceptable(raw, tables, limits)
    ensures old(control.Ample(ListWork(raw.coders, |raw.coders|))) ==> !Interrupted(r)
  {
    hide LengthFault, CoderOf, CodersOf, DictionaryTotal, Before, CheckProperties, DeclarationsOk, Listed, InputCounts,
         OutputCounts;
    hide PlacedCoder, AddDictionary, StoredCoder, ListWork, CoderWork;
    ListWorkGrows(raw.coders, 0, |raw.coders|);
    NothingListed(raw.coders, tables, limits);
    var coders: seq<Coder> := [];
    var inputStart: nat, outputStart: nat, dictionaryBytes: u64 := 0, 0, 0;
    for i := 0 to |raw.coders|
      invariant Listed(coders, raw.coders, tables, limits, i, inputStart, outputStart, dictionaryBytes)
      invariant dictionaryBytes <= limits.maxDictionaryBytes && control.Charged(ListWork(raw.coders, i))
    {
      var c := raw.coders[i];
      NextListWork(raw.coders, i);
      Overfull(coders, raw, tables, limits, i, inputStart, outputStart, dictionaryBytes);
      assert c in raw.coders;
      Undeclared(raw.coders, tables, limits, i);
      var listed :- ListCoder(c, tables, limits, inputStart, outputStart, dictionaryBytes, control);
      NextListed(coders, raw.coders, tables, limits, i, inputStart, outputStart, dictionaryBytes);
      coders, dictionaryBytes := coders + [listed.0], listed.1;
      inputStart, outputStart := inputStart + c.inputs, outputStart + c.outputs;
    }
    AllListed(coders, raw.coders, tables, limits, inputStart, outputStart, dictionaryBytes);
    if inputStart != raw.inputStreams || outputStart != raw.outputStreams {
      return Failure(Format(PortTotalsInconsistent));
    }
    return Success((coders, dictionaryBytes));
  }

  // ----- The folder, before its substreams are known.

  function UnpackSizes(raw: RawFolder): (sizes: seq<Option<u64>>)
    ensures |sizes| == |raw.unpackSizes|
  {
    seq(|raw.unpackSizes|, i requires 0 <= i < |raw.unpackSizes| => OptionalSize(raw.unpackSizes[i]))
  }

  ghost predicate DraftOf(f: Folder, raw: RawFolder, tables: Tables, crc: Option<bv32>, firstPackStream: nat) {
    && ValidFolder(f) && f.rootOutput < |f.unpackSizes|
    && f.coders == CodersOf(raw.coders, tables.kindOf)
    && ValidGraph(raw, ValidatedGraph(f.bindPairs, f.packedInputs, f.rootOutput, f.order))
    && f.unpackSizes == UnpackSizes(raw)
    && f.crc == crc && f.firstPackStream == firstPackStream && |f.packedInputs| == raw.packedStreams
    && f.dictionaryBytes == DictionaryTotal(raw.coders, tables, |raw.coders|)
  }

  lemma ValidGraphMakesValidFolder(f: Folder, raw: RawFolder, tables: Tables)
    requires f.coders == CodersOf(raw.coders, tables.kindOf) && f.unpackSizes == UnpackSizes(raw) && Sized(raw)
    requires ValidGraph(raw, ValidatedGraph(f.bindPairs, f.packedInputs, f.rootOutput, f.order))
    ensures ValidFolder(f) && f.rootOutput < |f.unpackSizes| && |f.packedInputs| == raw.packedStreams
  {
    hide BindsOk, RootOk, PackedOk, Scheduling.Topological, Numbered;
    BindsInRange(raw, InputOwners(f), OutputOwners(f));
    RootInRange(raw.bindPairs, raw.outputStreams, f.rootOutput);
  }

  lemma RootInRange(binds: seq<BindPair>, outputs: nat, root: nat)
    requires RootOk(binds, outputs, root)
    ensures root < outputs
  {
  }

  /** What a folder record must be for validation to accept it. */
  ghost predicate FolderAcceptable(raw: RawFolder, tables: Tables, limits: Limits) {
    CodersAcceptable(raw, tables, limits) && Acceptable(raw) && Sized(raw)
  }

  function FolderWork(raw: RawFolder): nat {
    |raw.coders| + ListWork(raw.coders, |raw.coders|) + GraphWork(raw)
  }

  /** Accepts exactly the acceptable folders, given enough work. */
  method ValidateFolder(raw: RawFolder, crc: Option<bv32>, firstPackStream: nat, tables: Tables, limits: Limits,
                        control: ParseControl)
      returns (r: Result<Folder>)
    requires Stored(raw)
    modifies control
    ensures r.Success? ==>
      && DraftOf(r.value, raw, tables, crc, firstPackStream)
      && r.value.substreams == [] && r.value.dictionaryBytes <= limits.maxDictionaryBytes
    ensures r.Failure? && CountsFit(raw) && Sized(raw) ==> !LengthFault(r.error)
    ensures r.Success? ==> FolderAcceptable(raw, tables, limits) && control.Charged(FolderWork(raw))
    ensures r.Failure? ==> (Interrupted(r) && control.stopped) || !FolderAcceptable(raw, tables, limits)
    ensures old(control.Ample(FolderWork(raw))) ==> !Interrupted(r)
  {
    hide CountsFit, ValidGraph, TotalsOk, DeclarationsOk, GraphWork, LengthFault, CountFault, GraphFault, ValidFolder;
    hide CodersAcceptable, Acceptable, ListWork;
    NotLengths();
    TotalsOfFit(raw);
    var _ :- control.Checkpoint(|raw.coders|);
    var listed :- ListCoders(raw, tables, limits, control);
    var graph :- ValidateFolderGraph(raw, control);
    ValidMeansAcceptable(raw, graph);
    if |raw.unpackSizes| != raw.outputStreams {
      return Failure(Format(UnpackSizeCountInconsistent));
    }
    var f := Folder.Folder(listed.0, graph.bindPairs, graph.packedInputs, UnpackSizes(raw), graph.rootOutput,
                           graph.order, crc, [],
                    listed.1, firstPackStream);
    ValidGraphMakesValidFolder(f, raw, tables);
    if f.rootOutput >= |f.unpackSizes| {
      return Failure(Format(RootSizeMissing));
    }
    return Success(f);
  }

  // ----- Substreams.

  /** The known ones of n sizes, added up. */
  function KnownTotal(sizes: seq<Option<u64>>, n: nat): nat
    requires n <= |sizes|
  {
    if n == 0 then 0 else KnownTotal(sizes, n - 1) + if sizes[n - 1].Some? then sizes[n - 1].value else 0
  }

  /** The sizes given explicitly for a folder with `count` substreams. */
  function GivenSizes(count: nat, explicit: Option<seq<u64>>, start: nat): (sizes: seq<Option<u64>>)
    requires Enough(explicit, start, ExplicitOf(count))
    ensures |sizes| == ExplicitOf(count)
  {
    seq(ExplicitOf(count), i requires 0 <= i < ExplicitOf(count) =>
      if explicit.Some? then OptionalSize(explicit.value[start + i]) else None)
  }

  /** The last size is what the folder has left, where that is determined. */
  function FinalSize(root: Option<u64>, given: seq<Option<u64>>, explicit: bool): (size: Option<int>)
  {
    if root.Some? && (|given| == 0 || (explicit && AllKnown(given))) then Some(root.value - KnownTotal(given, |given|))
    else None
  }

  predicate Enough(s: Option<seq<u64>>, start: nat, need: nat) {
    s.Some? && need > 0 ==> start + need <= |s.value|
  }

  predicate EnoughCrcs(s: Option<seq<Option<bv32>>>, start: nat, need: nat) {
    s.Some? && need > 0 ==> start + need <= |s.value|
  }

  predicate SizesOk(sizes: seq<Option<u64>>, root: Option<u64>, count: nat, explicit: Option<seq<u64>>, start: nat) {
    && Enough(explicit, start, ExplicitOf(count))
    && |sizes| == count
    && (count > 0 ==>
          && sizes[..count - 1] == GivenSizes(count, explicit, start)
          && sizes[count - 1] == FinalSize(root, GivenSizes(count, explicit, start), explicit.Some?))
  }

  /** With the folder's size and all explicit sizes known, the sizes add up to the folder. */
  lemma SizesAddUp(sizes: seq<Option<u64>>, root: u64, count: nat, explicit: Option<seq<u64>>, start: nat)
    requires SizesOk(sizes, Some(root), count, explicit, start) && count > 0
      && AllKnown(GivenSizes(count, explicit, start))
    ensures AllKnown(sizes) && KnownTotal(sizes, count) == root
  {
    var given := GivenSizes(count, explicit, start);
    TotalOfPrefix(given, sizes, count - 1);
    forall i | 0 <= i < count ensures sizes[i].Some? {
      if i < count - 1 {
        assert sizes[..count - 1][i] == given[i];
      }
    }
  }

  lemma {:induction false} TotalOfPrefix(a: seq<Option<u64>>, b: seq<Option<u64>>, n: nat)
    requires n <= |a| && n <= |b| && b[..n] == a[..n]
    ensures KnownTotal(a, n) == KnownTotal(b, n)
    decreases n
  {
    if n > 0 {
      assert b[..n][n - 1] == a[..n][n - 1];
      assert b[..n - 1] == b[..n][..n - 1] == a[..n - 1];
      TotalOfPrefix(a, b, n - 1);
    }
  }

  datatype Given = Given(sizes: seq<Option<u64>>, total: u64, allKnown: bool)

  predicate GivenOk(g: Given, count: nat, explicit: Option<seq<u64>>, cursor: nat) {
    && Enough(explicit, cursor, ExplicitOf(count))
    && g.sizes == GivenSizes(count, explicit, cursor)
    && g.total == KnownTotal(g.sizes, |g.sizes|)
    && (explicit.Some? ==> (g.allKnown <==> AllKnown(g.sizes)))
  }

  function NextSize(explicit: Option<seq<u64>>, k: nat): Option<u64>
    requires explicit.Some? ==> k < |explicit.value|
  {
    if explicit.Some? then OptionalSize(explicit.value[k]) else None
  }

  lemma GivenStep(g: Given, count: nat, explicit: Option<seq<u64>>, cursor: nat, h: Given)
    requires count > 0 && GivenOk(g, count, explicit, cursor)
      && (explicit.Some? ==> cursor + count - 1 < |explicit.value|)
    requires h.sizes == g.sizes + [NextSize(explicit, cursor + count - 1)]
    requires h.total == g.total + if h.sizes[count - 1].Some? then h.sizes[count - 1].value else 0
    requires explicit.Some? ==> h.allKnown == (g.allKnown && h.sizes[count - 1].Some?)
    ensures GivenOk(h, count + 1, explicit, cursor)
  {
    TotalOfPrefix(g.sizes, h.sizes, count - 1);
    forall i | 0 <= i < count ensures h.sizes[i] == GivenSizes(count + 1, explicit, cursor)[i] {
      if i < count - 1 {
        assert h.sizes[i] == g.sizes[i];
      }
    }
    if AllKnown(h.sizes) {
      forall i | 0 <= i < |g.sizes| ensures g.sizes[i].Some? {
        assert h.sizes[i] == g.sizes[i];
      }
    }
  }

  lemma NothingGiven(explicit: Option<seq<u64>>, cursor: nat)
    ensures GivenOk(Given([], 0, true), 1, explicit, cursor)
  {
  }

  /** The explicit sizes are there, and add up to a machine word. */
  predicate GivenAcceptable(count: nat, explicit: Option<seq<u64>>, cursor: nat) {
    && Enough(explicit, cursor, ExplicitOf(count))
    && (explicit.Some? ==> KnownTotal(GivenSizes(count, explicit, cursor), ExplicitOf(count)) <= U64_MAX)
  }

  /** And, where they determine the last size, they leave something for it. */
  predicate SizesAcceptable(root: Option<u64>, count: nat, explicit: Option<seq<u64>>, cursor: nat) {
    && GivenAcceptable(count, explicit, cursor)
    && (count > 1 && explicit.Some? && root.Some? && AllKnown(GivenSizes(count, explicit, cursor)) ==>
          KnownTotal(GivenSizes(count, explicit, cursor), ExplicitOf(count)) <= root.value)
  }

  lemma {:induction false} KnownGrows(sizes: seq<Option<u64>>, a: nat, b: nat)
    requires a <= b <= |sizes|
    ensures KnownTotal(sizes, a) <= KnownTotal(sizes, b)
    decreases b
  {
    if a < b {
      KnownGrows(sizes, a, b - 1);
    }
  }

  lemma GivenOverflows(g: Given, i: nat, count: nat, explicit: Option<seq<u64>>, cursor: nat)
    requires 0 < i < count && GivenOk(g, i, explicit, cursor) && explicit.Some? && cursor + i - 1 < |explicit.value|
    ensures
      var size := OptionalSize(explicit.value[cursor + i - 1]);
      size.Some? && g.total + size.value > U64_MAX ==> !GivenAcceptable(count, explicit, cursor)
  {
    if Enough(explicit, cursor, ExplicitOf(count)) {
      var all := GivenSizes(count, explicit, cursor);
      assert all[..i - 1] == g.sizes;
      TotalOfPrefix(g.sizes, all, i - 1);
      KnownGrows(all, i, count - 1);
    }
  }

  lemma GivenEnds(g: Given, root: Option<u64>, count: nat, explicit: Option<seq<u64>>, cursor: nat)
    requires count > 1 && GivenOk(g, count, explicit, cursor)
    ensures GivenAcceptable(count, explicit, cursor)
    ensures SizesAcceptable(root, count, explicit, cursor)
      <==> (root.Some? && explicit.Some? && g.allKnown ==> g.total <= root.value)
  {
  }

  lemma NotGiven(root: Option<u64>, count: nat, explicit: Option<seq<u64>>, cursor: nat)
    ensures SizesAcceptable(root, count, explicit, cursor) ==> GivenAcceptable(count, explicit, cursor)
  {
  }

  lemma FewSizes(root: Option<u64>, count: nat, explicit: Option<seq<u64>>, cursor: nat)
    requires count <= 1
    ensures SizesAcceptable(root, count, explicit, cursor)
  {
  }

  /** Explicit sizes from the cursor on. */
  method ListGiven(count: u64, explicit: Option<seq<u64>>, cursor: nat, control: ParseControl)
      returns (r: Result<Given>, next: nat)
    requires count > 1
    modifies control
    ensures r.Success? ==> GivenOk(r.value, count, explicit, cursor)
    ensures r.Success? ==> next == cursor + if explicit.Some? then ExplicitOf(count) else 0
    ensures r.Failure? ==> SizeFault(r.error, explicit, cursor, count) && r.error != Format(SubstreamsExceedFolder)
    ensures r.Success? ==> control.Charged(count - 1)
    ensures r.Failure? ==> (Interrupted(r) && control.stopped) || !GivenAcceptable(count, explicit, cursor)
    ensures old(control.Ample(count - 1)) ==> !Interrupted(r)
  {
    hide GivenOk, KnownTotal, GivenSizes;
    next := cursor;
    var given := Given([], 0, true);
    NothingGiven(explicit, cursor);
    for i := 1 to count
      invariant next == cursor + if explicit.Some? then i - 1 else 0
      invariant GivenOk(given, i, explicit, cursor) && control.Charged(i - 1)
    {
      var charged := control.Checkpoint(1);
      if charged.Failure? {
        return Failure(charged.error), next;
      }
      GivenLength(given, i, explicit, cursor);
      ghost var before := given;
      if explicit.Some? {
        if next >= |explicit.value| {
          return Failure(Format(ExplicitSizesTooShort)), next;
        }
        GivenOverflows(given, i, count, explicit, cursor);
        var size := OptionalSize(explicit.value[next]);
        next := next + 1;
        if size.None? {
          given := Given(given.sizes + [size], given.total, false);
        } else if given.total + size.value > U64_MAX {
          return Failure(Format(SubstreamSumOverflows)), next;
        } else {
          given := Given(given.sizes + [size], given.total + size.value, given.allKnown);
        }
      } else {
        given := Given(given.sizes + [None], given.total, given.allKnown);
      }
      GivenStep(before, i, explicit, cursor, given);
    }
    return Success(given), next;
  }

  lemma GivenLength(g: Given, count: nat, explicit: Option<seq<u64>>, cursor: nat)
    requires GivenOk(g, count, explicit, cursor)
    ensures |g.sizes| == ExplicitOf(count)
  {
  }

  /** The vector is only found too short when it is. */
  predicate SizeFault(e: Error, explicit: Option<seq<u64>>, cursor: nat, count: nat) {
    || (e == Format(ExplicitSizesTooShort) && !Enough(explicit, cursor, ExplicitOf(count)))
    || Interruption(e) || e == Format(SubstreamSumOverflows) || e == Format(SubstreamsExceedFolder)
  }

  /** A lone substream has the folder's size; of several the last has the remainder. */
  method ListSizes(root: Option<u64>, count: u64, explicit: Option<seq<u64>>, cursor: nat, control: ParseControl)
      returns (r: Result<seq<Option<u64>>>, next: nat)
    modifies control
    ensures r.Success? ==> SizesOk(r.value, root, count, explicit, cursor)
    ensures r.Success? ==> next == cursor + if explicit.Some? then ExplicitOf(count) else 0
    ensures r.Failure? ==> SizeFault(r.error, explicit, cursor, count)
    ensures r == Failure(Format(SubstreamsExceedFolder)) ==>
      && Enough(explicit, cursor, ExplicitOf(count))
      && root.Some? && root.value < KnownTotal(GivenSizes(count, explicit, cursor), ExplicitOf(count))
    ensures r.Success? ==> SizesAcceptable(root, count, explicit, cursor) && control.Charged(ExplicitOf(count))
    ensures r.Failure? ==> (Interrupted(r) && control.stopped) || !SizesAcceptable(root, count, explicit, cursor)
    ensures old(control.Ample(ExplicitOf(count))) ==> !Interrupted(r)
  {
    hide SizesAcceptable, GivenAcceptable;
    if count <= 1 {
      FewSizes(root, count, explicit, cursor);
    }
    if count == 0 {
      return Success([]), cursor;
    }
    if count == 1 {
      return Success([root]), cursor;
    }
    var given;
    given, next := ListGiven(count, explicit, cursor, control);
    if given.Failure? {
      NotGiven(root, count, explicit, cursor);
      return Failure(given.error), next;
    }
    GivenEnds(given.value, root, count, explicit, cursor);
    var final: Option<u64> := None;
    if root.Some? && explicit.Some? && given.value.allKnown {
      if root.value < given.value.total {
        return Failure(Format(SubstreamsExceedFolder)), next;
      }
      final := Some(root.value - given.value.total);
    }
    var sizes := given.value.sizes + [final];
    assert sizes[..count - 1] == given.value.sizes;
    return Success(sizes), next;
  }

  /** A lone substream takes its folder's CRC; others take the listed ones in turn. */
  function SubstreamCrc(count: nat, folderCrc: Option<bv32>, crcs: Option<seq<Option<bv32>>>, start: nat,
                        i: nat): Option<bv32>
    requires i < count && EnoughCrcs(crcs, start, DigestsOf(count, folderCrc))
  {
    if count == 1 && folderCrc.Some? then folderCrc
    else if crcs.Some? then crcs.value[start + i]
    else None
  }

  predicate SubstreamsOk(subs: seq<Substream>, root: Option<u64>, folderCrc: Option<bv32>, count: nat,
                         explicit: Option<seq<u64>>, sizeStart: nat, crcs: Option<seq<Option<bv32>>>, crcStart: nat) {
    && |subs| == count
    && SizesOk(seq(count, i requires 0 <= i < count => subs[i].size), root, count, explicit, sizeStart)
    && EnoughCrcs(crcs, crcStart, DigestsOf(count, folderCrc))
    && forall i :: 0 <= i < count ==> subs[i].crc == SubstreamCrc(count, folderCrc, crcs, crcStart, i)
  }

  method PairSizes(sizes: seq<Option<u64>>, folderCrc: Option<bv32>, crcs: Option<seq<Option<bv32>>>, cursor: nat,
                   control: ParseControl)
      returns (r: Result<seq<Substream>>, next: nat)
    modifies control
    ensures r.Success? ==>
      && |r.value| == |sizes| && EnoughCrcs(crcs, cursor, DigestsOf(|sizes|, folderCrc))
      && (forall i :: 0 <= i < |sizes| ==>
            r.value[i].size == sizes[i] && r.value[i].crc == SubstreamCrc(|sizes|, folderCrc, crcs, cursor, i))
      && next == cursor + if crcs.Some? then DigestsOf(|sizes|, folderCrc) else 0
    ensures r.Failure? ==> r.error == Format(SubstreamCrcsTooShort) ==>
      !EnoughCrcs(crcs, cursor, DigestsOf(|sizes|, folderCrc))
    ensures r.Failure? ==> r.error == Format(SubstreamCrcsTooShort) || !LengthFault(r.error)
    ensures r.Success? ==> control.Charged(|sizes|)
    ensures r.Failure? ==>
      (Interrupted(r) && control.stopped) || !EnoughCrcs(crcs, cursor, DigestsOf(|sizes|, folderCrc))
    ensures old(control.Ample(|sizes|)) ==> !Interrupted(r)
  {
    next := cursor;
    var inherit := |sizes| == 1 && folderCrc.Some?;
    var subs: seq<Substream> := [];
    for i := 0 to |sizes|
      invariant |subs| == i && next == cursor + if crcs.Some? && !inherit then i else 0
      invariant (inherit || EnoughCrcs(crcs, cursor, i)) && control.Charged(i)
      invariant forall j :: 0 <= j < i ==> subs[j].size == sizes[j]
      invariant forall j :: 0 <= j < i ==>
        subs[j].crc == if inherit then folderCrc else if crcs.Some? then crcs.value[cursor + j] else None
    {
      var charged := control.Checkpoint(1);
      if charged.Failure? {
        return Failure(charged.error), next;
      }
      var crc := folderCrc;
      if !inherit {
        crc := None;
        if crcs.Some? {
          if next >= |crcs.value| {
            return Failure(Format(SubstreamCrcsTooShort)), next;
          }
          crc := crcs.value[next];
          next := next + 1;
        }
      }
      subs := subs + [Substream(sizes[i], crc)];
    }
    return Success(subs), next;
  }

  lemma PairedSizes(sizes: seq<Option<u64>>, subs: seq<Substream>, root: Option<u64>, folderCrc: Option<bv32>,
                    count: nat, explicit: Option<seq<u64>>, sizeStart: nat, crcs: Option<seq<Option<bv32>>>,
                    crcStart: nat)
    requires SizesOk(sizes, root, count, explicit, sizeStart)
    requires |subs| == |sizes| && EnoughCrcs(crcs, crcStart, DigestsOf(count, folderCrc))
    requires forall i :: 0 <= i < count ==>
      subs[i].size == sizes[i] && subs[i].crc == SubstreamCrc(count, folderCrc, crcs, crcStart, i)
    ensures SubstreamsOk(subs, root, folderCrc, count, explicit, sizeStart, crcs, crcStart)
  {
    assert seq(count, i requires 0 <= i < count => subs[i].size) == sizes;
  }

  predicate SubstreamsAcceptable(root: Option<u64>, folderCrc: Option<bv32>, count: nat, explicit: Option<seq<u64>>,
                                 sizeCursor: nat, crcs: Option<seq<Option<bv32>>>, crcCursor: nat) {
    SizesAcceptable(root, count, explicit, sizeCursor) && EnoughCrcs(crcs, crcCursor, DigestsOf(count, folderCrc))
  }

  function SubstreamWork(count: nat): nat {
    2 * count + ExplicitOf(count)
  }

  /** Both cursors advance by exactly what the folder's count calls for, and a vector
      is found too short only when it is. */
  method BuildSubstreams(root: Option<u64>, folderCrc: Option<bv32>, count: u64, explicit: Option<seq<u64>>,
                         sizeCursor: nat, crcs: Option<seq<Option<bv32>>>, crcCursor: nat, control: ParseControl)
      returns (r: Result<seq<Substream>>, sizeNext: nat, crcNext: nat)
    modifies control
    ensures r.Success? ==>
      && SubstreamsOk(r.value, root, folderCrc, count, explicit, sizeCursor, crcs, crcCursor)
      && sizeNext == sizeCursor + (if explicit.Some? then ExplicitOf(count) else 0)
      && crcNext == crcCursor + (if crcs.Some? then DigestsOf(count, folderCrc) else 0)
    ensures r.Failure? ==> SubstreamFault(r.error, folderCrc, count, explicit, sizeCursor, crcs, crcCursor)
    ensures r.Success? ==>
      && SubstreamsAcceptable(root, folderCrc, count, explicit, sizeCursor, crcs, crcCursor)
      && control.Charged(SubstreamWork(count))
    ensures r.Failure? ==>
      || (Interrupted(r) && control.stopped)
      || !SubstreamsAcceptable(root, folderCrc, count, explicit, sizeCursor, crcs, crcCursor)
    ensures old(control.Ample(SubstreamWork(count))) ==> !Interrupted(r)
  {
    hide SizesAcceptable, EnoughCrcs, SizesOk, SubstreamsOk, SizeFault, LengthFault;
    NotLengths();
    sizeNext, crcNext := sizeCursor, crcCursor;
    var charged := control.Checkpoint(count);
    if charged.Failure? {
      return Failure(charged.error), sizeNext, crcNext;
    }
    var sizes;
    sizes, sizeNext := ListSizes(root, count, explicit, sizeCursor, control);
    if sizes.Failure? {
      return Failure(sizes.error), sizeNext, crcNext;
    }
    SizesCounted(sizes.value, root, count, explicit, sizeCursor);
    var subs;
    subs, crcNext := PairSizes(sizes.value, folderCrc, crcs, crcCursor, control);
    if subs.Failure? {
      return Failure(subs.error), sizeNext, crcNext;
    }
    PairedSizes(sizes.value, subs.value, root, folderCrc, count, explicit, sizeCursor, crcs, crcCursor);
    return Success(subs.value), sizeNext, crcNext;
  }

  lemma SizesCounted(sizes: seq<Option<u64>>, root: Option<u64>, count: nat, explicit: Option<seq<u64>>, start: nat)
    requires SizesOk(sizes, root, count, explicit, start)
    ensures |sizes| == count
  {
  }

  predicate SubstreamFault(e: Error, folderCrc: Option<bv32>, count: nat, explicit: Option<seq<u64>>, sizeCursor: nat,
                           crcs: Option<seq<Option<bv32>>>, crcCursor: nat) {
    || SizeFault(e, explicit, sizeCursor, count)
    || (e == Format(SubstreamCrcsTooShort) && !EnoughCrcs(crcs, crcCursor, DigestsOf(count, folderCrc)))
    || !LengthFault(e)
  }

  /** Vectors long enough leave no length fault. */
  lemma NoLengthFault(e: Error, folderCrc: Option<bv32>, count: nat, explicit: Option<seq<u64>>, sizeCursor: nat,
                      crcs: Option<seq<Option<bv32>>>, crcCursor: nat)
    requires SubstreamFault(e, folderCrc, count, explicit, sizeCursor, crcs, crcCursor)
    requires Enough(explicit, sizeCursor, ExplicitOf(count)) && EnoughCrcs(crcs, crcCursor, DigestsOf(count, folderCrc))
    ensures !LengthFault(e)
  {
  }
}
