/** How a decoded folder divides into members, and how much of it may be decoded. */
module Slicing {
  import opened Support
  import opened Folders

  // ----- Offsets.

  /** Where member k starts; an unknown size runs to the end of the folder. */
  function Offset(sizes: seq<Option<u64>>, k: nat, folderSize: nat): nat
    requires k <= |sizes|
  {
    if k == 0 then 0
    else if sizes[k - 1].Some? then Offset(sizes, k - 1, folderSize) + sizes[k - 1].value
    else folderSize
  }

  /** Only the last size may be unknown. */
  predicate OnlyLastUnknown(sizes: seq<Option<u64>>) {
    forall k :: 0 <= k < |sizes| ==> sizes[k].Some? || k == |sizes| - 1
  }

  /** The sizes before member k are known, and it ends inside the folder. */
  predicate EndsInside(sizes: seq<Option<u64>>, k: nat, folderSize: nat) {
    && k < |sizes|
    && (forall j :: 0 <= j < k ==> sizes[j].Some?)
    && (sizes[k].Some? || k == |sizes| - 1)
    && Offset(sizes, k + 1, folderSize) <= folderSize
  }

  /** Member k can be cut out. (An unknown last size leaves open whether it starts inside.) */
  predicate Cuttable(sizes: seq<Option<u64>>, k: nat, folderSize: nat) {
    EndsInside(sizes, k, folderSize) && Offset(sizes, k, folderSize) <= Offset(sizes, k + 1, folderSize)
  }

  // ----- How much to decode.

  predicate SizesPermitted(sizes: seq<Option<u64>>, maxEntry: nat) {
    OnlyLastUnknown(sizes) && forall k :: 0 <= k < |sizes| ==> sizes[k].Some? ==> sizes[k].value <= maxEntry
  }

  function Permitted(sizes: seq<Option<u64>>, k: nat, maxEntry: nat): nat
    requires k <= |sizes|
  {
    if k == 0 then 0
    else Permitted(sizes, k - 1, maxEntry) + if sizes[k - 1].Some? then sizes[k - 1].value else maxEntry
  }

  predicate Decodable(sizes: seq<Option<u64>>, root: Option<u64>, maxEntry: nat, remaining: nat) {
    && (root.Some? ==> root.value <= remaining)
    && (|sizes| > 0 ==>
          && SizesPermitted(sizes, maxEntry)
          && Permitted(sizes, |sizes|, maxEntry) <= U64_MAX
          && (AllKnown(sizes) ==> root.Some? && root.value == Permitted(sizes, |sizes|, maxEntry)))
  }

  /** The output cap for a folder. */
  function DecodeMaximum(sizes: seq<Option<u64>>, maxEntry: nat, remaining: nat): nat {
    if |sizes| == 0 || Permitted(sizes, |sizes|, maxEntry) > remaining then remaining
    else Permitted(sizes, |sizes|, maxEntry)
  }

  /** More room keeps a folder decodable, with a cap at least as large. */
  lemma MoreRoom(sizes: seq<Option<u64>>, root: Option<u64>, maxEntry: nat, low: nat, high: nat)
    requires Decodable(sizes, root, maxEntry, low) && low <= high
    ensures Decodable(sizes, root, maxEntry, high)
    ensures DecodeMaximum(sizes, maxEntry, low) <= DecodeMaximum(sizes, maxEntry, high)
  {
  }

  lemma {:induction false} PermittedGrows(sizes: seq<Option<u64>>, a: nat, b: nat, maxEntry: nat)
    requires a <= b <= |sizes|
    ensures Permitted(sizes, a, maxEntry) <= Permitted(sizes, b, maxEntry)
    decreases b
  {
    if a < b {
      PermittedGrows(sizes, a, b - 1, maxEntry);
    }
  }

  datatype Allowance = Allowance(permitted: u64, unknownFinal: bool)

  predicate AllowanceOk(a: Allowance, sizes: seq<Option<u64>>, maxEntry: nat) {
    && SizesPermitted(sizes, maxEntry)
    && a.permitted == Permitted(sizes, |sizes|, maxEntry)
    && (a.unknownFinal <==> !AllKnown(sizes))
  }

  method AddUpAllowance(f: Folder, limits: Limits, control: ParseControl) returns (r: Result<Allowance>)
    modifies control
    ensures r.Success? ==>
      AllowanceOk(r.value, SizesOf(f), limits.maxEntryOutputBytes) && control.Charged(|f.substreams|)
    ensures r.Failure? ==>
      || (Interrupted(r) && control.stopped)
      || (MaximumFault(r.error)
          && (SizesPermitted(SizesOf(f), limits.maxEntryOutputBytes)
              ==> Permitted(SizesOf(f), |f.substreams|, limits.maxEntryOutputBytes) > U64_MAX))
    ensures old(control.Ample(|f.substreams|)) ==> !Interrupted(r)
  {
    ghost var sizes, maxEntry := SizesOf(f), limits.maxEntryOutputBytes;
    var permitted: nat, unknownFinal := 0, false;
    for k := 0 to |f.substreams|
      invariant permitted == Permitted(sizes, k, maxEntry) <= U64_MAX && control.Charged(k)
      invariant unknownFinal ==> 0 < k == |f.substreams| && sizes[k - 1].None?
      invariant !unknownFinal ==> forall j :: 0 <= j < k ==> sizes[j].Some?
      invariant forall j :: 0 <= j < k ==>
        (sizes[j].Some? ==> sizes[j].value <= maxEntry) && (sizes[j].Some? || j == |sizes| - 1)
    {
      var contribution := limits.maxEntryOutputBytes;
      var size := f.substreams[k].size;
      assert sizes[k] == size;
      if size.Some? {
        var _ :- CheckLimit(size.value, limits.maxEntryOutputBytes, EntryOutputBytes);
        contribution := size.value;
      } else if k + 1 == |f.substreams| {
        unknownFinal := true;
      } else {
        return Failure(UnsupportedFeature(UnknownNonfinalSubstreamSize));
      }
      PermittedGrows(sizes, k + 1, |sizes|, maxEntry);
      if permitted + contribution > U64_MAX {
        return Failure(Format(AllowanceOverflows));
      }
      permitted := permitted + contribution;
      var _ :- control.Checkpoint(1);
    }
    return Success(Allowance(permitted, unknownFinal));
  }

  method FolderDecodeMaximum(f: Folder, limits: Limits, remaining: u64, control: ParseControl) returns (r: Result<u64>)
    modifies control
    ensures r.Success? ==>
      && Decodable(SizesOf(f), RootSize(f), limits.maxEntryOutputBytes, remaining)
      && r.value == DecodeMaximum(SizesOf(f), limits.maxEntryOutputBytes, remaining) <= remaining
      && control.Charged(|f.substreams|)
    ensures r.Failure? ==>
      || (Interrupted(r) && control.stopped)
      || f.rootOutput >= |f.unpackSizes|
      || (!Decodable(SizesOf(f), RootSize(f), limits.maxEntryOutputBytes, remaining) && MaximumFault(r.error))
    ensures old(control.Ample(|f.substreams|)) ==> !Interrupted(r)
  {
    hide SizesPermitted, Permitted, AllKnown;
    if f.rootOutput >= |f.unpackSizes| {
      return Failure(Format(RootSizeMissing));
    }
    var declaredRoot := f.unpackSizes[f.rootOutput];
    if declaredRoot.Some? {
      var _ :- CheckLimit(declaredRoot.value, remaining, TotalOutputBytes);
    }
    if |f.substreams| == 0 {
      return Success(remaining);
    }
    var allowance :- AddUpAllowance(f, limits, control);
    if !allowance.unknownFinal && declaredRoot != Some(allowance.permitted) {
      return Failure(Format(SubstreamSizesMismatch));
    }
    return Success(if allowance.permitted < remaining then allowance.permitted else remaining);
  }

  predicate MaximumFault(e: Error) {
    || e == LimitExceeded(TotalOutputBytes) || e == LimitExceeded(EntryOutputBytes)
    || e == UnsupportedFeature(UnknownNonfinalSubstreamSize)
    || e == Format(AllowanceOverflows) || e == Format(SubstreamSizesMismatch)
  }

  // ----- Where one member lies.

  datatype Bounds = Bounds(start: nat, end: nat)

  method MemberBounds(f: Folder, target: nat, folderSize: nat, control: ParseControl) returns (r: Result<Bounds>)
    requires folderSize <= U64_MAX
    modifies control
    ensures r.Success? ==>
      && EndsInside(SizesOf(f), target, folderSize)
      && r.value == Bounds(Offset(SizesOf(f), target, folderSize), Offset(SizesOf(f), target + 1, folderSize))
      && control.Charged(target + 1)
    ensures r.Failure? ==> (Interrupted(r) && control.stopped) || !Cuttable(SizesOf(f), target, folderSize)
    ensures old(control.Ample(target + 1)) ==> !Interrupted(r)
  {
    if target >= |f.substreams| {
      return Failure(Format(SubstreamIndexOutside));
    }
    ghost var sizes := SizesOf(f);
    var start := 0;
    for k := 0 to |f.substreams|
      invariant k <= target && start == Offset(sizes, k, folderSize) && control.Charged(k)
      invariant forall j :: 0 <= j < k ==> sizes[j].Some?
    {
      var _ :- control.Checkpoint(1);
      var size := f.substreams[k].size;
      assert sizes[k] == size;
      if k == target {
        var end := folderSize;
        if size.Some? {
          if start + size.value > U64_MAX {
            return Failure(Format(MemberRangeOverflows));
          }
          end := start + size.value;
        } else if k + 1 != |f.substreams| {
          return Failure(UnsupportedFeature(UnknownNonfinalSubstreamSize));
        }
        if end > folderSize {
          return Failure(Format(MemberRangeOutside));
        }
        return Success(Bounds(start, end));
      }
      if size.None? {
        return Failure(UnsupportedFeature(UnknownPrecedingSubstreamSize));
      }
      if start + size.value > U64_MAX {
        OffsetGrows(sizes, k + 1, target, folderSize);
        return Failure(Format(MemberRangeOverflows));
      }
      start := start + size.value;
    }
    return Failure(Format(SubstreamIndexOutside));
  }

  lemma {:induction false} OffsetGrows(sizes: seq<Option<u64>>, a: nat, b: nat, folderSize: nat)
    requires a <= b <= |sizes|
    ensures (forall j :: 0 <= j < b ==> sizes[j].Some?) ==> Offset(sizes, a, folderSize) <= Offset(sizes, b, folderSize)
    decreases b
  {
    if a < b {
      OffsetGrows(sizes, a, b - 1, folderSize);
    }
  }

  // ----- The members fill the folder.

  lemma {:induction false} OffsetIsPermitted(sizes: seq<Option<u64>>, k: nat, maxEntry: nat, folderSize: nat)
    requires k <= |sizes| && forall j :: 0 <= j < k ==> sizes[j].Some?
    ensures Offset(sizes, k, folderSize) == Permitted(sizes, k, maxEntry)
    decreases k
  {
    if k > 0 {
      OffsetIsPermitted(sizes, k - 1, maxEntry, folderSize);
    }
  }

  /** The last member of a decodable folder ends where the folder ends. */
  lemma MembersEndWithFolder(sizes: seq<Option<u64>>, root: Option<u64>, maxEntry: nat, remaining: nat, folderSize: nat)
    requires Decodable(sizes, root, maxEntry, remaining) && |sizes| > 0 && (root.Some? ==> root.value == folderSize)
    ensures Offset(sizes, |sizes|, folderSize) == folderSize
  {
    var n := |sizes|;
    if sizes[n - 1].Some? {
      assert AllKnown(sizes);
      OffsetIsPermitted(sizes, n, maxEntry, folderSize);
    }
  }
}
