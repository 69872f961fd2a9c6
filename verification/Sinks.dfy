/** The event protocol of natural-order extraction, and the delivery of one member. */
module Sinks {
  import opened Support
  import Checksums

  datatype Event = Begin(member: nat, size: nat) | Write(member: nat, bytes: Bytes) | Finish(member: nat)

  datatype Delivery = Delivery(member: nat, bytes: Bytes)

  datatype Opened = Opened(member: nat, size: nat, written: Bytes)

  /** Where a run stands: members below `next` are over, one may be open. */
  datatype Trace = Trace(next: nat, open: Option<Opened>, finished: seq<Delivery>)

  /** Begin, then non-empty writes up to the announced size, then finish at exactly
      that size; members in increasing order. Anything else is a violation. */
  function Step(t: Trace, e: Event): Option<Trace> {
    match e
    case Begin(member, size) =>
      if t.open.None? && t.next <= member then Some(Trace(t.next, Some(Opened(member, size, [])), t.finished)) else None
    case Write(member, bytes) =>
      if t.open.Some? && t.open.value.member == member && |bytes| > 0
        && |t.open.value.written| + |bytes| <= t.open.value.size then
        Some(Trace(t.next, Some(Opened(member, t.open.value.size, t.open.value.written + bytes)), t.finished))
      else None
    case Finish(member) =>
      if t.open.Some? && t.open.value.member == member && |t.open.value.written| == t.open.value.size then
        Some(Trace(member + 1, None, t.finished + [Delivery(member, t.open.value.written)]))
      else None
  }

  function Follow(events: seq<Event>): Option<Trace> {
    if |events| == 0 then Some(Trace(0, None, []))
    else
      var before := Follow(events[..|events| - 1]);
      if before.None? then None else Step(before.value, events[|events| - 1])
  }

  lemma FollowOne(events: seq<Event>, e: Event)
    ensures Follow(events + [e]) == if Follow(events).None? then None else Step(Follow(events).value, e)
  {
    assert (events + [e])[..|events|] == events;
  }

  /** What the protocol means: finished members are in increasing order, below `next`,
      and an open one is not below it. */
  predicate InOrder(t: Trace) {
    && (forall j, k :: 0 <= j < k < |t.finished| ==> t.finished[j].member < t.finished[k].member)
    && (forall j :: 0 <= j < |t.finished| ==> t.finished[j].member < t.next)
    && (t.open.Some? ==> t.next <= t.open.value.member && |t.open.value.written| <= t.open.value.size)
  }

  lemma {:induction false} FollowedInOrder(events: seq<Event>)
    requires Follow(events).Some?
    ensures InOrder(Follow(events).value)
    decreases |events|
  {
    if |events| > 0 {
      FollowedInOrder(events[..|events| - 1]);
    }
  }

  /** The member an event is about. */
  function About(e: Event): nat {
    match e
    case Begin(member, _) => member
    case Write(member, _) => member
    case Finish(member) => member
  }

  /** The member was finished, or is the open one. */
  predicate Known(t: Trace, member: nat) {
    || (exists d :: d in t.finished && d.member == member)
    || (t.open.Some? && t.open.value.member == member)
  }

  lemma StepKnows(t: Trace, e: Event, member: nat)
    requires Step(t, e).Some? && (Known(t, member) || About(e) == member)
    ensures Known(Step(t, e).value, member)
  {
    var after := Step(t, e).value;
    if e.Finish? {
      assert Delivery(e.member, t.open.value.written) in after.finished;
      if exists d :: d in t.finished && d.member == member {
        var d :| d in t.finished && d.member == member;
        assert d in after.finished;
      }
    }
  }

  /** Every event is about a finished member or the open one. */
  lemma {:induction false} EventsKnown(events: seq<Event>, k: nat)
    requires Follow(events).Some? && k < |events|
    ensures Known(Follow(events).value, About(events[k]))
    decreases |events|
  {
    hide Known, Step;
    var before, last := events[..|events| - 1], events[|events| - 1];
    if k < |events| - 1 {
      EventsKnown(before, k);
    }
    StepKnows(Follow(before).value, last, About(events[k]));
  }

  /** Everything written for one member. */
  function Written(events: seq<Event>, member: nat): Bytes {
    if |events| == 0 then []
    else
      var last := events[|events| - 1];
      Written(events[..|events| - 1], member) + if last.Write? && last.member == member then last.bytes else []
  }

  /** A finished member's bytes are all that was ever written for it, in order; an open
      member has what was written so far, and nothing else was written to. */
  lemma {:induction false} FollowedWrites(events: seq<Event>, member: nat)
    requires Follow(events).Some?
    ensures
      var t := Follow(events).value;
      && (forall k :: 0 <= k < |t.finished| && t.finished[k].member == member ==>
          Written(events, member) == t.finished[k].bytes)
      && (t.open.Some? && t.open.value.member == member ==> Written(events, member) == t.open.value.written)
      && (t.next <= member && (t.open.None? || t.open.value.member != member) ==> Written(events, member) == [])
    decreases |events|
  {
    if |events| > 0 {
      var before := events[..|events| - 1];
      FollowedInOrder(before);
      FollowedWrites(before, member);
      StepWrites(Follow(before).value, events[|events| - 1], Written(before, member), member);
    }
  }

  predicate WritesMatch(t: Trace, written: Bytes, member: nat) {
    && (forall k :: 0 <= k < |t.finished| && t.finished[k].member == member ==> written == t.finished[k].bytes)
    && (t.open.Some? && t.open.value.member == member ==> written == t.open.value.written)
    && (t.next <= member && (t.open.None? || t.open.value.member != member) ==> written == [])
  }

  lemma StepWrites(t: Trace, e: Event, written: Bytes, member: nat)
    requires InOrder(t) && WritesMatch(t, written, member) && Step(t, e).Some?
    ensures WritesMatch(Step(t, e).value, written + (if e.Write? && e.member == member then e.bytes else []), member)
  {
    if !(e.Write? && e.member == member) {
      assert written + [] == written;
    }
  }

  /** Member m was begun with this size at j, and since then only non-empty writes to it. */
  predicate OpenSince(events: seq<Event>, j: nat, member: nat, size: nat) {
    && j < |events| && events[j] == Begin(member, size)
    && forall i :: j < i < |events| ==> events[i].Write? && events[i].member == member && |events[i].bytes| > 0
  }

  lemma {:induction false} OpenBegun(events: seq<Event>) returns (j: nat)
    requires Follow(events).Some? && Follow(events).value.open.Some?
    ensures
      var o := Follow(events).value.open.value;
      OpenSince(events, j, o.member, o.size) && o.written == Written(events, o.member)
    decreases |events|
  {
    FollowedWrites(events, Follow(events).value.open.value.member);
    var before, last := events[..|events| - 1], events[|events| - 1];
    if last.Begin? {
      j := |events| - 1;
    } else {
      j := OpenBegun(before);
    }
  }

  /** Every finish event closes a bracket: the member was begun with a size, then only
      written to, without empty writes, and what was written has that size. */
  lemma FinishCloses(events: seq<Event>, k: nat) returns (j: nat, size: nat)
    requires Follow(events).Some? && k < |events| && events[k].Finish?
    ensures j < k && OpenSince(events[..k], j, events[k].member, size)
    ensures |Written(events[..k], events[k].member)| == size
  {
    FollowedBefore(events, k + 1);
    FollowedBefore(events, k);
    assert events[..k + 1][..k] == events[..k];
    size := Follow(events[..k]).value.open.value.size;
    j := OpenBegun(events[..k]);
  }

  /** Every write belongs to the open bracket and does not exceed its size. */
  lemma WriteInside(events: seq<Event>, k: nat) returns (j: nat, size: nat)
    requires Follow(events).Some? && k < |events| && events[k].Write?
    ensures j < k && OpenSince(events[..k], j, events[k].member, size) && |events[k].bytes| > 0
    ensures |Written(events[..k], events[k].member)| + |events[k].bytes| <= size
  {
    FollowedBefore(events, k + 1);
    FollowedBefore(events, k);
    assert events[..k + 1][..k] == events[..k];
    size := Follow(events[..k]).value.open.value.size;
    j := OpenBegun(events[..k]);
  }

  lemma {:induction false} FollowedBefore(events: seq<Event>, k: nat)
    requires Follow(events).Some? && k <= |events|
    ensures Follow(events[..k]).Some?
    decreases |events|
  {
    if k < |events| {
      FollowedBefore(events[..|events| - 1], k);
      assert events[..|events| - 1][..k] == events[..k];
    } else {
      assert events[..k] == events;
    }
  }

  /** Members are begun one after the other: when one is, the one before it was finished. */
  lemma BeginsApart(events: seq<Event>, k: nat)
    requires Follow(events).Some? && k < |events| && events[k].Begin?
    ensures k > 0 ==> events[k - 1].Finish? && events[k - 1].member < events[k].member
  {
    FollowedBefore(events, k + 1);
    FollowedBefore(events, k);
    assert events[..k + 1][..k] == events[..k];
    if k > 0 {
      assert events[..k][..k - 1] == events[..k - 1];
    }
  }

  /** The caller's sink: it sees every call, and may refuse one. `patience` counts the
      calls it still accepts (None: all of them). */
  class EntrySink {
    var events: seq<Event>
    var patience: Option<nat>

    constructor (patience: Option<nat>)
      ensures events == [] && this.patience == patience
    {
      events, this.patience := [], patience;
    }

    method Accept() returns (r: Result<()>)
      modifies this`patience
      ensures r.Failure? ==> r.error == Error.Sink
    {
      if patience.Some? {
        if patience.value == 0 {
          return Failure(Error.Sink);
        }
        patience := Some(patience.value - 1);
      }
      return Success(());
    }

    method BeginEntry(member: nat, size: nat) returns (r: Result<()>)
      modifies this
      ensures events == old(events) + [Begin(member, size)] && (r.Failure? ==> r.error == Error.Sink)
    {
      events := events + [Begin(member, size)];
      r := Accept();
    }

    method WriteEntry(member: nat, bytes: Bytes) returns (r: Result<()>)
      modifies this
      ensures events == old(events) + [Write(member, bytes)] && (r.Failure? ==> r.error == Error.Sink)
    {
      events := events + [Write(member, bytes)];
      r := Accept();
    }

    method FinishEntry(member: nat) returns (r: Result<()>)
      modifies this
      ensures events == old(events) + [Finish(member)] && (r.Failure? ==> r.error == Error.Sink)
    {
      events := events + [Finish(member)];
      r := Accept();
    }
  }

  // ----- One member.

  predicate CrcFits(bytes: Bytes, expected: Option<bv32>) {
    expected.Some? ==> Checksums.Crc(bytes) == expected.value
  }

  /** The member is open, and what was written is the beginning of its bytes. */
  predicate Begun(before: Trace, after: Trace, member: nat, bytes: Bytes) {
    && after.finished == before.finished && after.open.Some?
    && after.open.value.member == member && after.open.value.size == |bytes| && after.open.value.written <= bytes
  }

  /** After a failure the member is open, or it is finished and its checksum fits. */
  predicate Attempted(before: Trace, after: Option<Trace>, member: nat, bytes: Bytes, crc: Option<bv32>) {
    && after.Some?
    && (Begun(before, after.value, member, bytes)
        || (after.value == Trace(member + 1, None, before.finished + [Delivery(member, bytes)]) && CrcFits(bytes, crc)))
  }

  method WriteChunks(sink: EntrySink, member: nat, bytes: Bytes, ghost before: Trace, crc: Checksums.Crc32,
                     control: ParseControl)
      returns (r: Result<()>)
    requires |bytes| <= U64_MAX && crc.state == Checksums.INITIAL
    requires Follow(sink.events) == Some(Trace(before.next, Some(Opened(member, |bytes|, [])), before.finished))
    modifies sink, crc, control
    ensures r.Success? ==>
      && Follow(sink.events) == Some(Trace(before.next, Some(Opened(member, |bytes|, bytes)), before.finished))
      && crc.state == Checksums.Feed(Checksums.INITIAL, bytes) && control.Charged(|bytes|)
    ensures r.Failure? ==> Follow(sink.events).Some? && Begun(before, Follow(sink.events).value, member, bytes)
    ensures r.Failure? ==> (Interrupted(r) && control.stopped) || r.error == Error.Sink
  {
    hide Follow, Checksums.Feed;
    var done := 0;
    ghost var written: Bytes := [];
    EmptyFeed();
    while done < |bytes|
      invariant 0 <= done <= |bytes| && written == bytes[..done] && control.Charged(done)
      invariant Follow(sink.events) == Some(Trace(before.next, Some(Opened(member, |bytes|, written)), before.finished))
      invariant crc.state == Checksums.Feed(Checksums.INITIAL, written)
    {
      var next := if |bytes| - done < IO_CHUNK_SIZE then |bytes| else done + IO_CHUNK_SIZE;
      var chunk := bytes[done..next];
      var _ :- control.ConsumeBytes(next - done);
      crc.Update(chunk);
      Checksums.FeedSplit(Checksums.INITIAL, written, chunk);
      FollowOne(sink.events, Write(member, chunk));
      written := written + chunk;
      assert written == bytes[..next];
      var _ :- sink.WriteEntry(member, chunk);
      done := next;
    }
    assert bytes[..done] == bytes;
    return Success(());
  }

  lemma EmptyFeed()
    ensures Checksums.INITIAL == Checksums.Feed(Checksums.INITIAL, [])
  {
  }

  /** The finish event comes only after the announced size was written and the
      checksum fitted. */
  method DeliverMember(sink: EntrySink, member: nat, bytes: Bytes, expected: Option<bv32>, encrypted: bool,
                       ghost before: Trace, control: ParseControl)
      returns (r: Result<()>)
    requires |bytes| <= U64_MAX && Follow(sink.events) == Some(before) && before.open.None? && before.next <= member
    modifies sink, control
    ensures r.Success? ==>
      && CrcFits(bytes, expected) && control.Charged(|bytes|)
      && Follow(sink.events) == Some(Trace(member + 1, None, before.finished + [Delivery(member, bytes)]))
    ensures r.Failure? ==> Attempted(before, Follow(sink.events), member, bytes, expected)
    ensures r.Failure? ==>
      || (Interrupted(r) && control.stopped) || r.error == Error.Sink
      || (!CrcFits(bytes, expected) && r.error == if encrypted then WrongPasswordOrCorrupt
          else Checksum(Member, Some(member)))
  {
    hide Follow, Checksums.Feed, Checksums.Complement;
    FollowOne(sink.events, Begin(member, |bytes|));
    var _ :- sink.BeginEntry(member, |bytes|);
    var crc := new Checksums.Crc32();
    var _ :- WriteChunks(sink, member, bytes, before, crc, control);
    if expected.Some? && crc.Finalize() != expected.value {
      return Failure(if encrypted then WrongPasswordOrCorrupt else Checksum(Member, Some(member)));
    }
    FollowOne(sink.events, Finish(member));
    r := sink.FinishEntry(member);
  }
}
