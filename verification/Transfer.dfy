/** Sending objects in batches (src/main.rs:4443-4490, src/main.rs:4762-4803,
    src/main.rs:6373-6405, src/main.rs:6480-6494). Sender and receiver cut the same list
    into the same batches; the receiver acknowledges each batch with what it holds so far. */
module Transfer {
  import opened Utils
  import opened Model

  const TRANSFER_BATCH_OBJECTS := 1024
  const TRANSFER_BATCH_BYTES := 16 * 1024 * 1024
  const MAX_TRANSFER_RECEIPTS := 2048

  type Size = n: nat | n <= U64_MAX

  datatype Object = Object(hash: ObjectHash, size: Size)

  /** The bytes of `objects[start..end]`. */
  function Total(objects: seq<Object>, start: nat, end: nat): nat
    requires start <= end <= |objects|
  {
    if start == end then 0 else Total(objects, start, end - 1) + objects[end - 1].size
  }

  /** The bytes of the first objects, as a saturating machine word counts them. */
  function Capped(objects: seq<Object>, end: nat): nat
    requires end <= |objects|
  {
    Min(Total(objects, 0, end), U64_MAX)
  }

  lemma {:induction false} CappedGrows(objects: seq<Object>, i: nat, j: nat)
    requires i <= j <= |objects|
    ensures Capped(objects, i) <= Capped(objects, j)
  {
    if i < j {
      CappedGrows(objects, i, j - 1);
    }
  }

  // ---------------------------------------------------------------- cutting

  /** Where the batch from `start` ends, once it reaches up to `index` with so many bytes. */
  function Extend(objects: seq<Object>, start: nat, index: nat, bytes: nat): (end: nat)
    requires start < index <= |objects|
    ensures index <= end <= |objects|
    decreases |objects| - index
  {
    if index == |objects|
       || index - start == TRANSFER_BATCH_OBJECTS
       || SaturatingAdd(bytes, objects[index].size) > TRANSFER_BATCH_BYTES then index
    else Extend(objects, start, index + 1, SaturatingAdd(bytes, objects[index].size))
  }

  function NextEnd(objects: seq<Object>, start: nat): (end: nat)
    requires start < |objects|
    ensures start < end <= |objects|
  {
    Extend(objects, start, start + 1, SaturatingAdd(0, objects[start].size))
  }

  function EndsFrom(objects: seq<Object>, start: nat): seq<nat>
    requires start <= |objects|
    decreases |objects| - start
  {
    if start == |objects| then [] else [NextEnd(objects, start)] + EndsFrom(objects, NextEnd(objects, start))
  }

  function BatchEnds(objects: seq<Object>): seq<nat> { EndsFrom(objects, 0) }

  /** The ends still to come, in the middle of a batch. */
  ghost function Remainder(objects: seq<Object>, start: nat, index: nat, bytes: nat): seq<nat>
    requires start <= index <= |objects|
  {
    if start == index then EndsFrom(objects, start)
    else [Extend(objects, start, index, bytes)] + EndsFrom(objects, Extend(objects, start, index, bytes))
  }

  predicate Breaks(objects: seq<Object>, start: nat, index: nat, bytes: nat)
    requires index < |objects|
  {
    index > start
    && (index - start == TRANSFER_BATCH_OBJECTS || SaturatingAdd(bytes, objects[index].size) > TRANSFER_BATCH_BYTES)
  }

  lemma RemainderOpens(objects: seq<Object>, start: nat)
    requires start < |objects|
    ensures Remainder(objects, start, start, 0) == Remainder(objects, start, start + 1, SaturatingAdd(0, objects[start].size))
  {
    assert EndsFrom(objects, start) == [NextEnd(objects, start)] + EndsFrom(objects, NextEnd(objects, start));
  }

  lemma RemainderExtends(objects: seq<Object>, start: nat, index: nat, bytes: nat)
    requires start < index < |objects| && !Breaks(objects, start, index, bytes)
    ensures Remainder(objects, start, index, bytes)
            == Remainder(objects, start, index + 1, SaturatingAdd(bytes, objects[index].size))
  {
    assert Extend(objects, start, index, bytes)
        == Extend(objects, start, index + 1, SaturatingAdd(bytes, objects[index].size));
  }

  lemma RemainderCloses(objects: seq<Object>, start: nat, index: nat, bytes: nat)
    requires index < |objects| && Breaks(objects, start, index, bytes)
    ensures Remainder(objects, start, index, bytes) == [index] + Remainder(objects, index, index, 0)
  {
    assert Extend(objects, start, index, bytes) == index;
  }

  /** One object further: the batch is closed before it, or goes on. */
  lemma RemainderAdvances(objects: seq<Object>, start: nat, index: nat, bytes: nat)
    requires start <= index < |objects| && (start == index ==> bytes == 0)
    ensures Breaks(objects, start, index, bytes) ==>
              Remainder(objects, start, index, bytes)
              == [index] + Remainder(objects, index, index + 1, SaturatingAdd(0, objects[index].size))
    ensures !Breaks(objects, start, index, bytes) ==>
              Remainder(objects, start, index, bytes)
              == Remainder(objects, start, index + 1, SaturatingAdd(bytes, objects[index].size))
  {
    RemainderOpens(objects, index);
    if start < index {
      if Breaks(objects, start, index, bytes) {
        RemainderCloses(objects, start, index, bytes);
      } else {
        RemainderExtends(objects, start, index, bytes);
      }
    }
  }

  /** The loop's own variables after one object: the ends pushed, and the batch under way. */
  function Pushed(objects: seq<Object>, ends: seq<nat>, start: nat, index: nat, bytes: nat): (seq<nat>, nat, nat)
    requires index < |objects|
  {
    if Breaks(objects, start, index, bytes) then (ends + [index], index, SaturatingAdd(0, objects[index].size))
    else (ends, start, SaturatingAdd(bytes, objects[index].size))
  }

  lemma PushedKeeps(objects: seq<Object>, ends: seq<nat>, start: nat, index: nat, bytes: nat)
    requires start <= index < |objects| && (start == index ==> bytes == 0)
    ensures var (e, s, b) := Pushed(objects, ends, start, index, bytes);
            s <= index && ends + Remainder(objects, start, index, bytes) == e + Remainder(objects, s, index + 1, b)
  {
    RemainderAdvances(objects, start, index, bytes);
    PushEnd(ends, index, Remainder(objects, index, index + 1, SaturatingAdd(0, objects[index].size)));
  }

  lemma RemainderEnds(objects: seq<Object>, start: nat, bytes: nat)
    requires start <= |objects|
    ensures Remainder(objects, start, |objects|, bytes) == if start < |objects| then [|objects|] else []
  {
  }

  method TransferBatchEnds(objects: seq<Object>) returns (result: Option<seq<nat>>)
    ensures result == if |BatchEnds(objects)| > MAX_TRANSFER_RECEIPTS then None else Some(BatchEnds(objects))
  {
    var ends := CutBatches(objects);
    result := if |ends| > MAX_TRANSFER_RECEIPTS then None else Some(ends);
  }

  /** The ends pushed so far and those still to come are the ends of the list. */
  ghost predicate CutSoFar(objects: seq<Object>, ends: seq<nat>, start: nat, index: nat, bytes: nat)
  {
    && start <= index <= |objects| && (start == index ==> bytes == 0)
    && BatchEnds(objects) == ends + Remainder(objects, start, index, bytes)
  }

  lemma CutStarts(objects: seq<Object>)
    ensures CutSoFar(objects, [], 0, 0, 0)
  {
    assert [] + EndsFrom(objects, 0) == EndsFrom(objects, 0);
  }

  lemma CutDone(objects: seq<Object>, ends: seq<nat>, start: nat, bytes: nat)
    requires CutSoFar(objects, ends, start, |objects|, bytes)
    ensures BatchEnds(objects) == ends + if start < |objects| then [|objects|] else []
  {
    RemainderEnds(objects, start, bytes);
  }

  /** One turn of the loop. */
  method CutAt(objects: seq<Object>, ends0: seq<nat>, start0: nat, index: nat, bytes0: nat)
    returns (ends: seq<nat>, batchStart: nat, batchBytes: nat)
    requires index < |objects| && CutSoFar(objects, ends0, start0, index, bytes0)
    ensures CutSoFar(objects, ends, batchStart, index + 1, batchBytes)
  {
    ends, batchStart, batchBytes := ends0, start0, bytes0;
    PushedKeeps(objects, ends, batchStart, index, batchBytes);
    if Breaks(objects, batchStart, index, batchBytes) {
      ends := ends + [index];
      batchStart, batchBytes := index, 0;
    }
    batchBytes := SaturatingAdd(batchBytes, objects[index].size);
  }

  method CutAll(objects: seq<Object>) returns (ends: seq<nat>, batchStart: nat, batchBytes: nat)
    ensures CutSoFar(objects, ends, batchStart, |objects|, batchBytes)
  {
    ends, batchStart, batchBytes := [], 0, 0;
    CutStarts(objects);
    for index := 0 to |objects|
      invariant CutSoFar(objects, ends, batchStart, index, batchBytes)
    {
      ends, batchStart, batchBytes := CutAt(objects, ends, batchStart, index, batchBytes);
    }
  }

  method CutBatches(objects: seq<Object>) returns (ends: seq<nat>)
    ensures ends == BatchEnds(objects)
  {
    var batchStart: nat, batchBytes: nat;
    ends, batchStart, batchBytes := CutAll(objects);
    CutDone(objects, ends, batchStart, batchBytes);
    if batchStart < |objects| {
      ends := ends + [|objects|];
    } else {
      assert ends + [] == ends;
    }
  }

  lemma PushEnd(ends: seq<nat>, end: nat, rest: seq<nat>)
    ensures ends + ([end] + rest) == (ends + [end]) + rest
  {
  }

  // ---------------------------------------------------------------- what the batches are

  /** A batch may hold so many objects and so many bytes; a single object always fits. */
  predicate Fits(objects: seq<Object>, start: nat, end: nat)
    requires start <= end <= |objects|
  {
    end - start <= TRANSFER_BATCH_OBJECTS && (end - start == 1 || Total(objects, start, end) <= TRANSFER_BATCH_BYTES)
  }

  /** Ends of consecutive non-empty batches from `start` to the end of the list. */
  predicate Cuts(ends: seq<nat>, start: nat, length: nat)
  {
    if ends == [] then start == length else start < ends[0] <= length && Cuts(ends[1..], ends[0], length)
  }

  predicate AllFit(objects: seq<Object>, ends: seq<nat>, start: nat)
    requires Cuts(ends, start, |objects|)
    decreases |ends|
  {
    ends != [] ==> Fits(objects, start, ends[0]) && AllFit(objects, ends[1..], ends[0])
  }

  lemma {:induction false} TotalSplits(objects: seq<Object>, a: nat, b: nat, c: nat)
    requires a <= b <= c <= |objects|
    ensures Total(objects, a, c) == Total(objects, a, b) + Total(objects, b, c)
  {
    if b < c {
      TotalSplits(objects, a, b, c - 1);
    }
  }

  lemma TotalOfOne(objects: seq<Object>, i: nat)
    requires i < |objects|
    ensures Total(objects, i, i + 1) == objects[i].size && Total(objects, i, i) == 0
  {
    assert Total(objects, i, i + 1) == Total(objects, i, i) + objects[i].size;
  }

  /** A part of a batch that fits, fits. */
  lemma FitsWithin(objects: seq<Object>, a: nat, b: nat, c: nat, d: nat)
    requires a <= b < c <= d <= |objects| && Fits(objects, a, d)
    ensures Fits(objects, b, c)
  {
    TotalSplits(objects, a, b, d);
    TotalSplits(objects, b, c, d);
  }

  /** The greedy batch fits, and the next object would not. */
  lemma {:induction false} ExtendIsGreedy(objects: seq<Object>, start: nat, index: nat, bytes: nat)
    requires start < index <= |objects| && Fits(objects, start, index)
    requires bytes == (if Total(objects, start, index) > U64_MAX then U64_MAX else Total(objects, start, index))
    ensures var end := Extend(objects, start, index, bytes);
            Fits(objects, start, end) && (end < |objects| ==> !Fits(objects, start, end + 1))
    decreases |objects| - index
  {
    if index < |objects| {
      assert Total(objects, start, index + 1) == Total(objects, start, index) + objects[index].size;
      if !(index - start == TRANSFER_BATCH_OBJECTS
           || SaturatingAdd(bytes, objects[index].size) > TRANSFER_BATCH_BYTES) {
        ExtendIsGreedy(objects, start, index + 1, SaturatingAdd(bytes, objects[index].size));
      }
    }
  }

  lemma NextEndIsGreedy(objects: seq<Object>, start: nat)
    requires start < |objects|
    ensures Fits(objects, start, NextEnd(objects, start))
    ensures NextEnd(objects, start) < |objects| ==> !Fits(objects, start, NextEnd(objects, start) + 1)
  {
    assert Total(objects, start, start + 1) == Total(objects, start, start) + objects[start].size;
    ExtendIsGreedy(objects, start, start + 1, SaturatingAdd(0, objects[start].size));
  }

  lemma {:induction false} EndsFromCut(objects: seq<Object>, start: nat)
    requires start <= |objects|
    ensures Cuts(EndsFrom(objects, start), start, |objects|) && AllFit(objects, EndsFrom(objects, start), start)
    decreases |objects| - start
  {
    if start < |objects| {
      NextEndIsGreedy(objects, start);
      EndsFromCut(objects, NextEnd(objects, start));
    }
  }

  /** Starting no earlier, the greedy cut needs no more batches than any other. */
  lemma {:induction false} GreedyStaysAhead(objects: seq<Object>, start: nat, other: seq<nat>, otherStart: nat)
    requires otherStart <= start <= |objects|
    requires Cuts(other, otherStart, |objects|) && AllFit(objects, other, otherStart)
    ensures |EndsFrom(objects, start)| <= |other|
    decreases |other|
  {
    if start < |objects| {
      var end := NextEnd(objects, start);
      NextEndIsGreedy(objects, start);
      if end < other[0] {
        FitsWithin(objects, otherStart, start, end + 1, other[0]);
        assert false;
      }
      GreedyStaysAhead(objects, end, other[1..], other[0]);
    }
  }

  /** The batches are a partition of the list; each keeps both limits or is one object;
      and no partition that does has fewer. */
  lemma BatchesAreMinimal(objects: seq<Object>)
    ensures Cuts(BatchEnds(objects), 0, |objects|) && AllFit(objects, BatchEnds(objects), 0)
    ensures forall other: seq<nat> :: Cuts(other, 0, |objects|) && AllFit(objects, other, 0) ==>
              |BatchEnds(objects)| <= |other|
  {
    EndsFromCut(objects, 0);
    forall other: seq<nat> | Cuts(other, 0, |objects|) && AllFit(objects, other, 0)
      ensures |BatchEnds(objects)| <= |other|
    {
      GreedyStaysAhead(objects, 0, other, 0);
    }
  }

  // ---------------------------------------------------------------- the receiver

  datatype Frame = ObjectStart(item: Object) | TransferBatchEnd | Done

  datatype Receipt = Receipt(objects: nat, bytes: nat)

  datatype Inbox = Inbox(requested: seq<Object>, ends: seq<nat>, objects: nat, bytes: nat)

  datatype Reaction = Refused | Taken(inbox: Inbox, receipts: seq<Receipt>)

  function Serve(s: Inbox, f: Frame, limit: nat): Reaction
  {
    match f
    case ObjectStart(item) =>
      if (s.ends != [] && s.ends[0] == s.objects) || s.requested == [] || item != s.requested[0] then Refused
      else
        var bytes := SaturatingAdd(s.bytes, item.size);
        if bytes > limit then Refused
        else Taken(s.(requested := s.requested[1..], objects := s.objects + 1, bytes := bytes), [])
    case TransferBatchEnd =>
      if s.ends == [] || s.ends[0] != s.objects then Refused
      else Taken(s.(ends := s.ends[1..]), [Receipt(s.objects, s.bytes)])
    case Done => if s.requested != [] || s.ends != [] then Refused else Taken(s, [])
  }

  /** The receiving side of a session, from the moment its request is sent. */
  class Receiver {
    var requested: seq<Object>
    var ends: seq<nat>
    var objects: nat
    var bytes: nat
    const limit: nat

    constructor (requested: seq<Object>, ends: seq<nat>, limit: nat)
      ensures Value() == Inbox(requested, ends, 0, 0) && this.limit == limit
    {
      this.requested, this.ends, this.limit := requested, ends, limit;
      objects, bytes := 0, 0;
    }

    function Value(): Inbox
      reads this
    {
      Inbox(requested, ends, objects, bytes)
    }

    method TakeObject(item: Object) returns (ok: bool)
      modifies this
      ensures var reaction := Serve(old(Value()), ObjectStart(item), limit);
              ok == reaction.Taken? && (ok ==> Value() == reaction.inbox)
      ensures ends == old(ends) && (!ok ==> objects == old(objects))
    {
      if ends != [] && ends[0] == objects {
        return false;
      }
      if requested == [] {
        return false;
      }
      var expected := requested[0];
      requested := requested[1..];
      if item != expected {
        return false;
      }
      bytes := SaturatingAdd(bytes, item.size);
      if bytes > limit {
        return false;
      }
      objects := objects + 1;
      ok := true;
    }

    method TakeBatchEnd() returns (receipt: Option<Receipt>)
      modifies this
      ensures var reaction := Serve(old(Value()), TransferBatchEnd, limit);
              receipt.Some? == reaction.Taken?
              && (receipt.Some? ==> Value() == reaction.inbox && [receipt.value] == reaction.receipts)
              && (receipt.None? ==> Value() == old(Value()))
    {
      if ends == [] || ends[0] != objects {
        return None;
      }
      ends := ends[1..];
      receipt := Some(Receipt(objects, bytes));
    }

    method TakeDone() returns (ok: bool)
      ensures ok == Serve(Value(), Done, limit).Taken?
    {
      ok := requested == [] && ends == [];
    }
  }

  // ---------------------------------------------------------------- the sender

  datatype SendResult = ExceedsByteLimit | TooManyBatches | Rejected | WrongReceipt | Sent(receipts: seq<Receipt>)

  /** The receipts a sender expects: after each batch, everything sent so far. */
  function ExpectedReceipts(objects: seq<Object>, ends: seq<nat>): seq<Receipt>
    requires forall k :: 0 <= k < |ends| ==> ends[k] <= |objects|
  {
    seq(|ends|, k requires 0 <= k < |ends| => Receipt(ends[k], Capped(objects, ends[k])))
  }

  lemma {:induction false} CutsWithin(ends: seq<nat>, start: nat, length: nat)
    requires Cuts(ends, start, length)
    ensures start <= length && forall k :: 0 <= k < |ends| ==> start < ends[k] <= length
    decreases |ends|
  {
    if ends != [] {
      CutsWithin(ends[1..], ends[0], length);
      assert forall k :: 0 < k < |ends| ==> ends[k] == ends[1..][k - 1];
    }
  }

  lemma {:induction false} CutsTail(ends: seq<nat>, start: nat, length: nat, k: nat)
    requires Cuts(ends, start, length) && k <= |ends|
    ensures Cuts(ends[k..], if k == 0 then start else ends[k - 1], length)
    decreases k
  {
    if k > 0 {
      CutsTail(ends, start, length, k - 1);
      assert ends[k - 1..][1..] == ends[k..];
    } else {
      assert ends[0..] == ends;
    }
  }

  lemma {:induction false} AllFitTail(objects: seq<Object>, ends: seq<nat>, start: nat, k: nat)
    requires Cuts(ends, start, |objects|) && AllFit(objects, ends, start) && k <= |ends|
    ensures Cuts(ends[k..], if k == 0 then start else ends[k - 1], |objects|)
    ensures AllFit(objects, ends[k..], if k == 0 then start else ends[k - 1])
    decreases k
  {
    CutsTail(ends, start, |objects|, k);
    if k > 0 {
      AllFitTail(objects, ends, start, k - 1);
      assert ends[k - 1..][1..] == ends[k..];
    } else {
      assert ends[0..] == ends;
    }
  }

  /** One batch: its objects, one after the other, up to the first the receiver refuses. */
  method SendObjects(objects: seq<Object>, start: nat, end: nat, receiver: Receiver) returns (ok: bool)
    requires start <= end <= |objects| && receiver.ends != [] && receiver.ends[0] == end
    requires receiver.Value() == Inbox(objects[start..], receiver.ends, start, Capped(objects, start))
    requires Capped(objects, start) <= receiver.limit
    modifies receiver
    ensures ok == (Capped(objects, end) <= receiver.limit)
    ensures ok ==> receiver.Value() == Inbox(objects[end..], old(receiver.ends), end, Capped(objects, end))
  {
    var i := start;
    while i < end
      invariant start <= i <= end && receiver.ends == old(receiver.ends) && Capped(objects, i) <= receiver.limit
      invariant receiver.Value() == Inbox(objects[i..], receiver.ends, i, Capped(objects, i))
    {
      assert objects[i..][0] == objects[i] && objects[i..][1..] == objects[i + 1..];
      CappedGrows(objects, i + 1, end);
      ok := receiver.TakeObject(objects[i]);
      if !ok {
        return;
      }
      i := i + 1;
    }
    ok := true;
  }

  /** The whole transfer, sender and receiver together on one list, each with the byte
      limit of its own machine. The sender gives up before it sends anything when the
      objects exceed its limit or need too many batches; the receiver refuses an object
      exactly when they exceed its own; otherwise every receipt is the one expected. */
  method Send(objects: seq<Object>, sendLimit: Size, receiveLimit: Size) returns (result: SendResult)
    ensures if Capped(objects, |objects|) > sendLimit then result == ExceedsByteLimit
            else if |BatchEnds(objects)| > MAX_TRANSFER_RECEIPTS then result == TooManyBatches
            else if Capped(objects, |objects|) > receiveLimit then result == Rejected
            else (forall k :: 0 <= k < |BatchEnds(objects)| ==> BatchEnds(objects)[k] <= |objects|)
                 && result == Sent(ExpectedReceipts(objects, BatchEnds(objects)))
  {
    var within := WithinLimit(objects, sendLimit);
    if !within {
      return ExceedsByteLimit;
    }
    var cut := TransferBatchEnds(objects);
    if cut.None? {
      return TooManyBatches;
    }
    var ends := cut.value;
    EndsFromCut(objects, 0);
    CutsWithin(ends, 0, |objects|);
    result := SendBatches(objects, ends, receiveLimit);
  }

  method SendBatches(objects: seq<Object>, ends: seq<nat>, limit: Size) returns (result: SendResult)
    requires Cuts(ends, 0, |objects|) && AllFit(objects, ends, 0) && forall k :: 0 <= k < |ends| ==> ends[k] <= |objects|
    ensures result == if Capped(objects, |objects|) > limit then Rejected else Sent(ExpectedReceipts(objects, ends))
  {
    var receiver := new Receiver(objects, ends, limit);
    var start, sent, k := 0, 0, 0;
    var receipts: seq<Receipt> := [];
    assert objects[0..] == objects && ends[0..] == ends;
    while k < |ends|
      invariant k <= |ends| && start == (if k == 0 then 0 else ends[k - 1]) && start <= |objects|
      invariant sent == Capped(objects, start) <= limit
      invariant receiver.Value() == Inbox(objects[start..], ends[k..], start, sent)
      invariant receipts == ExpectedReceipts(objects, ends)[..k]
    {
      AllFitTail(objects, ends, 0, k);
      assert ends[k..][0] == ends[k] && ends[k..][1..] == ends[k + 1..];
      CappedGrows(objects, ends[k], |objects|);
      var receipt := SendBatch(objects, start, ends[k], sent, receiver);
      if receipt.None? {
        return Rejected;
      }
      sent := receipt.value.bytes;
      receipts := receipts + [receipt.value];
      start, k := ends[k], k + 1;
    }
    CutsTail(ends, 0, |objects|, k);
    assert objects[|objects|..] == [];
    var done := receiver.TakeDone();
    result := if done then Sent(receipts) else Rejected;
  }

  /** One batch and its receipt, which must match what was sent so far. */
  method SendBatch(objects: seq<Object>, start: nat, end: nat, sent: nat, receiver: Receiver) returns (receipt: Option<Receipt>)
    requires start < end <= |objects| && Fits(objects, start, end) && sent == Capped(objects, start) <= receiver.limit
    requires receiver.Value() == Inbox(objects[start..], receiver.ends, start, sent)
    requires receiver.ends != [] && receiver.ends[0] == end
    modifies receiver
    ensures receipt == if Capped(objects, end) <= receiver.limit then Some(Receipt(end, Capped(objects, end))) else None
    ensures receipt.Some? ==> receiver.Value() == Inbox(objects[end..], old(receiver.ends)[1..], end, Capped(objects, end))
  {
    var ok := SendObjects(objects, start, end, receiver);
    if !ok {
      return None;
    }
    receipt := receiver.TakeBatchEnd();
    var more := BatchBytes(objects, start, end);
    TotalSplits(objects, 0, start, end);
    var expected := SaturatingAdd(sent, more);
    if receipt != Some(Receipt(end, expected)) {
      receipt := None;
    }
  }

  method WithinLimit(objects: seq<Object>, limit: Size) returns (within: bool)
    ensures within == (Capped(objects, |objects|) <= limit)
  {
    var bytes := 0;
    for i := 0 to |objects|
      invariant bytes == Capped(objects, i) <= limit
    {
      CappedGrows(objects, i + 1, |objects|);
      bytes := SaturatingAdd(bytes, objects[i].size);
      if bytes > limit {
        return false;
      }
    }
    within := true;
  }

  /** The bytes of one batch, whose sum fits a machine word. */
  method BatchBytes(objects: seq<Object>, start: nat, end: nat) returns (bytes: nat)
    requires start < end <= |objects| && Fits(objects, start, end)
    ensures bytes == Total(objects, start, end) <= U64_MAX
  {
    bytes := 0;
    for i := start to end
      invariant bytes == Total(objects, start, i)
    {
      bytes := bytes + objects[i].size;
    }
    assert Total(objects, start, start + 1) == Total(objects, start, start) + objects[start].size;
  }

  // ---------------------------------------------------------------- nothing else is accepted

  /** In the middle of a transfer: `i` objects are sent, and `ends` are the batches not yet acknowledged. */
  predicate Position(objects: seq<Object>, ends: seq<nat>, i: nat)
  {
    && i <= |objects|
    && (if ends == [] then i == |objects| else i <= ends[0] <= |objects| && Cuts(ends[1..], ends[0], |objects|))
  }

  /** What the sender still has to send. */
  function FramesFrom(objects: seq<Object>, ends: seq<nat>, i: nat): seq<Frame>
    requires Position(objects, ends, i)
    decreases |objects| - i, |ends|
  {
    if ends == [] then [Done]
    else if ends[0] == i then [TransferBatchEnd] + FramesFrom(objects, ends[1..], i)
    else [ObjectStart(objects[i])] + FramesFrom(objects, ends, i + 1)
  }

  /** The receiver takes every frame, up to a `Done` that is the last. */
  predicate Accepts(s: Inbox, frames: seq<Frame>, limit: nat)
    decreases |frames|
  {
    && frames != []
    && Serve(s, frames[0], limit).Taken?
    && (if frames[0].Done? then |frames| == 1 else Accepts(Serve(s, frames[0], limit).inbox, frames[1..], limit))
  }

  lemma SameFrames(frames: seq<Frame>, first: Frame, rest: seq<Frame>)
    requires frames != []
    ensures frames == [first] + rest <==> frames[0] == first && frames[1..] == rest
  {
    assert frames == [frames[0]] + frames[1..];
  }

  /** The receiver in the middle of an honest transfer. */
  function InboxAt(objects: seq<Object>, ends: seq<nat>, i: nat): Inbox
    requires i <= |objects|
  {
    Inbox(objects[i..], ends, i, Capped(objects, i))
  }

  lemma OnlyDone(objects: seq<Object>, frames: seq<Frame>, limit: nat)
    ensures Accepts(InboxAt(objects, [], |objects|), frames, limit) <==> frames == [Done]
  {
    if frames != [] {
      assert frames == [frames[0]] + frames[1..];
    }
  }

  lemma OnlyBatchEnd(objects: seq<Object>, ends: seq<nat>, i: nat, frames: seq<Frame>, limit: nat)
    requires i <= |objects| && ends != [] && ends[0] == i
    ensures Accepts(InboxAt(objects, ends, i), frames, limit)
            <==> frames != [] && frames[0] == TransferBatchEnd && Accepts(InboxAt(objects, ends[1..], i), frames[1..], limit)
  {
  }

  lemma OnlyObject(objects: seq<Object>, ends: seq<nat>, i: nat, frames: seq<Frame>, limit: nat)
    requires i < |objects| && ends != [] && ends[0] != i
    ensures Accepts(InboxAt(objects, ends, i), frames, limit)
            <==> frames != [] && frames[0] == ObjectStart(objects[i]) && Capped(objects, i + 1) <= limit
                 && Accepts(InboxAt(objects, ends, i + 1), frames[1..], limit)
  {
    assert objects[i..][0] == objects[i] && objects[i..][1..] == objects[i + 1..];
    assert Serve(InboxAt(objects, ends, i), ObjectStart(objects[i]), limit)
        == if Capped(objects, i + 1) > limit then Refused else Taken(InboxAt(objects, ends, i + 1), []);
  }

  lemma {:induction false} OnlyTheseFrames(objects: seq<Object>, ends: seq<nat>, i: nat, frames: seq<Frame>, limit: nat)
    requires Position(objects, ends, i) && Capped(objects, i) <= limit
    ensures Accepts(InboxAt(objects, ends, i), frames, limit)
            <==> Capped(objects, |objects|) <= limit && frames == FramesFrom(objects, ends, i)
    decreases |frames|
  {
    if ends == [] {
      OnlyDone(objects, frames, limit);
    } else if ends[0] == i {
      OnlyBatchEnd(objects, ends, i, frames, limit);
      if frames != [] {
        OnlyTheseFrames(objects, ends[1..], i, frames[1..], limit);
        SameFrames(frames, TransferBatchEnd, FramesFrom(objects, ends[1..], i));
      }
    } else {
      OnlyObject(objects, ends, i, frames, limit);
      CappedGrows(objects, i + 1, |objects|);
      if frames != [] && Capped(objects, i + 1) <= limit {
        OnlyTheseFrames(objects, ends, i + 1, frames[1..], limit);
        SameFrames(frames, ObjectStart(objects[i]), FramesFrom(objects, ends, i + 1));
      }
    }
  }

  /** The receiver accepts a transfer to its end exactly when it is frame by frame the one
      an honest sender of the same list makes, and the list keeps the receiver's limit. */
  lemma AcceptsExactlyTheTransfer(objects: seq<Object>, frames: seq<Frame>, limit: Size)
    ensures Position(objects, BatchEnds(objects), 0)
    ensures Accepts(Inbox(objects, BatchEnds(objects), 0, 0), frames, limit)
            <==> Capped(objects, |objects|) <= limit && frames == FramesFrom(objects, BatchEnds(objects), 0)
  {
    EndsFromCut(objects, 0);
    assert objects[0..] == objects;
    OnlyTheseFrames(objects, BatchEnds(objects), 0, frames, limit);
  }
}
