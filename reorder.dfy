/** The frame pipeline of `Core` (src/core/core.rs): the producer numbers
    the captured frames 0, 1, 2, ...; their OCR results arrive in any order;
    the consumer delivers them to the tracker strictly in index order,
    holding back early arrivals in a buffer. */
module Reorder {
  import opened Wrappers
  import opened Loot
  import opened Resolve
  import opened Ocr
  import opened Ledger

  /** `OcrChannel`: a frame's index and its OCR output, `None` when the OCR
      request failed (the error itself is not kept). */
  datatype OcrChannel = OcrChannel(index: nat, result: Option<seq<OcrOutputData>>)

  /** The texts `process_data` hands to `insert`. */
  function Texts(out: seq<OcrOutputData>): (texts: seq<string>)
    ensures |texts| == |out|
    ensures forall i :: 0 <= i < |out| ==> texts[i] == out[i].text
  {
    seq(|out|, i requires 0 <= i < |out| => out[i].text)
  }

  /** The frame `process_data` hands to `insert` for a message, if any. */
  function FrameOf(msg: OcrChannel): Option<seq<string>> {
    match msg.result
    case None => None
    case Some(out) => Some(Texts(out))
  }

  /** The frames handed to `insert` for a run of delivered messages. */
  function Frames(msgs: seq<OcrChannel>): seq<seq<string>> {
    FilterMap(FrameOf, msgs)
  }

  lemma FramesSnoc(msgs: seq<OcrChannel>, m: OcrChannel)
    ensures Frames(msgs + [m]) == Frames(msgs) + (if m.result.Some? then [Texts(m.result.value)] else [])
  {
    assert (msgs + [m])[..|msgs|] == msgs;
  }

  lemma FramesConcat(a: seq<OcrChannel>, b: seq<OcrChannel>)
    ensures Frames(a + b) == Frames(a) + Frames(b)
  {
    FilterMapConcat(FrameOf, a, b);
  }

  /** What `process_data` does to the ledger for one message: a failed
      frame leaves it alone, any other goes through `insert`, with the keys
      in the order the table of the moment yields them. */
  function Handle(mode: Mode, catalog: string -> Option<ItemData>, similarity: (string, string) -> Score,
                  keyOrder: map<string, LootData> -> seq<string>, st: Ledger, msg: OcrChannel): Ledger
  {
    match msg.result
    case None => st
    case Some(out) => InsertStep(mode, catalog, similarity, keyOrder(st.table), st, Texts(out)).0
  }

  /** `step` is `Handle` for this mode, catalogue, similarity and key order.
      (The trigger keeps `Handle` folded until a proof names it.) */
  ghost predicate IsHandler(step: (Ledger, OcrChannel) -> Ledger, mode: Mode, catalog: string -> Option<ItemData>,
                            similarity: (string, string) -> Score, keyOrder: map<string, LootData> -> seq<string>)
  {
    forall st: Ledger, msg: OcrChannel {:trigger Handle(mode, catalog, similarity, keyOrder, st, msg)} ::
      step(st, msg) == Handle(mode, catalog, similarity, keyOrder, st, msg)
  }

  /** The ledger after the messages `msgs` have been handled in order by
      `step`, starting from `st`. */
  function Replay(step: (Ledger, OcrChannel) -> Ledger, st: Ledger, msgs: seq<OcrChannel>): Ledger
    decreases |msgs|
  {
    if msgs == [] then st
    else step(Replay(step, st, msgs[..|msgs| - 1]), msgs[|msgs| - 1])
  }

  /** Handling two runs of messages is handling the first, then the second. */
  lemma {:induction false} ReplayConcat(step: (Ledger, OcrChannel) -> Ledger, st: Ledger, a: seq<OcrChannel>, b: seq<OcrChannel>)
    ensures Replay(step, st, a + b) == Replay(step, Replay(step, st, a), b)
    decreases |b|
  {
    if b == [] {
      assert a + b == a;
    } else {
      var n := |b| - 1;
      ReplayConcat(step, st, a, b[..n]);
      assert (a + b)[..|a + b| - 1] == a + b[..n];
      assert (a + b)[|a + b| - 1] == b[n];
    }
  }

  /** Under `process_data`, the history of the ledger only grows as messages
      are handled, and a run of failed frames changes nothing at all. */
  lemma {:induction false} ReplayHistory(step: (Ledger, OcrChannel) -> Ledger, mode: Mode, catalog: string -> Option<ItemData>,
                                         similarity: (string, string) -> Score, keyOrder: map<string, LootData> -> seq<string>,
                                         st: Ledger, msgs: seq<OcrChannel>)
    requires IsHandler(step, mode, catalog, similarity, keyOrder)
    ensures st.history <= Replay(step, st, msgs).history
    ensures (forall i :: 0 <= i < |msgs| ==> msgs[i].result.None?) ==> Replay(step, st, msgs) == st
    decreases |msgs|
  {
    if msgs != [] {
      var init := msgs[..|msgs| - 1];
      var last := msgs[|msgs| - 1];
      ReplayHistory(step, mode, catalog, similarity, keyOrder, st, init);
      var before := Replay(step, st, init);
      assert step(before, last) == Handle(mode, catalog, similarity, keyOrder, before, last);
      match last.result
      case None =>
      case Some(out) =>
        InsertOutcome(mode, catalog, similarity, keyOrder(before.table), before, Texts(out));
    }
  }

  lemma AppendAssoc<T>(a: seq<T>, b: seq<T>, c: seq<T>)
    ensures (a + b) + c == a + (b + c)
  {
  }

  lemma PrefixSplit<T>(d: seq<T>, before: seq<T>)
    requires |before| <= |d| && d[..|before|] == before
    ensures before + d[|before|..] == d
  {
  }

  /** Appending the message numbered |d| keeps the messages numbered by
      position. */
  lemma NumberedSnoc(d: seq<OcrChannel>, msg: OcrChannel)
    requires forall i :: 0 <= i < |d| ==> d[i].index == i
    requires msg.index == |d|
    ensures forall i :: 0 <= i < |d + [msg]| ==> (d + [msg])[i].index == i
  {
  }

  /** The run of buffered messages `from`, `from + 1`, ... up to the first
      missing index. */
  function Drain(buffer: map<nat, OcrChannel>, from: nat): seq<OcrChannel>
    decreases |buffer|
  {
    if from in buffer then
      assert |buffer - {from}| < |buffer| by {
        assert (buffer - {from}).Keys + {from} == buffer.Keys;
      }
      [buffer[from]] + Drain(buffer - {from}, from + 1)
    else []
  }

  /** What remains of the buffer after that run is delivered. */
  function Remains(buffer: map<nat, OcrChannel>, from: nat): map<nat, OcrChannel>
    decreases |buffer|
  {
    if from in buffer then
      assert |buffer - {from}| < |buffer| by {
        assert (buffer - {from}).Keys + {from} == buffer.Keys;
      }
      Remains(buffer - {from}, from + 1)
    else buffer
  }

  /** Taking the expected message out of the buffer. */
  lemma DrainStep(buffer: map<nat, OcrChannel>, from: nat)
    requires from in buffer
    ensures |buffer - {from}| < |buffer|
    ensures Drain(buffer, from) == [buffer[from]] + Drain(buffer - {from}, from + 1)
    ensures Remains(buffer, from) == Remains(buffer - {from}, from + 1)
  {
    Shrink(buffer, from);
  }

  /** The same step, after the messages delivered so far: one iteration of
      the drain loop keeps what has been and what will be delivered. */
  lemma DrainStepAfter(pre: seq<OcrChannel>, buffer: map<nat, OcrChannel>, from: nat,
                       run: seq<OcrChannel>, rest: map<nat, OcrChannel>)
    requires from in buffer
    requires pre + Drain(buffer, from) == run
    requires Remains(buffer, from) == rest
    ensures |buffer - {from}| < |buffer|
    ensures (pre + [buffer[from]]) + Drain(buffer - {from}, from + 1) == run
    ensures Remains(buffer - {from}, from + 1) == rest
  {
    DrainStep(buffer, from);
  }

  lemma Shrink(buffer: map<nat, OcrChannel>, from: nat)
    requires from in buffer
    ensures |buffer - {from}| < |buffer|
  {
    assert (buffer - {from}).Keys + {from} == buffer.Keys;
  }

  /** The run delivered from `from` is the buffered messages `from`,
      `from + 1`, ... up to the first missing index; what remains is the rest
      of the buffer, untouched. */
  lemma DrainFacts(buffer: map<nat, OcrChannel>, from: nat)
    ensures var r := |Drain(buffer, from)|;
      && (forall k :: from <= k < from + r ==> k in buffer && Drain(buffer, from)[k - from] == buffer[k])
      && from + r !in buffer
      && (forall k :: k in Remains(buffer, from) <==> k in buffer && !(from <= k < from + r))
      && (forall k :: k in Remains(buffer, from) ==> Remains(buffer, from)[k] == buffer[k])
  {
    DrainRun(buffer, from);
    RemainsRest(buffer, from);
  }

  lemma {:induction false} DrainRun(buffer: map<nat, OcrChannel>, from: nat)
    ensures var d := Drain(buffer, from);
      && (forall k :: from <= k < from + |d| ==> k in buffer && d[k - from] == buffer[k])
      && from + |d| !in buffer
    decreases |buffer|
  {
    if from in buffer {
      var rest := buffer - {from};
      assert |rest| < |buffer| by {
        assert rest.Keys + {from} == buffer.Keys;
      }
      DrainRun(rest, from + 1);
      var tail := Drain(rest, from + 1);
      var d := Drain(buffer, from);
      assert d == [buffer[from]] + tail;
      forall k | from <= k < from + |d|
        ensures k in buffer && d[k - from] == buffer[k]
      {
        if k > from {
          assert d[k - from] == tail[k - (from + 1)];
          assert k in rest;
        }
      }
      assert from + |d| == from + 1 + |tail|;
    }
  }

  lemma {:induction false} RemainsRest(buffer: map<nat, OcrChannel>, from: nat)
    ensures var r := |Drain(buffer, from)|; var rest := Remains(buffer, from);
      && (forall k :: k in rest <==> k in buffer && !(from <= k < from + r))
      && (forall k :: k in rest ==> rest[k] == buffer[k])
    decreases |buffer|
  {
    if from in buffer {
      var rest := buffer - {from};
      assert |rest| < |buffer| by {
        assert rest.Keys + {from} == buffer.Keys;
      }
      RemainsRest(rest, from + 1);
      assert |Drain(buffer, from)| == 1 + |Drain(rest, from + 1)|;
      assert Remains(buffer, from) == Remains(rest, from + 1);
    }
  }

  /** The indices of a run of messages. */
  function Indices(msgs: seq<OcrChannel>): set<nat> {
    set j | 0 <= j < |msgs| :: msgs[j].index
  }

  lemma IndicesSnoc(msgs: seq<OcrChannel>, m: OcrChannel)
    ensures Indices(msgs + [m]) == Indices(msgs) + {m.index}
  {
    var s := msgs + [m];
    assert forall j :: 0 <= j < |msgs| ==> s[j] == msgs[j];
    assert s[|msgs|] == m;
  }

  /** No two messages carry the same index. */
  ghost predicate DistinctIndices(msgs: seq<OcrChannel>) {
    forall i, j :: 0 <= i < j < |msgs| ==> msgs[i].index != msgs[j].index
  }

  /** Delivering takes messages from the buffer only. */
  lemma DrainFromPool(buffer: map<nat, OcrChannel>, from: nat, pool: seq<OcrChannel>)
    requires forall k :: k in buffer ==> buffer[k] in pool
    ensures forall x :: x in Drain(buffer, from) ==> x in pool
    ensures forall k :: k in Remains(buffer, from) ==> Remains(buffer, from)[k] in pool
  {
    DrainFacts(buffer, from);
    var d := Drain(buffer, from);
    forall x | x in d ensures x in pool {
      var t :| 0 <= t < |d| && d[t] == x;
      assert d[(from + t) - from] == buffer[from + t];
    }
  }

  /** After the arrivals with indices `received`, the consumer expects `idx`:
      every lower index has arrived, and the buffer holds exactly the arrived
      ones from `idx` on. */
  ghost predicate Tracked(received: set<nat>, buffer: map<nat, OcrChannel>, idx: nat) {
    && (forall k :: k in buffer <==> k in received && k >= idx)
    && (forall k :: 0 <= k < idx ==> k in received)
  }

  /** A fresh index keeps the consumer tracked, whether it is buffered or
      delivered together with its buffered successors. */
  lemma ReceiveTracked(received: set<nat>, buffer: map<nat, OcrChannel>, idx: nat, msg: OcrChannel)
    requires Tracked(received, buffer, idx) && idx !in buffer && msg.index !in received
    ensures msg.index > idx || msg.index == idx
    ensures msg.index != idx ==> Tracked(received + {msg.index}, buffer[msg.index := msg], idx)
    ensures msg.index == idx ==>
      Tracked(received + {msg.index}, Remains(buffer, idx + 1), idx + 1 + |Drain(buffer, idx + 1)|)
  {
    if msg.index == idx {
      DeliverTracked(received, buffer, idx);
    } else {
      BufferTracked(received, buffer, idx, msg);
    }
  }

  /** Buffering an index other than the expected one. */
  lemma BufferTracked(received: set<nat>, buffer: map<nat, OcrChannel>, idx: nat, msg: OcrChannel)
    requires Tracked(received, buffer, idx) && msg.index !in received && msg.index != idx
    ensures msg.index > idx
    ensures Tracked(received + {msg.index}, buffer[msg.index := msg], idx)
  {
    assert msg.index < idx ==> msg.index in received;
  }

  /** Delivering the expected index and its buffered successors. */
  lemma DeliverTracked(received: set<nat>, buffer: map<nat, OcrChannel>, idx: nat)
    requires Tracked(received, buffer, idx) && idx !in buffer
    ensures Tracked(received + {idx}, Remains(buffer, idx + 1), idx + 1 + |Drain(buffer, idx + 1)|)
  {
    var r := |Drain(buffer, idx + 1)|;
    var rest := Remains(buffer, idx + 1);
    DrainFacts(buffer, idx + 1);
    var received' := received + {idx};
    var idx' := idx + 1 + r;
    forall k | 0 <= k < idx' ensures k in received' {
      if idx < k {
        assert k in buffer;
      }
    }
    forall k: nat ensures k in rest <==> k in received' && k >= idx' {
      InRest(received, buffer, idx, r, rest, k);
    }
  }

  lemma InRest(received: set<nat>, buffer: map<nat, OcrChannel>, idx: nat, r: nat, rest: map<nat, OcrChannel>, k: nat)
    requires forall k :: k in buffer <==> k in received && k >= idx
    requires idx !in buffer
    requires forall k :: k in rest <==> k in buffer && !(idx + 1 <= k < idx + 1 + r)
    ensures k in rest <==> k in received + {idx} && k >= idx + 1 + r
  {
    assert k in rest ==> k in buffer;
    assert k in received && k >= idx + 1 + r ==> k in buffer;
  }

  /** The indices 0 .. |arrivals| - 1, each exactly once. */
  ghost predicate IsArrivalOrder(arrivals: seq<OcrChannel>) {
    && (forall i, j :: 0 <= i < j < |arrivals| ==> arrivals[i].index != arrivals[j].index)
    && (forall i :: 0 <= i < |arrivals| ==> arrivals[i].index < |arrivals|)
    && (forall k: nat :: k < |arrivals| ==> k in Indices(arrivals))
  }

  /** Once every index 0 .. n - 1 and no other has arrived, the consumer
      expects n and the buffer is empty. */
  lemma TrackedComplete(arrivals: seq<OcrChannel>, buffer: map<nat, OcrChannel>, idx: nat)
    requires IsArrivalOrder(arrivals) && Tracked(Indices(arrivals), buffer, idx) && idx !in buffer
    ensures idx == |arrivals| && buffer == map[]
  {
    var n := |arrivals|;
    var received := Indices(arrivals);
    assert forall k :: k in received ==> k < n;
    assert n < idx ==> n in received;
    assert idx < n ==> idx in received;
    assert forall k :: k in buffer ==> k in received && k >= idx;
    assert buffer.Keys == {};
  }

  /** The outcome of capturing one frame and recognising its text: a
      capture error, or the result of `do_ocr` on the captured frame. */
  datatype Capture = CaptureFailed | Captured(ocr: Result<seq<OcrOutputData>, OcrError>)

  /** A message carries a captured frame's OCR output, or nothing when its
      OCR failed. */
  predicate Carries(c: Capture, msg: OcrChannel) {
    c.Captured? && msg.result == (if c.ocr.Ok? then Some(c.ocr.value) else None)
  }

  /** `get_data_channel` over the frames the capturer yields (the OCR of each
      frame already done): frame `i` is sent as message `i`, with no output
      when its OCR failed; the first capture error ends the loop and is
      returned. */
  method GetDataChannel(frames: seq<Capture>) returns (sent: seq<OcrChannel>, failed: bool)
    ensures |sent| <= |frames|
    ensures forall i :: 0 <= i < |sent| ==> sent[i].index == i
    ensures forall i :: 0 <= i < |sent| ==> Carries(frames[i], sent[i])
    ensures failed <==> |sent| < |frames|
    ensures failed ==> frames[|sent|].CaptureFailed?
    ensures IsArrivalOrder(sent)
  {
    var idx: nat := 0;
    sent := [];
    while idx < |frames|
      invariant idx <= |frames| && |sent| == idx
      invariant forall i :: 0 <= i < idx ==> sent[i].index == i
      invariant forall i :: 0 <= i < idx ==> Carries(frames[i], sent[i])
    {
      if frames[idx].CaptureFailed? {
        failed := true;
        NumberedIsArrivalOrder(sent);
        return;
      }
      var result := frames[idx].ocr;
      if result.Err? {
        sent := sent + [OcrChannel(idx, None)];
      } else {
        sent := sent + [OcrChannel(idx, Some(result.value))];
      }
      idx := idx + 1;
    }
    failed := false;
    NumberedIsArrivalOrder(sent);
  }

  /** Messages numbered by position carry the indices 0 .. n - 1, each once. */
  lemma NumberedIsArrivalOrder(sent: seq<OcrChannel>)
    requires forall i :: 0 <= i < |sent| ==> sent[i].index == i
    ensures IsArrivalOrder(sent)
  {
    forall k: nat | k < |sent| ensures k in Indices(sent) {
      assert sent[k].index == k;
    }
  }

  /** What the consumer holds after the first `n` arrivals: only received
      messages, delivered or buffered, and, when the indices are distinct,
      the consumer is tracked. */
  ghost predicate Consistent(arrivals: seq<OcrChannel>, n: nat, delivered: seq<OcrChannel>,
                             buffer: map<nat, OcrChannel>, idx: nat)
    requires n <= |arrivals|
  {
    && (forall j :: 0 <= j < |delivered| ==> delivered[j] in arrivals)
    && (forall k :: k in buffer ==> buffer[k] in arrivals)
    && (DistinctIndices(arrivals) ==> Tracked(Indices(arrivals[..n]), buffer, idx))
  }

  /** One arrival, handled as `Receive` promises, keeps the consumer
      consistent. */
  lemma ConsistentStep(arrivals: seq<OcrChannel>, i: nat, before: seq<OcrChannel>, buffer0: map<nat, OcrChannel>, idx0: nat,
                       after: seq<OcrChannel>, buffer: map<nat, OcrChannel>, idx: nat)
    requires i < |arrivals| && Consistent(arrivals, i, before, buffer0, idx0)
    requires idx0 == |before| && idx0 !in buffer0 && idx == |after|
    requires arrivals[i].index != idx0 ==> buffer == buffer0[arrivals[i].index := arrivals[i]] && after == before
    requires arrivals[i].index == idx0 ==>
      after == before + [arrivals[i]] + Drain(buffer0, idx0 + 1) && buffer == Remains(buffer0, idx0 + 1)
    ensures Consistent(arrivals, i + 1, after, buffer, idx)
  {
    var msg := arrivals[i];
    ReceivePool(before, buffer0, idx0, msg, after, buffer, arrivals);
    if DistinctIndices(arrivals) {
      var received := Indices(arrivals[..i]);
      assert arrivals[..i + 1] == arrivals[..i] + [msg];
      IndicesSnoc(arrivals[..i], msg);
      assert msg.index !in received by {
        forall j | 0 <= j < i ensures arrivals[..i][j].index != msg.index {
          assert arrivals[..i][j] == arrivals[j];
        }
      }
      ReceiveTracked(received, buffer0, idx0, msg);
    }
  }

  /** What `Receive` delivers and buffers comes from the messages
      received so far. */
  lemma ReceivePool(before: seq<OcrChannel>, buffer0: map<nat, OcrChannel>, idx0: nat, msg: OcrChannel,
                    after: seq<OcrChannel>, buffer: map<nat, OcrChannel>, pool: seq<OcrChannel>)
    requires forall j :: 0 <= j < |before| ==> before[j] in pool
    requires forall k :: k in buffer0 ==> buffer0[k] in pool
    requires msg in pool
    requires msg.index != idx0 ==> buffer == buffer0[msg.index := msg] && after == before
    requires msg.index == idx0 ==>
      after == before + [msg] + Drain(buffer0, idx0 + 1) && buffer == Remains(buffer0, idx0 + 1)
    ensures forall j :: 0 <= j < |after| ==> after[j] in pool
    ensures forall k :: k in buffer ==> buffer[k] in pool
  {
    DrainFromPool(buffer0, idx0 + 1, pool);
    var d := Drain(buffer0, idx0 + 1);
    forall j | 0 <= j < |after| ensures after[j] in pool {
      if j < |before| {
        assert after[j] == before[j];
      } else if j > |before| {
        assert after[j] == d[j - |before| - 1];
      }
    }
  }

  /** The consumer side of `run_capture_loop`. */
  class CaptureLoop {
    var idx: nat
    var orderedBuffer: map<nat, OcrChannel>
    /** The messages handed to `process_data` so far, in order. */
    ghost var delivered: seq<OcrChannel>
    const tracker: LootTracker
    const keyOrder: map<string, LootData> -> seq<string>
    /** The tracker's detection mode, which the consumer never changes. */
    ghost const mode: Mode
    /** What `process_data` does to the ledger for one message. */
    ghost const handle: (Ledger, OcrChannel) -> Ledger

    /** The delivered messages are numbered 0, 1, ..., idx - 1, every
        buffered message is filed under its own index, and the expected one
        is never left waiting in the buffer. */
    ghost predicate Valid()
      reads this, tracker
    {
      && idx == |delivered|
      && (forall i :: 0 <= i < |delivered| ==> delivered[i].index == i)
      && (forall k :: k in orderedBuffer ==> orderedBuffer[k].index == k)
      && idx !in orderedBuffer
      && Handles()
    }

    /** The key order lists each key of a table once, and `handle` is
        `process_data` on the tracker. */
    ghost predicate Handles()
      reads tracker
    {
      && (forall m :: KeyOrder(keyOrder(m), m))
      && tracker.detectionMode == mode
      && IsHandler(handle, mode, tracker.catalog, tracker.similarity, keyOrder)
    }

    constructor(tracker: LootTracker, keyOrder: map<string, LootData> -> seq<string>)
      requires forall m :: KeyOrder(keyOrder(m), m)
      ensures Valid() && idx == 0 && orderedBuffer == map[] && delivered == []
      ensures this.tracker == tracker && this.keyOrder == keyOrder && mode == tracker.detectionMode
    {
      idx := 0;
      orderedBuffer := map[];
      delivered := [];
      this.tracker := tracker;
      this.keyOrder := keyOrder;
      var m := tracker.detectionMode;
      this.mode := m;
      this.handle := (st: Ledger, msg: OcrChannel) => Handle(m, tracker.catalog, tracker.similarity, keyOrder, st, msg);
    }

    /** `process_data`: a failed frame leaves the tracker alone; otherwise
        its texts are inserted, with the keys in the table's order. */
    method ProcessData(input: OcrChannel)
      requires forall m :: KeyOrder(keyOrder(m), m)
      modifies tracker
      ensures input.result.None? ==> tracker.State() == old(tracker.State()) && tracker.frames == old(tracker.frames)
      ensures input.result.Some? ==>
        && tracker.frames == old(tracker.frames) + [Texts(input.result.value)]
        && tracker.State() == InsertStep(old(tracker.detectionMode), tracker.catalog, tracker.similarity,
                                         keyOrder(old(tracker.lootTable)), old(tracker.State()), Texts(input.result.value)).0
      ensures tracker.detectionMode == old(tracker.detectionMode)
    {
      if input.result.None? {
        return;
      }
      var data := input.result.value;
      var texts := Texts(data);
      var keys := keyOrder(tracker.lootTable);
      var _ := tracker.Insert(texts, keys);
    }

    /** One received message. One that is not the expected one is buffered
        and nothing is delivered; the expected one is delivered, followed
        by every buffered successor without a gap. The tracker is handed the
        frames of the delivered messages, in order. */
    method Receive(msg: OcrChannel)
      requires Valid()
      modifies this, tracker
      ensures Valid()
      ensures msg.index != old(idx) ==>
        && orderedBuffer == old(orderedBuffer)[msg.index := msg]
        && idx == old(idx) && delivered == old(delivered)
      ensures msg.index == old(idx) ==>
        && delivered == old(delivered) + [msg] + Drain(old(orderedBuffer), old(idx) + 1)
        && orderedBuffer == Remains(old(orderedBuffer), old(idx) + 1)
      ensures delivered[..|old(delivered)|] == old(delivered)
      ensures tracker.frames == old(tracker.frames) + Frames(delivered[|old(delivered)|..])
      ensures msg.index != old(idx) ==> tracker.State() == old(tracker.State())
      ensures tracker.State() == Replay(handle, old(tracker.State()), delivered[|old(delivered)|..])
      ensures tracker.detectionMode == old(tracker.detectionMode)
    {
      if msg.index != idx {
        orderedBuffer := orderedBuffer[msg.index := msg];
        assert delivered[|old(delivered)|..] == [];
        return;
      }
      Deliver(msg);
      assert Drain(old(orderedBuffer), idx) == Drain(orderedBuffer, idx);
      ghost var rest := DrainBuffer();
      AppendAssoc(old(delivered), [msg], rest);
      assert delivered[|old(delivered)|..] == [msg] + rest;
      FramesConcat([msg], rest);
      AppendAssoc(old(tracker.frames), Frames([msg]), Frames(rest));
      ReplayConcat(handle, old(tracker.State()), [msg], rest);
      assert [msg][..0] == [];
      assert delivered[..|old(delivered)|] == old(delivered);
    }

    /** The loop of `run_capture_loop`, from its start (expecting index 0
        with an empty buffer), over the messages in the order the channel
        yields them. Whatever the order, only received messages are
        delivered, in index order; when the arrivals are the indices 0 ..
        n - 1 in any order, all n are delivered and the buffer ends empty. */
    method RunCaptureLoop(arrivals: seq<OcrChannel>)
      requires Valid() && idx == 0 && orderedBuffer == map[] && delivered == []
      modifies this, tracker
      ensures Valid()
      ensures tracker.frames == old(tracker.frames) + Frames(delivered)
      ensures forall i :: 0 <= i < |delivered| ==> delivered[i] in arrivals && delivered[i].index == i
      ensures DistinctIndices(arrivals) ==> Tracked(Indices(arrivals), orderedBuffer, idx)
      ensures IsArrivalOrder(arrivals) ==> |delivered| == |arrivals| && orderedBuffer == map[]
      ensures tracker.State() == Replay(handle, old(tracker.State()), delivered)
      ensures tracker.detectionMode == old(tracker.detectionMode)
    {
      for i := 0 to |arrivals|
        invariant Valid()
        invariant tracker.frames == old(tracker.frames) + Frames(delivered)
        invariant tracker.State() == Replay(handle, old(tracker.State()), delivered)
        invariant Consistent(arrivals, i, delivered, orderedBuffer, idx)
        invariant tracker.detectionMode == old(tracker.detectionMode)
      {
        var msg := arrivals[i];
        ghost var before := delivered;
        ghost var buffer0 := orderedBuffer;
        ghost var idx0 := idx;
        Receive(msg);
        ConsistentStep(arrivals, i, before, buffer0, idx0, delivered, orderedBuffer, idx);
        ghost var arrived := delivered[|before|..];
        PrefixSplit(delivered, before);
        FramesConcat(before, arrived);
        AppendAssoc(old(tracker.frames), Frames(before), Frames(arrived));
        ReplayConcat(handle, old(tracker.State()), before, arrived);
      }
      assert arrivals[..|arrivals|] == arrivals;
      if IsArrivalOrder(arrivals) {
        TrackedComplete(arrivals, orderedBuffer, idx);
      }
    }

    /** Processing the expected message and expecting the next one. */
    method Deliver(msg: OcrChannel)
      requires Handles()
      modifies this, tracker
      ensures delivered == old(delivered) + [msg] && idx == old(idx) + 1
      ensures orderedBuffer == old(orderedBuffer)
      ensures tracker.frames == old(tracker.frames) + Frames([msg])
      ensures tracker.State() == handle(old(tracker.State()), msg)
      ensures tracker.detectionMode == old(tracker.detectionMode)
    {
      ProcessData(msg);
      assert handle(old(tracker.State()), msg) == Handle(mode, tracker.catalog, tracker.similarity, keyOrder, old(tracker.State()), msg);
      FramesSnoc([], msg);
      delivered := delivered + [msg];
      idx := idx + 1;
    }

    /** The inner loop of `run_capture_loop`: while the expected index is
        buffered, remove it, deliver it and expect the next. */
    method DrainBuffer() returns (ghost run: seq<OcrChannel>)
      requires idx == |delivered|
      requires forall i :: 0 <= i < |delivered| ==> delivered[i].index == i
      requires forall k :: k in orderedBuffer ==> orderedBuffer[k].index == k
      requires Handles()
      modifies this, tracker
      ensures idx == |delivered| && idx !in orderedBuffer
      ensures forall i :: 0 <= i < |delivered| ==> delivered[i].index == i
      ensures forall k :: k in orderedBuffer ==> orderedBuffer[k].index == k
      ensures delivered == old(delivered) + run && run == Drain(old(orderedBuffer), old(idx))
      ensures orderedBuffer == Remains(old(orderedBuffer), old(idx))
      ensures tracker.frames == old(tracker.frames) + Frames(run)
      ensures tracker.State() == Replay(handle, old(tracker.State()), run)
      ensures tracker.detectionMode == old(tracker.detectionMode)
    {
      run := [];
      // the run the loop is to deliver and the buffer it is to leave
      ghost var target, rest := Drain(orderedBuffer, idx), Remains(orderedBuffer, idx);
      while idx in orderedBuffer
        invariant idx == |delivered| && delivered == old(delivered) + run
        invariant forall i :: 0 <= i < |delivered| ==> delivered[i].index == i
        invariant forall k :: k in orderedBuffer ==> orderedBuffer[k].index == k
        invariant run + Drain(orderedBuffer, idx) == target
        invariant Remains(orderedBuffer, idx) == rest
        invariant tracker.frames == old(tracker.frames) + Frames(run)
        invariant tracker.State() == Replay(handle, old(tracker.State()), run)
        invariant tracker.detectionMode == old(tracker.detectionMode)
        decreases |orderedBuffer|
      {
        var data := orderedBuffer[idx];
        DrainStepAfter(run, orderedBuffer, idx, target, rest);
        NumberedSnoc(delivered, data);
        orderedBuffer := orderedBuffer - {idx};
        Deliver(data);
        FramesConcat(run, [data]);
        AppendAssoc(old(tracker.frames), Frames(run), Frames([data]));
        AppendAssoc(old(delivered), run, [data]);
        ReplayConcat(handle, old(tracker.State()), run, [data]);
        run := run + [data];
      }
    }
  }
}
