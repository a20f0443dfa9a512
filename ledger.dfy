/** The loot ledger of `BlackDesertLootTracker` (src/engine/blackdesert.rs):
    `insert` parses a frame of recognised lines, resolves the names against
    the ledger, keeps only the events not seen in the previous frame, appends
    them to the history and accumulates them into the table. */
module Ledger {
  import opened Wrappers
  import opened Loot
  import opened Diff
  import opened Resolve
  import opened Calibration

  type u16 = x: int | 0 <= x < 65536

  /** What the item catalogue answers for a name (`item_fetcher::ItemData`;
      only the fields `insert` reads). */
  datatype ItemData = ItemData(id: nat, name: string, vendorSellPrice: nat, marketSellPrice: nat)

  /** `Item`: what `find_loot_metadata` returns. */
  datatype Item = Item(id: nat, name: string, price: Silver)

  /** The unit price of an item: one of its two prices, the market price
      whenever there is one, and nothing only when the item sells for nothing
      at all. */
  function UnitPrice(data: ItemData): (p: Silver)
    ensures p.value == data.marketSellPrice || p.value == data.vendorSellPrice
    ensures data.marketSellPrice > 0 ==> p.value == data.marketSellPrice
    ensures p.value == 0 <==> data.marketSellPrice == 0 && data.vendorSellPrice == 0
  {
    if data.marketSellPrice > 0 then Silver(data.marketSellPrice) else Silver(data.vendorSellPrice)
  }

  /** `find_loot_metadata`: a failed lookup (`catalog` answers `None`) gives
      no metadata. */
  function FindLootMetadata(catalog: string -> Option<ItemData>, s: string): (r: Option<Item>)
    ensures r.None? <==> catalog(s).None?
    ensures r.Some? ==> r.value.id == catalog(s).value.id && r.value.name == catalog(s).value.name
    ensures r.Some? ==> r.value.price == UnitPrice(catalog(s).value)
  {
    match catalog(s)
    case None => None
    case Some(data) => Some(Item(data.id, data.name, UnitPrice(data)))
  }

  // ---------------------------------------------------------------------
  // the specification of accumulation

  /** One new event added to the table: an existing entry gains its amount; a
      new name is entered with the catalogue's id and price, or dropped when
      the catalogue does not know it. */
  function AddEvent(catalog: string -> Option<ItemData>, table: map<string, LootData>, v: LootData): map<string, LootData> {
    if v.name in table then
      table[v.name := table[v.name].(amount := table[v.name].amount + v.amount)]
    else
      match FindLootMetadata(catalog, v.name)
      case None => table
      case Some(item) => table[v.name := LootData(item.id, v.name, v.amount, item.price, v.hour, v.minute)]
  }

  /** The events `d` added to the table one after the other. */
  function Accumulate(catalog: string -> Option<ItemData>, table: map<string, LootData>, d: seq<LootData>): map<string, LootData> {
    if d == [] then table
    else AddEvent(catalog, Accumulate(catalog, table, d[..|d| - 1]), d[|d| - 1])
  }

  /** The total amount of the events of `d` named `k`. */
  function AmountFor(d: seq<LootData>, k: string): nat {
    if d == [] then 0
    else AmountFor(d[..|d| - 1], k) + (if d[|d| - 1].name == k then d[|d| - 1].amount else 0)
  }

  /** The position of the first event of `d` named `k`, or |d|. */
  function FirstNamed(d: seq<LootData>, k: string): (i: nat)
    ensures i <= |d|
    ensures i < |d| ==> d[i].name == k
    ensures forall j :: 0 <= j < i ==> d[j].name != k
  {
    if d == [] then 0
    else if d[0].name == k then 0
    else 1 + FirstNamed(d[1..], k)
  }

  /** Every entry is filed under its own name. */
  ghost predicate KeyedByName(table: map<string, LootData>) {
    forall k :: k in table ==> table[k].name == k
  }

  /** The new events of a frame: `diff` against the previous frame; in
      drop-log mode with no previous frame, the whole frame. */
  function NewEvents(mode: Mode, tracker: seq<LootData>, resolved: seq<LootData>): seq<LootData> {
    match mode
    case ChatLog => Unseen(tracker, resolved)
    case DropLog => if tracker != [] then Unseen(tracker, resolved) else resolved
  }

  /** The state `insert` works on: the table, the history, and the previous
      frame (`loot_entry_tracker`). */
  datatype Ledger = Ledger(table: map<string, LootData>, history: seq<LootData>, tracker: seq<LootData>)

  /** The parsed events after name resolution (none while the table is
      empty). */
  function Resolved(similarity: (string, string) -> Score, keys: seq<string>, table: map<string, LootData>,
                    parsed: seq<LootData>): seq<LootData> {
    if table == map[] then parsed else ResolveAll(similarity, keys, parsed)
  }

  /** The part of `insert` after a non-empty parse: record the new events of
      the resolved frame, which becomes the previous frame. */
  function Advance(mode: Mode, catalog: string -> Option<ItemData>, st: Ledger, resolved: seq<LootData>): (Ledger, u16) {
    var d := NewEvents(mode, st.tracker, resolved);
    if d == [] then (st, 0)
    else (Ledger(Accumulate(catalog, st.table, d), st.history + d, resolved), |d| % 65536)
  }

  /** The specification of `insert`: the new ledger and the returned count. */
  function InsertStep(mode: Mode, catalog: string -> Option<ItemData>, similarity: (string, string) -> Score,
                      keys: seq<string>, st: Ledger, entry: seq<string>): (Ledger, u16)
  {
    var parsed := ParseAll(mode, entry);
    if parsed == [] then
      (if mode == DropLog then st.(tracker := []) else st, 0)
    else
      Advance(mode, catalog, st, Resolved(similarity, keys, st.table, parsed))
  }

  /** The order in which a table yields its keys: each key once. */
  ghost predicate KeyOrder(keys: seq<string>, table: map<string, LootData>) {
    && (forall k :: k in keys <==> k in table)
    && (forall i, j :: 0 <= i < j < |keys| ==> keys[i] != keys[j])
  }

  /** `BlackDesertLootTracker`. The item catalogue and the string similarity
      are fixed functions of the tracker. */
  class LootTracker {
    var lootTable: map<string, LootData>
    var lootHistory: seq<LootData>
    var lootEntryTracker: seq<LootData>
    var detectionMode: Mode
    /** The frames handed to `insert` so far, oldest first. */
    ghost var frames: seq<seq<string>>
    const catalog: string -> Option<ItemData>
    const similarity: (string, string) -> Score

    function State(): Ledger
      reads this
    {
      Ledger(lootTable, lootHistory, lootEntryTracker)
    }

    /** `BlackDesertLootTracker::new`: empty, in chat-log mode. */
    constructor(catalog: string -> Option<ItemData>, similarity: (string, string) -> Score)
      ensures lootTable == map[] && lootHistory == [] && lootEntryTracker == []
      ensures detectionMode == ChatLog && frames == []
      ensures this.catalog == catalog && this.similarity == similarity
    {
      lootTable := map[];
      lootHistory := [];
      lootEntryTracker := [];
      detectionMode := ChatLog;
      frames := [];
      this.catalog := catalog;
      this.similarity := similarity;
    }

    /** `reset`: forgets the previous frame, the history and the table. */
    method Reset()
      modifies this
      ensures lootTable == map[] && lootHistory == [] && lootEntryTracker == []
      ensures detectionMode == old(detectionMode) && frames == old(frames)
    {
      lootEntryTracker := [];
      lootHistory := [];
      lootTable := map[];
    }

    /** `insert`, with `keys` the order in which the table yields its keys. */
    method Insert(newEntry: seq<string>, keys: seq<string>) returns (count: u16)
      requires KeyOrder(keys, lootTable)
      modifies this
      ensures (State(), count) == InsertStep(old(detectionMode), catalog, similarity, keys, old(State()), newEntry)
      ensures detectionMode == old(detectionMode) && frames == old(frames) + [newEntry]
    {
      ghost var st0 := State();
      frames := frames + [newEntry];
      var newLootDataEntry := MultipleParseLoot(detectionMode, newEntry);
      if newLootDataEntry == [] {
        if detectionMode == DropLog {
          lootEntryTracker := [];
        }
        return 0;
      }
      if lootTable != map[] {
        newLootDataEntry := ResolveNames(similarity, keys, newLootDataEntry);
      }
      assert InsertStep(detectionMode, catalog, similarity, keys, st0, newEntry)
        == Advance(detectionMode, catalog, st0, newLootDataEntry);
      var diffLootData: seq<LootData>;
      match detectionMode {
        case ChatLog =>
          diffLootData := Diff.Diff(lootEntryTracker, newLootDataEntry);
          if |diffLootData| == 0 {
            return 0;
          }
          lootEntryTracker := newLootDataEntry;
        case DropLog =>
          if lootEntryTracker != [] {
            diffLootData := Diff.Diff(lootEntryTracker, newLootDataEntry);
            if |diffLootData| == 0 {
              return 0;
            }
          } else {
            diffLootData := newLootDataEntry;
          }
          lootEntryTracker := newLootDataEntry;
      }
      assert diffLootData == NewEvents(detectionMode, st0.tracker, newLootDataEntry) != [];
      Record(diffLootData);
      count := |diffLootData| % 65536;
    }

    /** The recording loop of `insert`: each new event goes to the history
        and into the table. */
    method Record(diffLootData: seq<LootData>)
      modifies this
      ensures lootHistory == old(lootHistory) + diffLootData
      ensures lootTable == Accumulate(catalog, old(lootTable), diffLootData)
      ensures lootEntryTracker == old(lootEntryTracker) && detectionMode == old(detectionMode) && frames == old(frames)
    {
      var history := lootHistory;
      var table := lootTable;
      for i := 0 to |diffLootData|
        invariant history == old(lootHistory) + diffLootData[..i]
        invariant table == Accumulate(catalog, old(lootTable), diffLootData[..i])
      {
        assert diffLootData[..i + 1][..i] == diffLootData[..i];
        assert diffLootData[..i + 1] == diffLootData[..i] + [diffLootData[i]];
        var v := diffLootData[i];
        history := history + [v];
        if v.name in table {
          var entry := table[v.name];
          table := table[v.name := entry.(amount := entry.amount + v.amount)];
          continue;
        }
        var lootMetadata := FindLootMetadata(catalog, v.name);
        if lootMetadata.None? {
          continue;
        }
        var metadata := lootMetadata.value;
        var newLootData := LootData(metadata.id, v.name, v.amount, metadata.price, v.hour, v.minute);
        table := table[newLootData.name := newLootData];
      }
      assert diffLootData[..|diffLootData|] == diffLootData;
      lootHistory := history;
      lootTable := table;
    }

    /** `analyze`: the capture region in the tracker's detection mode. */
    method Analyze(input: seq<CaptureInput>) returns (area: Rect)
      ensures area == Calibrated(detectionMode, input, AnalyzeDefault)
    {
      area := CaptureEnvelope(detectionMode, input, AnalyzeDefault);
    }
  }

  // ---------------------------------------------------------------------
  // what accumulation promises

  /** The effect of one event on one key. */
  lemma AddEventEntry(catalog: string -> Option<ItemData>, table: map<string, LootData>, v: LootData, k: string)
    ensures k in table ==>
      k in AddEvent(catalog, table, v)
      && AddEvent(catalog, table, v)[k] == table[k].(amount := table[k].amount + (if v.name == k then v.amount else 0))
    ensures k !in table ==> (k in AddEvent(catalog, table, v) <==> v.name == k && catalog(k).Some?)
    ensures k !in table && k in AddEvent(catalog, table, v) ==>
      AddEvent(catalog, table, v)[k] == LootData(catalog(k).value.id, k, v.amount, UnitPrice(catalog(k).value), v.hour, v.minute)
  {
  }

  /** The worth (`calculate`) of an entry after accumulation: an existing
      entry's worth grows by the added amount times its own price; a new
      entry is worth its total amount at the catalogue's price. */
  lemma AccumulateWorth(catalog: string -> Option<ItemData>, table: map<string, LootData>, d: seq<LootData>, k: string)
    ensures k in table ==>
      && k in Accumulate(catalog, table, d)
      && Calculate(Accumulate(catalog, table, d)[k]) == Add(Calculate(table[k]), Scale(AmountFor(d, k), table[k].price))
    ensures k !in table && k in Accumulate(catalog, table, d) ==> catalog(k).Some?
    ensures k !in table && k in Accumulate(catalog, table, d) ==>
      Calculate(Accumulate(catalog, table, d)[k]) == Scale(AmountFor(d, k), UnitPrice(catalog(k).value))
  {
    AccumulateEntry(catalog, table, d, k);
    if k in table {
      CalculateAdditive(table[k], AmountFor(d, k));
    }
  }

  /** No event named `k`, no amount for `k`. */
  lemma {:induction false} AmountForAbsent(d: seq<LootData>, k: string)
    requires forall j :: 0 <= j < |d| ==> d[j].name != k
    ensures AmountFor(d, k) == 0
  {
    if d != [] {
      AmountForAbsent(d[..|d| - 1], k);
    }
  }

  /** The effect of a run of events on one key. An entry already in the
      table gains the total amount of the events with its name and keeps
      everything else. A name not yet in the table appears exactly when some
      event has it and the catalogue knows it, with the total amount, the
      catalogue's id and price, and the time of its first event. */
  lemma AccumulateEntry(catalog: string -> Option<ItemData>, table: map<string, LootData>, d: seq<LootData>, k: string)
    ensures k in table ==>
      k in Accumulate(catalog, table, d) && Accumulate(catalog, table, d)[k] == table[k].(amount := table[k].amount + AmountFor(d, k))
    ensures k !in table ==>
      (k in Accumulate(catalog, table, d) <==> FirstNamed(d, k) < |d| && catalog(k).Some?)
    ensures k !in table && k in Accumulate(catalog, table, d) ==>
      var e := Accumulate(catalog, table, d)[k];
      var first := d[FirstNamed(d, k)];
      && e.name == k && e.amount == AmountFor(d, k)
      && e.id == catalog(k).value.id && e.price == UnitPrice(catalog(k).value)
      && e.hour == first.hour && e.minute == first.minute
  {
    if k in table {
      AccumulateExisting(catalog, table, d, k);
    } else {
      AccumulateNew(catalog, table, d, k);
    }
  }

  lemma {:induction false} AccumulateExisting(catalog: string -> Option<ItemData>, table: map<string, LootData>, d: seq<LootData>, k: string)
    requires k in table
    ensures k in Accumulate(catalog, table, d)
    ensures Accumulate(catalog, table, d)[k] == table[k].(amount := table[k].amount + AmountFor(d, k))
  {
    if d != [] {
      var n := |d| - 1;
      var init := d[..n];
      var before := Accumulate(catalog, table, init);
      AccumulateExisting(catalog, table, init, k);
      AddEventEntry(catalog, before, d[n], k);
      assert Accumulate(catalog, table, d) == AddEvent(catalog, before, d[n]);
      assert AmountFor(d, k) == AmountFor(init, k) + (if d[n].name == k then d[n].amount else 0);
    }
  }

  /** A name not yet in the table, one event at a time. */
  lemma {:induction false} AccumulateNew(catalog: string -> Option<ItemData>, table: map<string, LootData>, d: seq<LootData>, k: string)
    requires k !in table
    ensures k in Accumulate(catalog, table, d) <==> FirstNamed(d, k) < |d| && catalog(k).Some?
    ensures k in Accumulate(catalog, table, d) ==>
      var e := Accumulate(catalog, table, d)[k];
      var first := d[FirstNamed(d, k)];
      && e.name == k && e.amount == AmountFor(d, k)
      && e.id == catalog(k).value.id && e.price == UnitPrice(catalog(k).value)
      && e.hour == first.hour && e.minute == first.minute
  {
    if d != [] {
      var n := |d| - 1;
      var init := d[..n];
      var before := Accumulate(catalog, table, init);
      assert Accumulate(catalog, table, d) == AddEvent(catalog, before, d[n]);
      assert AmountFor(d, k) == AmountFor(init, k) + (if d[n].name == k then d[n].amount else 0);
      var f := FirstNamed(init, k);
      assert forall j :: 0 <= j < n ==> d[j] == init[j];
      AccumulateNew(catalog, table, init, k);
      AddEventEntry(catalog, before, d[n], k);
      if f < n {
        assert FirstNamed(d, k) == f;
      } else {
        if d[n].name == k {
          assert FirstNamed(d, k) == n;
          AmountForAbsent(init, k);
        } else {
          assert FirstNamed(d, k) == |d|;
        }
      }
    }
  }

  /** Accumulation removes no entry and adds only names of events. */
  lemma AccumulateKeys(catalog: string -> Option<ItemData>, table: map<string, LootData>, d: seq<LootData>, k: string)
    ensures k in table ==> k in Accumulate(catalog, table, d)
    ensures k in Accumulate(catalog, table, d) ==> k in table || exists i :: 0 <= i < |d| && d[i].name == k
  {
    AccumulateEntry(catalog, table, d, k);
  }

  /** Accumulation keeps every entry filed under its own name. */
  lemma {:induction false} AccumulateKeyedByName(catalog: string -> Option<ItemData>, table: map<string, LootData>, d: seq<LootData>)
    requires KeyedByName(table)
    ensures KeyedByName(Accumulate(catalog, table, d))
  {
    if d != [] {
      AccumulateKeyedByName(catalog, table, d[..|d| - 1]);
    }
  }

  /** Amounts add up over consecutive runs of events. */
  lemma {:induction false} AmountForConcat(a: seq<LootData>, b: seq<LootData>, k: string)
    ensures AmountFor(a + b, k) == AmountFor(a, k) + AmountFor(b, k)
    decreases |b|
  {
    if b == [] {
      assert a + b == a;
    } else {
      assert (a + b)[..|a + b| - 1] == a + b[..|b| - 1];
      AmountForConcat(a, b[..|b| - 1], k);
    }
  }

  // ---------------------------------------------------------------------
  // what `insert` promises

  /** Both modes select the new events the same way: `diff` against the
      previous frame (with no previous frame, everything is new). */
  lemma NewEventsIsUnseen(mode: Mode, tracker: seq<LootData>, resolved: seq<LootData>)
    ensures NewEvents(mode, tracker, resolved) == Unseen(tracker, resolved)
  {
  }

  /** The count and the history: `insert` returns the number of new events
      (modulo 2^16), the history grows by exactly those events, which form a
      suffix of the resolved frame, and the resolved frame becomes the
      previous frame. With nothing parsed or nothing new, it returns 0 and
      changes nothing but, in drop-log mode on an empty parse, the previous
      frame. */
  lemma InsertOutcome(mode: Mode, catalog: string -> Option<ItemData>, similarity: (string, string) -> Score,
                      keys: seq<string>, st: Ledger, entry: seq<string>)
    ensures var (st', count) := InsertStep(mode, catalog, similarity, keys, st, entry);
      var parsed := ParseAll(mode, entry);
      var resolved := if st.table == map[] then parsed else ResolveAll(similarity, keys, parsed);
      && (parsed == [] ==> count == 0 && st'.table == st.table && st'.history == st.history
                           && st'.tracker == (if mode == DropLog then [] else st.tracker))
      && (parsed != [] && Unseen(st.tracker, resolved) == [] ==> count == 0 && st' == st)
      && (parsed != [] && Unseen(st.tracker, resolved) != [] ==>
            && count == |Unseen(st.tracker, resolved)| % 65536
            && st'.history == st.history + Unseen(st.tracker, resolved)
            && st'.tracker == resolved
            && st'.history[|st.history|..] == resolved[|resolved| - |st'.history[|st.history|..]|..])
  {
    var parsed := ParseAll(mode, entry);
    if parsed != [] {
      AdvanceOutcome(mode, catalog, st, Resolved(similarity, keys, st.table, parsed));
    }
  }

  /** `insert` after a non-empty parse, in terms of the resolved frame. */
  lemma AdvanceOutcome(mode: Mode, catalog: string -> Option<ItemData>, st: Ledger, resolved: seq<LootData>)
    ensures var (st', count) := Advance(mode, catalog, st, resolved);
      && (Unseen(st.tracker, resolved) == [] ==> count == 0 && st' == st)
      && (Unseen(st.tracker, resolved) != [] ==>
            && count == |Unseen(st.tracker, resolved)| % 65536
            && st'.history == st.history + Unseen(st.tracker, resolved)
            && st'.tracker == resolved
            && st'.history[|st.history|..] == resolved[|resolved| - |st'.history[|st.history|..]|..])
  {
    NewEventsIsUnseen(mode, st.tracker, resolved);
    var d := Unseen(st.tracker, resolved);
    assert (st.history + d)[|st.history|..] == d;
  }

  /** A frame identical to the previous one adds nothing. */
  lemma InsertSameFrame(mode: Mode, catalog: string -> Option<ItemData>, similarity: (string, string) -> Score,
                        keys: seq<string>, st: Ledger, entry: seq<string>)
    requires ParseAll(mode, entry) != []
    requires st.tracker == if st.table == map[] then ParseAll(mode, entry) else ResolveAll(similarity, keys, ParseAll(mode, entry))
    ensures InsertStep(mode, catalog, similarity, keys, st, entry) == (st, 0)
  {
    DiffSelf(st.tracker);
    NewEventsIsUnseen(mode, st.tracker, st.tracker);
  }

  /** `insert` in terms of each ledger entry: no entry is removed, entries
      stay filed under their own names, and each entry gains exactly the
      amounts of the new events carrying its name. */
  lemma InsertTable(mode: Mode, catalog: string -> Option<ItemData>, similarity: (string, string) -> Score,
                    keys: seq<string>, st: Ledger, entry: seq<string>, k: string)
    ensures var st' := InsertStep(mode, catalog, similarity, keys, st, entry).0;
      && (k in st.table ==> k in st'.table && st'.table[k].amount >= st.table[k].amount)
      && (k in st.table ==> st'.table[k] == st.table[k].(amount := st'.table[k].amount))
      && (k in st.table ==> st'.table[k].amount == st.table[k].amount + AmountFor(st'.history[|st.history|..], k))
      && (k in st'.table && k !in st.table ==> catalog(k).Some? && st'.table[k].amount == AmountFor(st'.history[|st.history|..], k))
      && (KeyedByName(st.table) ==> KeyedByName(st'.table))
  {
    var parsed := ParseAll(mode, entry);
    var resolved := if st.table == map[] then parsed else ResolveAll(similarity, keys, parsed);
    var d := NewEvents(mode, st.tracker, resolved);
    var st' := InsertStep(mode, catalog, similarity, keys, st, entry).0;
    if parsed != [] && d != [] {
      assert st'.history[|st.history|..] == d;
      AccumulateEntry(catalog, st.table, d, k);
      if KeyedByName(st.table) {
        AccumulateKeyedByName(catalog, st.table, d);
      }
    } else {
      assert st'.history[|st.history|..] == [];
    }
  }
}
