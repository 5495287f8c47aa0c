/** The rundown of a playout channel for one day: the events scheduled in the
    window, each followed by its items, with running scheduled and broadcast
    times, accumulated event durations and a derived status per item.
    The database query, the channel settings, the run log, the pending
    transfers, the date parser and the duration parser are parameters. */
module Rundown {
  import opened Wrappers

  /** `RunMode.RUN_AUTO`, the run mode of an event that does not set one. */
  const RunAuto: int := 0
  /** `RunMode.RUN_SKIP`: an item with this run mode does not advance the clock. */
  const RunSkip: int := 4
  /** Length of the rundown window in seconds. */
  const Day: int := 3600 * 24

  datatype ObjectStatus =
    | Offline | Online | Creating | Trashed | Archived | Reset
    | Corrupted | Remote | Unknown | Aired | OnAir | Retrieving

  /** The meta of an event as the query returns it (`start` always present). */
  datatype EventMeta = EventMeta(
    start: int,
    runMode: Option<int>,
    title: Option<string>,
    subtitle: Option<string>,
    idAsset: Option<int>)

  /** The meta of an item; all absent when the event has no item (`imeta or {}`). */
  datatype ItemMeta = ItemMeta(
    runMode: Option<int>,
    itemRole: Option<string>,
    title: Option<string>,
    subtitle: Option<string>,
    idAsset: Option<int>)

  /** Non-empty asset meta: its id, its status, the per-channel playout status
      (`playout_status/<id_channel>` -> its "status"), title, subtitle and mtime. */
  datatype AssetMeta = AssetMeta(
    id: int,
    status: Option<ObjectStatus>,
    playout: map<int, ObjectStatus>,
    title: Option<string>,
    subtitle: Option<string>,
    mtime: Option<int>)

  /** One row of the event/item/asset join. `asset` is None when the asset meta is
      missing or empty. */
  datatype Record = Record(
    idEvent: int,
    event: EventMeta,
    idBin: int,
    idItem: Option<int>,
    item: ItemMeta,
    asset: Option<AssetMeta>)

  /** An entry of the run log of an item: when it started and, once it ended, when. */
  datatype Run = Run(start: int, stop: Option<int>)

  /** What `parse_durations` returns: the duration, mark-in and mark-out. */
  datatype Durations = Durations(duration: int, markIn: Option<int>, markOut: Option<int>)

  /** A row of the rundown. An event row starts with duration 0 and is updated
      in place while its items are added. */
  datatype Row =
    | EventRow(
        id: int,
        rowNumber: nat,
        scheduledTime: int,
        broadcastTime: int,
        runMode: int,
        title: Option<string>,
        subtitle: Option<string>,
        idAsset: Option<int>,
        idBin: int,
        duration: int,
        meta: EventMeta)
    | ItemRow(
        id: int,
        rowNumber: nat,
        scheduledTime: int,
        broadcastTime: int,
        itemRunMode: Option<int>,
        itemRole: Option<string>,
        title: Option<string>,
        subtitle: Option<string>,
        idAsset: Option<int>,
        idBin: int,
        duration: int,
        status: ObjectStatus,
        transferProgress: Option<int>,
        assetMtime: int,
        markIn: Option<int>,
        markOut: Option<int>)

  /** What the fold of the records needs besides the records. */
  datatype Context = Context(
    idChannel: int,
    itemRuns: map<int, Run>,
    pendingAssets: set<int>,
    parseDurations: (Option<AssetMeta>, ItemMeta) -> Durations)

  /** The loop's variables: the rows so far, the index of `last_event` in them,
      `ts_scheduled` and `ts_broadcast`. */
  datatype Acc = Acc(rows: seq<Row>, lastEvent: Option<nat>, tsScheduled: int, tsBroadcast: int)

  const Start: Acc := Acc([], None, 0, 0)

  /** `last_event` is the last event row, and only item rows follow it. */
  predicate WF(acc: Acc) {
    && (acc.lastEvent.None? <==> acc.rows == [])
    && (acc.lastEvent.Some? ==>
          && acc.lastEvent.value < |acc.rows|
          && acc.rows[acc.lastEvent.value].EventRow?
          && forall k :: acc.lastEvent.value < k < |acc.rows| ==> acc.rows[k].ItemRow?)
  }

  predicate Numbered(rows: seq<Row>) {
    forall k :: 0 <= k < |rows| ==> rows[k].rowNumber == k
  }

  /** Python's `a or b` on optional strings: `a` unless it is missing or empty. */
  function OrElse(a: Option<string>, b: Option<string>): (r: Option<string>)
    ensures r == a || r == b
    ensures r == a <==> (a.Some? && a.value != "") || a == b
  {
    if a.Some? && a.value != "" then a else b
  }

  /** Whether a record opens a new event row. */
  function NewEvent(acc: Acc, rec: Record): (opens: bool)
    requires WF(acc)
    ensures acc.rows == [] ==> opens
    ensures acc.rows != [] ==> (opens <==> rec.idEvent != acc.rows[acc.lastEvent.value].id)
  {
    acc.lastEvent.None? || rec.idEvent != acc.rows[acc.lastEvent.value].id
  }

  /** The row of the record's event, placed at `position`: scheduled and broadcast at
      the event's start, run mode auto unless the event sets one, no duration yet. */
  function EventRowOf(rec: Record, position: nat): (row: Row)
    ensures row.EventRow? && row.id == rec.idEvent && row.rowNumber == position && row.idBin == rec.idBin
    ensures row.scheduledTime == rec.event.start && row.broadcastTime == rec.event.start
    ensures row.duration == 0
    ensures row.runMode == (if rec.event.runMode.Some? then rec.event.runMode.value else RunAuto)
    ensures row.title == rec.event.title && row.subtitle == rec.event.subtitle && row.idAsset == rec.event.idAsset
    ensures row.meta == rec.event
  {
    var ev := rec.event;
    EventRow(rec.idEvent, position, ev.start, ev.start, ev.runMode.GetOr(RunAuto),
             ev.title, ev.subtitle, ev.idAsset, rec.idBin, 0, ev)
  }

  /** The event part of one loop iteration. */
  function EnterEvent(acc: Acc, rec: Record): (r: Acc)
    requires WF(acc)
    ensures WF(r) && r.lastEvent.Some?
    ensures Numbered(acc.rows) ==> Numbered(r.rows)
  {
    if !NewEvent(acc, rec) then acc
    else
      var ev := rec.event;
      var row := EventRowOf(rec, |acc.rows|);
      var reset := if acc.lastEvent.Some? && acc.rows[acc.lastEvent.value].duration == 0 then 0 else acc.tsBroadcast;
      var broadcast := if ev.runMode.GetOr(0) != 0 then ev.start else reset;
      Acc(acc.rows + [row], Some(|acc.rows|), ev.start, broadcast)
  }

  /** `airstatus`: AIRED once the run has a (truthy) stop, ON AIR while it runs,
      none (0) without a run. */
  function AirStatus(run: Option<Run>): (r: Option<ObjectStatus>)
    ensures r.None? <==> run.None?
    ensures r == Some(Aired) <==> run.Some? && run.value.stop.Some? && run.value.stop.value != 0
    ensures r.Some? ==> r.value == Aired || r.value == OnAir
  {
    match run
    case None => None
    case Some(Run(_, stop)) => if stop.Some? && stop.value != 0 then Some(Aired) else Some(OnAir)
  }

  /** The status of an item row, by priority: no asset meta, then the air status of
      its run, then the asset being offline, then a missing or offline copy on the
      channel's playout storage, then that copy's status when online or corrupted,
      and unknown for anything else. */
  function ItemStatus(asset: Option<AssetMeta>, run: Option<Run>, idChannel: int): (r: ObjectStatus)
    ensures asset.None? ==> r == Online
    ensures asset.Some? && run.Some? ==> r == AirStatus(run).value
    ensures r == Offline <==> asset.Some? && run.None? && asset.value.status == Some(Offline)
    ensures asset.Some? && run.None? && asset.value.status != Some(Offline) ==>
      (r == Remote <==> idChannel !in asset.value.playout || asset.value.playout[idChannel] == Offline)
    ensures r == Unknown <==>
      asset.Some? && run.None? && asset.value.status != Some(Offline) && idChannel in asset.value.playout &&
      asset.value.playout[idChannel] !in {Offline, Online, Corrupted}
    ensures (asset.Some? && run.None? && asset.value.status != Some(Offline) && idChannel in asset.value.playout &&
             asset.value.playout[idChannel] in {Online, Corrupted}) ==>
      r == asset.value.playout[idChannel]
    ensures r in {Aired, OnAir} ==> asset.Some? && run.Some?
    ensures r in {Online, Offline, Remote, Corrupted, Unknown, Aired, OnAir}
  {
    var air := AirStatus(run);
    if asset.None? then Online
    else if air.Some? then air.value
    else if asset.value.status == Some(Offline) then Offline
    else if idChannel !in asset.value.playout then Remote
    else if asset.value.playout[idChannel] == Offline then Remote
    else if asset.value.playout[idChannel] == Online then Online
    else if asset.value.playout[idChannel] == Corrupted then Corrupted
    else Unknown
  }

  /** -1 while the asset waits for a transfer to the channel, otherwise none. */
  function TransferProgress(asset: Option<AssetMeta>, pending: set<int>): (r: Option<int>)
    ensures r.Some? <==> asset.Some? && asset.value.id in pending
    ensures r.Some? ==> r.value == -1
  {
    if asset.Some? && asset.value.id in pending then Some(-1) else None
  }

  predicate Skipped(row: Row) {
    row.ItemRow? && row.itemRunMode == Some(RunSkip)
  }

  /** `last_event` after a non-skipped item: its broadcast time becomes the item's,
      and the item's duration is added to its duration. */
  function Extend(ev: Row, broadcast: int, duration: int): (r: Row)
    requires ev.EventRow?
    ensures r.EventRow?
    ensures r.id == ev.id && r.rowNumber == ev.rowNumber && r.scheduledTime == ev.scheduledTime
    ensures r.runMode == ev.runMode && r.title == ev.title && r.subtitle == ev.subtitle
    ensures r.idAsset == ev.idAsset && r.idBin == ev.idBin && r.meta == ev.meta
    ensures r.broadcastTime == broadcast && r.duration == ev.duration + duration
  {
    EventRow(ev.id, ev.rowNumber, ev.scheduledTime, broadcast, ev.runMode, ev.title, ev.subtitle,
             ev.idAsset, ev.idBin, ev.duration + duration, ev.meta)
  }

  /** The row of the record's item, placed after `rows` with the clock at
      `scheduled`/`broadcast` (already moved to the start of the item's run). */
  function ItemRowOf(rec: Record, ctx: Context, position: nat, scheduled: int, broadcast: int, run: Option<Run>): (row: Row)
    requires rec.idItem.Some?
    ensures row.ItemRow? && row.id == rec.idItem.value && row.rowNumber == position && row.idBin == rec.idBin
    ensures row.scheduledTime == scheduled && row.broadcastTime == broadcast
    ensures row.itemRunMode == rec.item.runMode && row.itemRole == rec.item.itemRole && row.idAsset == rec.item.idAsset
    ensures rec.item.title.Some? && rec.item.title.value != "" ==> row.title == rec.item.title
    ensures rec.item.title.None? || rec.item.title == Some("") ==>
      row.title == (if rec.asset.Some? then rec.asset.value.title else None)
    ensures rec.item.subtitle.Some? && rec.item.subtitle.value != "" ==> row.subtitle == rec.item.subtitle
    ensures rec.item.subtitle.None? || rec.item.subtitle == Some("") ==>
      row.subtitle == (if rec.asset.Some? then rec.asset.value.subtitle else None)
    ensures row.status == ItemStatus(rec.asset, run, ctx.idChannel)
    ensures row.transferProgress == TransferProgress(rec.asset, ctx.pendingAssets)
    ensures var d := ctx.parseDurations(rec.asset, rec.item);
      row.duration == d.duration && row.markIn == d.markIn && row.markOut == d.markOut
    ensures row.assetMtime == (if rec.asset.Some? && rec.asset.value.mtime.Some? then rec.asset.value.mtime.value else 0)
  {
    var asset := rec.asset;
    var d := ctx.parseDurations(asset, rec.item);
    ItemRow(
      rec.idItem.value, position, scheduled, broadcast,
      rec.item.runMode, rec.item.itemRole,
      OrElse(rec.item.title, if asset.Some? then asset.value.title else None),
      OrElse(rec.item.subtitle, if asset.Some? then asset.value.subtitle else None),
      rec.item.idAsset, rec.idBin, d.duration,
      ItemStatus(asset, run, ctx.idChannel),
      TransferProgress(asset, ctx.pendingAssets),
      if asset.Some? then asset.value.mtime.GetOr(0) else 0,
      d.markIn, d.markOut)
  }

  /** The run-log entry of the record's item, if it has one. */
  function RunOf(rec: Record, ctx: Context): (run: Option<Run>)
    requires rec.idItem.Some?
    ensures run.Some? <==> rec.idItem.value in ctx.itemRuns
    ensures run.Some? ==> run.value == ctx.itemRuns[rec.idItem.value]
  {
    if rec.idItem.value in ctx.itemRuns then Some(ctx.itemRuns[rec.idItem.value]) else None
  }

  /** The item part of one loop iteration, once an event row exists. */
  function AddItem(acc: Acc, rec: Record, ctx: Context): (r: Acc)
    requires WF(acc) && acc.lastEvent.Some? && rec.idItem.Some?
    ensures WF(r) && r.lastEvent == acc.lastEvent
    ensures Numbered(acc.rows) ==> Numbered(r.rows)
  {
    var run := RunOf(rec, ctx);
    var broadcast := if run.Some? then run.value.start else acc.tsBroadcast;
    var row := ItemRowOf(rec, ctx, |acc.rows|, acc.tsScheduled, broadcast, run);
    var rows := acc.rows + [row];
    if Skipped(row) then Acc(rows, acc.lastEvent, acc.tsScheduled, broadcast)
    else
      var e := acc.lastEvent.value;
      Acc(rows[e := Extend(rows[e], broadcast, row.duration)],
          acc.lastEvent, acc.tsScheduled + row.duration, broadcast + row.duration)
  }

  /** One iteration of the loop over the records. */
  function Absorb(acc: Acc, rec: Record, ctx: Context): (r: Acc)
    requires WF(acc)
    ensures WF(r)
    ensures Numbered(acc.rows) ==> Numbered(r.rows)
  {
    var a := EnterEvent(acc, rec);
    if rec.idItem.None? then a else AddItem(a, rec, ctx)
  }

  /** The loop over the records, as a left fold. */
  function Build(records: seq<Record>, ctx: Context): (r: Acc)
    ensures WF(r) && Numbered(r.rows)
  {
    if records == [] then Start
    else Absorb(Build(records[..|records| - 1], ctx), records[|records| - 1], ctx)
  }

  /** The row a record appends when it opens a new event: the event's own row, which
      the record's item, unless skipped, then gives its broadcast time and duration. */
  lemma OpenedEventRow(acc: Acc, rec: Record, ctx: Context)
    requires WF(acc) && NewEvent(acc, rec)
    ensures EnterEvent(acc, rec).rows == acc.rows + [EventRowOf(rec, |acc.rows|)]
    ensures var r := Absorb(acc, rec, ctx);
      && |r.rows| > |acc.rows|
      && var row := r.rows[|acc.rows|];
      && row.EventRow? && row.id == rec.idEvent && row.rowNumber == |acc.rows| && row.idBin == rec.idBin
      && row.scheduledTime == rec.event.start
      && row.runMode == (if rec.event.runMode.Some? then rec.event.runMode.value else RunAuto)
      && row.title == rec.event.title && row.subtitle == rec.event.subtitle && row.idAsset == rec.event.idAsset
      && (rec.idItem.None? || rec.item.runMode == Some(RunSkip) ==> row == EventRowOf(rec, |acc.rows|))
      && (rec.idItem.Some? && rec.item.runMode != Some(RunSkip) ==>
            && |r.rows| == |acc.rows| + 2
            && row.duration == r.rows[|acc.rows| + 1].duration
            && row.broadcastTime == r.rows[|acc.rows| + 1].broadcastTime)
  {
  }

  /** An event row is appended exactly when the record's event differs from `last_event`;
      an item row exactly when the record has an item; the earlier rows stay in place. */
  lemma AppendedRows(acc: Acc, rec: Record, ctx: Context)
    requires WF(acc)
    ensures var r := Absorb(acc, rec, ctx);
      && |r.rows| == |acc.rows| + (if NewEvent(acc, rec) then 1 else 0) + (if rec.idItem.Some? then 1 else 0)
      && (NewEvent(acc, rec) <==> |r.rows| > |acc.rows| && r.rows[|acc.rows|].EventRow?)
      && (rec.idItem.Some? ==> r.rows[|r.rows| - 1].ItemRow? && r.rows[|r.rows| - 1].id == rec.idItem.value)
      && (forall k :: 0 <= k < |acc.rows| && Some(k) != acc.lastEvent ==> r.rows[k] == acc.rows[k])
  {
  }

  /** At a new event, `ts_scheduled` restarts at the event's start; `ts_broadcast` does
      too when the event has a run mode other than auto, and is otherwise reset to 0
      after an event of no duration and kept after any other. */
  lemma NewEventClock(acc: Acc, rec: Record)
    requires WF(acc) && NewEvent(acc, rec)
    ensures var e := EnterEvent(acc, rec);
      && e.tsScheduled == rec.event.start
      && (rec.event.runMode.Some? && rec.event.runMode.value != RunAuto ==> e.tsBroadcast == rec.event.start)
      && (rec.event.runMode.GetOr(RunAuto) == RunAuto ==>
            e.tsBroadcast == if acc.lastEvent.Some? && acc.rows[acc.lastEvent.value].duration == 0 then 0 else acc.tsBroadcast)
  {
  }

  /** A record without an item adds no item row, and leaves the clock where the
      event part put it. A record of the current event without an item changes nothing. */
  lemma NoItemNoRow(acc: Acc, rec: Record, ctx: Context)
    requires WF(acc) && rec.idItem.None?
    ensures var r := Absorb(acc, rec, ctx);
      && (forall k :: |acc.rows| <= k < |r.rows| ==> r.rows[k].EventRow?)
      && r.tsScheduled == EnterEvent(acc, rec).tsScheduled
      && r.tsBroadcast == EnterEvent(acc, rec).tsBroadcast
      && (!NewEvent(acc, rec) ==> r == acc)
  {
  }

  /** The item row a record appends: numbered by its position, timed by the clock, with
      `ts_broadcast` moved to the start of the item's run when it has one. */
  lemma ItemRowFields(acc: Acc, rec: Record, ctx: Context)
    requires WF(acc) && rec.idItem.Some?
    ensures var e := EnterEvent(acc, rec);
      var r := Absorb(acc, rec, ctx);
      var id := rec.idItem.value;
      var row := r.rows[|e.rows|];
      && |r.rows| == |e.rows| + 1
      && row.ItemRow? && row.id == id && row.rowNumber == |e.rows|
      && row.scheduledTime == e.tsScheduled
      && row.broadcastTime == (if id in ctx.itemRuns then ctx.itemRuns[id].start else e.tsBroadcast)
      && row.status == ItemStatus(rec.asset, if id in ctx.itemRuns then Some(ctx.itemRuns[id]) else None, ctx.idChannel)
      && row.transferProgress == TransferProgress(rec.asset, ctx.pendingAssets)
      && row.duration == ctx.parseDurations(rec.asset, rec.item).duration
  {
  }

  /** A skipped item changes neither clock (beyond the move to its run's start) nor its event. */
  lemma SkippedItemKeepsClock(acc: Acc, rec: Record, ctx: Context)
    requires WF(acc) && rec.idItem.Some? && rec.item.runMode == Some(RunSkip)
    ensures var e := EnterEvent(acc, rec);
      var r := Absorb(acc, rec, ctx);
      && r.rows[..|e.rows|] == e.rows
      && r.tsScheduled == e.tsScheduled
      && r.tsBroadcast == r.rows[|e.rows|].broadcastTime
  {
  }

  /** Any other item advances both clocks by its duration, adds its duration to its
      event and gives the event the item's broadcast time; no other row changes. */
  lemma ItemAdvancesClock(acc: Acc, rec: Record, ctx: Context)
    requires WF(acc) && rec.idItem.Some? && rec.item.runMode != Some(RunSkip)
    ensures var e := EnterEvent(acc, rec);
      var r := Absorb(acc, rec, ctx);
      var d := ctx.parseDurations(rec.asset, rec.item).duration;
      var last := e.lastEvent.value;
      var item := r.rows[|e.rows|];
      && r.tsScheduled == e.tsScheduled + d
      && r.tsBroadcast == item.broadcastTime + d
      && r.rows[last].EventRow?
      && r.rows[last].duration == e.rows[last].duration + d
      && r.rows[last].broadcastTime == item.broadcastTime
      && r.rows[last].id == e.rows[last].id && r.rows[last].scheduledTime == e.rows[last].scheduledTime
      && (forall k :: 0 <= k < |e.rows| && k != last ==> r.rows[k] == e.rows[k])
  {
  }

  /** The contribution of a row to its event's duration. */
  function Weight(row: Row): int {
    if row.ItemRow? && !Skipped(row) then row.duration else 0
  }

  /** The summed durations of the non-skipped item rows among `rows[lo..hi]`. */
  function ItemTotal(rows: seq<Row>, lo: nat, hi: nat): int
    requires lo <= hi <= |rows|
    decreases hi - lo
  {
    if lo == hi then 0 else ItemTotal(rows, lo, hi - 1) + Weight(rows[hi - 1])
  }

  /** The position of the first event row at or after `k`, or the end. */
  function NextEvent(rows: seq<Row>, k: nat): (n: nat)
    requires k <= |rows|
    ensures k <= n <= |rows|
    ensures n < |rows| ==> rows[n].EventRow?
    ensures forall j :: k <= j < n ==> rows[j].ItemRow?
    decreases |rows| - k
  {
    if k == |rows| || rows[k].EventRow? then k else NextEvent(rows, k + 1)
  }

  /** Every event row's duration is the total of the item rows that follow it up to the next event. */
  predicate Totals(rows: seq<Row>) {
    forall e {:trigger EventTotal(rows, e)} :: 0 <= e < |rows| && rows[e].EventRow? ==>
      rows[e].duration == EventTotal(rows, e)
  }

  /** The total of the item rows between the event row at `e` and the next event row. */
  function EventTotal(rows: seq<Row>, e: nat): int
    requires e < |rows|
  {
    ItemTotal(rows, e + 1, NextEvent(rows, e + 1))
  }

  /** `NextEvent` finds the first event row after a run of item rows. */
  lemma NextEventAt(rows: seq<Row>, k: nat, n: nat)
    requires k <= n <= |rows|
    requires n < |rows| ==> rows[n].EventRow?
    requires forall j :: k <= j < n ==> rows[j].ItemRow?
    ensures NextEvent(rows, k) == n
    decreases n - k
  {
  }

  /** `ItemTotal` only looks at the rows in its range. */
  lemma {:induction false} ItemTotalSame(r1: seq<Row>, r2: seq<Row>, lo: nat, hi: nat)
    requires lo <= hi <= |r1| && hi <= |r2|
    requires forall j :: lo <= j < hi ==> r1[j] == r2[j]
    ensures ItemTotal(r1, lo, hi) == ItemTotal(r2, lo, hi)
    decreases hi - lo
  {
    if lo < hi {
      ItemTotalSame(r1, r2, lo, hi - 1);
    }
  }

  /** Appending an event row of duration 0 keeps every total. */
  lemma TotalsAfterEvent(rows: seq<Row>, ev: Row)
    requires Totals(rows) && ev.EventRow? && ev.duration == 0
    ensures Totals(rows + [ev])
  {
    var rs := rows + [ev];
    forall e | 0 <= e < |rs| && rs[e].EventRow?
      ensures rs[e].duration == EventTotal(rs, e)
    {
      if e < |rows| {
        assert rows[e].duration == EventTotal(rows, e);
        var n := NextEvent(rows, e + 1);
        NextEventAt(rs, e + 1, n);
        ItemTotalSame(rows, rs, e + 1, n);
      } else {
        NextEventAt(rs, e + 1, |rs|);
      }
    }
  }

  /** Appending an item row after the last event row, and adding its weight to that
      event's duration, keeps every total. */
  lemma TotalsAfterItem(rows: seq<Row>, last: nat, item: Row, rs: seq<Row>)
    requires Totals(rows) && item.ItemRow?
    requires last < |rows| && rows[last].EventRow?
    requires forall k :: last < k < |rows| ==> rows[k].ItemRow?
    requires |rs| == |rows| + 1 && rs[|rows|] == item
    requires forall k :: 0 <= k < |rows| && k != last ==> rs[k] == rows[k]
    requires rs[last].EventRow? && rs[last].duration == rows[last].duration + Weight(item)
    ensures Totals(rs)
  {
    forall e | 0 <= e < |rs| && rs[e].EventRow?
      ensures rs[e].duration == EventTotal(rs, e)
    {
      if e < last {
        TotalsBeforeLast(rows, last, rs, e);
      } else {
        TotalsOfLast(rows, last, item, rs);
      }
    }
  }

  lemma TotalsBeforeLast(rows: seq<Row>, last: nat, rs: seq<Row>, e: nat)
    requires Totals(rows)
    requires e < last < |rows| && rows[last].EventRow? && rows[e].EventRow?
    requires |rs| == |rows| + 1 && rs[last].EventRow?
    requires forall k :: 0 <= k < |rows| && k != last ==> rs[k] == rows[k]
    ensures rs[e].duration == EventTotal(rs, e)
  {
    assert rows[e].duration == EventTotal(rows, e);
    var n := NextEvent(rows, e + 1);
    assert n <= last;
    NextEventAt(rs, e + 1, n);
    ItemTotalSame(rows, rs, e + 1, n);
  }

  lemma TotalsOfLast(rows: seq<Row>, last: nat, item: Row, rs: seq<Row>)
    requires Totals(rows) && item.ItemRow?
    requires last < |rows| && rows[last].EventRow?
    requires forall k :: last < k < |rows| ==> rows[k].ItemRow?
    requires |rs| == |rows| + 1 && rs[|rows|] == item
    requires forall k :: 0 <= k < |rows| && k != last ==> rs[k] == rows[k]
    requires rs[last].duration == rows[last].duration + Weight(item)
    ensures rs[last].duration == EventTotal(rs, last)
  {
    assert rows[last].duration == EventTotal(rows, last);
    NextEventAt(rows, last + 1, |rows|);
    NextEventAt(rs, last + 1, |rs|);
    ItemTotalSame(rows, rs, last + 1, |rows|);
  }

  /** Opening an event keeps every total: the new event is empty, the others end before it. */
  lemma EnterEventKeepsTotals(acc: Acc, rec: Record)
    requires WF(acc) && Totals(acc.rows)
    ensures Totals(EnterEvent(acc, rec).rows)
  {
    if NewEvent(acc, rec) {
      TotalsAfterEvent(acc.rows, EnterEvent(acc, rec).rows[|acc.rows|]);
    }
  }

  /** Adding an item keeps every total: only its own event's total and duration grow, by the same amount. */
  lemma AddItemKeepsTotals(acc: Acc, rec: Record, ctx: Context)
    requires WF(acc) && acc.lastEvent.Some? && rec.idItem.Some? && Totals(acc.rows)
    ensures Totals(AddItem(acc, rec, ctx).rows)
  {
    var rs := AddItem(acc, rec, ctx).rows;
    TotalsAfterItem(acc.rows, acc.lastEvent.value, rs[|acc.rows|], rs);
  }

  lemma AbsorbKeepsTotals(acc: Acc, rec: Record, ctx: Context)
    requires WF(acc) && Totals(acc.rows)
    ensures Totals(Absorb(acc, rec, ctx).rows)
  {
    EnterEventKeepsTotals(acc, rec);
    if rec.idItem.Some? {
      AddItemKeepsTotals(EnterEvent(acc, rec), rec, ctx);
    }
  }

  /** In the finished rundown, every event's duration is the sum of the durations of
      its non-skipped items. */
  lemma {:induction false} EventDurationIsItemTotal(records: seq<Record>, ctx: Context)
    ensures Totals(Build(records, ctx).rows)
  {
    if records != [] {
      EventDurationIsItemTotal(records[..|records| - 1], ctx);
      AbsorbKeepsTotals(Build(records[..|records| - 1], ctx), records[|records| - 1], ctx);
    }
  }

  lemma BuildSnoc(records: seq<Record>, i: nat, ctx: Context)
    requires i < |records|
    ensures Build(records[..i + 1], ctx) == Absorb(Build(records[..i], ctx), records[i], ctx)
  {
    assert records[..i + 1][..i] == records[..i];
  }

  /** What `get_playout_channel` returns: the channel's settings. */
  datatype Channel = Channel(sendAction: int)

  datatype RundownRequest = RundownRequest(idChannel: int, date: Option<string>)

  /** BadRequest("No such channel: <id>"). */
  datatype RundownError = NoSuchChannel(idChannel: int)

  /** The event part of the loop body: a record of an event other than `last_event`
      appends that event's row and restarts the clock. */
  method OpenEvent(rows: seq<Row>, lastEvent: Option<nat>, tsScheduled: int, tsBroadcast: int, record: Record)
    returns (rows': seq<Row>, lastEvent': Option<nat>, tsScheduled': int, tsBroadcast': int)
    requires WF(Acc(rows, lastEvent, tsScheduled, tsBroadcast))
    ensures Acc(rows', lastEvent', tsScheduled', tsBroadcast') == EnterEvent(Acc(rows, lastEvent, tsScheduled, tsBroadcast), record)
  {
    rows', lastEvent', tsScheduled', tsBroadcast' := rows, lastEvent, tsScheduled, tsBroadcast;
    if lastEvent.None? || record.idEvent != rows[lastEvent.value].id {
      var row := EventRowOf(record, |rows|);
      tsScheduled' := row.scheduledTime;
      if lastEvent.Some? && rows[lastEvent.value].duration == 0 {
        tsBroadcast' := 0;
      }
      if record.event.runMode.GetOr(0) != 0 {
        tsBroadcast' := record.event.start;
      }
      lastEvent' := Some(|rows|);
      rows' := rows + [row];
    }
  }

  /** The item part of the loop body: appends the item's row and, unless the item is
      skipped, advances the clock and updates `last_event` in place. */
  method AppendItem(rows: seq<Row>, lastEvent: Option<nat>, tsScheduled: int, tsBroadcast: int, record: Record, ctx: Context)
    returns (rows': seq<Row>, lastEvent': Option<nat>, tsScheduled': int, tsBroadcast': int)
    requires WF(Acc(rows, lastEvent, tsScheduled, tsBroadcast)) && lastEvent.Some? && record.idItem.Some?
    ensures Acc(rows', lastEvent', tsScheduled', tsBroadcast') == AddItem(Acc(rows, lastEvent, tsScheduled, tsBroadcast), record, ctx)
  {
    lastEvent', tsScheduled', tsBroadcast' := lastEvent, tsScheduled, tsBroadcast;
    var run: Option<Run> := None;
    if record.idItem.value in ctx.itemRuns {
      run := Some(ctx.itemRuns[record.idItem.value]);
      tsBroadcast' := run.value.start;
    }
    var row := ItemRowOf(record, ctx, |rows|, tsScheduled, tsBroadcast', run);
    rows' := rows + [row];
    if row.itemRunMode != Some(RunSkip) {
      var e := lastEvent.value;
      rows' := rows'[e := Extend(rows'[e], tsBroadcast', row.duration)];
      tsScheduled' := tsScheduled + row.duration;
      tsBroadcast' := tsBroadcast' + row.duration;
    }
  }

  /** `get_rundown`: the rows of the day `request.date` of the channel, from the records the
      query yields for the window `[start, start + Day)`. */
  method GetRundown(
    request: RundownRequest,
    channels: map<int, Channel>,
    parseRundownDate: (Option<string>, Channel) -> int,
    getItemRuns: (int, int, int) -> map<int, Run>,
    getPendingAssets: int -> set<int>,
    query: (int, int, int) -> seq<Record>,
    parseDurations: (Option<AssetMeta>, ItemMeta) -> Durations)
    returns (result: Result<seq<Row>, RundownError>)
    ensures result.Failure? <==> request.idChannel !in channels
    ensures result.Failure? ==> result.error == NoSuchChannel(request.idChannel)
    ensures result.Success? ==>
      var channel := channels[request.idChannel];
      var start := parseRundownDate(request.date, channel);
      var end := start + Day;
      var ctx := Context(request.idChannel, getItemRuns(request.idChannel, start, end),
                         getPendingAssets(channel.sendAction), parseDurations);
      result.value == Build(query(request.idChannel, start, end), ctx).rows
  {
    if request.idChannel !in channels {
      return Failure(NoSuchChannel(request.idChannel));
    }
    var channel := channels[request.idChannel];
    var startTime := parseRundownDate(request.date, channel);
    var endTime := startTime + Day;
    var itemRuns := getItemRuns(request.idChannel, startTime, endTime);
    var pendingAssets := getPendingAssets(channel.sendAction);
    var ctx := Context(request.idChannel, itemRuns, pendingAssets, parseDurations);
    var records := query(request.idChannel, startTime, endTime);

    var rows: seq<Row> := [];
    var lastEvent: Option<nat> := None;
    var tsBroadcast := 0;
    var tsScheduled := 0;
    var i := 0;
    while i < |records|
      invariant 0 <= i <= |records|
      invariant Acc(rows, lastEvent, tsScheduled, tsBroadcast) == Build(records[..i], ctx)
    {
      BuildSnoc(records, i, ctx);
      rows, lastEvent, tsScheduled, tsBroadcast := OpenEvent(rows, lastEvent, tsScheduled, tsBroadcast, records[i]);
      if records[i].idItem.Some? {
        rows, lastEvent, tsScheduled, tsBroadcast := AppendItem(rows, lastEvent, tsScheduled, tsBroadcast, records[i], ctx);
      }
      i := i + 1;
    }
    assert records[..i] == records;
    return Success(rows);
  }
}
