/** The admin queue board of one station: its drivers, idle ones first,
    each class in falling fairness score, ranked 1 to n; and the guard on
    the "jump the queue" button. */
module QueueDashboard {
  import opened Util
  import opened Types
  import Ordering
  import Scheduler

  /** The badges a row shows. */
  datatype Tag = TopRated | HighTrips | StatusTag(status: Status)

  datatype QueueItem = QueueItem(driver: Driver, realScore: real, waitTimeMinutes: int, tags: seq<Tag>, rank: nat)

  function AtStation(winId: string): Driver -> bool {
    (d: Driver) => d.winId == Some(winId)
  }

  /** Rating of at least 4.8 earns the top-rated badge, more than 15 trips
      the hard-working one, and a busy driver shows its status. */
  function TagsOf(d: Driver): (tags: seq<Tag>)
    ensures TopRated in tags <==> d.rating >= 4.8
    ensures HighTrips in tags <==> d.totalTrips > 15
    ensures StatusTag(d.status) in tags <==> d.status != Idle
  {
    (if d.rating >= 4.8 then [TopRated] else [])
    + (if d.totalTrips > 15 then [HighTrips] else [])
    + (if d.status != Idle then [StatusTag(d.status)] else [])
  }

  function MakeItem(d: Driver, now: real): (it: QueueItem)
    ensures it.driver == d && it.realScore == Scheduler.FairnessScore(d, now)
  {
    QueueItem(d, Scheduler.FairnessScore(d, now), ((now - d.joinedQueueTime) / 60000.0).Floor, TagsOf(d), 0)
  }

  /** The comparator: idle drivers before the rest, then by score. */
  function RowKey(it: QueueItem): Ordering.Key {
    Ordering.Key(if it.driver.status == Idle then 1 else 0, it.realScore)
  }

  function Ranked(rows: seq<QueueItem>): (r: seq<QueueItem>)
    ensures |r| == |rows|
    ensures forall i :: 0 <= i < |r| ==> r[i] == rows[i].(rank := i + 1)
  {
    seq(|rows|, i requires 0 <= i < |rows| => rows[i].(rank := i + 1))
  }

  /** The station's drivers as scored rows in comparator order. */
  function SortedItems(relevant: seq<Driver>, now: real): (sorted: seq<QueueItem>)
    ensures |sorted| == |relevant|
    ensures forall i :: 0 <= i < |sorted| ==> sorted[i].driver in relevant && sorted[i] == MakeItem(sorted[i].driver, now)
    ensures forall k :: 0 <= k < |relevant| ==> exists i :: 0 <= i < |sorted| && sorted[i].driver == relevant[k]
    ensures Ordering.SortedDesc(sorted, RowKey)
  {
    var mapped := seq(|relevant|, i requires 0 <= i < |relevant| => MakeItem(relevant[i], now));
    var sorted := Ordering.SortDesc(mapped, RowKey);
    forall i | 0 <= i < |sorted|
      ensures sorted[i].driver in relevant && sorted[i] == MakeItem(sorted[i].driver, now)
    {
      var k :| 0 <= k < |mapped| && mapped[k] == sorted[i];
    }
    forall k | 0 <= k < |relevant| ensures exists i :: 0 <= i < |sorted| && sorted[i].driver == relevant[k] {
      assert mapped[k] in sorted;
    }
    sorted
  }

  /** `queueData`: the selected station's drivers, scored at `now`, sorted
      and ranked. */
  function QueueData(drivers: seq<Driver>, selectedWin: string, now: real): (rows: seq<QueueItem>)
    ensures |rows| == Count(drivers, AtStation(selectedWin))
    ensures forall i :: 0 <= i < |rows| ==>
      rows[i].driver in drivers && rows[i].driver.winId == Some(selectedWin)
      && rows[i] == MakeItem(rows[i].driver, now).(rank := i + 1)
    ensures forall k :: 0 <= k < |drivers| && drivers[k].winId == Some(selectedWin) ==>
      exists i :: 0 <= i < |rows| && rows[i].driver == drivers[k]
    ensures forall i, j :: 0 <= i < j < |rows| && rows[j].driver.status == Idle ==> rows[i].driver.status == Idle
    ensures forall i, j :: 0 <= i < j < |rows| && (rows[i].driver.status == Idle <==> rows[j].driver.status == Idle) ==>
      rows[j].realScore <= rows[i].realScore
  {
    var relevant := Filter(drivers, AtStation(selectedWin));
    var sorted := SortedItems(relevant, now);
    var rows := Ranked(sorted);
    RowsFromStation(drivers, selectedWin, now, relevant, sorted);
    RankedKeepsOrder(sorted);
    IdleFirstThenScore(rows);
    rows
  }

  lemma RowsFromStation(drivers: seq<Driver>, selectedWin: string, now: real,
                        relevant: seq<Driver>, sorted: seq<QueueItem>)
    requires relevant == Filter(drivers, AtStation(selectedWin))
    requires sorted == SortedItems(relevant, now)
    ensures forall i :: 0 <= i < |sorted| ==>
      sorted[i].driver in drivers && sorted[i].driver.winId == Some(selectedWin)
    ensures forall k :: 0 <= k < |drivers| && drivers[k].winId == Some(selectedWin) ==>
      exists i :: 0 <= i < |sorted| && sorted[i].driver == drivers[k]
  {
    forall i | 0 <= i < |sorted| ensures sorted[i].driver in drivers && sorted[i].driver.winId == Some(selectedWin) {
      var d := sorted[i].driver;
      assert d in relevant;
      var m :| 0 <= m < |relevant| && relevant[m] == d;
      assert relevant[m] in drivers && AtStation(selectedWin)(relevant[m]);
    }
    forall k | 0 <= k < |drivers| && drivers[k].winId == Some(selectedWin)
      ensures exists i :: 0 <= i < |sorted| && sorted[i].driver == drivers[k]
    {
      assert AtStation(selectedWin)(drivers[k]);
      assert drivers[k] in relevant;
      var m :| 0 <= m < |relevant| && relevant[m] == drivers[k];
      var i :| 0 <= i < |sorted| && sorted[i].driver == relevant[m];
    }
  }

  lemma RankedKeepsOrder(sorted: seq<QueueItem>)
    requires Ordering.SortedDesc(sorted, RowKey)
    ensures Ordering.SortedDesc(Ranked(sorted), RowKey)
  {
    var rows := Ranked(sorted);
    forall i, j | 0 <= i < j < |rows| ensures Ordering.KeyLe(RowKey(rows[j]), RowKey(rows[i])) {
      assert RowKey(rows[j]) == RowKey(sorted[j]) && RowKey(rows[i]) == RowKey(sorted[i]);
    }
  }

  /** What the comparator order means for the board. */
  lemma IdleFirstThenScore(rows: seq<QueueItem>)
    requires Ordering.SortedDesc(rows, RowKey)
    ensures forall i, j :: 0 <= i < j < |rows| && rows[j].driver.status == Idle ==> rows[i].driver.status == Idle
    ensures forall i, j :: 0 <= i < j < |rows| && (rows[i].driver.status == Idle <==> rows[j].driver.status == Idle) ==>
      rows[j].realScore <= rows[i].realScore
  {
    forall i, j | 0 <= i < j < |rows| ensures Ordering.KeyLe(RowKey(rows[j]), RowKey(rows[i])) {
    }
  }

  /** The override button shows on idle rows below the top. */
  predicate OverrideOffered(it: QueueItem) {
    it.driver.status == Idle && it.rank > 1
  }

  /** The button is never on the first row, and a row that offers it has an
      idle row above it scoring at least as much. */
  lemma OverrideOnlyBelowBetterIdle(drivers: seq<Driver>, selectedWin: string, now: real, i: int)
    requires
      var rows := QueueData(drivers, selectedWin, now);
      0 <= i < |rows| && OverrideOffered(rows[i])
    ensures
      var rows := QueueData(drivers, selectedWin, now);
      && i > 0
      && rows[0].driver.status == Idle
      && rows[i].realScore <= rows[0].realScore
  {
  }
}
