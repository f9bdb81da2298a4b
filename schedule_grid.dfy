/**
 * The weekly grid of ScheduleGrid.tsx: one row per time range, one column per weekday,
 * and in each cell the first record whose time slots cover that weekday and row.
 */
module ScheduleGrid {
  import opened Wrappers
  import opened Sequences
  import opened ScheduleTypes
  import opened ScheduleParser

  /** The column headers, Sunday first. */
  const Days: seq<string> := ["Dom", "Seg", "Ter", "Qua", "Qui", "Sex", "S\U{E1}b"]

  /** slot.day === dayIndex && slot.slots.includes(timeIndex) for some slot of the record. */
  predicate Occupies(s: ClassSchedule, dayIndex: int, timeIndex: int)
  {
    exists k :: 0 <= k < |s.schedules| && s.schedules[k].day == dayIndex && timeIndex in s.schedules[k].slots
  }

  /** schedules.filter(...): the records that cover the cell, in list order. */
  function MatchingSchedules(schedules: seq<ClassSchedule>, dayIndex: int, timeIndex: int): (r: seq<ClassSchedule>)
    ensures IsSubsequence(r, schedules)
    ensures forall x :: x in r <==> x in schedules && Occupies(x, dayIndex, timeIndex)
    ensures forall x :: multiset(r)[x] == if Occupies(x, dayIndex, timeIndex) then multiset(schedules)[x] else 0
    decreases |schedules|
  {
    if schedules == [] then []
    else
      var rest := MatchingSchedules(schedules[1..], dayIndex, timeIndex);
      assert schedules == [schedules[0]] + schedules[1..];
      SubsequenceCons(schedules[0], rest, schedules[1..]);
      if Occupies(schedules[0], dayIndex, timeIndex) then [schedules[0]] + rest else rest
  }

  /** What a cell shows: "---", or the discipline and professor of one record (which a click opens). */
  datatype Cell = Empty | Occupied(record: ClassSchedule)

  /** renderTimeCell: the row is found by indexOf in the time-range table, and the first
      matching record is the one shown. */
  function RenderTimeCell(schedules: seq<ClassSchedule>, time: TimeRange, dayIndex: int): (c: Cell)
    ensures c == Empty <==>
      forall x :: x in schedules ==> !Occupies(x, dayIndex, IndexOf(GenerateTimeRanges(), time))
    ensures c.Occupied? ==> c.record in schedules && Occupies(c.record, dayIndex, IndexOf(GenerateTimeRanges(), time))
  {
    var timeIndex := IndexOf(GenerateTimeRanges(), time);
    var matching := MatchingSchedules(schedules, dayIndex, timeIndex);
    if |matching| == 0 then Empty else Occupied(matching[0])
  }

  /** The table body: timeRanges.map(time => DAYS.map((_, dayIndex) => renderTimeCell(time, dayIndex))). */
  function Grid(schedules: seq<ClassSchedule>): (g: seq<seq<Cell>>)
    ensures |g| == 16 && forall t :: 0 <= t < |g| ==> |g[t]| == 7
  {
    var ranges := GenerateTimeRanges();
    seq(|ranges|, t requires 0 <= t < |ranges| =>
      seq(|Days|, d requires 0 <= d < |Days| => RenderTimeCell(schedules, ranges[t], d)))
  }

  /** The first element of the filter is the earliest record that covers the cell. */
  lemma {:induction false} FirstMatch(schedules: seq<ClassSchedule>, dayIndex: int, timeIndex: int)
    requires MatchingSchedules(schedules, dayIndex, timeIndex) != []
    ensures exists k ::
      && 0 <= k < |schedules|
      && schedules[k] == MatchingSchedules(schedules, dayIndex, timeIndex)[0]
      && Occupies(schedules[k], dayIndex, timeIndex)
      && forall j :: 0 <= j < k ==> !Occupies(schedules[j], dayIndex, timeIndex)
    decreases |schedules|
  {
    var m := MatchingSchedules(schedules, dayIndex, timeIndex);
    if Occupies(schedules[0], dayIndex, timeIndex) {
      assert schedules[0] == m[0];
    } else {
      var tail := schedules[1..];
      FirstMatch(tail, dayIndex, timeIndex);
      var k :| 0 <= k < |tail| && tail[k] == m[0] && Occupies(tail[k], dayIndex, timeIndex)
        && forall j :: 0 <= j < k ==> !Occupies(tail[j], dayIndex, timeIndex);
      assert schedules[k + 1] == tail[k];
      forall j | 0 <= j < k + 1 ensures !Occupies(schedules[j], dayIndex, timeIndex) {
        if j > 0 {
          assert schedules[j] == tail[j - 1];
        }
      }
    }
  }

  /** Each row of the table finds itself by indexOf, so the cell in row t and column d
      shows the first record covering weekday d at global slot t, and "---" when none does. */
  lemma GridCell(schedules: seq<ClassSchedule>, t: nat, d: nat)
    requires t < 16 && d < 7
    ensures Grid(schedules)[t][d] == Empty <==> forall x :: x in schedules ==> !Occupies(x, d, t)
    ensures Grid(schedules)[t][d].Occupied? ==>
      exists k ::
        && 0 <= k < |schedules|
        && schedules[k] == Grid(schedules)[t][d].record
        && Occupies(schedules[k], d, t)
        && forall j :: 0 <= j < k ==> !Occupies(schedules[j], d, t)
  {
    var ranges := GenerateTimeRanges();
    TimeRangesDistinct();
    IndexOfDistinct(ranges, t);
    assert Grid(schedules)[t][d] == RenderTimeCell(schedules, ranges[t], d);
    var m := MatchingSchedules(schedules, d, t);
    if m != [] {
      FirstMatch(schedules, d, t);
      assert m[0] in m;
    }
  }

  // ---------------------------------------------------------------------------
  // The cells of one record

  /** The (weekday, row) pairs named by a record's time slots. */
  ghost function SlotCells(ts: seq<TimeSlot>): set<(int, int)>
  {
    set k, i | 0 <= k < |ts| && 0 <= i < |ts[k].slots| :: (ts[k].day, ts[k].slots[i])
  }

  /** A record covers a cell exactly when its own time slots name that cell. */
  lemma OccupiesCells(s: ClassSchedule, dayIndex: int, timeIndex: int)
    ensures Occupies(s, dayIndex, timeIndex) <==> (dayIndex, timeIndex) in SlotCells(s.schedules)
  {
    var ts := s.schedules;
    if Occupies(s, dayIndex, timeIndex) {
      var k :| 0 <= k < |ts| && ts[k].day == dayIndex && timeIndex in ts[k].slots;
      var i :| 0 <= i < |ts[k].slots| && ts[k].slots[i] == timeIndex;
      assert (ts[k].day, ts[k].slots[i]) in SlotCells(ts);
    }
  }

  /** In a grid holding one record, a cell shows that record exactly when the record's
      time slots name the cell, and is empty otherwise. */
  lemma SingleRecordGrid(s: ClassSchedule, t: nat, d: nat)
    requires t < 16 && d < 7
    ensures Grid([s])[t][d] == if (d, t) in SlotCells(s.schedules) then Occupied(s) else Empty
  {
    GridCell([s], t, d);
    OccupiesCells(s, d, t);
  }

  /** The cells a time code names: for each block, each day digit's weekday with each
      slot digit's global row. */
  ghost function CodeCells(bs: seq<Block>): set<(int, int)>
  {
    set i, j, k | 0 <= i < |bs| && 0 <= j < |bs[i].days| && 0 <= k < |bs[i].slots| && bs[i].days[j] in DaysMap
      :: (DaysMap[bs[i].days[j]], GlobalIndex(bs[i].period, bs[i].slots[k]))
  }

  lemma SlotCellsConcat(a: seq<TimeSlot>, b: seq<TimeSlot>)
    ensures SlotCells(a + b) == SlotCells(a) + SlotCells(b)
  {
    var ab := a + b;
    forall c | c in SlotCells(ab) ensures c in SlotCells(a) + SlotCells(b) {
      var k, i :| 0 <= k < |ab| && 0 <= i < |ab[k].slots| && c == (ab[k].day, ab[k].slots[i]);
      if k < |a| {
        assert ab[k] == a[k];
      } else {
        assert ab[k] == b[k - |a|];
        assert c == (b[k - |a|].day, b[k - |a|].slots[i]);
      }
    }
    forall c | c in SlotCells(a) ensures c in SlotCells(ab) {
      var k, i :| 0 <= k < |a| && 0 <= i < |a[k].slots| && c == (a[k].day, a[k].slots[i]);
      assert ab[k] == a[k];
    }
    forall c | c in SlotCells(b) ensures c in SlotCells(ab) {
      var k, i :| 0 <= k < |b| && 0 <= i < |b[k].slots| && c == (b[k].day, b[k].slots[i]);
      assert ab[k + |a|] == b[k];
      assert c == (ab[k + |a|].day, ab[k + |a|].slots[i]);
    }
  }

  /** The cells one block names. */
  ghost function BlockCells(b: Block): set<(int, int)>
  {
    set j, k | 0 <= j < |b.days| && 0 <= k < |b.slots| && b.days[j] in DaysMap
      :: (DaysMap[b.days[j]], GlobalIndex(b.period, b.slots[k]))
  }

  lemma ExpandBlockCells(b: Block)
    requires Lexical(b)
    ensures SlotCells(ExpandBlock(b)) == BlockCells(b)
  {
    var e := ExpandBlock(b);
    var g := GlobalSlots(b.slots, Base(b.period));
    forall c | c in SlotCells(e) ensures c in BlockCells(b) {
      var j, k :| 0 <= j < |e| && 0 <= k < |e[j].slots| && c == (e[j].day, e[j].slots[k]);
      DayDigitInMap(b.days[j]);
      assert e[j] == TimeSlot(DaysMap[b.days[j]], b.period, g);
    }
    forall c | c in BlockCells(b) ensures c in SlotCells(e) {
      var j, k :| 0 <= j < |b.days| && 0 <= k < |b.slots| && b.days[j] in DaysMap
        && c == (DaysMap[b.days[j]], GlobalIndex(b.period, b.slots[k]));
      assert e[j] == TimeSlot(DaysMap[b.days[j]], b.period, g);
      assert c == (e[j].day, e[j].slots[k]);
    }
  }

  lemma CodeCellsSnoc(bs: seq<Block>, b: Block)
    ensures CodeCells(bs + [b]) == CodeCells(bs) + BlockCells(b)
  {
    var all := bs + [b];
    forall c | c in CodeCells(all) ensures c in CodeCells(bs) + BlockCells(b) {
      var i, j, k :| 0 <= i < |all| && 0 <= j < |all[i].days| && 0 <= k < |all[i].slots| && all[i].days[j] in DaysMap
        && c == (DaysMap[all[i].days[j]], GlobalIndex(all[i].period, all[i].slots[k]));
      if i < |bs| {
        assert all[i] == bs[i];
      } else {
        assert all[i] == b;
      }
    }
    forall c | c in CodeCells(bs) ensures c in CodeCells(all) {
      var i, j, k :| 0 <= i < |bs| && 0 <= j < |bs[i].days| && 0 <= k < |bs[i].slots| && bs[i].days[j] in DaysMap
        && c == (DaysMap[bs[i].days[j]], GlobalIndex(bs[i].period, bs[i].slots[k]));
      assert all[i] == bs[i];
    }
    forall c | c in BlockCells(b) ensures c in CodeCells(all) {
      var j, k :| 0 <= j < |b.days| && 0 <= k < |b.slots| && b.days[j] in DaysMap
        && c == (DaysMap[b.days[j]], GlobalIndex(b.period, b.slots[k]));
      assert all[|bs|] == b;
    }
  }

  /** The time slots parseTimeCode emits name exactly the cells the blocks of the code name. */
  lemma {:induction false} ExpandAllCells(bs: seq<Block>)
    requires AllLexical(bs)
    ensures SlotCells(ExpandAll(bs)) == CodeCells(bs)
    decreases |bs|
  {
    if bs == [] {
    } else {
      var init, last := bs[..|bs| - 1], bs[|bs| - 1];
      assert bs == init + [last];
      ExpandAllCells(init);
      SlotCellsConcat(ExpandAll(init), ExpandBlock(last));
      ExpandBlockCells(last);
      CodeCellsSnoc(init, last);
    }
  }

  /** A record whose schedules are what parseTimeCode made of its time code covers exactly
      the cells its code names; when the code is also valid, all of them lie inside the
      16 x 7 grid. */
  lemma RecordCells(s: ClassSchedule, dayIndex: int, timeIndex: int)
    requires ParseSpec(s.timeCode) == Some(s.schedules)
    ensures Occupies(s, dayIndex, timeIndex) <==>
      (dayIndex, timeIndex) in CodeCells(ParseBlocks(Tokens(s.timeCode)).value)
    ensures ValidTimeCode(s.timeCode) && Occupies(s, dayIndex, timeIndex) ==>
      0 <= dayIndex < |Days| && 0 <= timeIndex < |GenerateTimeRanges()|
  {
    var bs := ParseBlocks(Tokens(s.timeCode)).value;
    ExpandAllCells(bs);
    OccupiesCells(s, dayIndex, timeIndex);
    if ValidTimeCode(s.timeCode) && Occupies(s, dayIndex, timeIndex) {
      ParseValid(s.timeCode);
      var k :| 0 <= k < |s.schedules| && s.schedules[k].day == dayIndex && timeIndex in s.schedules[k].slots;
      assert GoodTimeSlot(s.schedules[k]);
    }
  }
}
