/** The time-code language: a code such as "35T12 4N34" is a space-separated list of
    blocks, each made of day digits, one period letter and slot digits. This module
    checks codes, expands them into per-day time slots, and holds the fixed table
    of time ranges and the name normalisation used on save. */
module ScheduleParser {
  import opened Wrappers
  import opened Text
  import opened ScheduleTypes

  // ---------------------------------------------------------------------------
  // Days, periods, slots

  /** Day digit to weekday (0 = Sunday ... 6 = Saturday). The digit '1' is not a day. */
  const DaysMap: map<char, int> :=
    map['0' := 0, '2' := 1, '3' := 2, '4' := 3, '5' := 4, '6' := 5, '7' := 6]

  /** The character classes of the block pattern: [0234567], [MTN] and [1-6]. */
  predicate IsDayDigit(c: char) { c == '0' || ('2' <= c <= '7') }
  predicate IsPeriodLetter(c: char) { c == 'M' || c == 'T' || c == 'N' }
  predicate IsSlotDigit(c: char) { '1' <= c <= '6' }

  /** The day map is defined exactly on the day-digit class and sends it into 0..6, so the
      source's separate day check can never fail once the pattern has matched. */
  lemma DayDigitInMap(c: char)
    ensures IsDayDigit(c) <==> c in DaysMap
    ensures c in DaysMap ==> 0 <= DaysMap[c] <= 6
  {
  }

  /** Distinct day digits name distinct weekdays, every weekday has a digit, and '1' has none. */
  lemma DaysMapBijective()
    ensures forall c1, c2 :: c1 in DaysMap && c2 in DaysMap && DaysMap[c1] == DaysMap[c2] ==> c1 == c2
    ensures DaysMap.Values == {0, 1, 2, 3, 4, 5, 6}
    ensures '1' !in DaysMap
  {
    assert DaysMap['0'] == 0 && DaysMap['2'] == 1 && DaysMap['3'] == 2 && DaysMap['4'] == 3;
    assert DaysMap['5'] == 4 && DaysMap['6'] == 5 && DaysMap['7'] == 6;
  }

  function PeriodOf(c: char): Period
    requires IsPeriodLetter(c)
  {
    if c == 'M' then M else if c == 'T' then T else N
  }

  function PeriodLetter(p: Period): (c: char)
    ensures IsPeriodLetter(c) && PeriodOf(c) == p
  {
    match p
    case M => 'M'
    case T => 'T'
    case N => 'N'
  }

  /** The largest local slot number of a period: 4 at night, 6 otherwise. */
  function MaxSlot(p: Period): int
  {
    if p == N then 4 else 6
  }

  /** The first global slot index of a period. */
  function Base(p: Period): int
  {
    if p == M then 0 else if p == T then 6 else 12
  }

  // ---------------------------------------------------------------------------
  // One block

  /** What the block pattern captures: the day digits, the period, and the slot numbers. */
  datatype Block = Block(days: string, period: Period, slots: seq<int>)

  /** A block as the pattern can produce it: at least one day digit, at least one slot digit. */
  predicate Lexical(b: Block)
  {
    && |b.days| > 0
    && (forall i :: 0 <= i < |b.days| ==> IsDayDigit(b.days[i]))
    && |b.slots| > 0
    && (forall i :: 0 <= i < |b.slots| ==> 1 <= b.slots[i] <= 6)
  }

  /** The digit characters of slot numbers 0..9. */
  function SlotText(slots: seq<int>): (r: string)
    requires forall i :: 0 <= i < |slots| ==> 0 <= slots[i] <= 9
    ensures |r| == |slots|
  {
    seq(|slots|, i requires 0 <= i < |slots| => ('0' as int + slots[i]) as char)
  }

  /** The text of a block: the inverse of ParseTimeBlock. */
  function EncodeBlock(b: Block): string
    requires Lexical(b)
  {
    b.days + [PeriodLetter(b.period)] + SlotText(b.slots)
  }

  /** The number of leading day digits (the greedy first group of the pattern). */
  function DayPrefixLength(code: string): (k: nat)
    ensures k <= |code|
    ensures forall i :: 0 <= i < k ==> IsDayDigit(code[i])
    ensures k < |code| ==> !IsDayDigit(code[k])
    decreases |code|
  {
    if |code| > 0 && IsDayDigit(code[0]) then 1 + DayPrefixLength(code[1..]) else 0
  }

  /** Number(c) for a digit character. */
  function DigitValue(c: char): (v: int)
    requires '0' <= c <= '9'
    ensures 0 <= v <= 9 && ('1' <= c <= '6' ==> 1 <= v <= 6)
  {
    c as int - '0' as int
  }

  /** The slot digits as numbers (split('') then Number). */
  function SlotNumbers(s: string): (r: seq<int>)
    requires forall i :: 0 <= i < |s| ==> IsSlotDigit(s[i])
    ensures |r| == |s| && forall i :: 0 <= i < |r| ==> 1 <= r[i] <= 6
  {
    var r := seq(|s|, i requires 0 <= i < |s| => assert IsSlotDigit(s[i]); DigitValue(s[i]));
    assert forall i :: 0 <= i < |r| ==> IsSlotDigit(s[i]) && r[i] == DigitValue(s[i]);
    r
  }

  /** parseTimeBlock: matches ^([0234567]+)([MTN])([1-6]+)$; None stands for the thrown
      "Invalid time code format" error. A successful parse is a lexical block whose text
      is exactly the input. */
  function ParseTimeBlock(code: string): (r: Option<Block>)
    ensures r.Some? ==> Lexical(r.value) && EncodeBlock(r.value) == code
  {
    var k := DayPrefixLength(code);
    if k == 0 || k + 1 >= |code| || !IsPeriodLetter(code[k])
       || !(forall i :: k + 1 <= i < |code| ==> IsSlotDigit(code[i]))
    then None
    else
      var b := Block(code[..k], PeriodOf(code[k]), SlotNumbers(code[k + 1..]));
      assert PeriodLetter(b.period) == code[k];
      assert SlotText(b.slots) == code[k + 1..];
      assert code == code[..k] + [code[k]] + code[k + 1..];
      Some(b)
  }

  /** Parsing the text of a lexical block gives the block back. */
  lemma ParseEncodeBlock(b: Block)
    requires Lexical(b)
    ensures ParseTimeBlock(EncodeBlock(b)) == Some(b)
  {
    var code := EncodeBlock(b);
    var k := |b.days|;
    assert code[k] == PeriodLetter(b.period);
    assert !IsDayDigit(code[k]);
    DayPrefixExact(code, k);
    assert code[..k] == b.days;
    assert code[k + 1..] == SlotText(b.slots);
    assert SlotNumbers(code[k + 1..]) == b.slots;
  }

  /** The greedy day group ends at the first character that is not a day digit. */
  lemma {:induction false} DayPrefixExact(code: string, k: nat)
    requires k < |code|
    requires forall i :: 0 <= i < k ==> IsDayDigit(code[i])
    requires !IsDayDigit(code[k])
    ensures DayPrefixLength(code) == k
    decreases k
  {
    if k > 0 {
      DayPrefixExact(code[1..], k - 1);
    }
  }

  /** The pattern ^([0234567]+)([MTN])([1-6]+)$ written as a property of positions. */
  ghost predicate MatchesBlockPattern(code: string)
  {
    exists k :: 0 < k < |code| - 1 && IsPeriodLetter(code[k])
      && (forall i :: 0 <= i < k ==> IsDayDigit(code[i]))
      && (forall i :: k < i < |code| ==> IsSlotDigit(code[i]))
  }

  /** ParseTimeBlock succeeds exactly on the strings the block pattern matches. */
  lemma ParseTimeBlockMatches(code: string)
    ensures ParseTimeBlock(code).Some? <==> MatchesBlockPattern(code)
  {
    if MatchesBlockPattern(code) {
      var k :| 0 < k < |code| - 1 && IsPeriodLetter(code[k])
        && (forall i :: 0 <= i < k ==> IsDayDigit(code[i]))
        && (forall i :: k < i < |code| ==> IsSlotDigit(code[i]));
      DayPrefixExact(code, k);
    }
    if ParseTimeBlock(code).Some? {
      var k := DayPrefixLength(code);
      assert IsPeriodLetter(code[k]);
    }
  }

  // ---------------------------------------------------------------------------
  // Validation

  /** The rules validateTimeCode applies to a parsed block, one predicate per check. */
  predicate DaysKnown(days: string)
  {
    forall i :: 0 <= i < |days| ==> days[i] in DaysMap
  }

  predicate SlotsWithin(slots: seq<int>, maxSlot: int)
  {
    forall i :: 0 <= i < |slots| ==> 1 <= slots[i] <= maxSlot
  }

  predicate AdjacentAscending(slots: seq<int>)
  {
    forall i :: 1 <= i < |slots| ==> slots[i - 1] < slots[i]
  }

  /** One block passes every check of validateTimeCode. */
  predicate BlockValid(code: string)
  {
    match ParseTimeBlock(code)
    case None => false
    case Some(b) =>
      DaysKnown(b.days) && SlotsWithin(b.slots, MaxSlot(b.period)) && AdjacentAscending(b.slots)
  }

  /** The blocks of a time code: trimmed, then split on single spaces. */
  function Tokens(timeCode: string): (r: seq<string>)
    ensures |r| >= 1
  {
    Split(Trim(timeCode), ' ')
  }

  /** validateTimeCode's answer: every block passes (all or nothing). */
  predicate ValidTimeCode(timeCode: string)
  {
    forall i :: 0 <= i < |Tokens(timeCode)| ==> BlockValid(Tokens(timeCode)[i])
  }

  /** Strictly increasing, stated over all pairs rather than neighbours. */
  predicate StrictlyIncreasing(s: seq<int>)
  {
    forall i, j :: 0 <= i < j < |s| ==> s[i] < s[j]
  }

  /** A block that is lexical, within its period's slot count and strictly increasing. */
  predicate WellFormed(b: Block)
  {
    Lexical(b) && SlotsWithin(b.slots, MaxSlot(b.period)) && StrictlyIncreasing(b.slots)
  }

  /** The neighbour check of the source's loop gives a strictly increasing sequence, and back. */
  lemma {:induction false} AdjacentAscendingIff(s: seq<int>)
    ensures AdjacentAscending(s) <==> StrictlyIncreasing(s)
    decreases |s|
  {
    if AdjacentAscending(s) && |s| > 1 {
      AdjacentAscendingIff(s[1..]);
      assert StrictlyIncreasing(s[1..]);
      forall i, j | 0 <= i < j < |s| ensures s[i] < s[j] {
        if i > 0 {
          assert s[i] == s[1..][i - 1] && s[j] == s[1..][j - 1];
        } else if j > 1 {
          assert s[1] == s[1..][0] && s[j] == s[1..][j - 1];
        }
      }
    }
  }

  /** A block passes validation exactly when it parses to a well-formed block. */
  lemma BlockValidIff(code: string)
    ensures BlockValid(code) <==> ParseTimeBlock(code).Some? && WellFormed(ParseTimeBlock(code).value)
  {
    if ParseTimeBlock(code).Some? {
      var b := ParseTimeBlock(code).value;
      AdjacentAscendingIff(b.slots);
      forall i | 0 <= i < |b.days| ensures b.days[i] in DaysMap {
        DayDigitInMap(b.days[i]);
      }
    }
  }

  /** A time code is valid exactly when every space-separated token of its trimmed text
      is the text of a well-formed block. */
  lemma ValidTimeCodeIff(timeCode: string)
    ensures ValidTimeCode(timeCode) <==>
      forall t :: t in Tokens(timeCode) ==> exists b :: WellFormed(b) && EncodeBlock(b) == t
  {
    var ts := Tokens(timeCode);
    if ValidTimeCode(timeCode) {
      forall t | t in ts ensures exists b :: WellFormed(b) && EncodeBlock(b) == t {
        var i :| 0 <= i < |ts| && ts[i] == t;
        BlockValidIff(ts[i]);
        var b := ParseTimeBlock(t).value;
        assert WellFormed(b) && EncodeBlock(b) == t;
      }
    }
    if forall t :: t in ts ==> exists b :: WellFormed(b) && EncodeBlock(b) == t {
      forall i | 0 <= i < |ts| ensures BlockValid(ts[i]) {
        assert ts[i] in ts;
        var b :| WellFormed(b) && EncodeBlock(b) == ts[i];
        ParseEncodeBlock(b);
        BlockValidIff(ts[i]);
      }
    }
  }

  /** The three checks validateTimeCode runs on a parsed block, with the loops of the
      source: every day is a key of the day map, every slot lies between 1 and the
      period's maximum, and each slot is greater than the one before it. */
  method CheckBlock(b: Block) returns (ok: bool)
    ensures ok == (DaysKnown(b.days) && SlotsWithin(b.slots, MaxSlot(b.period)) && AdjacentAscending(b.slots))
  {
    for i := 0 to |b.days|
      invariant forall j :: 0 <= j < i ==> b.days[j] in DaysMap
    {
      if b.days[i] !in DaysMap {
        return false;
      }
    }
    var maxSlot := if b.period == N then 4 else 6;
    for i := 0 to |b.slots|
      invariant forall j :: 0 <= j < i ==> 1 <= b.slots[j] <= maxSlot
    {
      if b.slots[i] < 1 || b.slots[i] > maxSlot {
        return false;
      }
    }
    var i := 1;
    while i < |b.slots|
      invariant 1 <= i
      invariant forall j :: 1 <= j < i && j < |b.slots| ==> b.slots[j - 1] < b.slots[j]
    {
      if b.slots[i] <= b.slots[i - 1] {
        return false;
      }
      i := i + 1;
    }
    return true;
  }

  /** validateTimeCode: a block that does not match the pattern throws inside
      parseTimeBlock, and the error is caught as `false`. */
  method ValidateTimeCode(timeCode: string) returns (ok: bool)
    ensures ok == ValidTimeCode(timeCode)
  {
    ok := ValidateBlocks(Tokens(timeCode));
  }

  /** validateTimeCode's loop over the blocks: false at the first block that fails. */
  method ValidateBlocks(codes: seq<string>) returns (ok: bool)
    ensures ok == forall j :: 0 <= j < |codes| ==> BlockValid(codes[j])
  {
    for n := 0 to |codes|
      invariant forall j :: 0 <= j < n ==> BlockValid(codes[j])
    {
      var blockOk := ValidateBlock(codes[n]);
      if !blockOk {
        return false;
      }
    }
    return true;
  }

  /** The body of validateTimeCode's loop for one block: the pattern, then the three checks. */
  method ValidateBlock(code: string) returns (ok: bool)
    ensures ok == BlockValid(code)
  {
    var parsed := ParseTimeBlock(code);
    if parsed.None? {
      return false;
    }
    ok := CheckBlock(parsed.value);
  }

  // ---------------------------------------------------------------------------
  // Parsing

  /** The global slot index of local slot `s` of period `p`. */
  function GlobalIndex(p: Period, s: int): int
  {
    Base(p) + (s - 1)
  }

  /** The period whose rows hold a global slot index. */
  function PeriodOfIndex(idx: int): Period
    requires 0 <= idx < 16
  {
    if idx < 6 then M else if idx < 12 then T else N
  }

  /** The index mapping is a bijection between (period, local slot within bounds) and 0..15. */
  lemma GlobalIndexBijection(p: Period, s: int, idx: int)
    ensures 1 <= s <= MaxSlot(p) ==>
      0 <= GlobalIndex(p, s) < 16 && PeriodOfIndex(GlobalIndex(p, s)) == p
    ensures 0 <= idx < 16 ==>
      var q := PeriodOfIndex(idx);
      1 <= idx - Base(q) + 1 <= MaxSlot(q) && GlobalIndex(q, idx - Base(q) + 1) == idx
  {
  }

  /** slots.map(slot => baseIndex + (slot - 1)). */
  function GlobalSlots(slots: seq<int>, baseIndex: int): (r: seq<int>)
    ensures |r| == |slots|
  {
    seq(|slots|, i requires 0 <= i < |slots| => baseIndex + (slots[i] - 1))
  }

  /** The time slots one block contributes: one per day digit, in the order written. */
  function ExpandBlock(b: Block): (r: seq<TimeSlot>)
    requires Lexical(b)
    ensures |r| == |b.days|
  {
    seq(|b.days|, i requires 0 <= i < |b.days| =>
      DayDigitInMap(b.days[i]);
      TimeSlot(DaysMap[b.days[i]], b.period, GlobalSlots(b.slots, Base(b.period))))
  }

  /** Parses every token; None as soon as one of them does not match the pattern. */
  function ParseBlocks(codes: seq<string>): (r: Option<seq<Block>>)
    ensures r.Some? <==> forall i :: 0 <= i < |codes| ==> ParseTimeBlock(codes[i]).Some?
    ensures r.Some? ==>
      && |r.value| == |codes|
      && forall i :: 0 <= i < |codes| ==> ParseTimeBlock(codes[i]) == Some(r.value[i])
    decreases |codes|
  {
    if codes == [] then Some([])
    else
      var last := |codes| - 1;
      match ParseBlocks(codes[..last])
      case None => None
      case Some(bs) =>
        match ParseTimeBlock(codes[last])
        case None => None
        case Some(b) => Some(bs + [b])
  }

  predicate AllLexical(bs: seq<Block>)
  {
    forall i :: 0 <= i < |bs| ==> Lexical(bs[i])
  }

  /** The concatenation of the blocks' time slots, in block order. */
  function ExpandAll(bs: seq<Block>): seq<TimeSlot>
    requires AllLexical(bs)
    decreases |bs|
  {
    if bs == [] then [] else ExpandAll(bs[..|bs| - 1]) + ExpandBlock(bs[|bs| - 1])
  }

  /** parseTimeCode's result: None when some block throws, otherwise every block expanded. */
  function ParseSpec(timeCode: string): Option<seq<TimeSlot>>
  {
    match ParseBlocks(Tokens(timeCode))
    case None => None
    case Some(bs) => Some(ExpandAll(bs))
  }

  /** The inner loop of parseTimeCode: one push per day digit of the block. */
  method PushBlockSlots(slots: seq<TimeSlot>, b: Block) returns (r: seq<TimeSlot>)
    requires Lexical(b)
    ensures r == slots + ExpandBlock(b)
  {
    var baseIndex := if b.period == M then 0 else if b.period == T then 6 else 12;
    r := slots;
    for i := 0 to |b.days|
      invariant r == slots + ExpandBlock(b)[..i]
    {
      DayDigitInMap(b.days[i]);
      r := r + [TimeSlot(DaysMap[b.days[i]], b.period, GlobalSlots(b.slots, baseIndex))];
      assert baseIndex == Base(b.period);
      assert ExpandBlock(b)[i] == TimeSlot(DaysMap[b.days[i]], b.period, GlobalSlots(b.slots, baseIndex));
      assert ExpandBlock(b)[..i + 1] == ExpandBlock(b)[..i] + [ExpandBlock(b)[i]];
    }
    assert ExpandBlock(b)[..|b.days|] == ExpandBlock(b);
  }

  /** parseTimeCode: a block that does not match the pattern throws (None), and nothing
      re-checks the bounds or the order of the slots. */
  method ParseTimeCode(timeCode: string) returns (r: Option<seq<TimeSlot>>)
    ensures r == ParseSpec(timeCode)
  {
    r := ParseCodes(Tokens(timeCode));
  }

  /** parseTimeCode's loop over the blocks: None at the first block that throws. */
  method ParseCodes(codes: seq<string>) returns (r: Option<seq<TimeSlot>>)
    ensures r == match ParseBlocks(codes) case None => None case Some(bs) => Some(ExpandAll(bs))
  {
    var slots: seq<TimeSlot> := [];
    ghost var bs: seq<Block> := [];
    for n := 0 to |codes|
      invariant ParseBlocks(codes[..n]) == Some(bs)
      invariant slots == ExpandAll(bs)
    {
      var parsed := ParseTimeBlock(codes[n]);
      if parsed.None? {
        ParseBlocksFails(codes, n);
        return None;
      }
      var b := parsed.value;
      slots := PushBlockSlots(slots, b);
      ParseBlocksStep(codes, n, bs, b);
      bs := bs + [b];
    }
    assert codes[..|codes|] == codes;
    return Some(slots);
  }

  /** One block that throws makes the whole parse throw. */
  lemma ParseBlocksFails(codes: seq<string>, n: nat)
    requires n < |codes| && ParseTimeBlock(codes[n]).None?
    ensures ParseBlocks(codes) == None
  {
  }

  /** One more block parsed extends the blocks and the emitted time slots. */
  lemma ParseBlocksStep(codes: seq<string>, n: nat, bs: seq<Block>, b: Block)
    requires n < |codes| && ParseBlocks(codes[..n]) == Some(bs) && ParseTimeBlock(codes[n]) == Some(b)
    ensures ParseBlocks(codes[..n + 1]) == Some(bs + [b])
    ensures AllLexical(bs + [b]) && ExpandAll(bs + [b]) == ExpandAll(bs) + ExpandBlock(b)
  {
    assert codes[..n + 1][..n] == codes[..n];
    assert (bs + [b])[..|bs|] == bs;
  }

  /** The number of day digits over all blocks. */
  function TotalDays(bs: seq<Block>): nat
    decreases |bs|
  {
    if bs == [] then 0 else TotalDays(bs[..|bs| - 1]) + |bs[|bs| - 1].days|
  }

  /** The layout of the output: one entry per day digit, and the entry for day j of
      block i sits after all entries of the earlier blocks. */
  lemma {:induction false} ExpandAllLayout(bs: seq<Block>, i: nat, j: nat)
    requires AllLexical(bs)
    ensures |ExpandAll(bs)| == TotalDays(bs)
    ensures i < |bs| && j < |bs[i].days| ==>
      TotalDays(bs[..i]) + j < |ExpandAll(bs)|
      && ExpandAll(bs)[TotalDays(bs[..i]) + j]
         == TimeSlot(DaysMap[bs[i].days[j]], bs[i].period, GlobalSlots(bs[i].slots, Base(bs[i].period)))
    decreases |bs|
  {
    if bs != [] {
      var last := |bs| - 1;
      var init := bs[..last];
      ExpandAllLayout(init, i, j);
      if i < |bs| && j < |bs[i].days| {
        DayDigitInMap(bs[i].days[j]);
        if i < last {
          assert init[..i] == bs[..i];
          assert init[i] == bs[i];
        } else {
          assert bs[..i] == init;
        }
      }
    }
  }

  /** A time slot as a valid code produces it: a weekday, a non-empty strictly increasing
      list of indices, all inside its own period's rows and so inside 0..15. */
  predicate GoodTimeSlot(ts: TimeSlot)
  {
    && 0 <= ts.day <= 6
    && |ts.slots| > 0
    && StrictlyIncreasing(ts.slots)
    && forall k :: 0 <= k < |ts.slots| ==>
         Base(ts.period) <= ts.slots[k] < Base(ts.period) + MaxSlot(ts.period) && 0 <= ts.slots[k] <= 15
  }

  lemma {:induction false} ExpandAllGood(bs: seq<Block>)
    requires AllLexical(bs) && forall i :: 0 <= i < |bs| ==> WellFormed(bs[i])
    ensures forall k :: 0 <= k < |ExpandAll(bs)| ==> GoodTimeSlot(ExpandAll(bs)[k])
    decreases |bs|
  {
    if bs != [] {
      var b := bs[|bs| - 1];
      ExpandAllGood(bs[..|bs| - 1]);
      forall k | 0 <= k < |ExpandBlock(b)| ensures GoodTimeSlot(ExpandBlock(b)[k]) {
        DayDigitInMap(b.days[k]);
        var g := GlobalSlots(b.slots, Base(b.period));
        assert forall x, y :: 0 <= x < y < |g| ==> g[x] < g[y] by {
          forall x, y | 0 <= x < y < |g| ensures g[x] < g[y] {
            assert b.slots[x] < b.slots[y];
          }
        }
      }
    }
  }

  /** A valid code parses without error, and every time slot it yields is good: this is
      why the form validates before it parses. */
  lemma ParseValid(timeCode: string)
    requires ValidTimeCode(timeCode)
    ensures ParseSpec(timeCode).Some?
    ensures forall k :: 0 <= k < |ParseSpec(timeCode).value| ==> GoodTimeSlot(ParseSpec(timeCode).value[k])
  {
    var ts := Tokens(timeCode);
    forall i | 0 <= i < |ts| ensures ParseTimeBlock(ts[i]).Some? && WellFormed(ParseTimeBlock(ts[i]).value) {
      BlockValidIff(ts[i]);
    }
    var bs := ParseBlocks(ts).value;
    ExpandAllGood(bs);
  }

  /** A block that does not match the pattern makes parsing fail as a whole. */
  lemma ParseMalformed(timeCode: string, i: nat)
    requires i < |Tokens(timeCode)| && !MatchesBlockPattern(Tokens(timeCode)[i])
    ensures ParseSpec(timeCode) == None
  {
    ParseTimeBlockMatches(Tokens(timeCode)[i]);
  }

  // ---------------------------------------------------------------------------
  // The time-range table

  const MorningRanges: seq<TimeRange> := [
    TimeRange("07:30", "08:15"), TimeRange("08:15", "09:00"), TimeRange("09:15", "10:00"),
    TimeRange("10:00", "10:45"), TimeRange("11:00", "11:45"), TimeRange("11:45", "12:30")]

  const AfternoonRanges: seq<TimeRange> := [
    TimeRange("13:30", "14:15"), TimeRange("14:15", "15:00"), TimeRange("15:15", "16:00"),
    TimeRange("16:00", "16:45"), TimeRange("17:00", "17:45"), TimeRange("17:45", "18:30")]

  const NightRanges: seq<TimeRange> := [
    TimeRange("19:00", "19:45"), TimeRange("19:45", "20:30"), TimeRange("20:45", "21:30"),
    TimeRange("21:30", "22:15")]

  /** TIME_RANGES[p]: one range per local slot of the period. */
  function PeriodRanges(p: Period): (r: seq<TimeRange>)
    ensures |r| == MaxSlot(p)
  {
    match p
    case M => MorningRanges
    case T => AfternoonRanges
    case N => NightRanges
  }

  /** generateTimeRanges: 16 rows, and the row at a slot's global index is that slot's range. */
  function GenerateTimeRanges(): (r: seq<TimeRange>)
    ensures |r| == 16
    ensures forall p: Period, s :: 1 <= s <= MaxSlot(p) ==> r[GlobalIndex(p, s)] == PeriodRanges(p)[s - 1]
  {
    MorningRanges + AfternoonRanges + NightRanges
  }

  /** No two rows are equal, so a row is found again at its own position. */
  lemma TimeRangesDistinct()
    ensures forall i, j :: 0 <= i < j < |GenerateTimeRanges()| ==> GenerateTimeRanges()[i] != GenerateTimeRanges()[j]
  {
    var r := GenerateTimeRanges();
    forall i, j | 0 <= i < j < 16 ensures r[i] != r[j] {
      assert r[i].start != r[j].start;
    }
  }

  // ---------------------------------------------------------------------------
  // Name normalisation

  /** word.charAt(0).toUpperCase() + word.slice(1); an empty word stays empty. */
  function CapitalizeWord(w: string): (r: string)
    ensures r == [] <==> w == []
    ensures w != [] ==> |r| >= |w| && r[|r| - (|w| - 1)..] == w[1..]
  {
    if |w| == 0 then "" else UpperChar(w[0]) + w[1..]
  }

  /** capitalizeWords: lower-case everything, then capitalise each space-separated word. */
  function CapitalizeWords(text: string): string
  {
    var ws := Split(ToLower(text), ' ');
    Join(seq(|ws|, i requires 0 <= i < |ws| => CapitalizeWord(ws[i])), ' ')
  }

  /** The words of the result correspond one to one with the words of the input: each is
      the lower-cased word with its first character upper-cased, and empty words stay empty. */
  lemma CapitalizeWordsWords(text: string)
    ensures var ws := Split(text, ' ');
      var out := Split(CapitalizeWords(text), ' ');
      && |out| == |ws|
      && forall i :: 0 <= i < |ws| ==>
           out[i] == CapitalizeWord(ToLower(ws[i])) && (out[i] == "" <==> ws[i] == "")
  {
    var lw := Split(ToLower(text), ' ');
    var caps := seq(|lw|, i requires 0 <= i < |lw| => CapitalizeWord(lw[i]));
    forall i | 0 <= i < |caps| ensures ' ' !in caps[i] {
      if |lw[i]| > 0 {
        UpperCharNoSpace(lw[i][0]);
        assert lw[i] == [lw[i][0]] + lw[i][1..];
      }
    }
    SplitJoin(caps, ' ');
    SplitLower(text);
  }

  /** Applied to words joined by single spaces, capitalizeWords rewrites each word on its own. */
  lemma CapitalizeJoinedWords(ws: seq<string>)
    requires |ws| >= 1 && forall i :: 0 <= i < |ws| ==> ' ' !in ws[i]
    ensures CapitalizeWords(Join(ws, ' ')) ==
      Join(seq(|ws|, i requires 0 <= i < |ws| => CapitalizeWord(ToLower(ws[i]))), ' ')
  {
    var text := Join(ws, ' ');
    SplitJoin(ws, ' ');
    CapitalizeWordsWords(text);
    JoinSplit(CapitalizeWords(text), ' ');
    var caps := seq(|ws|, i requires 0 <= i < |ws| => CapitalizeWord(ToLower(ws[i])));
    assert Split(CapitalizeWords(text), ' ') == caps;
  }
}
