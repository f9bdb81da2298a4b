/**
 * Worked examples of the schedule parser: concrete codes and names with the results
 * scheduleParser.ts gives them.
 */
module ScheduleExamples {
  import opened Wrappers
  import opened Text
  import opened ScheduleTypes
  import opened ScheduleParser

  /** The text of a lexical block is made of digits and one period letter. */
  lemma BlockTextChars(b: Block)
    requires Lexical(b)
    ensures forall i :: 0 <= i < |EncodeBlock(b)| ==>
      ('0' <= EncodeBlock(b)[i] <= '9' || IsPeriodLetter(EncodeBlock(b)[i]))
  {
    var code := EncodeBlock(b);
    var k := |b.days|;
    forall i | 0 <= i < |code| ensures '0' <= code[i] <= '9' || IsPeriodLetter(code[i]) {
      if i < k {
        assert code[i] == b.days[i] && IsDayDigit(b.days[i]);
      } else if i == k {
        assert code[i] == PeriodLetter(b.period);
      } else {
        assert code[i] == SlotText(b.slots)[i - k - 1];
      }
    }
  }

  /** The text of a lexical block holds no whitespace, so it is its own only token. */
  lemma TokensOfBlockText(code: string, b: Block)
    requires Lexical(b) && EncodeBlock(b) == code
    ensures Tokens(code) == [code]
  {
    BlockTextChars(b);
    assert !IsWhitespace(code[0]) && !IsWhitespace(code[|code| - 1]);
    TrimIdentity(code);
    assert ' ' !in code by {
      forall i | 0 <= i < |code| ensures code[i] != ' ' {
        assert '0' <= code[i] <= '9' || IsPeriodLetter(code[i]);
      }
    }
    SplitWithoutSep(code, ' ');
  }

  lemma ParseSingleToken(code: string, b: Block)
    requires ParseTimeBlock(code) == Some(b)
    ensures ParseBlocks([code]) == Some([b])
    ensures ExpandAll([b]) == ExpandBlock(b)
  {
    assert [code][..0] == [] && [code][0] == code;
    assert ParseBlocks([]) == Some([]);
    assert [] + [b] == [b];
    assert [b][..0] == [];
  }

  /** A code made of the text of one lexical block parses to that block's time slots,
      and it is valid exactly when the block is. */
  lemma SingleBlockCode(code: string, b: Block)
    requires Lexical(b) && EncodeBlock(b) == code
    ensures ParseTimeBlock(code) == Some(b)
    ensures ParseSpec(code) == Some(ExpandBlock(b))
    ensures ValidTimeCode(code) <==> BlockValid(code)
  {
    ParseEncodeBlock(b);
    TokensOfBlockText(code, b);
    assert Tokens(code)[0] == code;
    ParseSingleToken(code, b);
  }

  /** A well-formed block's text is a valid time code on its own. */
  lemma SingleWellFormed(code: string, b: Block)
    requires WellFormed(b) && EncodeBlock(b) == code
    ensures ValidTimeCode(code)
  {
    SingleBlockCode(code, b);
    BlockValidIff(code);
  }

  /** A lexical block that breaks a bound or the order makes its text invalid. */
  lemma SingleIllFormed(code: string, b: Block)
    requires Lexical(b) && EncodeBlock(b) == code && !WellFormed(b)
    ensures !ValidTimeCode(code)
  {
    SingleBlockCode(code, b);
    BlockValidIff(code);
  }

  /** A lexical block's text parses to that block's time slots. */
  lemma SingleParse(code: string, b: Block)
    requires Lexical(b) && EncodeBlock(b) == code
    ensures ParseSpec(code) == Some(ExpandBlock(b))
  {
    SingleBlockCode(code, b);
  }

  lemma Expand35T12()
    ensures ExpandBlock(Block("35", T, [1, 2])) == [TimeSlot(2, T, [6, 7]), TimeSlot(4, T, [6, 7])]
  {
    var b := Block("35", T, [1, 2]);
    var e := ExpandBlock(b);
    assert e[0] == TimeSlot(DaysMap[b.days[0]], b.period, GlobalSlots(b.slots, Base(b.period)));
    assert GlobalSlots([1, 2], 6) == [6, 7];
    assert DaysMap['3'] == 2 && DaysMap['5'] == 4;
  }

  lemma Example35T12Valid()
    ensures ValidTimeCode("35T12")
  {
    var b := Block("35", T, [1, 2]);
    assert SlotText([1, 2]) == "12";
    assert EncodeBlock(b) == "35T12";
    SingleWellFormed("35T12", b);
  }

  /** "35T12" is Tuesday and Thursday afternoon, slots 1 and 2: rows 6 and 7. */
  lemma Example35T12Parse()
    ensures ParseSpec("35T12") == Some([TimeSlot(2, T, [6, 7]), TimeSlot(4, T, [6, 7])])
  {
    var b := Block("35", T, [1, 2]);
    assert SlotText([1, 2]) == "12";
    assert EncodeBlock(b) == "35T12";
    SingleParse("35T12", b);
    Expand35T12();
  }

  lemma Expand4N34()
    ensures ExpandBlock(Block("4", N, [3, 4])) == [TimeSlot(3, N, [14, 15])]
  {
    var b := Block("4", N, [3, 4]);
    var e := ExpandBlock(b);
    assert e[0] == TimeSlot(DaysMap[b.days[0]], b.period, GlobalSlots(b.slots, Base(b.period)));
    assert GlobalSlots([3, 4], 12) == [14, 15];
    assert DaysMap['4'] == 3;
  }

  lemma Example4N34Valid()
    ensures ValidTimeCode("4N34")
  {
    var b := Block("4", N, [3, 4]);
    assert SlotText([3, 4]) == "34";
    assert EncodeBlock(b) == "4N34";
    SingleWellFormed("4N34", b);
  }

  /** "4N34" is Wednesday night, slots 3 and 4: rows 14 and 15. */
  lemma Example4N34Parse()
    ensures ParseSpec("4N34") == Some([TimeSlot(3, N, [14, 15])])
  {
    var b := Block("4", N, [3, 4]);
    assert SlotText([3, 4]) == "34";
    assert EncodeBlock(b) == "4N34";
    SingleParse("4N34", b);
    Expand4N34();
  }

  /** Night has four slots, so "4N5" is rejected. */
  lemma Example4N5Invalid()
    ensures !ValidTimeCode("4N5")
  {
    var b := Block("4", N, [5]);
    assert SlotText([5]) == "5";
    assert EncodeBlock(b) == "4N5";
    assert !(b.slots[0] <= 4);
    assert !SlotsWithin(b.slots, MaxSlot(N));
    SingleIllFormed("4N5", b);
  }

  lemma Expand4N5()
    ensures ExpandBlock(Block("4", N, [5])) == [TimeSlot(3, N, [16])]
  {
    var b := Block("4", N, [5]);
    var e := ExpandBlock(b);
    assert e[0] == TimeSlot(DaysMap[b.days[0]], b.period, GlobalSlots(b.slots, Base(b.period)));
    assert GlobalSlots([5], 12) == [16];
    assert DaysMap['4'] == 3;
  }

  /** parseTimeCode does not re-check the bounds: "4N5" becomes index 16, one past the
      last row of the grid. Callers validate first. */
  lemma Example4N5Parse()
    ensures ParseSpec("4N5") == Some([TimeSlot(3, N, [16])])
  {
    var b := Block("4", N, [5]);
    assert SlotText([5]) == "5";
    assert EncodeBlock(b) == "4N5";
    SingleParse("4N5", b);
    Expand4N5();
  }

  /** Slots that descend are rejected. */
  lemma ExampleDescending()
    ensures !ValidTimeCode("35T21")
  {
    var b := Block("35", T, [2, 1]);
    assert SlotText([2, 1]) == "21";
    assert EncodeBlock(b) == "35T21";
    assert !(b.slots[0] < b.slots[1]);
    SingleIllFormed("35T21", b);
  }

  /** Slots that repeat are rejected. */
  lemma ExampleRepeated()
    ensures !ValidTimeCode("35T11")
  {
    var b := Block("35", T, [1, 1]);
    assert SlotText([1, 1]) == "11";
    assert EncodeBlock(b) == "35T11";
    assert !(b.slots[0] < b.slots[1]);
    SingleIllFormed("35T11", b);
  }

  /** A code of one token that fails the pattern is invalid. */
  lemma SingleMalformedToken(code: string)
    requires Tokens(code) == [code] && ParseTimeBlock(code) == None
    ensures !ValidTimeCode(code)
  {
    assert Tokens(code)[0] == code;
  }

  /** '1' is not a day digit. */
  lemma ExampleDayOne()
    ensures !ValidTimeCode("1T1")
  {
    var code := "1T1";
    assert !IsDayDigit(code[0]);
    assert DayPrefixLength(code) == 0;
    TrimIdentity(code);
    assert ' ' !in code;
    SplitWithoutSep(code, ' ');
    SingleMalformedToken(code);
  }

  /** The empty code holds one empty token and is invalid. */
  lemma ExampleEmpty()
    ensures !ValidTimeCode("")
  {
    assert Trim("") == "";
    assert Split("", ' ') == [""];
    SingleMalformedToken("");
  }

  /** Two blocks separated by two spaces leave an empty token between them. */
  lemma DoubleSpaceToken(a: string, c: string)
    requires a != [] && c != [] && ' ' !in a
    requires !IsWhitespace(a[0]) && !IsWhitespace(c[|c| - 1])
    ensures |Tokens(a + "  " + c)| >= 2 && Tokens(a + "  " + c)[1] == ""
  {
    var s := a + "  " + c;
    assert s[0] == a[0] && s[|s| - 1] == c[|c| - 1];
    TrimIdentity(s);
    assert s == a + [' '] + ("" + [' '] + c);
    SplitAtSep(a, ' ', "" + [' '] + c);
    SplitAtSep("", ' ', c);
  }

  /** A double space makes the code invalid, since the empty token fails the pattern. */
  lemma ExampleDoubleSpace()
    ensures !ValidTimeCode("35T12  4N34")
  {
    assert "35T12  4N34" == "35T12" + "  " + "4N34";
    DoubleSpaceToken("35T12", "4N34");
    assert ParseTimeBlock("") == None;
  }

  // ---------------------------------------------------------------------------
  // Name normalisation

  /** One word of the example: lower-cased, then its first letter upper-cased. */
  lemma CapitalizeOne(w: string, lower: string, out: string)
    requires |w| > 0 && |lower| == |w| && |out| == |w|
    requires forall i :: 0 <= i < |w| ==> LowerChar(w[i]) == lower[i]
    requires UpperChar(lower[0]) == [out[0]] && lower[1..] == out[1..]
    ensures CapitalizeWord(ToLower(w)) == out
  {
    assert ToLower(w) == lower;
    assert out == [out[0]] + out[1..];
  }

  /** Three space-separated words are capitalised one by one. */
  lemma CapitalizeThree(text: string, a: string, b: string, c: string, out: string, ca: string, cb: string, cc: string)
    requires text == a + " " + b + " " + c && out == ca + " " + cb + " " + cc
    requires ' ' !in a && ' ' !in b && ' ' !in c
    requires CapitalizeWord(ToLower(a)) == ca && CapitalizeWord(ToLower(b)) == cb && CapitalizeWord(ToLower(c)) == cc
    ensures CapitalizeWords(text) == out
  {
    var ws := [a, b, c];
    JoinThree(a, b, c);
    CapitalizeJoinedWords(ws);
    var caps := [ca, cb, cc];
    assert seq(|ws|, i requires 0 <= i < |ws| => CapitalizeWord(ToLower(ws[i]))) == caps;
    JoinThree(ca, cb, cc);
  }

  lemma JoinThree(a: string, b: string, c: string)
    ensures Join([a, b, c], ' ') == a + " " + b + " " + c
  {
    var ws := [a, b, c];
    assert ws[1..] == [b, c] && ws[1..][1..] == [c];
    assert Join([b, c], ' ') == b + [' '] + c;
    assert Join(ws, ' ') == a + [' '] + (b + [' '] + c);
    assert " " == [' '];
  }

  lemma CapitalizeJoao()
    ensures CapitalizeWord(ToLower("JO\U{C3}O")) == "Jo\U{E3}o"
  {
    CapitalizeOne("JO\U{C3}O", "jo\U{E3}o", "Jo\U{E3}o");
  }

  lemma CapitalizeDa()
    ensures CapitalizeWord(ToLower("DA")) == "Da"
  {
    CapitalizeOne("DA", "da", "Da");
  }

  lemma CapitalizeSilva()
    ensures CapitalizeWord(ToLower("SILVA")) == "Silva"
  {
    CapitalizeOne("SILVA", "silva", "Silva");
  }

  lemma ExampleCapitalize()
    ensures CapitalizeWords("JO\U{C3}O DA SILVA") == "Jo\U{E3}o Da Silva"
  {
    CapitalizeJoao();
    CapitalizeDa();
    CapitalizeSilva();
    CapitalizeThree("JO\U{C3}O DA SILVA", "JO\U{C3}O", "DA", "SILVA", "Jo\U{E3}o Da Silva", "Jo\U{E3}o", "Da", "Silva");
  }
}
