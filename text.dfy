/** The JavaScript string operations the schedule code relies on:
    String.prototype.trim, split(' '), join(' '), toLowerCase and toUpperCase. */
module Text {

  /** The WhiteSpace and LineTerminator code points of ECMAScript, which trim removes. */
  predicate IsWhitespace(c: char) {
    || c == '\t' || c == '\n' || c == '\U{B}' || c == '\U{C}' || c == '\r' || c == ' '
    || c == '\U{A0}' || c == '\U{1680}' || ('\U{2000}' <= c <= '\U{200A}')
    || c == '\U{2028}' || c == '\U{2029}' || c == '\U{202F}' || c == '\U{205F}'
    || c == '\U{3000}' || c == '\U{FEFF}'
  }

  /** The number of whitespace characters at the start of `s`. */
  function LeadingWhitespace(s: string): (k: nat)
    ensures k <= |s|
    ensures forall i :: 0 <= i < k ==> IsWhitespace(s[i])
    ensures k < |s| ==> !IsWhitespace(s[k])
    decreases |s|
  {
    if |s| > 0 && IsWhitespace(s[0]) then 1 + LeadingWhitespace(s[1..]) else 0
  }

  /** The number of whitespace characters at the end of `s`. */
  function TrailingWhitespace(s: string): (k: nat)
    ensures k <= |s|
    ensures forall i :: |s| - k <= i < |s| ==> IsWhitespace(s[i])
    ensures k < |s| ==> !IsWhitespace(s[|s| - 1 - k])
    decreases |s|
  {
    if |s| > 0 && IsWhitespace(s[|s| - 1]) then 1 + TrailingWhitespace(s[..|s| - 1]) else 0
  }

  /** String.prototype.trim: the text between the leading and the trailing whitespace.
      The result is a slice of `s` with only whitespace cut off before and after it, and it
      neither starts nor ends with whitespace. */
  function Trim(s: string): (r: string)
    ensures exists a, z ::
      && 0 <= a <= z <= |s|
      && r == s[a..z]
      && (forall i :: 0 <= i < a ==> IsWhitespace(s[i]))
      && (forall i :: z <= i < |s| ==> IsWhitespace(s[i]))
    ensures r == [] || (!IsWhitespace(r[0]) && !IsWhitespace(r[|r| - 1]))
  {
    var a := LeadingWhitespace(s);
    if a == |s| then
      assert s[a..a] == "";
      ""
    else
      var z := |s| - TrailingWhitespace(s);
      assert a <= z && forall i :: z <= i < |s| ==> IsWhitespace(s[i]);
      s[a..z]
  }

  /** A string that neither starts nor ends with whitespace is its own trim, and a string
      made only of whitespace trims to the empty string. */
  lemma TrimIdentity(s: string)
    ensures s == [] || (!IsWhitespace(s[0]) && !IsWhitespace(s[|s| - 1])) ==> Trim(s) == s
    ensures (forall i :: 0 <= i < |s| ==> IsWhitespace(s[i])) ==> Trim(s) == ""
  {
  }

  /** split(sep): the pieces between occurrences of `sep`; the empty string gives [""]. */
  function Split(s: string, sep: char): (r: seq<string>)
    ensures |r| >= 1
    ensures forall i :: 0 <= i < |r| ==> sep !in r[i]
    decreases |s|
  {
    if |s| == 0 then [""]
    else
      var rest := Split(s[1..], sep);
      if s[0] == sep then [""] + rest
      else [[s[0]] + rest[0]] + rest[1..]
  }

  /** join(sep). */
  function Join(ws: seq<string>, sep: char): string
    decreases |ws|
  {
    if |ws| == 0 then ""
    else if |ws| == 1 then ws[0]
    else ws[0] + [sep] + Join(ws[1..], sep)
  }

  /** Joining the pieces of a split restores the string. */
  lemma {:induction false} JoinSplit(s: string, sep: char)
    ensures Join(Split(s, sep), sep) == s
    decreases |s|
  {
    if |s| > 0 {
      JoinSplit(s[1..], sep);
      var rest := Split(s[1..], sep);
      if s[0] == sep {
        assert ([""] + rest)[1..] == rest;
      } else {
        var r := [[s[0]] + rest[0]] + rest[1..];
        if |rest| == 1 {
          assert r == [[s[0]] + rest[0]];
        } else {
          assert r[1..] == rest[1..];
          assert Join(rest, sep) == rest[0] + [sep] + Join(rest[1..], sep);
        }
        assert s == [s[0]] + s[1..];
      }
    }
  }

  /** A string without `sep` splits into itself. */
  lemma {:induction false} SplitWithoutSep(w: string, sep: char)
    requires sep !in w
    ensures Split(w, sep) == [w]
    decreases |w|
  {
    if |w| > 0 {
      SplitWithoutSep(w[1..], sep);
      assert w == [w[0]] + w[1..];
    }
  }

  /** Splitting `w + [sep] + t` yields `w` followed by the pieces of `t`. */
  lemma {:induction false} SplitAtSep(w: string, sep: char, t: string)
    requires sep !in w
    ensures Split(w + [sep] + t, sep) == [w] + Split(t, sep)
    decreases |w|
  {
    var s := w + [sep] + t;
    if |w| == 0 {
      assert s[1..] == t;
    } else {
      assert s[1..] == w[1..] + [sep] + t;
      SplitAtSep(w[1..], sep, t);
      assert [w[0]] + w[1..] == w;
    }
  }

  /** Splitting a join of pieces that do not contain the separator gives back the pieces. */
  lemma {:induction false} SplitJoin(ws: seq<string>, sep: char)
    requires |ws| >= 1
    requires forall i :: 0 <= i < |ws| ==> sep !in ws[i]
    ensures Split(Join(ws, sep), sep) == ws
    decreases |ws|
  {
    if |ws| == 1 {
      SplitWithoutSep(ws[0], sep);
    } else {
      SplitJoin(ws[1..], sep);
      SplitAtSep(ws[0], sep, Join(ws[1..], sep));
      assert [ws[0]] + ws[1..] == ws;
    }
  }

  // Case mapping. The model covers the Basic Latin and Latin-1 Supplement blocks;
  // every other character is left as it is.

  /** toLowerCase of one character. */
  function LowerChar(c: char): char
  {
    if 'A' <= c <= 'Z' || ('\U{C0}' <= c <= '\U{DE}' && c != '\U{D7}') then
      (c as int + 32) as char
    else c
  }

  /** toUpperCase of a one-character string; "ß" becomes "SS". */
  function UpperChar(c: char): string
  {
    if 'a' <= c <= 'z' || ('\U{E0}' <= c <= '\U{FE}' && c != '\U{F7}') then [(c as int - 32) as char]
    else if c == '\U{FF}' then ['\U{178}']
    else if c == '\U{B5}' then ['\U{39C}']
    else if c == '\U{DF}' then "SS"
    else [c]
  }

  /** toLowerCase. */
  function ToLower(s: string): (r: string)
    ensures |r| == |s| && forall i :: 0 <= i < |s| ==> r[i] == LowerChar(s[i])
  {
    seq(|s|, i requires 0 <= i < |s| => LowerChar(s[i]))
  }

  /** Lower-casing neither creates nor removes spaces. */
  lemma LowerCharSpace(c: char)
    ensures LowerChar(c) == ' ' <==> c == ' '
  {
  }

  /** Upper-casing a character other than a space yields no space. */
  lemma UpperCharNoSpace(c: char)
    requires c != ' '
    ensures ' ' !in UpperChar(c)
  {
  }

  /** Lower-casing and then splitting on spaces is splitting and then lower-casing each piece. */
  lemma {:induction false} SplitLower(s: string)
    ensures |Split(ToLower(s), ' ')| == |Split(s, ' ')|
    ensures forall i :: 0 <= i < |Split(s, ' ')| ==> Split(ToLower(s), ' ')[i] == ToLower(Split(s, ' ')[i])
    decreases |s|
  {
    if |s| > 0 {
      var t := ToLower(s);
      SplitLower(s[1..]);
      assert t[1..] == ToLower(s[1..]);
      LowerCharSpace(s[0]);
      var rest := Split(s[1..], ' ');
      var lrest := Split(t[1..], ' ');
      if s[0] == ' ' {
        assert Split(s, ' ') == [""] + rest;
        assert Split(t, ' ') == [""] + lrest;
      } else {
        assert Split(s, ' ') == [[s[0]] + rest[0]] + rest[1..];
        assert Split(t, ' ') == [[t[0]] + lrest[0]] + lrest[1..];
        assert ToLower([s[0]] + rest[0]) == [t[0]] + lrest[0];
      }
    }
  }
}
