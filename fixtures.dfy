/**
 * Concrete inputs and what the model gives on them: timestamps of each shape handled
 * by `parse_timestamp`, and the demo transcript shipped with the front end.
 */
module Fixtures {
  import opened Common
  import opened Text
  import opened Timestamp

  /** Hours, minutes and seconds: 1 h 2 min 3 s. */
  lemma ClockHoursMinutesSeconds()
    ensures ParseTimestamp("1:02:03") == Ok(3723.0)
  {
    var h, m, s := "1", "02", "03";
    assert AllDigits(h) && AllDigits(m) && AllDigits(s);
    assert DigitsValue(h) == 1 && DigitsValue(m) == 2 && DigitsValue(s) == 3 by {
      assert m[1..] == "2" && s[1..] == "3";
    }
    DigitClock(h, m, s, "1:02:03");
  }

  /** Minutes and seconds: 2 min 3 s. */
  lemma ClockMinutesSeconds()
    ensures ParseTimestamp("02:03") == Ok(123.0)
  {
    var m, s := "02", "03";
    assert AllDigits(m) && AllDigits(s);
    DigitsHaveNoColon(m);
    DigitsHaveNoColon(s);
    SplitTwo(m, s, ':');
    assert m + [':'] + s == "02:03";
    DigitsField(m);
    DigitsField(s);
    MinutesSeconds("02:03", m, s, 2.0, 3.0);
  }

  /** A bare number of seconds. */
  lemma ClockSeconds()
    ensures ParseTimestamp("45") == Ok(45.0)
  {
    assert AllDigits("45");
    DigitsHaveNoColon("45");
    DigitsField("45");
    BareSeconds("45", 45.0);
  }

  /** Four fields: the first is returned and the rest are ignored. */
  lemma ClockFourFields()
    ensures ParseTimestamp("1:2:3:4") == Ok(1.0)
  {
    var a, b, c, d := "1", "2", "3", "4";
    assert AllDigits(a) && AllDigits(b) && AllDigits(c) && AllDigits(d);
    DigitFourFields(a, b, c, d, "1:2:3:4");
  }

  /** A field that is not a number makes the whole timestamp fail with that field. */
  lemma ClockNotANumber()
    ensures ParseTimestamp("bad") == Err(MalformedTimestamp("bad"))
  {
  }

  /** An empty timestamp, as in a line starting with `[]`, fails too. */
  lemma ClockEmpty()
    ensures ParseTimestamp("") == Err(MalformedTimestamp(""))
  {
  }

  /** The field `1.5` is the number 1.5. */
  lemma FieldDecimal()
    ensures ParseField("1.5") == Some(1.5)
  {
    assert "1" + "." + "5" == "1.5";
    DecimalField("1", "5");
    var x, y, p := DigitsValue("1"), DigitsValue("5"), Pow10(1);
    assert x == 1 && y == 5 && p == 10;
    assert x as real + y as real / p as real == 1.5;
  }

  /** A field with a point: `1.5` is one and a half seconds. */
  lemma ClockDecimal()
    ensures ParseTimestamp("1.5") == Ok(1.5)
  {
    FieldDecimal();
    assert !HasAny("1.5", {':'}) by {
      HasNone("1.5", {':'});
    }
    BareSeconds("1.5", 1.5);
  }

  /** `float()` does not strip the unit separator U+001F, so `[\x1f5]` fails although `str.strip` would clear it. */
  lemma ClockUnitSeparator()
    ensures ParseTimestamp("\U{1f}5") == Err(MalformedTimestamp("\U{1f}5"))
  {
    assert HasAny("\U{1f}5", InfoSeparators);
  }

  /** The demo clock `00:00:00`. */
  lemma DemoClock00()
    ensures ParseTimestamp("00:00:00") == Ok(0.0)
  {
    var z := "00";
    assert AllDigits(z);
    assert DigitsValue(z) == 0 by {
      assert z[1..] == "0";
    }
    DigitClock(z, z, z, "00:00:00");
  }

  /** The demo clock `00:00:06`. */
  lemma DemoClock06()
    ensures ParseTimestamp("00:00:06") == Ok(6.0)
  {
    var z, s := "00", "06";
    assert AllDigits(z) && AllDigits(s);
    assert DigitsValue(z) == 0 && DigitsValue(s) == 6 by {
      assert z[1..] == "0" && s[1..] == "6";
    }
    DigitClock(z, z, s, "00:00:06");
  }

  /** The demo clock `00:00:12`. */
  lemma DemoClock12()
    ensures ParseTimestamp("00:00:12") == Ok(12.0)
  {
    var z, s := "00", "12";
    assert AllDigits(z) && AllDigits(s);
    assert DigitsValue(z) == 0 && DigitsValue(s) == 12 by {
      assert z[1..] == "0" && s[1..] == "2";
    }
    DigitClock(z, z, s, "00:00:12");
  }

  /** The demo clock `00:00:18`. */
  lemma DemoClock18()
    ensures ParseTimestamp("00:00:18") == Ok(18.0)
  {
    var z, s := "00", "18";
    assert AllDigits(z) && AllDigits(s);
    assert DigitsValue(z) == 0 && DigitsValue(s) == 18 by {
      assert z[1..] == "0" && s[1..] == "8";
    }
    DigitClock(z, z, s, "00:00:18");
  }

  /*
   * The demo transcript of frontend/src/components/MoodTimeline.jsx, lines
   * 11-16: four lines `[stamp] text`. Each text is written out word by word.
   */

  const Stamp0: string := "00:00:00"
  const Stamp1: string := "00:00:06"
  const Stamp2: string := "00:00:12"
  const Stamp3: string := "00:00:18"

  /** "This is a calm introduction. Welcome to the demo video." */
  const Words0: seq<string> := ["This", "is", "a", "calm", "introduction.", "Welcome", "to", "the", "demo", "video."]
  /** "Now things get a bit more exciting! Wow, amazing scene!" */
  const Words1: seq<string> := ["Now", "things", "get", "a", "bit", "more", "exciting!", "Wow,", "amazing", "scene!"]
  /** "Back to neutral explanation and calm voice." */
  const Words2: seq<string> := ["Back", "to", "neutral", "explanation", "and", "calm", "voice."]
  /** "Finale: intense, epic, what a banger!" */
  const Words3: seq<string> := ["Finale:", "intense,", "epic,", "what", "a", "banger!"]

  const Body0: string := Join(Words0, " ")
  const Body1: string := Join(Words1, " ")
  const Body2: string := Join(Words2, " ")
  const Body3: string := Join(Words3, " ")

  const Line0: string := "[" + Stamp0 + "] " + Body0
  const Line1: string := "[" + Stamp1 + "] " + Body1
  const Line2: string := "[" + Stamp2 + "] " + Body2
  const Line3: string := "[" + Stamp3 + "] " + Body3

  /** The template literal: a line break, then the four lines each followed by a line break. */
  const DemoTranscript: string := Join(["", Line0, Line1, Line2, Line3, ""], "\n")

  /** A text that is one stripped line. */
  predicate Stripped(t: string)
  {
    t != [] && !IsSpace(t[0]) && !IsSpace(t[|t| - 1]) && !HasAny(t, LineBreaks)
  }

  /** A timestamp that can sit between brackets on one line. */
  predicate Bracketable(stamp: string)
  {
    !HasAny(stamp, LineBreaks) && forall k :: 0 <= k < |stamp| ==> stamp[k] != ']'
  }

  /** `[stamp] body` is one stripped line when `body` is. */
  lemma PlainLine(l: string, stamp: string, body: string)
    requires Stripped(body) && !HasAny(stamp, LineBreaks)
    requires l == "[" + stamp + "] " + body
    ensures l != [] && !HasAny(l, LineBreaks) && Strip(l) == l
  {
    NoBreaks("[");
    NoBreaks("] ");
    HasAnyAppend("[", stamp, LineBreaks);
    HasAnyAppend("[" + stamp, "] ", LineBreaks);
    HasAnyAppend("[" + stamp + "] ", body, LineBreaks);
    assert l[|l| - 1] == body[|body| - 1];
    StripNoOp(l);
  }

  lemma DemoStamp0()
    ensures Bracketable(Stamp0)
  {
    HasNone(Stamp0, LineBreaks);
  }

  lemma DemoStamp1()
    ensures Bracketable(Stamp1)
  {
    HasNone(Stamp1, LineBreaks);
  }

  lemma DemoStamp2()
    ensures Bracketable(Stamp2)
  {
    HasNone(Stamp2, LineBreaks);
  }

  lemma DemoStamp3()
    ensures Bracketable(Stamp3)
  {
    HasNone(Stamp3, LineBreaks);
  }

  lemma DemoBody0()
    ensures Stripped(Body0)
  {
    assert forall j :: 0 <= j < |Words0| ==> IsWord(Words0[j]);
    SpacedWords(Words0);
  }

  lemma DemoBody1()
    ensures Stripped(Body1)
  {
    assert forall j :: 0 <= j < |Words1| ==> IsWord(Words1[j]);
    SpacedWords(Words1);
  }

  lemma DemoBody2()
    ensures Stripped(Body2)
  {
    assert forall j :: 0 <= j < |Words2| ==> IsWord(Words2[j]);
    SpacedWords(Words2);
  }

  /** The last text has six words. */
  lemma DemoBody3()
    ensures Stripped(Body3) && WordCount(Body3) == 6
  {
    assert forall j :: 0 <= j < |Words3| ==> IsWord(Words3[j]);
    SpacedWords(Words3);
  }

  /** Each demo line is a stripped line of its own. */
  lemma DemoLine0()
    ensures Line0 != [] && !HasAny(Line0, LineBreaks) && Strip(Line0) == Line0
  {
    DemoStamp0();
    DemoBody0();
    PlainLine(Line0, Stamp0, Body0);
  }

  lemma DemoLine1()
    ensures Line1 != [] && !HasAny(Line1, LineBreaks) && Strip(Line1) == Line1
  {
    DemoStamp1();
    DemoBody1();
    PlainLine(Line1, Stamp1, Body1);
  }

  lemma DemoLine2()
    ensures Line2 != [] && !HasAny(Line2, LineBreaks) && Strip(Line2) == Line2
  {
    DemoStamp2();
    DemoBody2();
    PlainLine(Line2, Stamp2, Body2);
  }

  lemma DemoLine3()
    ensures Line3 != [] && !HasAny(Line3, LineBreaks) && Strip(Line3) == Line3
  {
    DemoStamp3();
    DemoBody3();
    PlainLine(Line3, Stamp3, Body3);
  }
}
