/**
 * The demo transcript the front end sends (frontend/src/components/MoodTimeline.jsx,
 * lines 11-16) and what `segment_from_transcript` gives on it: four annotated lines
 * six seconds apart, the last one lingering for three seconds.
 */
module Demo {
  import opened Common
  import opened Text
  import opened Timestamp
  import opened Segmenter
  import opened Fixtures

  /** A stripped, non-empty line is kept as it is. */
  lemma KeepLine(l: string, rest: seq<string>)
    requires l != [] && Strip(l) == l
    ensures NonBlank([l] + rest) == [l] + NonBlank(rest)
  {
    assert ([l] + rest)[1..] == rest;
  }

  /** An empty line is dropped. */
  lemma DropBlank(rest: seq<string>)
    ensures NonBlank([""] + rest) == NonBlank(rest)
  {
    StripEmpty("");
    assert ([""] + rest)[1..] == rest;
  }

  /** A stripped line on its own between line breaks. */
  predicate OwnLine(l: string)
  {
    l != [] && !HasAny(l, LineBreaks) && Strip(l) == l
  }

  /** Splitting four lines joined by line breaks, after a leading one and with a trailing one. */
  lemma FourLinesSplit(t: string, l0: string, l1: string, l2: string, l3: string)
    requires OwnLine(l0) && OwnLine(l1) && OwnLine(l2) && OwnLine(l3)
    requires t == Join(["", l0, l1, l2, l3, ""], "\n")
    ensures Split(t, LineBreaks) == ["", l0, l1, l2, l3, ""]
  {
    var parts := ["", l0, l1, l2, l3, ""];
    HasNone("", LineBreaks);
    assert forall j :: 0 <= j < |parts| ==> !HasAny(parts[j], LineBreaks);
    SplitJoin(parts, '\n', LineBreaks);
  }

  /** The last two lines are kept and the blank piece after them dropped. */
  lemma LastLinesKept(l2: string, l3: string)
    requires OwnLine(l2) && OwnLine(l3)
    ensures NonBlank([l2, l3, ""]) == [l2, l3]
  {
    var e: seq<string> := [];
    var b := [""] + e;
    var s3 := [l3] + b;
    var s2 := [l2] + s3;
    DropBlank(e);
    KeepLine(l3, b);
    KeepLine(l2, s3);
    assert NonBlank(e) == [];
    assert s2 == [l2, l3, ""];
  }

  /** The blank first and last pieces are dropped, the four lines kept. */
  lemma FourLinesKept(l0: string, l1: string, l2: string, l3: string)
    requires OwnLine(l0) && OwnLine(l1) && OwnLine(l2) && OwnLine(l3)
    ensures NonBlank(["", l0, l1, l2, l3, ""]) == [l0, l1, l2, l3]
  {
    LastLinesKept(l2, l3);
    KeepLine(l1, [l2, l3, ""]);
    assert [l1] + [l2, l3, ""] == [l1, l2, l3, ""];
    KeepLine(l0, [l1, l2, l3, ""]);
    assert [l0] + [l1, l2, l3, ""] == [l0, l1, l2, l3, ""];
    DropBlank([l0, l1, l2, l3, ""]);
    assert [""] + [l0, l1, l2, l3, ""] == ["", l0, l1, l2, l3, ""];
  }

  /** A line `[stamp] body`, with `body` already stripped, is annotated with that timestamp and text. */
  lemma AnnotatedLine(l: string, stamp: string, body: string)
    requires forall k :: 0 <= k < |stamp| ==> stamp[k] != ']'
    requires body == [] || (!IsSpace(body[0]) && !IsSpace(body[|body| - 1]))
    requires l == "[" + stamp + "] " + body
    ensures IsAnnotated(l) && NoteOf(l) == Note(stamp, body)
  {
    HasNone(stamp, {']'});
    assert l == ['['] + stamp + [']'] + ([' '] + body);
    BracketedNote(stamp, [' '] + body);
    StripLeadingSpace(' ', body);
    StripNoOp(body);
  }

  /** The notes of an annotated line and the lines after it. */
  lemma AnnotatedCons(l: string, rest: seq<string>)
    requires IsAnnotated(l)
    ensures Notes([l] + rest) == [NoteOf(l)] + Notes(rest)
  {
    assert ([l] + rest)[1..] == rest;
  }

  /** Four annotated lines give their four notes. */
  lemma FourNotes(l0: string, l1: string, l2: string, l3: string, n0: Note, n1: Note, n2: Note, n3: Note)
    requires IsAnnotated(l0) && IsAnnotated(l1) && IsAnnotated(l2) && IsAnnotated(l3)
    requires NoteOf(l0) == n0 && NoteOf(l1) == n1 && NoteOf(l2) == n2 && NoteOf(l3) == n3
    ensures Notes([l0, l1, l2, l3]) == [n0, n1, n2, n3]
  {
    var e: seq<string> := [];
    var s3 := [l3] + e;
    var s2 := [l2] + s3;
    var s1 := [l1] + s2;
    var s0 := [l0] + s1;
    AnnotatedCons(l3, e);
    AnnotatedCons(l2, s3);
    AnnotatedCons(l1, s2);
    AnnotatedCons(l0, s1);
    assert Notes(e) == [];
    assert s0 == [l0, l1, l2, l3];
  }

  /** The timestamps of a note and the notes after it. */
  lemma TimesCons(n: Note, ns: seq<Note>, parse: string -> Result<real, Error>)
    ensures Times([n] + ns, parse) == [parse(n.stamp)] + Times(ns, parse)
  {
    assert ([n] + ns)[1..] == ns;
  }

  /** The timestamps of four notes. */
  lemma FourTimes(n0: Note, n1: Note, n2: Note, n3: Note, parse: string -> Result<real, Error>)
    ensures Times([n0, n1, n2, n3], parse) == [parse(n0.stamp), parse(n1.stamp), parse(n2.stamp), parse(n3.stamp)]
  {
    TimesCons(n3, [], parse);
    TimesCons(n2, [n3], parse);
    TimesCons(n1, [n2, n3], parse);
    TimesCons(n0, [n1, n2, n3], parse);
    assert [n0] + [n1, n2, n3] == [n0, n1, n2, n3];
    assert [n1] + [n2, n3] == [n1, n2, n3];
    assert [n2] + [n3] == [n2, n3];
    assert [n3] + [] == [n3];
  }

  /**
   * Four notes whose timestamps parse to `v0`..`v3` give four segments
   * from each timestamp to the next, the last one lingering.
   */
  lemma FourSegments(lines: seq<string>, parse: string -> Result<real, Error>,
                     n0: Note, n1: Note, n2: Note, n3: Note, v0: real, v1: real, v2: real, v3: real)
    requires Notes(lines) == [n0, n1, n2, n3]
    requires parse(n0.stamp) == Ok(v0) && parse(n1.stamp) == Ok(v1)
    requires parse(n2.stamp) == Ok(v2) && parse(n3.stamp) == Ok(v3)
    ensures AnnotatedSegments(lines, parse) == Ok([
      Segment(v0, v1, n0.body), Segment(v1, v2, n1.body),
      Segment(v2, v3, n2.body), Segment(v3, v3 + Linger(n3.body), n3.body)])
  {
    var ns := [n0, n1, n2, n3];
    FourTimes(n0, n1, n2, n3, parse);
    var ts := Times(ns, parse);
    assert ts == [Ok(v0), Ok(v1), Ok(v2), Ok(v3)];
    var f := FirstFailure(ts);
    assert forall j :: 0 <= j < 4 ==> ts[j].Ok?;
    assert f == 4;
    var segs := Chain(ts, ns);
    assert segs[0] == Segment(v0, v1, n0.body);
    assert segs[1] == Segment(v1, v2, n1.body);
    assert segs[2] == Segment(v2, v3, n2.body);
    assert segs[3] == Segment(v3, v3 + Linger(n3.body), n3.body);
    assert |segs| == 4;
    assert segs == [
      Segment(v0, v1, n0.body), Segment(v1, v2, n1.body),
      Segment(v2, v3, n2.body), Segment(v3, v3 + Linger(n3.body), n3.body)];
    assert AnnotatedSegments(lines, parse) == Ok(segs);
  }

  /** The demo transcript holds exactly its four lines. */
  lemma DemoLines()
    ensures Lines(DemoTranscript) == [Line0, Line1, Line2, Line3]
  {
    DemoLine0();
    DemoLine1();
    DemoLine2();
    DemoLine3();
    FourLinesSplit(DemoTranscript, Line0, Line1, Line2, Line3);
    FourLinesKept(Line0, Line1, Line2, Line3);
  }

  /** Each demo line is annotated with its timestamp and text. */
  lemma DemoNote0()
    ensures IsAnnotated(Line0) && NoteOf(Line0) == Note(Stamp0, Body0)
  {
    DemoStamp0();
    DemoBody0();
    AnnotatedLine(Line0, Stamp0, Body0);
  }

  lemma DemoNote1()
    ensures IsAnnotated(Line1) && NoteOf(Line1) == Note(Stamp1, Body1)
  {
    DemoStamp1();
    DemoBody1();
    AnnotatedLine(Line1, Stamp1, Body1);
  }

  lemma DemoNote2()
    ensures IsAnnotated(Line2) && NoteOf(Line2) == Note(Stamp2, Body2)
  {
    DemoStamp2();
    DemoBody2();
    AnnotatedLine(Line2, Stamp2, Body2);
  }

  lemma DemoNote3()
    ensures IsAnnotated(Line3) && NoteOf(Line3) == Note(Stamp3, Body3)
  {
    DemoStamp3();
    DemoBody3();
    AnnotatedLine(Line3, Stamp3, Body3);
  }

  lemma DemoNotes()
    ensures IsAnnotated(Line0)
    ensures Notes([Line0, Line1, Line2, Line3]) ==
      [Note(Stamp0, Body0), Note(Stamp1, Body1), Note(Stamp2, Body2), Note(Stamp3, Body3)]
  {
    DemoNote0();
    DemoNote1();
    DemoNote2();
    DemoNote3();
    FourNotes(Line0, Line1, Line2, Line3, Note(Stamp0, Body0), Note(Stamp1, Body1), Note(Stamp2, Body2), Note(Stamp3, Body3));
  }

  /**
   * The demo transcript gives the segments (0, 6), (6, 12), (12, 18) and
   * (18, 21): its six words are too few to outlast the three-second
   * minimum, whatever the sentence splitter.
   */
  lemma DemoSegmentation(sentTokenize: string -> seq<string>)
    ensures Segmentation(DemoTranscript, sentTokenize) == Ok([
      Segment(0.0, 6.0, Body0), Segment(6.0, 12.0, Body1),
      Segment(12.0, 18.0, Body2), Segment(18.0, 21.0, Body3)])
  {
    var lines := [Line0, Line1, Line2, Line3];
    DemoLines();
    DemoNotes();
    assert HasAnnotatedLine(lines) by {
      assert IsAnnotated(lines[0]);
    }
    Fixtures.DemoClock00();
    Fixtures.DemoClock06();
    Fixtures.DemoClock12();
    Fixtures.DemoClock18();
    DemoBody3();
    assert Linger(Body3) == 3.0;
    FourSegments(lines, ParseTimestamp, Note(Stamp0, Body0), Note(Stamp1, Body1),
      Note(Stamp2, Body2), Note(Stamp3, Body3), 0.0, 6.0, 12.0, 18.0);
  }
}
