/**
 * `segment_from_transcript` of backend/utils.py: a transcript becomes an
 * ordered list of `(t0, t1, text)` segments, either from `[timestamp]`
 * annotations or, when there are none, from its sentences laid end to end.
 */
module Segmenter {
  import opened Common
  import opened Text
  import opened Timestamp

  /** A time interval of the content, in seconds, with its transcript text. */
  datatype Segment = Segment(t0: real, t1: real, text: string)

  /** The stripped, non-blank lines among `raw`, in order. */
  function NonBlank(raw: seq<string>): (ls: seq<string>)
    ensures |ls| <= |raw|
    ensures forall i :: 0 <= i < |ls| ==> ls[i] != []
    ensures forall i :: 0 <= i < |ls| ==> !IsSpace(ls[i][0]) && !IsSpace(ls[i][|ls[i]| - 1])
  {
    if raw == [] then []
    else
      StripEnds(raw[0]);
      (if Strip(raw[0]) != [] then [Strip(raw[0])] else []) + NonBlank(raw[1..])
  }

  /**
   * `[l.strip() for l in transcript.splitlines() if l.strip()]`. Splitting at
   * every line-break character yields the lines of `splitlines` plus some
   * empty ones (for `\r\n` and a final break), and those are dropped here.
   */
  function Lines(transcript: string): (ls: seq<string>)
    ensures forall i :: 0 <= i < |ls| ==> ls[i] != [] && !IsSpace(ls[i][0]) && !IsSpace(ls[i][|ls[i]| - 1])
  {
    NonBlank(Split(transcript, LineBreaks))
  }

  /** `l.startswith('[') and ']' in l`. */
  predicate IsAnnotated(l: string)
  {
    |l| > 0 && l[0] == '[' && HasAny(l, {']'})
  }

  /** Position of the first `]` (`l.index(']')`); never 0, as `l` starts with `[`. */
  function CloseAt(l: string): (i: nat)
    requires IsAnnotated(l)
    ensures 1 <= i < |l| && l[i] == ']'
  {
    Find(l, {']'})
  }

  /** `l[1:l.index(']')]`: the text between `[` and the first `]`. */
  function StampOf(l: string): string
    requires IsAnnotated(l)
  {
    l[1..CloseAt(l)]
  }

  /** `l[l.index(']')+1:].strip()`: what follows the first `]`, stripped. */
  function BodyOf(l: string): string
    requires IsAnnotated(l)
  {
    Strip(l[CloseAt(l) + 1..])
  }

  /** `max(3, len(text.split())/2)`: how long the last annotated segment lasts. */
  function Linger(text: string): (d: real)
    ensures d >= 3.0
    ensures d >= WordCount(text) as real / 2.0
    ensures d == 3.0 || d == WordCount(text) as real / 2.0
  {
    var half := WordCount(text) as real / 2.0;
    if 3.0 >= half then 3.0 else half
  }

  /** An annotated line cut at its first `]`: the timestamp text and the stripped text after it. */
  datatype Note = Note(stamp: string, body: string)

  /** The note of an annotated line. */
  function NoteOf(l: string): Note
    requires IsAnnotated(l)
  {
    Note(StampOf(l), BodyOf(l))
  }

  /** The notes of the annotated lines, in order. */
  function Notes(lines: seq<string>): (ns: seq<Note>)
    ensures |ns| <= |lines|
  {
    if lines == [] then []
    else (if IsAnnotated(lines[0]) then [NoteOf(lines[0])] else []) + Notes(lines[1..])
  }

  /** How many of `lines` are annotated. */
  function AnnotatedCount(lines: seq<string>): nat
  {
    if lines == [] then 0
    else (if IsAnnotated(lines[0]) then 1 else 0) + AnnotatedCount(lines[1..])
  }

  /** `any(l.startswith('[') and ']' in l for l in lines)`. */
  predicate HasAnnotatedLine(lines: seq<string>)
  {
    exists i :: 0 <= i < |lines| && IsAnnotated(lines[i])
  }

  /** The timestamp of every note, parsed. */
  function Times(ns: seq<Note>, parse: string -> Result<real, Error>): (ts: seq<Result<real, Error>>)
    ensures |ts| == |ns|
  {
    if ns == [] then [] else [parse(ns[0].stamp)] + Times(ns[1..], parse)
  }

  /** Index of the first failed parse, or `|ts|` when all succeeded. */
  function FirstFailure(ts: seq<Result<real, Error>>): (i: nat)
    ensures i <= |ts|
    ensures forall j :: 0 <= j < i ==> ts[j].Ok?
    ensures i < |ts| ==> ts[i].Err?
  {
    if ts == [] || ts[0].Err? then 0 else 1 + FirstFailure(ts[1..])
  }

  /**
   * The `k`-th annotated segment, given the parsed timestamps of all notes:
   * from its own timestamp to the next note's, or lingering after its own
   * when it is the last.
   */
  function SegmentAt(ts: seq<Result<real, Error>>, ns: seq<Note>, k: nat): Segment
    requires |ts| == |ns| && k < |ts| && ts[k].Ok?
    requires k + 1 < |ts| ==> ts[k + 1].Ok?
  {
    var t0 := ts[k].value;
    Segment(t0, if k + 1 < |ts| then ts[k + 1].value else t0 + Linger(ns[k].body), ns[k].body)
  }

  /** The segments of notes whose timestamps all parsed. */
  function Chain(ts: seq<Result<real, Error>>, ns: seq<Note>): (segs: seq<Segment>)
    requires |ts| == |ns| && forall k :: 0 <= k < |ts| ==> ts[k].Ok?
  {
    seq(|ts|, k requires 0 <= k < |ts| => SegmentAt(ts, ns, k))
  }

  /**
   * The annotated branch: one segment per annotated line, or the error of
   * the first timestamp that does not parse.
   */
  function AnnotatedSegments(lines: seq<string>, parse: string -> Result<real, Error>): (r: Result<seq<Segment>, Error>)
    ensures r.Ok? ==> |r.value| == |Notes(lines)|
  {
    var ns := Notes(lines);
    var ts := Times(ns, parse);
    var f := FirstFailure(ts);
    if f < |ts| then Err(ts[f].error) else Ok(Chain(ts, ns))
  }

  /** How long a sentence is taken to last: `max(1.0, w / 2.5)` for `w` words. */
  function Duration(sentence: string): (d: real)
    ensures d >= 1.0
    ensures d >= WordCount(sentence) as real / 2.5
    ensures d == 1.0 || d == WordCount(sentence) as real / 2.5
  {
    var spoken := WordCount(sentence) as real / 2.5;
    if 1.0 >= spoken then 1.0 else spoken
  }

  /** The time the sentences take, laid end to end. */
  function Elapsed(sents: seq<string>): real
  {
    if sents == [] then 0.0 else Elapsed(sents[..|sents| - 1]) + Duration(sents[|sents| - 1])
  }

  /** The plain branch: sentence `k` runs from the end of the sentences before it, for its own duration. */
  function PlainSegments(sents: seq<string>): (segs: seq<Segment>)
    ensures |segs| == |sents|
  {
    seq(|sents|, k requires 0 <= k < |sents| => Segment(Elapsed(sents[..k]), Elapsed(sents[..k + 1]), sents[k]))
  }

  /** The two characters `\` and `n` that line 44 puts between lines (not a newline). */
  const LiteralBackslashN: string := "\\n"

  /** What `segment_from_transcript` returns, with the sentence splitter as a parameter. */
  function Segmentation(transcript: string, sentTokenize: string -> seq<string>): (r: Result<seq<Segment>, Error>)
    ensures r.Err? ==> HasAnnotatedLine(Lines(transcript))
  {
    var lines := Lines(transcript);
    if HasAnnotatedLine(lines) then AnnotatedSegments(lines, ParseTimestamp)
    else Ok(PlainSegments(sentTokenize(Join(lines, LiteralBackslashN))))
  }

  /** In a line `[stamp]rest` with no `]` inside `stamp`, the first `]` closes `stamp`. */
  lemma BracketClose(stamp: string, rest: string)
    requires !HasAny(stamp, {']'})
    ensures IsAnnotated(['['] + stamp + [']'] + rest)
    ensures CloseAt(['['] + stamp + [']'] + rest) == 1 + |stamp|
  {
    var open, close := ['['] + stamp, [']'] + rest;
    assert ['['] + stamp + [']'] + rest == open + close;
    assert !HasAny(open, {']'}) by {
      HasAnyAppend(['['], stamp, {']'});
    }
    assert HasAny(open + close, {']'}) && Find(open + close, {']'}) == |open| by {
      assert Find(close, {']'}) == 0;
      FindAfter(open, close, {']'});
    }
    assert (open + close)[0] == '[';
  }

  /**
   * A line `[stamp]rest` with no `]` inside `stamp` is annotated: its
   * timestamp is `stamp` and its text is `rest` stripped.
   */
  lemma BracketedNote(stamp: string, rest: string)
    requires !HasAny(stamp, {']'})
    ensures IsAnnotated(['['] + stamp + [']'] + rest)
    ensures NoteOf(['['] + stamp + [']'] + rest) == Note(stamp, Strip(rest))
  {
    BracketClose(stamp, rest);
    BracketSlices(stamp, rest);
  }

  /** Where `[stamp]rest` keeps its two parts. */
  lemma BracketSlices(stamp: string, rest: string)
    ensures (['['] + stamp + [']'] + rest)[1..1 + |stamp|] == stamp
    ensures (['['] + stamp + [']'] + rest)[1 + |stamp| + 1..] == rest
  {
  }

  /** Notes of a concatenation: the annotated lines keep their order. */
  lemma {:induction false} NotesAppend(x: seq<string>, y: seq<string>)
    ensures Notes(x + y) == Notes(x) + Notes(y)
    decreases |x|
  {
    if x == [] {
      assert x + y == y;
    } else {
      NotesAppend(x[1..], y);
      assert (x + y)[0] == x[0] && (x + y)[1..] == x[1..] + y;
      assert Notes(x) == (if IsAnnotated(x[0]) then [NoteOf(x[0])] else []) + Notes(x[1..]);
    }
  }

  /** The notes of a prefix one line longer. */
  lemma NotesStep(lines: seq<string>, i: nat)
    requires i < |lines|
    ensures Notes(lines[..i + 1]) == Notes(lines[..i]) + (if IsAnnotated(lines[i]) then [NoteOf(lines[i])] else [])
  {
    NotesAppend(lines[..i], [lines[i]]);
    assert lines[..i + 1] == lines[..i] + [lines[i]];
  }

  /** There is one note per annotated line. */
  lemma {:induction false} NotesCount(lines: seq<string>)
    ensures |Notes(lines)| == AnnotatedCount(lines)
    decreases |lines|
  {
    if lines != [] {
      NotesCount(lines[1..]);
    }
  }

  /** A prefix one line longer has one more annotated line exactly when that line is annotated. */
  lemma NotesGrow(lines: seq<string>, i: nat)
    requires i < |lines|
    ensures AnnotatedCount(lines[..i + 1]) == AnnotatedCount(lines[..i]) + (if IsAnnotated(lines[i]) then 1 else 0)
    ensures AnnotatedCount(lines[..i + 1]) <= |Notes(lines)|
  {
    NotesStep(lines, i);
    NotesSplit(lines, i + 1);
    NotesCount(lines[..i + 1]);
    NotesCount(lines[..i]);
  }

  /** The notes of `lines` split at `i`. */
  lemma NotesSplit(lines: seq<string>, i: nat)
    requires i <= |lines|
    ensures Notes(lines) == Notes(lines[..i]) + Notes(lines[i..])
  {
    var x, y := lines[..i], lines[i..];
    assert lines == x + y;
    assert Notes(x + y) == Notes(x) + Notes(y) by {
      NotesAppend(x, y);
    }
  }

  /** The `k`-th parsed timestamp is that of the `k`-th note. */
  lemma {:induction false} TimeAt(ns: seq<Note>, parse: string -> Result<real, Error>, k: nat)
    requires k < |ns|
    ensures Times(ns, parse)[k] == parse(ns[k].stamp)
  {
    if k > 0 {
      TimeAt(ns[1..], parse, k - 1);
    }
  }

  /** When `ts[i]` is the first failed parse, `FirstFailure` finds it. */
  lemma FirstFailureAt(ts: seq<Result<real, Error>>, i: nat)
    requires i < |ts| && ts[i].Err?
    requires forall j :: 0 <= j < i ==> ts[j].Ok?
    ensures FirstFailure(ts) == i
  {
  }

  /** The notes around the annotated `lines[i]`. */
  lemma NoteHere(lines: seq<string>, i: nat)
    requires i < |lines| && IsAnnotated(lines[i])
    ensures Notes(lines) == Notes(lines[..i]) + [NoteOf(lines[i])] + Notes(lines[i + 1..])
  {
    var l, y := lines[i], lines[i + 1..];
    assert lines[i..] == [l] + y;
    assert Notes(lines) == Notes(lines[..i]) + Notes(lines[i..]) by {
      NotesSplit(lines, i);
    }
    NotesCons(l, y);
  }

  /** The notes of one more line in front. */
  lemma NotesCons(l: string, y: seq<string>)
    ensures Notes([l] + y) == (if IsAnnotated(l) then [NoteOf(l)] else []) + Notes(y)
  {
    assert ([l] + y)[0] == l && ([l] + y)[1..] == y;
  }

  /** Lines without notes can be skipped. */
  lemma NotesSkip(lines: seq<string>, m: nat)
    requires m <= |lines| && Notes(lines[..m]) == []
    ensures Notes(lines) == Notes(lines[m..])
  {
    NotesSplit(lines, m);
  }

  /**
   * The note of the annotated `lines[i]` sits at position `|Notes(lines[..i])|`,
   * and the next annotated line `lines[j]` (if any) right after it.
   */
  lemma NextNote(lines: seq<string>, i: nat, j: nat)
    requires i < j <= |lines| && IsAnnotated(lines[i])
    requires Notes(lines[i + 1..j]) == []
    requires j < |lines| ==> IsAnnotated(lines[j])
    ensures |Notes(lines[..i])| < |Notes(lines)|
    ensures Notes(lines)[|Notes(lines[..i])|] == NoteOf(lines[i])
    ensures j < |lines| ==> |Notes(lines[..i])| + 1 < |Notes(lines)|
    ensures j < |lines| ==> Notes(lines)[|Notes(lines[..i])| + 1] == NoteOf(lines[j])
    ensures j == |lines| ==> |Notes(lines[..i])| + 1 == |Notes(lines)|
  {
    NoteHere(lines, i);
    var after := lines[i + 1..];
    assert after[..j - (i + 1)] == lines[i + 1..j];
    NotesSkip(after, j - (i + 1));
    var rest := after[j - (i + 1)..];
    if j < |lines| {
      assert rest[0] == lines[j];
      assert Notes(rest) == [NoteOf(lines[j])] + Notes(rest[1..]);
    } else {
      assert rest == [];
    }
  }

  /**
   * The search of lines 26-31: the index of the first annotated line at or
   * after `from`, or `|lines|` when there is none.
   */
  method NextAnnotatedLine(lines: seq<string>, from: nat) returns (j: nat)
    requires from <= |lines|
    ensures from <= j <= |lines|
    ensures Notes(lines[from..j]) == []
    ensures j < |lines| ==> IsAnnotated(lines[j])
  {
    j := from;
    while j < |lines|
      invariant from <= j <= |lines|
      invariant Notes(lines[from..j]) == []
    {
      if IsAnnotated(lines[j]) {
        return;
      }
      NotesAppend(lines[from..j], [lines[j]]);
      assert lines[from..j + 1] == lines[from..j] + [lines[j]];
      j := j + 1;
    }
  }

  /**
   * Lines 22-34 for the annotated `lines[i]`: its text and timestamp, then
   * the timestamp of the next annotated line as the end, or a linger
   * after its own when there is none.
   */
  method NoteSegment(lines: seq<string>, i: nat, parse: string -> Result<real, Error>) returns (r: Result<Segment, Error>)
    requires i < |lines| && IsAnnotated(lines[i])
    ensures AnnotatedCount(lines[..i]) < |Notes(lines)|
    ensures var ts, k := Times(Notes(lines), parse), AnnotatedCount(lines[..i]);
      && (r.Ok? <==> ts[k].Ok? && (k + 1 < |ts| ==> ts[k + 1].Ok?))
      && (r.Ok? ==> r.value == SegmentAt(ts, Notes(lines), k))
      && (r.Err? ==> r.error == if ts[k].Err? then ts[k].error else ts[k + 1].error)
  {
    ghost var ns := Notes(lines);
    ghost var k := AnnotatedCount(lines[..i]);
    var l := lines[i];
    var close := CloseAt(l);
    var text := Strip(l[close + 1..]);
    var t0r := parse(l[1..close]);
    var j := NextAnnotatedLine(lines, i + 1);
    NextNote(lines, i, j);
    NotesCount(lines[..i]);
    TimeAt(ns, parse, k);
    ghost var ts := Times(ns, parse);
    assert ns[k] == NoteOf(l) && t0r == ts[k] && text == ns[k].body;
    if t0r.Err? {
      return Err(t0r.error);
    }
    var t0 := t0r.value;
    if j < |lines| {
      TimeAt(ns, parse, k + 1);
      var lj := lines[j];
      var t1r := parse(lj[1..CloseAt(lj)]);
      assert t1r == ts[k + 1];
      if t1r.Err? {
        return Err(t1r.error);
      }
      r := Ok(Segment(t0, t1r.value, text));
    } else {
      r := Ok(Segment(t0, t0 + Linger(text), text));
    }
  }

  /** The annotated branch fails with the error of `ts[k]` when that is the first failed parse. */
  lemma AnnotatedFailsAt(lines: seq<string>, parse: string -> Result<real, Error>, k: nat)
    requires k < |Notes(lines)|
    requires forall m :: 0 <= m < k ==> Times(Notes(lines), parse)[m].Ok?
    requires Times(Notes(lines), parse)[k].Err?
    ensures AnnotatedSegments(lines, parse) == Err(Times(Notes(lines), parse)[k].error)
  {
    FirstFailureAt(Times(Notes(lines), parse), k);
  }

  /**
   * `segs` are the segments of the first `|segs|` notes, whose timestamps
   * parsed, as is the next note's when there is one.
   */
  ghost predicate Collected(ts: seq<Result<real, Error>>, ns: seq<Note>, segs: seq<Segment>)
    requires |ts| == |ns|
  {
    && |segs| <= |ts|
    && (forall m :: 0 <= m < |segs| ==> ts[m].Ok?)
    && (0 < |segs| < |ts| ==> ts[|segs|].Ok?)
    && (forall m :: 0 <= m < |segs| ==> segs[m] == SegmentAt(ts, ns, m))
  }

  /** The segment of the next note, once parsed, extends what is collected. */
  lemma CollectedStep(ts: seq<Result<real, Error>>, ns: seq<Note>, segs: seq<Segment>, seg: Segment)
    requires |ts| == |ns| && Collected(ts, ns, segs) && |segs| < |ts|
    requires ts[|segs|].Ok? && (|segs| + 1 < |ts| ==> ts[|segs| + 1].Ok?)
    requires seg == SegmentAt(ts, ns, |segs|)
    ensures Collected(ts, ns, segs + [seg])
  {
  }

  /** Once every note has its segment, the annotated branch yields them all. */
  lemma AnnotatedDone(lines: seq<string>, parse: string -> Result<real, Error>, segments: seq<Segment>)
    requires Collected(Times(Notes(lines), parse), Notes(lines), segments)
    requires |segments| == |Notes(lines)|
    ensures AnnotatedSegments(lines, parse) == Ok(segments)
  {
    var ts := Times(Notes(lines), parse);
    assert FirstFailure(ts) == |ts|;
    assert segments == Chain(ts, Notes(lines));
  }

  /** The annotated branch, lines 20-34: the segments of the annotated lines collected in order. */
  method SegmentAnnotated(lines: seq<string>, parse: string -> Result<real, Error>) returns (r: Result<seq<Segment>, Error>)
    ensures r == AnnotatedSegments(lines, parse)
  {
    ghost var ns := Notes(lines);
    ghost var ts := Times(ns, parse);
    var segments: seq<Segment> := [];
    for i := 0 to |lines|
      invariant |segments| == AnnotatedCount(lines[..i])
      invariant Collected(ts, ns, segments)
    {
      NotesGrow(lines, i);
      if IsAnnotated(lines[i]) {
        ghost var k := |segments|;
        var s := NoteSegment(lines, i, parse);
        if s.Err? {
          AnnotatedFailsAt(lines, parse, if ts[k].Err? then k else k + 1);
          return Err(s.error);
        }
        CollectedStep(ts, ns, segments, s.value);
        segments := segments + [s.value];
      }
    }
    assert lines[..|lines|] == lines;
    NotesCount(lines);
    AnnotatedDone(lines, parse, segments);
    r := Ok(segments);
  }

  /** The clock after one more sentence. */
  lemma ElapsedStep(sents: seq<string>, i: nat)
    requires i < |sents|
    ensures Elapsed(sents[..i + 1]) == Elapsed(sents[..i]) + Duration(sents[i])
  {
    assert sents[..i + 1][..i] == sents[..i];
  }

  /** One more sentence laid out at clock `t` extends the plain timeline by its segment. */
  lemma LayOutStep(sents: seq<string>, i: nat, t: real)
    requires i < |sents| && t == Elapsed(sents[..i])
    ensures t + Duration(sents[i]) == Elapsed(sents[..i + 1])
    ensures PlainSegments(sents)[..i + 1] == PlainSegments(sents)[..i] + [Segment(t, t + Duration(sents[i]), sents[i])]
  {
    var segs := PlainSegments(sents);
    assert segs[i] == Segment(t, t + Duration(sents[i]), sents[i]) by {
      ElapsedStep(sents, i);
    }
    assert segs[..i + 1] == segs[..i] + [segs[i]];
  }

  /** The plain branch of lines 48-53, with a clock `t` that advances by each duration. */
  method LayOut(sents: seq<string>) returns (segments: seq<Segment>)
    ensures segments == PlainSegments(sents)
  {
    segments := [];
    var t := 0.0;
    for i := 0 to |sents|
      invariant t == Elapsed(sents[..i])
      invariant segments == PlainSegments(sents)[..i]
    {
      var s := sents[i];
      var dur := Duration(s);
      LayOutStep(sents, i, t);
      segments := segments + [Segment(t, t + dur, s)];
      t := t + dur;
    }
    assert PlainSegments(sents)[..|sents|] == PlainSegments(sents);
  }

  /**
   * `segment_from_transcript`, with NLTK's `sent_tokenize` passed in as
   * `sentTokenize`.
   */
  method SegmentFromTranscript(transcript: string, sentTokenize: string -> seq<string>)
    returns (r: Result<seq<Segment>, Error>)
    ensures r == Segmentation(transcript, sentTokenize)
  {
    var lines := Lines(transcript);
    if HasAnnotatedLine(lines) {
      r := SegmentAnnotated(lines, ParseTimestamp);
    } else {
      var text := Join(lines, LiteralBackslashN);
      var sents := sentTokenize(text);
      var segments := LayOut(sents);
      r := Ok(segments);
    }
  }

  // Properties of the annotated branch

  /** There is an annotated line exactly when there is a note. */
  lemma {:induction false} HasAnnotatedLineNotes(lines: seq<string>)
    ensures HasAnnotatedLine(lines) <==> Notes(lines) != []
    decreases |lines|
  {
    if lines != [] {
      HasAnnotatedLineNotes(lines[1..]);
      if HasAnnotatedLine(lines[1..]) {
        var i :| 0 <= i < |lines[1..]| && IsAnnotated(lines[1..][i]);
        assert IsAnnotated(lines[i + 1]);
      }
      if HasAnnotatedLine(lines) && !IsAnnotated(lines[0]) {
        var i :| 0 <= i < |lines| && IsAnnotated(lines[i]);
        assert IsAnnotated(lines[1..][i - 1]);
      }
    }
  }

  /**
   * One segment per annotated line, in order: the `k`-th carries the text of
   * the `k`-th annotated line and starts at its timestamp.
   */
  lemma AnnotatedShape(lines: seq<string>, parse: string -> Result<real, Error>, k: nat)
    requires AnnotatedSegments(lines, parse).Ok?
    ensures |AnnotatedSegments(lines, parse).value| == |Notes(lines)|
    ensures k < |Notes(lines)| ==> parse(Notes(lines)[k].stamp).Ok?
    ensures k < |Notes(lines)| ==>
      AnnotatedSegments(lines, parse).value[k] ==
        Segment(parse(Notes(lines)[k].stamp).value, AnnotatedSegments(lines, parse).value[k].t1, Notes(lines)[k].body)
  {
    if k < |Notes(lines)| {
      TimeAt(Notes(lines), parse, k);
    }
  }

  /** Each annotated segment ends where the next one starts. */
  lemma AnnotatedContiguous(lines: seq<string>, parse: string -> Result<real, Error>)
    requires AnnotatedSegments(lines, parse).Ok?
    ensures var segs := AnnotatedSegments(lines, parse).value;
      forall k :: 0 <= k < |segs| - 1 ==> segs[k].t1 == segs[k + 1].t0
  {
  }

  /** The last annotated segment lasts `max(3, words / 2)` seconds, so at least 3. */
  lemma AnnotatedLastLingers(lines: seq<string>, parse: string -> Result<real, Error>)
    requires AnnotatedSegments(lines, parse).Ok?
    requires Notes(lines) != []
    ensures var segs := AnnotatedSegments(lines, parse).value;
      && segs[|segs| - 1].t1 - segs[|segs| - 1].t0 == Linger(segs[|segs| - 1].text)
      && segs[|segs| - 1].t1 - segs[|segs| - 1].t0 >= 3.0
  {
  }

  /**
   * The annotated branch fails exactly when some annotated timestamp does
   * not parse, and then with the error of the first such timestamp.
   */
  lemma AnnotatedFails(lines: seq<string>, parse: string -> Result<real, Error>)
    ensures var ns := Notes(lines);
      AnnotatedSegments(lines, parse).Err? <==> exists k :: 0 <= k < |ns| && parse(ns[k].stamp).Err?
    ensures var ns := Notes(lines);
      AnnotatedSegments(lines, parse).Err? ==>
        exists k :: 0 <= k < |ns| && parse(ns[k].stamp).Err?
          && (forall j :: 0 <= j < k ==> parse(ns[j].stamp).Ok?)
          && AnnotatedSegments(lines, parse).error == parse(ns[k].stamp).error
  {
    var ns := Notes(lines);
    var ts := Times(ns, parse);
    var f := FirstFailure(ts);
    forall j | 0 <= j < |ns|
      ensures ts[j] == parse(ns[j].stamp)
    {
      TimeAt(ns, parse, j);
    }
  }

  /**
   * When the timestamps of the annotated lines parse and strictly increase,
   * every segment ends after it starts.
   */
  lemma AnnotatedIncreasing(lines: seq<string>, parse: string -> Result<real, Error>)
    requires forall k :: 0 <= k < |Notes(lines)| ==> parse(Notes(lines)[k].stamp).Ok?
    requires forall k :: 0 <= k < |Notes(lines)| - 1 ==>
      parse(Notes(lines)[k].stamp).value < parse(Notes(lines)[k + 1].stamp).value
    ensures AnnotatedSegments(lines, parse).Ok?
    ensures forall s :: s in AnnotatedSegments(lines, parse).value ==> s.t0 < s.t1
  {
    var ns := Notes(lines);
    var ts := Times(ns, parse);
    forall j | 0 <= j < |ns|
      ensures ts[j] == parse(ns[j].stamp)
    {
      TimeAt(ns, parse, j);
    }
    assert FirstFailure(ts) == |ts|;
  }

  /**
   * Nothing orders the timestamps: a segment that is not the last lasts
   * the next annotated timestamp minus its own, so it is empty or runs
   * backwards when that timestamp is not later.
   */
  lemma AnnotatedDuration(lines: seq<string>, parse: string -> Result<real, Error>, k: nat)
    requires forall j :: 0 <= j < |Notes(lines)| ==> parse(Notes(lines)[j].stamp).Ok?
    requires k + 1 < |Notes(lines)|
    ensures AnnotatedSegments(lines, parse).Ok?
    ensures var segs, ns := AnnotatedSegments(lines, parse).value, Notes(lines);
      && k + 1 < |segs|
      && segs[k].t1 - segs[k].t0 == parse(ns[k + 1].stamp).value - parse(ns[k].stamp).value
      && (segs[k].t0 < segs[k].t1 <==> parse(ns[k].stamp).value < parse(ns[k + 1].stamp).value)
  {
    var ns := Notes(lines);
    var ts := Times(ns, parse);
    forall j | 0 <= j < |ns|
      ensures ts[j] == parse(ns[j].stamp)
    {
      TimeAt(ns, parse, j);
    }
    assert FirstFailure(ts) == |ts|;
  }

  /** Lines without an annotation change nothing in the annotated branch. */
  lemma UnannotatedLineIgnored(x: seq<string>, l: string, y: seq<string>, parse: string -> Result<real, Error>)
    requires !IsAnnotated(l)
    ensures AnnotatedSegments(x + [l] + y, parse) == AnnotatedSegments(x + y, parse)
  {
    NotesAppend(x + [l], y);
    NotesAppend(x, [l]);
    NotesAppend(x, y);
    assert [l][1..] == [];
    assert Notes(x + [l] + y) == Notes(x + y);
  }

  // Properties of the plain branch

  /** Sentences laid end to end take at least a second each. */
  lemma {:induction false} ElapsedAtLeast(sents: seq<string>)
    ensures Elapsed(sents) >= |sents| as real
    decreases |sents|
  {
    if sents != [] {
      ElapsedAtLeast(sents[..|sents| - 1]);
    }
  }

  /**
   * The plain timeline starts at 0, each segment ends where the next starts,
   * and the whole timeline ends after the time all sentences take.
   */
  lemma PlainTimeline(sents: seq<string>)
    ensures var segs := PlainSegments(sents);
      && |segs| == |sents|
      && (segs != [] ==> segs[0].t0 == 0.0 && segs[|segs| - 1].t1 == Elapsed(sents))
      && (forall k :: 0 <= k < |segs| - 1 ==> segs[k].t1 == segs[k + 1].t0)
  {
    if sents != [] {
      assert sents[..0] == [];
      assert sents[..|sents|] == sents;
    }
  }

  /** Plain segment `k` carries sentence `k` and lasts its duration, at least a second. */
  lemma PlainDurations(sents: seq<string>)
    ensures var segs := PlainSegments(sents);
      && (forall k :: 0 <= k < |segs| ==> segs[k].text == sents[k])
      && (forall k :: 0 <= k < |segs| ==> segs[k].t1 - segs[k].t0 == Duration(sents[k]) >= 1.0)
  {
    var segs := PlainSegments(sents);
    forall k | 0 <= k < |segs|
      ensures segs[k].t1 - segs[k].t0 == Duration(sents[k])
    {
      ElapsedStep(sents, k);
    }
  }

  // Properties of the whole operation

  /**
   * `segment_from_transcript` fails only on a transcript with an annotated
   * line whose timestamp does not parse, with that timestamp's error.
   */
  lemma SegmentationFails(transcript: string, sentTokenize: string -> seq<string>)
    ensures var ns := Notes(Lines(transcript));
      Segmentation(transcript, sentTokenize).Err? <==> exists k :: 0 <= k < |ns| && ParseTimestamp(ns[k].stamp).Err?
  {
    var lines := Lines(transcript);
    HasAnnotatedLineNotes(lines);
    AnnotatedFails(lines, ParseTimestamp);
  }

  /** A transcript that is nothing but whitespace splits into no lines. */
  lemma {:induction false} BlankLines(raw: seq<string>)
    requires forall j :: 0 <= j < |raw| ==> forall i :: 0 <= i < |raw[j]| ==> IsSpace(raw[j][i])
    ensures NonBlank(raw) == []
    decreases |raw|
  {
    if raw != [] {
      StripEmpty(raw[0]);
      BlankLines(raw[1..]);
    }
  }

  /** The pieces of a whitespace-only text are whitespace only. */
  lemma {:induction false} SplitOfSpaces(s: string, seps: set<char>)
    requires forall i :: 0 <= i < |s| ==> IsSpace(s[i])
    ensures forall j :: 0 <= j < |Split(s, seps)| ==>
      forall i :: 0 <= i < |Split(s, seps)[j]| ==> IsSpace(Split(s, seps)[j][i])
    decreases |s|
  {
    if HasAny(s, seps) {
      var i := Find(s, seps);
      SplitOfSpaces(s[i + 1..], seps);
      assert Split(s, seps) == [s[..i]] + Split(s[i + 1..], seps);
    }
  }

  /**
   * A transcript of nothing but whitespace has no lines, so it takes the
   * plain branch on the empty text and yields no segments when the
   * sentence splitter finds no sentence in it.
   */
  lemma BlankTranscript(transcript: string, sentTokenize: string -> seq<string>)
    requires forall i :: 0 <= i < |transcript| ==> IsSpace(transcript[i])
    requires sentTokenize([]) == []
    ensures Lines(transcript) == []
    ensures Segmentation(transcript, sentTokenize) == Ok([])
  {
    SplitOfSpaces(transcript, LineBreaks);
    BlankLines(Split(transcript, LineBreaks));
    assert !HasAnnotatedLine(Lines(transcript));
    assert Join(Lines(transcript), LiteralBackslashN) == [];
    assert PlainSegments([]) == [];
  }
}
