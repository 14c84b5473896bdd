/**
 * The Python string operations the mood pipeline relies on, written out
 * over `seq<char>`: `str.isspace`, `str.strip`, `str.split(sep)`,
 * `str.splitlines`, `str.split()` without arguments, `str.index`,
 * substring membership (`k in t`), `str.count`, `str.lower` and
 * `str.isupper` (the last two for ASCII letters only).
 */
module Text {

  /** Python's `str.isspace` for a single character. */
  predicate IsSpace(c: char)
  {
    c == ' ' || ('\t' <= c <= '\r') || ('\U{1c}' <= c <= '\U{1f}')
    || c == '\U{85}' || c == '\U{a0}' || c == '\U{1680}'
    || ('\U{2000}' <= c <= '\U{200a}') || c == '\U{2028}' || c == '\U{2029}'
    || c == '\U{202f}' || c == '\U{205f}' || c == '\U{3000}'
  }

  /** The characters at which Python's `str.splitlines` ends a line. */
  const LineBreaks: set<char> :=
    {'\n', '\r', '\U{0b}', '\U{0c}', '\U{1c}', '\U{1d}', '\U{1e}', '\U{85}', '\U{2028}', '\U{2029}'}

  lemma LineBreaksAreSpace(c: char)
    requires c in LineBreaks
    ensures IsSpace(c)
  {
  }

  /** Number of whitespace characters at the front of `s`. */
  function LeadingSpaces(s: string): (n: nat)
    ensures n <= |s|
  {
    if |s| > 0 && IsSpace(s[0]) then 1 + LeadingSpaces(s[1..]) else 0
  }

  /** `LeadingSpaces` counts exactly the whitespace run at the front. */
  lemma {:induction false} LeadingSpacesRun(s: string)
    ensures forall i :: 0 <= i < LeadingSpaces(s) ==> IsSpace(s[i])
    ensures LeadingSpaces(s) < |s| ==> !IsSpace(s[LeadingSpaces(s)])
    decreases |s|
  {
    if |s| > 0 && IsSpace(s[0]) {
      LeadingSpacesRun(s[1..]);
    }
  }

  /** Number of whitespace characters at the back of `s`. */
  function TrailingSpaces(s: string): (n: nat)
    ensures n <= |s|
  {
    if |s| > 0 && IsSpace(s[|s| - 1]) then 1 + TrailingSpaces(s[..|s| - 1]) else 0
  }

  /** `TrailingSpaces` counts exactly the whitespace run at the back. */
  lemma {:induction false} TrailingSpacesRun(s: string)
    ensures forall i :: |s| - TrailingSpaces(s) <= i < |s| ==> IsSpace(s[i])
    ensures TrailingSpaces(s) < |s| ==> !IsSpace(s[|s| - 1 - TrailingSpaces(s)])
    decreases |s|
  {
    if |s| > 0 && IsSpace(s[|s| - 1]) {
      TrailingSpacesRun(s[..|s| - 1]);
    }
  }

  /** Python's `str.strip()`: `s` without its leading and trailing whitespace. */
  function Strip(s: string): (r: string)
    ensures |r| <= |s|
  {
    var t := s[LeadingSpaces(s)..];
    t[..|t| - TrailingSpaces(t)]
  }

  /** Whitespace in front of a text does not survive `Strip`. */
  lemma StripLeadingSpace(c: char, s: string)
    requires IsSpace(c)
    ensures Strip([c] + s) == Strip(s)
  {
    assert ([c] + s)[1..] == s;
    assert LeadingSpaces([c] + s) == 1 + LeadingSpaces(s);
    assert ([c] + s)[LeadingSpaces([c] + s)..] == s[LeadingSpaces(s)..];
  }

  /** `Strip` leaves the empty string exactly when the input is all whitespace. */
  lemma StripEmpty(s: string)
    ensures Strip(s) == [] <==> forall i :: 0 <= i < |s| ==> IsSpace(s[i])
  {
    var l := LeadingSpaces(s);
    LeadingSpacesRun(s);
    if l < |s| {
      var t := s[l..];
      TrailingSpacesRun(t);
      assert !IsSpace(t[0]);
      assert TrailingSpaces(t) < |t|;
    }
  }

  /** A string with no whitespace at either end is its own strip. */
  lemma StripNoOp(s: string)
    requires s == [] || (!IsSpace(s[0]) && !IsSpace(s[|s| - 1]))
    ensures Strip(s) == s
  {
    assert LeadingSpaces(s) == 0;
    assert s[0..] == s;
    assert TrailingSpaces(s) == 0;
  }

  /** The result of `Strip` has no whitespace at either end. */
  lemma StripEnds(s: string)
    ensures var r := Strip(s); r != [] ==> !IsSpace(r[0]) && !IsSpace(r[|r| - 1])
  {
    var t := s[LeadingSpaces(s)..];
    LeadingSpacesRun(s);
    TrailingSpacesRun(t);
    if TrailingSpaces(t) < |t| {
      assert t[0] == s[LeadingSpaces(s)];
    }
  }

  /**
   * `Strip` removes exactly a whitespace run at the front and one at the
   * back: `s` is that run, the strip, and the other run, in order.
   */
  lemma StripIsInfix(s: string)
    ensures var l, r := LeadingSpaces(s), Strip(s);
      && l + |r| <= |s|
      && s == s[..l] + r + s[l + |r|..]
      && (forall i :: 0 <= i < l ==> IsSpace(s[i]))
      && (forall i :: l + |r| <= i < |s| ==> IsSpace(s[i]))
  {
    var l, r := LeadingSpaces(s), Strip(s);
    StripSlice(s);
    StripTail(s);
    LeadingSpacesRun(s);
    ThreePieces(s, l, |r|);
  }

  /** The strip is the slice of `s` that starts after the leading whitespace. */
  lemma StripSlice(s: string)
    ensures LeadingSpaces(s) + |Strip(s)| <= |s|
    ensures Strip(s) == s[LeadingSpaces(s)..LeadingSpaces(s) + |Strip(s)|]
  {
    var l := LeadingSpaces(s);
    var t := s[l..];
    var n := |t| - TrailingSpaces(t);
    assert t[..n] == s[l..l + n];
  }

  /** Everything after the strip is whitespace. */
  lemma StripTail(s: string)
    ensures forall i :: LeadingSpaces(s) + |Strip(s)| <= i < |s| ==> IsSpace(s[i])
  {
    var l := LeadingSpaces(s);
    var t := s[l..];
    TrailingSpacesRun(t);
    forall i | l + |Strip(s)| <= i < |s| ensures IsSpace(s[i]) {
      assert s[i] == t[i - l];
    }
  }

  /** A string is its prefix, a middle piece and the rest. */
  lemma ThreePieces(s: string, l: nat, n: nat)
    requires l + n <= |s|
    ensures s == s[..l] + s[l..l + n] + s[l + n..]
  {
  }

  /** True if some character of `s` lies in `cs`. */
  predicate HasAny(s: string, cs: set<char>)
  {
    s != [] && (s[0] in cs || HasAny(s[1..], cs))
  }

  /** `HasAny` holds exactly when some position of `s` holds a character of `cs`. */
  lemma {:induction false} HasAnyAt(s: string, cs: set<char>)
    ensures HasAny(s, cs) <==> exists k :: 0 <= k < |s| && s[k] in cs
    decreases |s|
  {
    if s != [] {
      HasAnyAt(s[1..], cs);
      if exists k :: 0 <= k < |s| && s[k] in cs {
        var k :| 0 <= k < |s| && s[k] in cs;
        if k > 0 { assert s[1..][k - 1] in cs; }
      }
      if HasAny(s[1..], cs) {
        var k :| 0 <= k < |s[1..]| && s[1..][k] in cs;
        assert s[k + 1] in cs;
      }
    }
  }

  /** Index of the first character of `s` that lies in `cs` (Python's `str.index`). */
  function Find(s: string, cs: set<char>): (i: nat)
    requires HasAny(s, cs)
    ensures i < |s| && s[i] in cs
    ensures !HasAny(s[..i], cs)
    ensures forall k :: 0 <= k < i ==> s[k] !in cs
  {
    if s[0] in cs then 0
    else
      var i := 1 + Find(s[1..], cs);
      assert s[..i] == [s[0]] + s[1..][..i - 1];
      assert s[..i][1..] == s[1..][..i - 1];
      i
  }

  /** A string with none of `cs` at any position has none of `cs`. */
  lemma HasNone(s: string, cs: set<char>)
    requires forall k :: 0 <= k < |s| ==> s[k] !in cs
    ensures !HasAny(s, cs)
  {
    HasAnyAt(s, cs);
  }

  /** A concatenation holds one of `cs` exactly when one of its halves does. */
  lemma HasAnyAppend(a: string, b: string, cs: set<char>)
    ensures HasAny(a + b, cs) <==> HasAny(a, cs) || HasAny(b, cs)
  {
    HasAnyAt(a + b, cs);
    HasAnyAt(a, cs);
    HasAnyAt(b, cs);
    if HasAny(a + b, cs) {
      var k :| 0 <= k < |a + b| && (a + b)[k] in cs;
      assert k < |a| ==> a[k] in cs;
      assert k >= |a| ==> b[k - |a|] in cs;
    }
    if HasAny(b, cs) {
      var k :| 0 <= k < |b| && b[k] in cs;
      assert (a + b)[|a| + k] in cs;
    }
    if HasAny(a, cs) {
      var k :| 0 <= k < |a| && a[k] in cs;
      assert (a + b)[k] in cs;
    }
  }

  /** `Find` returns the occurrence that has no occurrence before it. */
  lemma FindFirst(s: string, cs: set<char>, i: nat)
    requires i < |s| && s[i] in cs
    requires forall k :: 0 <= k < i ==> s[k] !in cs
    ensures HasAny(s, cs) && Find(s, cs) == i
  {
    HasAnyAt(s, cs);
  }

  /** Past a prefix with none of `cs`, `Find` goes on in the rest. */
  lemma {:induction false} FindAfter(a: string, b: string, cs: set<char>)
    requires !HasAny(a, cs) && HasAny(b, cs)
    ensures HasAny(a + b, cs) && Find(a + b, cs) == |a| + Find(b, cs)
    decreases |a|
  {
    HasAnyAppend(a, b, cs);
    if a == [] {
      assert a + b == b;
    } else {
      assert (a + b)[1..] == a[1..] + b;
      FindAfter(a[1..], b, cs);
    }
  }

  /** The pieces of `parts` glued together with `sep` between consecutive pieces. */
  function Join(parts: seq<string>, sep: string): string
  {
    if parts == [] then []
    else if |parts| == 1 then parts[0]
    else parts[0] + sep + Join(parts[1..], sep)
  }

  /**
   * Python's `str.split(sep)` for a one-character separator, generalised to a
   * set of separator characters: the maximal runs between separators, empty
   * runs included, so there is always at least one piece.
   */
  function Split(s: string, seps: set<char>): (parts: seq<string>)
    ensures |parts| >= 1
    ensures forall j :: 0 <= j < |parts| ==> !HasAny(parts[j], seps)
    decreases |s|
  {
    if !HasAny(s, seps) then [s]
    else
      var i := Find(s, seps);
      [s[..i]] + Split(s[i + 1..], seps)
  }

  /** A piece free of separators is its own split. */
  lemma SplitSingle(s: string, seps: set<char>)
    requires !HasAny(s, seps)
    ensures Split(s, seps) == [s]
  {
  }

  /** Splitting `a`, a separator and `b` gives `a` followed by the pieces of `b`. */
  lemma SplitCons(a: string, c: char, b: string, seps: set<char>)
    requires !HasAny(a, seps) && c in seps
    ensures Split(a + [c] + b, seps) == [a] + Split(b, seps)
  {
    var s := a + [c] + b;
    assert s == a + ([c] + b);
    assert HasAny(s, seps) && Find(s, seps) == |a| by {
      assert Find([c] + b, seps) == 0;
      FindAfter(a, [c] + b, seps);
    }
    assert s[..|a|] == a;
    assert s[|a| + 1..] == b;
  }

  lemma SplitTwo(a: string, b: string, c: char)
    requires !HasAny(a, {c}) && !HasAny(b, {c})
    ensures Split(a + [c] + b, {c}) == [a, b]
  {
    SplitCons(a, c, b, {c});
  }

  lemma SplitThree(a: string, b: string, d: string, c: char)
    requires !HasAny(a, {c}) && !HasAny(b, {c}) && !HasAny(d, {c})
    ensures Split(a + [c] + b + [c] + d, {c}) == [a, b, d]
  {
    var tail := b + [c] + d;
    assert Split(tail, {c}) == [b, d] by {
      SplitTwo(b, d, c);
    }
    assert a + [c] + b + [c] + d == a + [c] + tail;
    SplitCons(a, c, tail, {c});
  }

  /** `Split` undoes `Join` when no piece contains a separator. */
  lemma {:induction false} SplitJoin(parts: seq<string>, c: char, seps: set<char>)
    requires |parts| >= 1 && c in seps
    requires forall j :: 0 <= j < |parts| ==> !HasAny(parts[j], seps)
    ensures Split(Join(parts, [c]), seps) == parts
    decreases |parts|
  {
    if |parts| == 1 {
      SplitSingle(parts[0], seps);
    } else {
      var rest := Join(parts[1..], [c]);
      assert Split(rest, seps) == parts[1..] by {
        assert forall j :: 0 <= j < |parts| - 1 ==> parts[1..][j] == parts[j + 1];
        SplitJoin(parts[1..], c, seps);
      }
      assert Split(parts[0] + [c] + rest, seps) == [parts[0]] + parts[1..] by {
        SplitCons(parts[0], c, rest, seps);
      }
      assert Join(parts, [c]) == parts[0] + [c] + rest;
      assert [parts[0]] + parts[1..] == parts;
    }
  }

  /** `Join` undoes `Split`: no character of the input is lost. */
  lemma {:induction false} JoinSplit(s: string, c: char)
    ensures Join(Split(s, {c}), [c]) == s
    decreases |s|
  {
    if HasAny(s, {c}) {
      var i := Find(s, {c});
      JoinSplit(s[i + 1..], c);
      var rest := Split(s[i + 1..], {c});
      assert Split(s, {c}) == [s[..i]] + rest;
      assert s == s[..i] + [c] + s[i + 1..];
    }
  }

  /** Number of non-whitespace characters at the front of `s`. */
  function WordLength(s: string): (n: nat)
    ensures n <= |s|
    ensures forall i :: 0 <= i < n ==> !IsSpace(s[i])
    ensures n < |s| ==> IsSpace(s[n])
  {
    if |s| > 0 && !IsSpace(s[0]) then 1 + WordLength(s[1..]) else 0
  }

  /** A word: non-empty and free of whitespace. */
  predicate IsWord(w: string)
  {
    w != [] && forall i :: 0 <= i < |w| ==> !IsSpace(w[i])
  }

  /**
   * Python's `str.split()` without arguments: the maximal runs of
   * non-whitespace characters, in order.
   */
  function Words(s: string): (ws: seq<string>)
    ensures forall j :: 0 <= j < |ws| ==> IsWord(ws[j])
    ensures ws == [] <==> forall i :: 0 <= i < |s| ==> IsSpace(s[i])
    decreases |s|
  {
    if s == [] then []
    else if IsSpace(s[0]) then
      var ws := Words(s[1..]);
      assert forall i :: 1 <= i < |s| ==> s[i] == s[1..][i - 1];
      ws
    else
      var n := WordLength(s);
      [s[..n]] + Words(s[n..])
  }

  /** `len(s.split())`, counted one word at a time. */
  function WordCount(s: string): (n: nat)
    ensures n <= |s|
    decreases |s|
  {
    if s == [] then 0
    else if IsSpace(s[0]) then WordCount(s[1..])
    else 1 + WordCount(s[WordLength(s)..])
  }

  /** Whitespace in front of a text does not change its words. */
  lemma WordsAfterSpace(c: char, s: string)
    requires IsSpace(c)
    ensures Words([c] + s) == Words(s)
  {
    assert ([c] + s)[1..] == s;
  }

  /** A word followed by nothing, or by whitespace, is split off as the first word. */
  lemma WordsAfterWord(w: string, s: string)
    requires IsWord(w)
    requires s == [] || IsSpace(s[0])
    ensures Words(w + s) == [w] + Words(s)
  {
    var t := w + s;
    assert t[0] == w[0];
    assert LeadingSpaces(t) == 0;
    assert t[0..] == t;
    WordLengthOf(w, s);
    assert t[..|w|] == w;
    assert t[|w|..] == s;
  }

  /** Words laid out with one space between them are read back unchanged. */
  lemma {:induction false} WordsJoin(ws: seq<string>)
    requires forall j :: 0 <= j < |ws| ==> IsWord(ws[j])
    ensures Words(Join(ws, " ")) == ws
    decreases |ws|
  {
    if ws == [] {
    } else if |ws| == 1 {
      WordsAfterWord(ws[0], []);
      assert ws[0] + [] == ws[0];
    } else {
      var w, rest := ws[0], Join(ws[1..], " ");
      assert Join(ws, " ") == w + " " + rest;
      assert w + " " + rest == w + (" " + rest);
      WordsJoin(ws[1..]);
      WordsAfterSpace(' ', rest);
      WordsAfterWord(w, " " + rest);
      assert ws == [w] + ws[1..];
    }
  }

  /**
   * Words joined by single spaces: a non-empty text that starts and ends
   * with a non-space and whose only whitespace is those spaces.
   */
  lemma {:induction false} JoinedWords(ws: seq<string>)
    requires ws != []
    requires forall j :: 0 <= j < |ws| ==> IsWord(ws[j])
    ensures var t := Join(ws, " ");
      && t != [] && !IsSpace(t[0]) && !IsSpace(t[|t| - 1])
      && forall k :: 0 <= k < |t| ==> t[k] == ' ' || !IsSpace(t[k])
    decreases |ws|
  {
    if |ws| > 1 {
      JoinedWords(ws[1..]);
      var w, rest := ws[0], Join(ws[1..], " ");
      var t := w + " " + rest;
      assert Join(ws, " ") == t;
      assert forall k :: 0 <= k < |w| ==> t[k] == w[k];
      assert forall k :: |w| + 1 <= k < |t| ==> t[k] == rest[k - |w| - 1];
    }
  }

  /** Leading whitespace is skipped by both `WordCount` and `Words`. */
  lemma SpaceStep(s: string)
    requires s != [] && IsSpace(s[0])
    ensures WordCount(s) == WordCount(s[1..]) && Words(s) == Words(s[1..])
  {
    WordsAfterSpace(s[0], s[1..]);
    assert s == [s[0]] + s[1..];
  }

  /** A leading word is counted by `WordCount` and split off by `Words`. */
  lemma WordStep(s: string)
    requires s != [] && !IsSpace(s[0])
    ensures WordCount(s) == 1 + WordCount(s[WordLength(s)..])
    ensures Words(s) == [s[..WordLength(s)]] + Words(s[WordLength(s)..])
  {
    var n := WordLength(s);
    var w, rest := s[..n], s[n..];
    assert s == w + rest;
    assert Words(w + rest) == [w] + Words(rest) by {
      assert IsWord(w);
      assert rest == [] || IsSpace(rest[0]);
      WordsAfterWord(w, rest);
    }
  }

  /** `WordCount` counts exactly the words `Words` splits off. */
  lemma {:induction false} WordCountIsWords(s: string)
    ensures WordCount(s) == |Words(s)|
    decreases |s|
  {
    if s == [] {
    } else if IsSpace(s[0]) {
      WordCountIsWords(s[1..]);
      SpaceStep(s);
    } else {
      WordCountIsWords(s[WordLength(s)..]);
      WordStep(s);
    }
  }

  /** Text whose only whitespace is plain spaces holds no line break. */
  lemma NoBreaks(t: string)
    requires forall k :: 0 <= k < |t| ==> t[k] == ' ' || !IsSpace(t[k])
    ensures !HasAny(t, LineBreaks)
  {
    forall k | 0 <= k < |t| ensures t[k] !in LineBreaks {
      if t[k] in LineBreaks {
        LineBreaksAreSpace(t[k]);
      }
    }
    HasNone(t, LineBreaks);
  }

  /**
   * Words joined by single spaces form one stripped line (no line break,
   * no surrounding whitespace) that counts as that many words.
   */
  lemma SpacedWords(ws: seq<string>)
    requires ws != []
    requires forall j :: 0 <= j < |ws| ==> IsWord(ws[j])
    ensures var t := Join(ws, " ");
      && t != [] && !IsSpace(t[0]) && !IsSpace(t[|t| - 1])
      && !HasAny(t, LineBreaks) && WordCount(t) == |ws|
  {
    JoinedWords(ws);
    NoBreaks(Join(ws, " "));
    WordsJoin(ws);
    WordCountIsWords(Join(ws, " "));
  }

  /** A word followed by a text starting with whitespace (or nothing) has that word's length. */
  lemma {:induction false} WordLengthOf(w: string, rest: string)
    requires IsWord(w)
    requires rest == [] || IsSpace(rest[0])
    ensures WordLength(w + rest) == |w|
    decreases |w|
  {
    if |w| > 1 {
      WordLengthOf(w[1..], rest);
      assert (w + rest)[1..] == w[1..] + rest;
    } else {
      assert (w + rest)[1..] == rest;
    }
  }

  /** Python's `t.count(c)` for a single character. */
  function Count(t: string, c: char): (n: nat)
    ensures n <= |t|
    ensures n == 0 <==> c !in t
  {
    if t == [] then 0 else (if t[0] == c then 1 else 0) + Count(t[1..], c)
  }

  /** `k` occurs in `t` starting at index `i`. */
  predicate OccursAt(t: string, k: string, i: int)
  {
    0 <= i <= |t| - |k| && t[i..i + |k|] == k
  }

  /** An occurrence in `t[1..]` is one in `t`, one place further on. */
  lemma OccursShift(t: string, k: string, i: int)
    requires t != [] && 0 <= i
    ensures OccursAt(t[1..], k, i) <==> OccursAt(t, k, i + 1)
  {
    if 0 <= i <= |t| - 1 - |k| {
      assert t[1..][i..i + |k|] == t[i + 1..i + 1 + |k|];
    }
  }

  /** Substring membership, Python's `k in t` on two strings. */
  function Contains(t: string, k: string): (b: bool)
    ensures b <==> exists i :: OccursAt(t, k, i)
    decreases |t|
  {
    if k <= t then
      assert OccursAt(t, k, 0);
      true
    else if t == [] then
      assert forall i :: !OccursAt(t, k, i);
      false
    else
      var b := Contains(t[1..], k);
      assert b ==> exists i :: OccursAt(t, k, i) by {
        if b {
          var i :| OccursAt(t[1..], k, i);
          OccursShift(t, k, i);
        }
      }
      assert (exists i :: OccursAt(t, k, i)) ==> b by {
        if exists i :: OccursAt(t, k, i) {
          var i :| OccursAt(t, k, i);
          if i > 0 {
            OccursShift(t, k, i - 1);
          }
        }
      }
      b
  }

  /**
   * Python's `str.lower` on one character, for the ASCII capitals and for
   * `Ÿ` (U+0178, lowered to `ÿ`, U+00FF), the one other capital that occurs
   * in the keyword lists.
   */
  function LowerChar(c: char): (d: char)
    ensures !IsUpper(d)
    ensures !IsUpper(c) ==> d == c
    ensures 'A' <= c <= 'Z' ==> d == (c as int + 32) as char
    ensures c == '\U{178}' ==> d == '\U{ff}'
  {
    if 'A' <= c <= 'Z' then (c as int + 32) as char
    else if c == '\U{178}' then '\U{ff}'
    else c
  }

  /** Python's `str.lower`, character by character. */
  function Lower(s: string): (r: string)
    ensures |r| == |s|
    ensures forall i :: 0 <= i < |s| ==> r[i] == LowerChar(s[i])
    ensures forall i :: 0 <= i < |r| ==> !IsUpper(r[i])
    ensures (forall i :: 0 <= i < |s| ==> !IsUpper(s[i])) ==> r == s
  {
    seq(|s|, i requires 0 <= i < |s| => LowerChar(s[i]))
  }

  /** Lowering keeps every occurrence: wherever `u` occurs in `t`, its lowered form occurs in the lowered `t`. */
  lemma LowerOccurs(t: string, u: string, i: int)
    requires OccursAt(t, u, i)
    ensures OccursAt(Lower(t), Lower(u), i)
  {
    var lt, lu := Lower(t), Lower(u);
    forall k | 0 <= k < |u| ensures lt[i..i + |u|][k] == lu[k] {
      assert t[i..i + |u|][k] == u[k];
    }
  }

  /** `c.isupper()`, for the capitals `LowerChar` knows. */
  predicate IsUpper(c: char)
  {
    'A' <= c <= 'Z' || c == '\U{178}'
  }

  /** `sum(1 for c in t if c.isupper())`. */
  function UpperCount(t: string): (n: nat)
    ensures n <= |t|
    ensures n == 0 <==> forall i :: 0 <= i < |t| ==> !IsUpper(t[i])
  {
    if t == [] then 0 else (if IsUpper(t[0]) then 1 else 0) + UpperCount(t[1..])
  }
}
