/** Progress events from one text stream that arrives twice: as deltas, and as
    snapshots of everything so far. */
module Progress {
  import opened ExecSlot
  import opened Text

  datatype Kind = Milestone | Blocker | Confirm

  datatype Marker = Marker(prefix: string, kind: Kind)

  /** The markers, in the order they are searched for. */
  const MARKERS := [
    Marker("[确认]", Confirm), Marker("【确认】", Confirm), Marker("[需确认]", Confirm), Marker("【需确认】", Confirm),
    Marker("[阻塞]", Blocker), Marker("【阻塞】", Blocker), Marker("[失败]", Blocker), Marker("【失败】", Blocker),
    Marker("[进度]", Milestone), Marker("【进度】", Milestone), Marker("[里程碑]", Milestone), Marker("【里程碑】", Milestone)]

  /** A marker occurrence: where it stands and what it announces. */
  datatype Key = Key(at: nat, kind: Kind)

  datatype Mark = Mark(key: Key, summary: string)

  /** A keyword event of one line. */
  datatype Note = Note(line: nat, kind: Kind, summary: string)

  /** How a trimmed line without markers is classified. */
  type Classifier = string -> Option<(Kind, string)>

  // --- Markers ----------------------------------------------------------------------

  predicate OccursAt(s: string, sub: string, i: int) {
    0 <= i <= |s| - |sub| && s[i..i + |sub|] == sub
  }

  /** The first occurrence from position `k` on. */
  function IndexFrom(s: string, sub: string, k: nat): (r: Option<nat>)
    ensures r.Some? ==> k <= r.value && OccursAt(s, sub, r.value)
    ensures forall x :: k <= x && (r.Some? ==> x < r.value) ==> !OccursAt(s, sub, x)
    decreases |s| - k
  {
    if k + |sub| > |s| then None
    else if OccursAt(s, sub, k) then Some(k)
    else IndexFrom(s, sub, k + 1)
  }

  predicate IsNewline(c: char) {
    c == '\n' || c == '\r'
  }

  /** The text up to the first line break. */
  function Line(s: string): (r: string)
    ensures r <= s
    ensures |r| < |s| ==> IsNewline(s[|r|])
    ensures forall i :: 0 <= i < |r| ==> !IsNewline(r[i])
  {
    if s == "" || IsNewline(s[0]) then "" else [s[0]] + Line(s[1..])
  }

  /** A marker counts once its line is closed or says at least four characters. */
  predicate IsReady(rest: string) {
    |Line(rest)| < |rest| || |Trim(Line(rest))| >= 4
  }

  predicate ReadyMark(buf: string, m: Marker, i: int) {
    OccursAt(buf, m.prefix, i) && IsReady(buf[i + |m.prefix|..])
  }

  /** The ready occurrences of one marker before position `n`. */
  function ReadyOf(buf: string, m: Marker, n: nat): set<Key> {
    set i | 0 <= i < n && ReadyMark(buf, m, i) :: Key(i, m.kind)
  }

  function ReadyUpTo(buf: string, j: nat): set<Key>
    requires j <= |MARKERS|
  {
    if j == 0 then {} else ReadyUpTo(buf, j - 1) + ReadyOf(buf, MARKERS[j - 1], |buf|)
  }

  /** Every ready marker occurrence. */
  function Ready(buf: string): set<Key> {
    ReadyUpTo(buf, |MARKERS|)
  }

  // --- Keyword lines --------------------------------------------------------------

  predicate Contains(s: string, sub: string) {
    IndexFrom(s, sub, 0).Some?
  }

  predicate HasMarker(line: string) {
    exists m :: m in MARKERS && Contains(line, m.prefix)
  }

  /** The event of the i-th line, if any; blank lines and marker lines have none. */
  function NotesOf(line: string, i: nat, classify: Classifier): seq<Note> {
    var t := Trim(line);
    if t == "" || HasMarker(t) then []
    else match classify(t) case None => [] case Some(e) => [Note(i, e.0, e.1)]
  }

  function CompleteLines(buf: string): seq<string> {
    var parts := Split(buf, '\n');
    parts[..|parts| - 1]
  }

  /** The events of lines `lo` to `hi`, in order. */
  function NotesBetween(lines: seq<string>, lo: nat, hi: nat, classify: Classifier): seq<Note>
    requires lo <= hi <= |lines|
    decreases hi
  {
    if lo == hi then [] else NotesBetween(lines, lo, hi - 1, classify) + NotesOf(lines[hi - 1], hi - 1, classify)
  }

  // --- The accumulator --------------------------------------------------------------

  function KeySet(marks: seq<Mark>): set<Key> {
    set m | m in marks :: m.key
  }

  ghost predicate NoRepeats(marks: seq<Mark>) {
    forall i, j :: 0 <= i < j < |marks| ==> marks[i].key != marks[j].key
  }

  /** `marks` reports exactly the keys in `keys`, each once. */
  ghost predicate Reports(marks: seq<Mark>, keys: set<Key>) {
    KeySet(marks) == keys && NoRepeats(marks)
  }

  /** A mark says what stands after its marker on the line, as far as the text goes by then. */
  ghost predicate Tells(buf: string, mark: Mark) {
    exists m :: m in MARKERS && OccursAt(buf, m.prefix, mark.key.at) && m.kind == mark.key.kind
                && mark.summary == Trim(Line(buf[mark.key.at + |m.prefix|..]))
  }

  ghost predicate AllTell(buf: string, marks: seq<Mark>) {
    forall i :: 0 <= i < |marks| ==> Tells(buf, marks[i])
  }

  lemma ReportsNone()
    ensures Reports([], {})
  {
  }

  lemma ReportsMore(marks: seq<Mark>, keys: set<Key>, m: Mark)
    requires Reports(marks, keys) && m.key !in keys
    ensures Reports(marks + [m], keys + {m.key})
  {
  }

  lemma MarkersDoNotOverlap(m: Marker)
    requires m in MARKERS
    ensures |m.prefix| > 0 && m.prefix[0] !in m.prefix[1..]
  {
    var i :| 0 <= i < |MARKERS| && MARKERS[i] == m;
    MarkerAt(i);
  }

  /** One marker at a time. */
  lemma MarkerAt(i: nat)
    requires i < |MARKERS|
    ensures |MARKERS[i].prefix| > 0 && MARKERS[i].prefix[0] !in MARKERS[i].prefix[1..]
  {
    if i < 6 { EarlyMarkers(i); } else { LateMarkers(i); }
  }

  lemma EarlyMarkers(i: nat)
    requires i < 6
    ensures |MARKERS[i].prefix| > 0 && MARKERS[i].prefix[0] !in MARKERS[i].prefix[1..]
  {
    if i == 0 { } else if i == 1 { } else if i == 2 { } else if i == 3 { } else if i == 4 { } else { }
  }

  lemma LateMarkers(i: nat)
    requires 6 <= i < |MARKERS|
    ensures |MARKERS[i].prefix| > 0 && MARKERS[i].prefix[0] !in MARKERS[i].prefix[1..]
  {
    if i == 6 { } else if i == 7 { } else if i == 8 { } else if i == 9 { } else if i == 10 { } else { }
  }

  /** Between an occurrence and the end of its prefix there is no other. */
  lemma NoneInside(buf: string, m: Marker, i: nat, k: int)
    requires m in MARKERS && OccursAt(buf, m.prefix, i) && i < k < i + |m.prefix|
    ensures !OccursAt(buf, m.prefix, k)
  {
    if OccursAt(buf, m.prefix, k) {
      assert buf[k] == buf[k..k + |m.prefix|][0] == m.prefix[0];
      assert buf[k] == buf[i..i + |m.prefix|][k - i] == m.prefix[k - i];
      assert m.prefix[k - i] == m.prefix[1..][k - i - 1];
      MarkersDoNotOverlap(m);
    }
  }

  lemma ReadySkips(buf: string, m: Marker, a: nat, b: nat)
    requires a <= b && forall k :: a <= k < b ==> !OccursAt(buf, m.prefix, k)
    ensures ReadyOf(buf, m, b) == ReadyOf(buf, m, a)
  {
  }

  lemma ReadyNext(buf: string, m: Marker, i: nat)
    requires m in MARKERS && OccursAt(buf, m.prefix, i)
    ensures ReadyOf(buf, m, i + |m.prefix|) ==
            ReadyOf(buf, m, i) + if ReadyMark(buf, m, i) then {Key(i, m.kind)} else {}
  {
    MarkersDoNotOverlap(m);
    forall k | i + 1 <= k < i + |m.prefix| ensures !OccursAt(buf, m.prefix, k) { NoneInside(buf, m, i, k); }
    ReadySkips(buf, m, i + 1, i + |m.prefix|);
  }

  lemma ReadyEnds(buf: string, m: Marker, a: nat)
    requires forall k :: a <= k ==> !OccursAt(buf, m.prefix, k)
    ensures a <= |buf| ==> ReadyOf(buf, m, |buf|) == ReadyOf(buf, m, a)
  {
  }

  class Accumulator {
    var buf: string
    var feedBuf: string
    var seen: set<Key>
    var seenLines: set<Note>
    var keywordLineIdx: nat
    const classify: Classifier

    /** What has been reported is exactly what the buffer has ready. */
    ghost predicate Valid()
      reads this
    {
      && seen == Ready(buf)
      && keywordLineIdx == |CompleteLines(buf)|
      && forall n :: n in seenLines ==> n.line < keywordLineIdx
    }

    constructor (classify: Classifier)
      ensures Valid() && buf == feedBuf == "" && this.classify == classify
    {
      buf, feedBuf, seen, seenLines, keywordLineIdx := "", "", {}, {}, 0;
      this.classify := classify;
      new;
      NothingReady();
    }

    /** The inner loop of emitMarkers, for one marker. */
    method EmitMarker(m: Marker, out0: seq<Mark>, ghost seen0: set<Key>) returns (out: seq<Mark>)
      requires m in MARKERS && seen0 <= seen && Reports(out0, seen - seen0) && AllTell(buf, out0)
      modifies this`seen
      ensures seen == old(seen) + ReadyOf(buf, m, |buf|) && Reports(out, seen - seen0) && AllTell(buf, out)
    {
      hide Reports, ReadyOf, OccursAt, IsReady, IndexFrom, MARKERS;
      out := out0;
      var start: nat := 0;
      assert ReadyOf(buf, m, 0) == {} by { ReadyOfNone(buf, m); }
      while true
        invariant start <= |buf| && seen0 <= seen && Reports(out, seen - seen0) && AllTell(buf, out)
        invariant seen == old(seen) + ReadyOf(buf, m, start)
        decreases |buf| - start
      {
        var next := IndexFrom(buf, m.prefix, start);
        if next.None? {
          ReadyEnds(buf, m, start);
          return;
        }
        var abs := next.value;
        OccursInside(buf, m, abs);
        ReadySkips(buf, m, start, abs);
        ReadyNext(buf, m, abs);
        start := abs + |m.prefix|;
        var key := Key(abs, m.kind);
        var rest := buf[start..];
        var line := Line(rest);
        if key !in seen && IsReady(rest) {
          ReportsMore(out, seen - seen0, Mark(key, Trim(line)));
          assert seen + {key} - seen0 == seen - seen0 + {key};
          assert Tells(buf, Mark(key, Trim(line)));
          seen := seen + {key};
          out := out + [Mark(key, Trim(line))];
        }
      }
    }

    method EmitMarkers() returns (out: seq<Mark>)
      modifies this`seen
      ensures seen == old(seen) + Ready(buf) && Reports(out, seen - old(seen)) && AllTell(buf, out)
    {
      hide Reports, ReadyOf, MARKERS;
      out := [];
      ReportsNone();
      assert seen - old(seen) == {};
      for j := 0 to |MARKERS|
        invariant seen == old(seen) + ReadyUpTo(buf, j) && Reports(out, seen - old(seen)) && AllTell(buf, out)
      {
        out := EmitMarker(MARKERS[j], out, old(seen));
      }
    }

    method EmitKeywordLines() returns (out: seq<Note>)
      requires forall n :: n in seenLines ==> n.line < keywordLineIdx
      modifies this`seenLines, this`keywordLineIdx
      ensures var lines, lo := CompleteLines(buf), old(keywordLineIdx);
              && out == (if lo <= |lines| then NotesBetween(lines, lo, |lines|, classify) else [])
              && keywordLineIdx == (if |lines| > lo then |lines| else lo)
      ensures forall n :: n in seenLines ==> n.line < keywordLineIdx
    {
      hide CompleteLines, HasMarker, Trim;
      var lines := CompleteLines(buf);
      out := [];
      var i := keywordLineIdx;
      while i < |lines|
        invariant keywordLineIdx == old(keywordLineIdx)
        invariant keywordLineIdx <= i && (keywordLineIdx <= |lines| ==> i <= |lines|)
        invariant keywordLineIdx > |lines| ==> i == keywordLineIdx && out == []
        invariant keywordLineIdx <= |lines| ==> out == NotesBetween(lines, keywordLineIdx, i, classify)
        invariant forall n :: n in seenLines ==> n.line < i
      {
        var line := Trim(lines[i]);
        if line != "" && !HasMarker(line) {
          var e := classify(line);
          if e.Some? {
            var note := Note(i, e.value.0, e.value.1);
            if note !in seenLines {
              seenLines := seenLines + {note};
              out := out + [note];
            }
          }
        }
        i := i + 1;
      }
      if |lines| > keywordLineIdx { keywordLineIdx := |lines|; }
    }

    /** adoptStream. */
    method AdoptStream(next: string) returns (marks: seq<Mark>, notes: seq<Note>)
      requires Valid()
      modifies this`buf, this`seen, this`seenLines, this`keywordLineIdx
      ensures Valid() && buf == Adopted(old(buf), next)
      ensures Reports(marks, NewKeys(old(buf), next)) && notes == NewNotes(old(buf), next, classify)
      ensures AllTell(buf, marks)
    {
      hide Ready, CompleteLines, Reports, NotesBetween;
      ReportsNone();
      if next == buf || next <= buf { return [], []; }
      if buf <= next {
        ReadyGrows(buf, next);
        LinesGrow(buf, next);
        buf := next;
      } else {
        if |next| < |buf| { return [], []; }
        buf := next;
        seen, seenLines, keywordLineIdx := {}, {}, 0;
      }
      marks := EmitMarkers();
      notes := EmitKeywordLines();
    }

    method Feed(delta: string) returns (marks: seq<Mark>, notes: seq<Note>)
      requires Valid()
      modifies this
      ensures Valid() && Stream(buf, feedBuf) == Took(Stream(old(buf), old(feedBuf)), Delta(delta))
      ensures Reports(marks, KeysOf(Stream(old(buf), old(feedBuf)), Delta(delta))) && AllTell(buf, marks)
      ensures notes == NotesFor(Stream(old(buf), old(feedBuf)), Delta(delta), classify)
    {
      hide Ready, CompleteLines, Reports, NotesBetween;
      ReportsNone();
      if delta == "" { return [], []; }
      feedBuf := feedBuf + delta;
      marks, notes := AdoptStream(feedBuf);
    }

    method FeedSnapshot(partial: string) returns (marks: seq<Mark>, notes: seq<Note>)
      requires Valid()
      modifies this
      ensures Valid() && Stream(buf, feedBuf) == Took(Stream(old(buf), old(feedBuf)), Snapshot(partial))
      ensures Reports(marks, KeysOf(Stream(old(buf), old(feedBuf)), Snapshot(partial))) && AllTell(buf, marks)
      ensures notes == NotesFor(Stream(old(buf), old(feedBuf)), Snapshot(partial), classify)
    {
      hide Ready, CompleteLines, Reports, NotesBetween;
      ReportsNone();
      var text := TrimNuls(partial);
      if text == "" { return [], []; }
      marks, notes := AdoptStream(text);
    }
  }

  // --- What one input does ---------------------------------------------------------

  /** The merged text and the text of the deltas alone. */
  datatype Stream = Stream(buf: string, feedBuf: string)

  datatype Input = Delta(s: string) | Snapshot(s: string)

  function TrimNuls(s: string): (r: string)
    ensures r <= s
  {
    if s != "" && s[|s| - 1] == '\0' then TrimNuls(s[..|s| - 1]) else s
  }

  /** Only a longer text that extends the merged one advances it; a text that
      contradicts it replaces it unless it is shorter. */
  function Adopted(buf: string, next: string): string {
    if next <= buf then buf
    else if buf <= next then next
    else if |next| < |buf| then buf
    else next
  }

  predicate Diverges(buf: string, next: string) {
    !(next <= buf) && !(buf <= next) && |next| >= |buf|
  }

  function NewKeys(buf: string, next: string): set<Key> {
    if Adopted(buf, next) == buf then {}
    else if Diverges(buf, next) then Ready(next)
    else Ready(next) - Ready(buf)
  }

  function NewNotes(buf: string, next: string, classify: Classifier): seq<Note> {
    var lines := CompleteLines(next);
    var lo := if Diverges(buf, next) then 0 else |CompleteLines(buf)|;
    if Adopted(buf, next) == buf || lo > |lines| then [] else NotesBetween(lines, lo, |lines|, classify)
  }

  /** The text an input offers; "" changes nothing. */
  function Offer(st: Stream, input: Input): string {
    match input
    case Delta(s) => if s == "" then "" else st.feedBuf + s
    case Snapshot(s) => TrimNuls(s)
  }

  function Took(st: Stream, input: Input): Stream {
    Stream(Adopted(st.buf, Offer(st, input)), if input.Delta? then st.feedBuf + input.s else st.feedBuf)
  }

  function KeysOf(st: Stream, input: Input): set<Key> {
    NewKeys(st.buf, Offer(st, input))
  }

  function NotesFor(st: Stream, input: Input, classify: Classifier): seq<Note> {
    NewNotes(st.buf, Offer(st, input), classify)
  }

  // --- Words, lines and texts -----------------------------------------------------------

  /** The words that announce something. */
  predicate Announces(w: string, kind: Kind) {
    match kind
    case Confirm => w == "确认" || w == "需确认"
    case Blocker => w == "阻塞" || w == "失败"
    case Milestone => w == "进度" || w == "里程碑"
  }

  /** A marker is one of these words in square brackets, plain or full-width. */
  lemma MarkersAre(m: Marker)
    ensures m in MARKERS <==> exists w :: Announces(w, m.kind) && (m.prefix == "[" + w + "]" || m.prefix == "【" + w + "】")
  {
    assert "[" + "确认" + "]" == "[确认]" && "【" + "确认" + "】" == "【确认】";
    assert "[" + "需确认" + "]" == "[需确认]" && "【" + "需确认" + "】" == "【需确认】";
    assert "[" + "阻塞" + "]" == "[阻塞]" && "【" + "阻塞" + "】" == "【阻塞】";
    assert "[" + "失败" + "]" == "[失败]" && "【" + "失败" + "】" == "【失败】";
    assert "[" + "进度" + "]" == "[进度]" && "【" + "进度" + "】" == "【进度】";
    assert "[" + "里程碑" + "]" == "[里程碑]" && "【" + "里程碑" + "】" == "【里程碑】";
  }

  lemma {:induction false} LineOf(line: string, c: char, more: string)
    requires forall i :: 0 <= i < |line| ==> line[i] != '\n' && line[i] != '\r'
    ensures Line(line) == line
    ensures c == '\n' || c == '\r' ==> Line(line + [c] + more) == line
  {
    if line != "" {
      LineOf(line[1..], c, more);
      assert (line + [c] + more)[1..] == line[1..] + [c] + more;
    }
  }

  /** What follows a marker makes it ready at once when its line is closed, and otherwise from
      four characters on, white space around them aside. */
  lemma ReadyExactly(line: string, c: char, more: string)
    requires forall i :: 0 <= i < |line| ==> line[i] != '\n' && line[i] != '\r'
    ensures c == '\n' || c == '\r' ==> IsReady(line + [c] + more)
    ensures IsReady(line) <==> |Trim(line)| >= 4
  {
    LineOf(line, c, more);
  }

  /** The complete lines are the text up to its last line break, cut at the breaks. */
  lemma CompleteLinesOf(buf: string)
    ensures exists last: string :: '\n' !in last && Split(buf, '\n') == CompleteLines(buf) + [last]
    ensures '\n' !in buf ==> CompleteLines(buf) == []
  {
    var parts := Split(buf, '\n');
    NoBreakInside(buf);
    assert parts == CompleteLines(buf) + [parts[|parts| - 1]];
    if '\n' !in buf { OnePart(buf); }
  }

  lemma {:induction false} NoBreakInside(s: string)
    ensures forall i :: 0 <= i < |Split(s, '\n')| ==> '\n' !in Split(s, '\n')[i]
  {
    if s != "" { NoBreakInside(s[1..]); }
  }

  lemma {:induction false} OnePart(s: string)
    requires '\n' !in s
    ensures |Split(s, '\n')| == 1
  {
    if s != "" { OnePart(s[1..]); }
  }

  /** A line gives an event when it is classified as one, unless it is blank or holds a marker. */
  lemma NotesExactly(line: string, i: nat, classify: Classifier)
    ensures NotesOf(line, i, classify) ==
            if Trim(line) != "" && classify(Trim(line)).Some? && (forall m, k :: m in MARKERS ==> !OccursAt(Trim(line), m.prefix, k))
            then [Note(i, classify(Trim(line)).value.0, classify(Trim(line)).value.1)] else []
  {
    var t := Trim(line);
    hide MARKERS, Trim;
    if m, k :| m in MARKERS && OccursAt(t, m.prefix, k) { assert Contains(t, m.prefix); }
    if m :| m in MARKERS && Contains(t, m.prefix) { assert OccursAt(t, m.prefix, IndexFrom(t, m.prefix, 0).value); }
  }

  /** A snapshot loses the null characters at its end, all of them and nothing else. */
  lemma {:induction false} NulsTrimmed(s: string)
    ensures TrimNuls(s) != "" ==> TrimNuls(s)[|TrimNuls(s)| - 1] != '\0'
    ensures forall i :: |TrimNuls(s)| <= i < |s| ==> s[i] == '\0'
  {
    if s != "" && s[|s| - 1] == '\0' { NulsTrimmed(s[..|s| - 1]); }
  }

  /** Of the merged text and an offer the one that extends the other is kept; where they
      contradict each other, the offer, unless it is shorter. */
  lemma KeepsTheLonger(buf: string, next: string)
    ensures buf <= next ==> Adopted(buf, next) == next
    ensures next <= buf ==> Adopted(buf, next) == buf
    ensures !(buf <= next) && !(next <= buf) ==> Adopted(buf, next) == if |next| >= |buf| then next else buf
    ensures |Adopted(buf, next)| == if |next| > |buf| then |next| else |buf|
  {
  }

  // --- Growing a text ------------------------------------------------------------------

  lemma {:induction false} TrimRightGrows(s: string, x: string)
    ensures |TrimRight(s + x)| >= |TrimRight(s)|
    decreases |x|
  {
    var t := s + x;
    TrimRightShorter(s);
    if x == "" {
      assert t == s;
    } else if IsSpace(t[|t| - 1]) {
      TrimRightGrows(s, x[..|x| - 1]);
      assert t[..|t| - 1] == s + x[..|x| - 1];
    }
  }

  lemma {:induction false} TrimRightShorter(s: string)
    ensures |TrimRight(s)| <= |s|
  {
    if s != "" && IsSpace(s[|s| - 1]) { TrimRightShorter(s[..|s| - 1]); }
  }

  lemma {:induction false} TrimLeftGrows(s: string, x: string)
    ensures TrimLeft(s) != "" ==> TrimLeft(s + x) == TrimLeft(s) + x
  {
    if s != "" && IsSpace(s[0]) {
      TrimLeftGrows(s[1..], x);
      assert (s + x)[1..] == s[1..] + x;
    }
  }

  lemma TrimGrows(s: string, x: string)
    ensures |Trim(s + x)| >= |Trim(s)|
  {
    TrimLeftGrows(s, x);
    if TrimLeft(s) != "" { TrimRightGrows(TrimLeft(s), x); }
  }

  lemma {:induction false} LineGrows(s: string, x: string)
    ensures |Line(s)| < |s| ==> Line(s + x) == Line(s)
    ensures |Line(s)| == |s| ==> s <= Line(s + x)
  {
    if s != "" && !IsNewline(s[0]) {
      LineGrows(s[1..], x);
      assert (s + x)[1..] == s[1..] + x;
    }
  }

  /** A marker that is ready stays ready as the text grows. */
  lemma ReadyStays(s: string, x: string)
    requires IsReady(s)
    ensures IsReady(s + x)
  {
    LineGrows(s, x);
    if |Line(s)| == |s| {
      var l := Line(s + x);
      assert Line(s) == s;
      assert l == s + l[|s|..];
      TrimGrows(s, l[|s|..]);
    }
  }

  lemma ReadyMarkStays(buf: string, next: string, m: Marker, i: nat)
    requires buf <= next && i < |buf| && ReadyMark(buf, m, i)
    ensures ReadyMark(next, m, i)
  {
    hide IsReady;
    var k := i + |m.prefix|;
    assert next[i..k] == buf[i..k];
    RestGrows(buf, next, k);
    ReadyStays(buf[k..], next[|buf|..]);
  }

  lemma RestGrows(buf: string, next: string, k: nat)
    requires buf <= next && k <= |buf|
    ensures next[k..] == buf[k..] + next[|buf|..]
  {
  }

  lemma ReadyOfGrows(buf: string, next: string, m: Marker)
    requires buf <= next
    ensures ReadyOf(buf, m, |buf|) <= ReadyOf(next, m, |next|)
  {
    hide ReadyMark;
    forall i | 0 <= i < |buf| && ReadyMark(buf, m, i) ensures ReadyMark(next, m, i) {
      ReadyMarkStays(buf, next, m, i);
    }
  }

  lemma {:induction false} ReadyUpToGrows(buf: string, next: string, j: nat)
    requires buf <= next && j <= |MARKERS|
    ensures ReadyUpTo(buf, j) <= ReadyUpTo(next, j)
  {
    hide ReadyOf, ReadyMark;
    if j > 0 {
      ReadyUpToGrows(buf, next, j - 1);
      ReadyOfGrows(buf, next, MARKERS[j - 1]);
    }
  }

  lemma ReadyGrows(buf: string, next: string)
    requires buf <= next
    ensures Ready(buf) <= Ready(next)
  {
    ReadyUpToGrows(buf, next, |MARKERS|);
  }

  /** The pieces of a text with a character put before it. */
  function PutBefore(c: char, parts: seq<string>): seq<string>
    requires |parts| >= 1
  {
    if c == '\n' then [""] + parts else [[c] + parts[0]] + parts[1..]
  }

  lemma PutBeforeGrows(c: char, a: seq<string>, b: seq<string>)
    requires 1 <= |a| <= |b| && b[..|a| - 1] == a[..|a| - 1]
    ensures |PutBefore(c, a)| <= |PutBefore(c, b)|
    ensures PutBefore(c, b)[..|PutBefore(c, a)| - 1] == PutBefore(c, a)[..|PutBefore(c, a)| - 1]
  {
    var n := |a| - 1;
    assert forall i :: 0 <= i < n ==> a[i] == a[..n][i] == b[..n][i] == b[i];
  }

  lemma {:induction false} SplitGrows(s: string, x: string)
    ensures |Split(s, '\n')| <= |Split(s + x, '\n')|
    ensures Split(s + x, '\n')[..|Split(s, '\n')| - 1] == Split(s, '\n')[..|Split(s, '\n')| - 1]
  {
    if s == "" {
      assert Split(s, '\n')[..0] == [] == Split(s + x, '\n')[..0];
    } else {
      SplitGrows(s[1..], x);
      var t := s + x;
      assert t[1..] == s[1..] + x && t[0] == s[0];
      PutBeforeGrows(s[0], Split(s[1..], '\n'), Split(t[1..], '\n'));
    }
  }

  /** Complete lines stay, in place, as the text grows. */
  lemma LinesGrow(buf: string, next: string)
    requires buf <= next
    ensures CompleteLines(buf) <= CompleteLines(next)
  {
    assert next == buf + next[|buf|..];
    SplitGrows(buf, next[|buf|..]);
    var n := |Split(buf, '\n')| - 1;
    assert CompleteLines(next)[..n] == Split(next, '\n')[..n];
  }

  lemma ReadyOfNone(buf: string, m: Marker)
    ensures ReadyOf(buf, m, 0) == {}
  {
  }

  lemma OccursInside(buf: string, m: Marker, i: nat)
    requires m in MARKERS && OccursAt(buf, m.prefix, i)
    ensures i + |m.prefix| <= |buf| && |m.prefix| > 0
    ensures ReadyMark(buf, m, i) == IsReady(buf[i + |m.prefix|..])
  {
  }

  lemma {:induction false} NothingReadyUpTo(j: nat)
    requires j <= |MARKERS|
    ensures ReadyUpTo("", j) == {}
  {
    if j > 0 { NothingReadyUpTo(j - 1); }
  }

  lemma NothingReady()
    ensures Ready("") == {} && CompleteLines("") == []
  {
    NothingReadyUpTo(|MARKERS|);
  }

  // --- A whole stream -----------------------------------------------------------------

  /** The inputs deliver one text: deltas one after another, snapshots any prefix of it. */
  ghost predicate FromText(text: string, st: Stream, inputs: seq<Input>)
    decreases |inputs|
  {
    inputs == [] ||
    (Fits(text, st, inputs[0]) && FromText(text, Took(st, inputs[0]), inputs[1..]))
  }

  predicate Fits(text: string, st: Stream, input: Input) {
    match input
    case Delta(s) => st.feedBuf + s <= text
    case Snapshot(s) => s <= text
  }

  /** The merged text holds everything the deltas have delivered. */
  ghost predicate Caught(text: string, st: Stream) {
    st.feedBuf <= st.buf && st.buf <= text
  }

  function TookAll(st: Stream, inputs: seq<Input>): Stream
    decreases |inputs|
  {
    if inputs == [] then st else TookAll(Took(st, inputs[0]), inputs[1..])
  }

  /** The length of the longest text offered so far. */
  function LongestOffer(st: Stream, inputs: seq<Input>): nat
    decreases |inputs|
  {
    if inputs == [] then |st.buf|
    else
      var n := |Offer(st, inputs[0])|;
      var rest := LongestOffer(Stream(st.buf, Took(st, inputs[0]).feedBuf), inputs[1..]);
      Max(n, rest)
  }

  function Max(a: nat, b: nat): nat {
    if a > b then a else b
  }

  /** Lists of marks, one per input, as the accumulator returns them. */
  ghost predicate MarkedBy(st: Stream, inputs: seq<Input>, outs: seq<seq<Mark>>)
    decreases |inputs|
  {
    |outs| == |inputs| &&
    (inputs == [] ||
     (Reports(outs[0], KeysOf(st, inputs[0])) && MarkedBy(Took(st, inputs[0]), inputs[1..], outs[1..])))
  }

  function AllMarks(outs: seq<seq<Mark>>): seq<Mark> {
    if outs == [] then [] else outs[0] + AllMarks(outs[1..])
  }

  /** The keyword events of a whole stream. */
  function AllNotes(st: Stream, inputs: seq<Input>, classify: Classifier): seq<Note>
    decreases |inputs|
  {
    if inputs == [] then []
    else NotesFor(st, inputs[0], classify) + AllNotes(Took(st, inputs[0]), inputs[1..], classify)
  }

  /** Within one text nothing diverges: an offer extends the merged text or is behind it. */
  lemma OfferFits(text: string, st: Stream, input: Input)
    requires Caught(text, st) && Fits(text, st, input)
    ensures Offer(st, input) <= text && !Diverges(st.buf, Offer(st, input))
    ensures Caught(text, Took(st, input)) && st.buf <= Took(st, input).buf
    ensures Took(st, input).buf == if |Offer(st, input)| > |st.buf| then Offer(st, input) else st.buf
  {
  }

  lemma {:induction false} OfferIgnoresBuf(buf: string, buf2: string, feedBuf: string, inputs: seq<Input>)
    ensures LongestOffer(Stream(buf, feedBuf), inputs) >= |buf|
    ensures |buf2| <= |buf| ==>
      LongestOffer(Stream(buf, feedBuf), inputs) == Max(LongestOffer(Stream(buf2, feedBuf), inputs), |buf|)
    decreases |inputs|
  {
    if inputs != [] {
      var f := Took(Stream(buf, feedBuf), inputs[0]).feedBuf;
      OfferIgnoresBuf(buf, buf2, f, inputs[1..]);
    }
  }

  /** The merged text is the longest prefix offered. */
  lemma {:induction false} BufIsTheLongest(text: string, st: Stream, inputs: seq<Input>)
    requires Caught(text, st) && FromText(text, st, inputs)
    ensures TookAll(st, inputs).buf <= text && |TookAll(st, inputs).buf| == LongestOffer(st, inputs)
    ensures Caught(text, TookAll(st, inputs)) && st.buf <= TookAll(st, inputs).buf
    decreases |inputs|
  {
    if inputs != [] {
      var t := Took(st, inputs[0]);
      OfferFits(text, st, inputs[0]);
      BufIsTheLongest(text, t, inputs[1..]);
      OfferIgnoresBuf(t.buf, st.buf, t.feedBuf, inputs[1..]);
      OfferIgnoresBuf(st.buf, st.buf, t.feedBuf, inputs[1..]);
    }
  }

  lemma ReportsJoin(a: seq<Mark>, ka: set<Key>, b: seq<Mark>, kb: set<Key>)
    requires Reports(a, ka) && Reports(b, kb) && ka !! kb
    ensures Reports(a + b, ka + kb)
  {
    assert forall x :: x in a ==> x.key in KeySet(a);
    assert forall x :: x in b ==> x.key in KeySet(b);
    assert forall x :: x in a + b <==> x in a || x in b;
    forall i, j | 0 <= i < j < |a + b| ensures (a + b)[i].key != (a + b)[j].key {
      if i < |a| && |a| <= j {
        assert a[i] in a && b[j - |a|] in b;
      }
    }
  }

  lemma KeysOfGrowth(text: string, st: Stream, input: Input)
    requires Caught(text, st) && Fits(text, st, input)
    ensures KeysOf(st, input) == Ready(Took(st, input).buf) - Ready(st.buf)
    ensures Ready(st.buf) <= Ready(Took(st, input).buf)
  {
    hide Ready;
    OfferFits(text, st, input);
    ReadyGrows(st.buf, Took(st, input).buf);
  }

  /** Over a whole stream each marker occurrence that is ready in the merged text is
      reported, and reported once. */
  lemma {:induction false} EachMarkOnce(text: string, st: Stream, inputs: seq<Input>, outs: seq<seq<Mark>>)
    requires Caught(text, st) && FromText(text, st, inputs) && MarkedBy(st, inputs, outs)
    ensures Reports(AllMarks(outs), Ready(TookAll(st, inputs).buf) - Ready(st.buf))
    ensures Ready(st.buf) <= Ready(TookAll(st, inputs).buf)
    decreases |inputs|
  {
    hide Ready, Reports, KeysOf;
    if inputs == [] {
      ReportsNone();
      assert Ready(st.buf) - Ready(st.buf) == {};
    } else {
      var t := Took(st, inputs[0]);
      OfferFits(text, st, inputs[0]);
      KeysOfGrowth(text, st, inputs[0]);
      EachMarkOnce(text, t, inputs[1..], outs[1..]);
      var end := TookAll(st, inputs).buf;
      ReportsJoin(outs[0], KeysOf(st, inputs[0]), AllMarks(outs[1..]), Ready(end) - Ready(t.buf));
      assert Ready(end) - Ready(st.buf) == KeysOf(st, inputs[0]) + (Ready(end) - Ready(t.buf));
    }
  }

  lemma {:induction false} NotesSplit(lines: seq<string>, a: nat, b: nat, c: nat, classify: Classifier)
    requires a <= b <= c <= |lines|
    ensures NotesBetween(lines, a, c, classify) == NotesBetween(lines, a, b, classify) + NotesBetween(lines, b, c, classify)
    decreases c
  {
    hide NotesOf;
    if b < c { NotesSplit(lines, a, b, c - 1, classify); }
  }

  lemma {:induction false} NotesOfPrefix(lines: seq<string>, more: seq<string>, a: nat, b: nat, classify: Classifier)
    requires lines <= more && a <= b <= |lines|
    ensures NotesBetween(lines, a, b, classify) == NotesBetween(more, a, b, classify)
    decreases b
  {
    hide NotesOf;
    if a < b { NotesOfPrefix(lines, more, a, b - 1, classify); }
  }

  /** Over a whole stream the keyword events are those of the complete lines, in order. */
  lemma {:induction false} NotesInOrder(text: string, st: Stream, inputs: seq<Input>, classify: Classifier)
    requires Caught(text, st) && FromText(text, st, inputs)
    ensures CompleteLines(st.buf) <= CompleteLines(TookAll(st, inputs).buf)
    ensures AllNotes(st, inputs, classify) ==
            NotesBetween(CompleteLines(TookAll(st, inputs).buf), |CompleteLines(st.buf)|,
                         |CompleteLines(TookAll(st, inputs).buf)|, classify)
    decreases |inputs|
  {
    hide CompleteLines;
    if inputs != [] {
      var t, end := Took(st, inputs[0]), TookAll(st, inputs).buf;
      OfferFits(text, st, inputs[0]);
      NotesInOrder(text, t, inputs[1..], classify);
      LinesGrow(st.buf, t.buf);
      var a, b := |CompleteLines(st.buf)|, |CompleteLines(t.buf)|;
      assert NotesFor(st, inputs[0], classify) == NotesBetween(CompleteLines(t.buf), a, b, classify);
      NotesOfPrefix(CompleteLines(t.buf), CompleteLines(end), a, b, classify);
      NotesSplit(CompleteLines(end), a, b, |CompleteLines(end)|, classify);
    }
  }

  const Fresh := Stream("", "")

  /** Chunking does not matter.  However one text is cut into deltas and whatever prefixes of
      it arrive as snapshots in between, what is reported depends only on the longest prefix
      offered: its ready markers, each once, and the keyword events of its complete lines. */
  lemma ChunkingIndependence(text: string, inputs: seq<Input>, outs: seq<seq<Mark>>, classify: Classifier)
    requires FromText(text, Fresh, inputs) && MarkedBy(Fresh, inputs, outs)
    ensures LongestOffer(Fresh, inputs) <= |text|
    ensures var buf := text[..LongestOffer(Fresh, inputs)];
            && TookAll(Fresh, inputs).buf == buf
            && Reports(AllMarks(outs), Ready(buf))
            && AllNotes(Fresh, inputs, classify) == NotesBetween(CompleteLines(buf), 0, |CompleteLines(buf)|, classify)
  {
    hide Ready, CompleteLines, Reports;
    BufIsTheLongest(text, Fresh, inputs);
    NothingReady();
    EachMarkOnce(text, Fresh, inputs, outs);
    NotesInOrder(text, Fresh, inputs, classify);
    var buf := TookAll(Fresh, inputs).buf;
    assert Ready(buf) - Ready("") == Ready(buf);
  }
}
