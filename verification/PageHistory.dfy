/** The revisions of a page that a node's outputs remember. */
module PageHistory {
  import opened Expr
  import opened Text

  type OutputMap = map<string, Value>

  predicate Blank(s: string) {
    Trim(s) == ""
  }

  /** The page an output map holds, "" when there is none. */
  function PageOf(outs: OutputMap): string {
    var v := Lookup(outs, "page");
    if v.VStr? then v.s else ""
  }

  /** pageHistorySlice: the texts of a stored list that are not blank. */
  function TextsOf(items: seq<Value>): seq<string> {
    if items == [] then []
    else (if items[0].VStr? && !Blank(items[0].s) then [items[0].s] else []) + TextsOf(items[1..])
  }

  function HistoryOf(outs: OutputMap): seq<string> {
    var v := Lookup(outs, "page_history");
    if v.VList? then TextsOf(v.items) else []
  }

  function Stored(hist: seq<string>): Value {
    VList(seq(|hist|, i requires 0 <= i < |hist| => VStr(hist[i])))
  }

  /** The outputs after a write: the page it replaces becomes a revision unless it is
      blank, identical, or already the last revision. */
  function Recorded(outs: OutputMap, content: string): OutputMap {
    var prior, hist := PageOf(outs), HistoryOf(outs);
    var kept := if !Blank(prior) && prior != content && (hist == [] || hist[|hist| - 1] != prior)
                then outs["page_history" := Stored(hist + [prior])] else outs;
    kept["page" := VStr(content)]
  }

  class Outputs {
    var outs: OutputMap

    constructor (outs: OutputMap)
      ensures this.outs == outs
    {
      this.outs := outs;
    }

    /** recordPageRevision. */
    method RecordPageRevision(content: string)
      modifies this
      ensures outs == Recorded(old(outs), content)
    {
      var oldPage := PageOf(outs);
      if !Blank(oldPage) && oldPage != content {
        var hist := HistoryOf(outs);
        if |hist| == 0 || hist[|hist| - 1] != oldPage {
          outs := outs["page_history" := Stored(hist + [oldPage])];
        }
      }
      outs := outs["page" := VStr(content)];
    }
  }

  // --- No revision is lost ----------------------------------------------------------

  /** Adjacent duplicates reduced to one. */
  function Collapse(s: seq<string>): seq<string> {
    if |s| < 2 then s
    else if s[|s| - 1] == s[|s| - 2] then Collapse(s[..|s| - 1])
    else Collapse(s[..|s| - 1]) + [s[|s| - 1]]
  }

  function IfNotBlank(s: string): seq<string> {
    if Blank(s) then [] else [s]
  }

  function NotBlank(writes: seq<string>): seq<string> {
    if writes == [] then [] else NotBlank(writes[..|writes| - 1]) + IfNotBlank(writes[|writes| - 1])
  }

  function Written(outs: OutputMap, writes: seq<string>): OutputMap {
    if writes == [] then outs else Recorded(Written(outs, writes[..|writes| - 1]), writes[|writes| - 1])
  }

  /** Every version a viewer can select: the history, then the current page. */
  function Versions(outs: OutputMap): seq<string> {
    HistoryOf(outs) + IfNotBlank(PageOf(outs))
  }

  lemma {:induction false} CollapseKeepsLast(s: seq<string>)
    ensures s != [] ==> Collapse(s) != [] && Collapse(s)[|Collapse(s)| - 1] == s[|s| - 1]
    ensures s == [] ==> Collapse(s) == []
  {
    if |s| >= 2 { CollapseKeepsLast(s[..|s| - 1]); }
  }

  lemma CollapseNext(s: seq<string>, x: string)
    ensures Collapse(s + [x]) == if s != [] && s[|s| - 1] == x then Collapse(s) else Collapse(s) + [x]
  {
  }

  lemma {:induction false} StoredReadsBack(hist: seq<string>)
    requires forall s :: s in hist ==> !Blank(s)
    ensures TextsOf(Stored(hist).items) == hist
  {
    if hist != [] {
      StoredReadsBack(hist[1..]);
      assert Stored(hist).items[1..] == Stored(hist[1..]).items;
      assert hist == [hist[0]] + hist[1..];
    }
  }

  lemma {:induction false} TextsAreNotBlank(items: seq<Value>)
    ensures forall s :: s in TextsOf(items) ==> !Blank(s)
  {
    if items != [] { TextsAreNotBlank(items[1..]); }
  }

  lemma RecordedReadsBack(outs: OutputMap, content: string)
    ensures PageOf(Recorded(outs, content)) == content
    ensures var prior, hist := PageOf(outs), HistoryOf(outs);
            HistoryOf(Recorded(outs, content)) ==
            if !Blank(prior) && prior != content && (hist == [] || hist[|hist| - 1] != prior) then hist + [prior] else hist
  {
    var prior, hist := PageOf(outs), HistoryOf(outs);
    var v := Lookup(outs, "page_history");
    if v.VList? { TextsAreNotBlank(v.items); }
    if !Blank(prior) { StoredReadsBack(hist + [prior]); }
  }

  /** A write sets the page and touches no output but the page and its history. */
  lemma OtherOutputsStay(outs: OutputMap, content: string, k: string)
    requires k != "page" && k != "page_history"
    ensures k in Recorded(outs, content) <==> k in outs
    ensures k in outs ==> Recorded(outs, content)[k] == outs[k]
    ensures "page" in Recorded(outs, content) && Recorded(outs, content)["page"] == VStr(content)
  {
  }

  /** One write adds its content, if it is not blank, to the versions, adjacent duplicates aside. */
  lemma OneWrite(outs: OutputMap, content: string)
    ensures Collapse(Versions(Recorded(outs, content))) == Collapse(Versions(outs) + IfNotBlank(content))
  {
    RecordedReadsBack(outs, content);
    var prior, hist := PageOf(outs), HistoryOf(outs);
    if !Blank(prior) {
      CollapseNext(hist, prior);
      CollapseNext(hist, content);
      CollapseNext(hist + [prior], content);
    } else {
      assert hist + [] == hist;
    }
    assert hist + [] == hist && Versions(outs) + [] == Versions(outs);
    assert hist + [prior] + [] == hist + [prior];
  }

  /** Writing to two lists that collapse alike keeps them alike. */
  lemma CollapseAlike(a: seq<string>, b: seq<string>, x: seq<string>)
    requires Collapse(a) == Collapse(b) && |x| <= 1
    ensures Collapse(a + x) == Collapse(b + x)
  {
    if x == [] {
      assert a + x == a && b + x == b;
    } else {
      CollapseKeepsLast(a);
      CollapseKeepsLast(b);
      CollapseNext(a, x[0]);
      CollapseNext(b, x[0]);
      assert x == [x[0]];
    }
  }

  /** For any sequence of writes the versions kept are the versions there were and the writes
      that are not blank, adjacent duplicates aside: no distinct revision is lost, and a
      write that changes nothing adds none. */
  lemma {:induction false} EveryRevisionIsKept(outs: OutputMap, writes: seq<string>)
    ensures Collapse(Versions(Written(outs, writes))) == Collapse(Versions(outs) + NotBlank(writes))
  {
    hide Versions, Collapse, Recorded, Blank;
    if writes == [] {
      assert Versions(outs) + [] == Versions(outs);
    } else {
      var front, w := writes[..|writes| - 1], writes[|writes| - 1];
      EveryRevisionIsKept(outs, front);
      OneWrite(Written(outs, front), w);
      CollapseAlike(Versions(Written(outs, front)), Versions(outs) + NotBlank(front), IfNotBlank(w));
      assert Versions(outs) + NotBlank(writes) == Versions(outs) + NotBlank(front) + IfNotBlank(w);
    }
  }
}
