/** A run's variables: what the driver holds in memory and what the table holds. */
module VarState {
  import opened Expr
  import opened Lists

  type Bindings = map<string, Value>

  /** Removing the inline data of images, which is all that persisting loses. */
  type Stripper = Value -> Value

  ghost predicate Idempotent(strip: Stripper) {
    forall v :: strip(strip(v)) == strip(v)
  }

  function StripAll(vars: Bindings, strip: Stripper): Bindings {
    map k | k in vars :: strip(vars[k])
  }

  /** Memory and table bind the same names to the same values up to stripping. */
  ghost predicate Synced(vars: Bindings, table: Bindings, strip: Stripper) {
    StripAll(vars, strip) == StripAll(table, strip)
  }

  /** The carried names that are still missing, bound to the empty string. */
  function Defaults(vars: Bindings, carry: seq<string>): Bindings {
    map n | n in carry && n !in vars :: VStr("")
  }

  /** A rollback overlays the snapshot and defaults the carried names. */
  function RolledBack(vars: Bindings, snap: Bindings, carry: seq<string>): Bindings {
    vars + snap + Defaults(vars + snap, carry)
  }

  function Names(carry: seq<string>): set<string> {
    set n | n in carry
  }

  /** `after` is `before` with the bindings of `written` for the names in `names`. */
  ghost predicate Wrote(before: Bindings, written: Bindings, names: set<string>, after: Bindings) {
    && names <= written.Keys
    && after.Keys == before.Keys + names
    && forall k :: k in after ==> after[k] == if k in names then written[k] else before[k]
  }

  lemma WroteNone(before: Bindings, written: Bindings)
    ensures Wrote(before, written, {}, before)
  {
  }

  lemma WroteOne(before: Bindings, written: Bindings, names: set<string>, after: Bindings, k: string)
    requires Wrote(before, written, names, after) && k in written
    ensures Wrote(before, written, names + {k}, after[k := written[k]])
  {
  }

  lemma WroteAll(before: Bindings, written: Bindings, after: Bindings)
    requires Wrote(before, written, written.Keys, after)
    ensures after == before + written
  {
  }

  class Variables {
    var vars: Bindings
    var table: Bindings
    const strip: Stripper

    constructor (table: Bindings, strip: Stripper)
      ensures vars == this.table == table && this.strip == strip
    {
      this.vars, this.table, this.strip := table, table, strip;
    }

    /** setVar and persistVar, always used together while a driver lives. */
    method SetVar(name: string, v: Value)
      modifies this
      ensures vars == old(vars)[name := v] && table == old(table)[name := strip(v)]
    {
      vars := vars[name := v];
      table := table[name := strip(v)];
    }

    /** The values a checkpoint keeps. */
    method Snapshot() returns (snap: Bindings)
      ensures snap == StripAll(vars, strip)
    {
      snap := map[];
      var todo := vars.Keys;
      while todo != {}
        invariant todo <= vars.Keys
        invariant snap == map k | k in vars && k !in todo :: strip(vars[k])
        decreases |todo|
      {
        var k :| k in todo;
        snap := snap[k := strip(vars[k])];
        todo := todo - {k};
      }
    }

    /** First loop of doRollback: the snapshot, read in no particular order. */
    method Overlay(snap: Bindings)
      modifies this
      ensures vars == old(vars) + snap && table == old(table) + StripAll(snap, strip)
    {
      hide Wrote;
      var todo := snap.Keys;
      ghost var v0, t0, stripped := vars, table, StripAll(snap, strip);
      WroteNone(v0, snap);
      WroteNone(t0, stripped);
      assert snap.Keys - todo == {};
      while todo != {}
        invariant todo <= snap.Keys
        invariant Wrote(v0, snap, snap.Keys - todo, vars) && Wrote(t0, stripped, snap.Keys - todo, table)
        decreases |todo|
      {
        var k :| k in todo;
        WroteOne(v0, snap, snap.Keys - todo, vars, k);
        WroteOne(t0, stripped, snap.Keys - todo, table, k);
        assert snap.Keys - (todo - {k}) == snap.Keys - todo + {k};
        SetVar(k, snap[k]);
        todo := todo - {k};
      }
      assert snap.Keys - {} == snap.Keys == stripped.Keys;
      WroteAll(v0, snap, vars);
      WroteAll(t0, stripped, table);
    }

    /** Second loop: the carried names that are missing. */
    method DefaultCarried(carry: seq<string>)
      modifies this
      ensures vars == old(vars) + Defaults(old(vars), carry)
      ensures table == old(table) + StripAll(Defaults(old(vars), carry), strip)
    {
      hide Wrote;
      ghost var v0, t0, missing := vars, table, Defaults(vars, carry);
      ghost var stripped := StripAll(missing, strip);
      WroteNone(v0, missing);
      WroteNone(t0, stripped);
      assert missing.Keys * Names(carry[..0]) == {};
      for i := 0 to |carry|
        invariant vars.Keys == v0.Keys + Names(carry[..i])
        invariant Wrote(v0, missing, missing.Keys * Names(carry[..i]), vars)
        invariant Wrote(t0, stripped, missing.Keys * Names(carry[..i]), table)
      {
        var n := carry[i];
        assert Names(carry[..i + 1]) == Names(carry[..i]) + {n};
        if n !in vars {
          WroteOne(v0, missing, missing.Keys * Names(carry[..i]), vars, n);
          WroteOne(t0, stripped, missing.Keys * Names(carry[..i]), table, n);
          assert missing.Keys * Names(carry[..i + 1]) == missing.Keys * Names(carry[..i]) + {n};
          SetVar(n, VStr(""));
        } else {
          assert missing.Keys * Names(carry[..i + 1]) == missing.Keys * Names(carry[..i]);
        }
      }
      assert carry[..|carry|] == carry && missing.Keys * Names(carry) == missing.Keys == stripped.Keys;
      WroteAll(v0, missing, vars);
      WroteAll(t0, stripped, table);
    }

    /** The variable part of doRollback. */
    method RollBack(snap: Bindings, carry: seq<string>)
      modifies this
      ensures vars == RolledBack(old(vars), snap, carry)
      ensures table == old(table) + StripAll(snap, strip) + StripAll(Defaults(old(vars) + snap, carry), strip)
    {
      Overlay(snap);
      DefaultCarried(carry);
    }

    /** restoreVars: memory and table become the snapshot. */
    method Restore(snap: Bindings)
      modifies this
      ensures vars == snap && table == snap
    {
      vars := snap;
      table := map k | k in table && k in snap :: table[k];
      var todo := snap.Keys;
      while todo != {}
        invariant todo <= snap.Keys && vars == snap
        invariant table.Keys <= snap.Keys && forall k :: k in snap && k !in todo ==> k in table && table[k] == snap[k]
        decreases |todo|
      {
        var k :| k in todo;
        table := table[k := snap[k]];
        todo := todo - {k};
      }
    }
  }

  // --- What the operations promise -------------------------------------------

  /** Every variable after a rollback: the snapshot's value, else the old one, else ""
      for a carried name, else none. */
  lemma RollbackByName(vars: Bindings, snap: Bindings, carry: seq<string>, n: string)
    ensures n in RolledBack(vars, snap, carry) <==> n in snap || n in vars || n in carry
    ensures n in RolledBack(vars, snap, carry) ==>
              RolledBack(vars, snap, carry)[n] ==
              if n in snap then snap[n] else if n in vars then vars[n] else VStr("")
  {
  }

  /** Rolling back to a checkpoint taken earlier restores, stripped, every variable there
      was then, and keeps every variable made since; continuing from a visit's entry
      snapshot drops those. */
  lemma RollbackKeepsLaterNames(before: Bindings, now: Bindings, carry: seq<string>, strip: Stripper, n: string)
    ensures n in before ==> n in RolledBack(now, StripAll(before, strip), carry)
                            && RolledBack(now, StripAll(before, strip), carry)[n] == strip(before[n])
    ensures n in now && n !in before ==> n in RolledBack(now, StripAll(before, strip), carry)
                                         && RolledBack(now, StripAll(before, strip), carry)[n] == now[n]
    ensures RolledBack(now, StripAll(before, strip), carry) == StripAll(before, strip) <==>
            forall m :: m in now || m in carry ==> m in before
  {
    var back := RolledBack(now, StripAll(before, strip), carry);
    forall m ensures m in back <==> m in before || m in now || m in carry {
      RollbackByName(now, StripAll(before, strip), carry, m);
    }
    if forall m :: m in now || m in carry ==> m in before {
      assert back.Keys == StripAll(before, strip).Keys;
    } else {
      var m :| (m in now || m in carry) && m !in before;
      assert m in back && m !in StripAll(before, strip);
    }
  }

  /** The writes a run makes to its variables over its life. */
  datatype Write =
    | Set(name: string, v: Value)
    | Back(snap: Bindings, carry: seq<string>)
    | Rewind(snap: Bindings)
    | PersistOnly(name: string, v: Value)
    | Reload

  datatype Pair = Pair(vars: Bindings, table: Bindings)

  function Apply(p: Pair, w: Write, strip: Stripper): Pair {
    match w
    case Set(n, v) => Pair(p.vars[n := v], p.table[n := strip(v)])
    case Back(snap, carry) =>
      Pair(RolledBack(p.vars, snap, carry),
           p.table + StripAll(snap, strip) + StripAll(Defaults(p.vars + snap, carry), strip))
    case Rewind(snap) => Pair(snap, snap)
    case PersistOnly(n, v) => Pair(p.vars, p.table[n := strip(v)])
    case Reload => Pair(p.table, p.table)
  }

  function ApplyAll(p: Pair, ws: seq<Write>, strip: Stripper): Pair
    decreases |ws|
  {
    if ws == [] then p else ApplyAll(Apply(p, ws[0], strip), ws[1..], strip)
  }

  /** failRun writes last_error to the table alone; only a driver that ends does so. */
  predicate Orderly(ws: seq<Write>) {
    forall i :: 0 <= i < |ws| && ws[i].PersistOnly? ==> i + 1 < |ws| && ws[i + 1].Reload?
  }

  lemma {:induction false} OneWriteKeepsSync(p: Pair, w: Write, strip: Stripper)
    requires Idempotent(strip) && Synced(p.vars, p.table, strip) && !w.PersistOnly?
    ensures Synced(Apply(p, w, strip).vars, Apply(p, w, strip).table, strip)
  {
    var q := Apply(p, w, strip);
    assert p.vars.Keys == p.table.Keys by {
      assert p.vars.Keys == StripAll(p.vars, strip).Keys && p.table.Keys == StripAll(p.table, strip).Keys;
    }
    forall k | k in p.vars ensures strip(p.vars[k]) == strip(p.table[k]) {
      assert StripAll(p.vars, strip)[k] == StripAll(p.table, strip)[k];
    }
    assert q.vars.Keys == q.table.Keys;
    forall k | k in q.vars ensures strip(q.vars[k]) == strip(q.table[k]) { }
  }

  /** Whenever a driver is running, the table says what its memory says up to stripping. */
  lemma {:induction false} TableFollowsMemory(p: Pair, ws: seq<Write>, strip: Stripper)
    requires Idempotent(strip) && Synced(p.vars, p.table, strip) && Orderly(ws)
    ensures Synced(ApplyAll(p, ws, strip).vars, ApplyAll(p, ws, strip).table, strip)
    decreases |ws|
  {
    if ws == [] {
    } else if ws[0].PersistOnly? {
      var p1 := Apply(p, ws[0], strip);
      var p2 := Apply(p1, ws[1], strip);
      assert Orderly(ws[2..]) by {
        forall i | 0 <= i < |ws[2..]| && ws[2..][i].PersistOnly? ensures i + 1 < |ws[2..]| && ws[2..][i + 1].Reload? {
          assert ws[i + 2].PersistOnly?;
        }
      }
      TableFollowsMemory(p2, ws[2..], strip);
      assert ws[1..][1..] == ws[2..];
    } else {
      OneWriteKeepsSync(p, ws[0], strip);
      assert Orderly(ws[1..]) by {
        forall i | 0 <= i < |ws[1..]| && ws[1..][i].PersistOnly? ensures i + 1 < |ws[1..]| && ws[1..][i + 1].Reload? {
          assert ws[i + 1].PersistOnly?;
        }
      }
      TableFollowsMemory(Apply(p, ws[0], strip), ws[1..], strip);
    }
  }

  // --- Entry snapshots ----------------------------------------------------------

  /** A visit and the variables it started with, when they were recorded. */
  datatype Entry = Entry(node: string, iteration: nat, before: Bindings, recorded: bool)

  /** The latest visit of a node by iteration, then by insertion. */
  function Latest(entries: seq<Entry>, node: string): (r: int)
    ensures -1 <= r < |entries|
    ensures r == -1 <==> forall i :: 0 <= i < |entries| ==> entries[i].node != node
    ensures r >= 0 ==> entries[r].node == node
    ensures r >= 0 ==> forall i :: 0 <= i < |entries| && entries[i].node == node ==>
              entries[i].iteration < entries[r].iteration || (entries[i].iteration == entries[r].iteration && i <= r)
  {
    LatestBy(entries, (e: Entry) => e.node == node, (e: Entry) => e.iteration)
  }

  /** The variable part of ResumeFrom: rewind to the latest visit's entry snapshot. */
  method RewindTo(state: Variables, entries: seq<Entry>, node: string)
    modifies state
    ensures var r := Latest(entries, node);
            if r >= 0 && entries[r].recorded
            then state.vars == state.table == entries[r].before
            else state.vars == old(state.vars) && state.table == old(state.table)
  {
    var r := Latest(entries, node);
    if r >= 0 && entries[r].recorded { state.Restore(entries[r].before); }
  }
}
