/** The preview tab pool: the accounting registry and the service that owns the tabs. */
module TabPool {
  import opened ExecSlot

  datatype Tab = Tab(container: string, lastActive: int)

  type Tabs = map<string, Tab>

  // --- Counting ---------------------------------------------------------------------

  function TabsIn(tabs: Tabs, c: string): set<string> {
    set id | id in tabs && tabs[id].container == c
  }

  function Count(per: map<string, int>, c: string): int {
    if c in per then per[c] else 0
  }

  /** Every container's counter is the number of live tabs in it. */
  ghost predicate Agree(tabs: Tabs, per: map<string, int>) {
    forall c :: Count(per, c) == |TabsIn(tabs, c)|
  }

  lemma AddCounts(tabs: Tabs, per: map<string, int>, id: string, t: Tab)
    requires Agree(tabs, per) && id !in tabs
    ensures Agree(tabs[id := t], per[t.container := Count(per, t.container) + 1])
  {
    var tabs2, per2 := tabs[id := t], per[t.container := Count(per, t.container) + 1];
    forall c ensures Count(per2, c) == |TabsIn(tabs2, c)| { InsideAfterAdd(tabs, id, t, c); }
  }

  lemma InsideAfterAdd(tabs: Tabs, id: string, t: Tab, c: string)
    requires id !in tabs
    ensures |TabsIn(tabs[id := t], c)| == |TabsIn(tabs, c)| + if c == t.container then 1 else 0
  {
    if c == t.container {
      assert TabsIn(tabs[id := t], c) == TabsIn(tabs, c) + {id};
    } else {
      assert TabsIn(tabs[id := t], c) == TabsIn(tabs, c);
    }
  }

  lemma RemoveCounts(tabs: Tabs, per: map<string, int>, id: string)
    requires Agree(tabs, per) && id in tabs
    ensures Count(per, tabs[id].container) > 0
    ensures Agree(tabs - {id}, per[tabs[id].container := Count(per, tabs[id].container) - 1])
  {
    var home := tabs[id].container;
    assert id in TabsIn(tabs, home);
    var tabs2, per2 := tabs - {id}, per[home := Count(per, home) - 1];
    forall c ensures Count(per2, c) == |TabsIn(tabs2, c)| {
      assert TabsIn(tabs2, c) == if c == home then TabsIn(tabs, c) - {id} else TabsIn(tabs, c);
    }
  }

  lemma TouchCounts(tabs: Tabs, per: map<string, int>, id: string, now: int)
    requires Agree(tabs, per) && id in tabs
    ensures Agree(tabs[id := tabs[id].(lastActive := now)], per)
  {
    forall c ensures TabsIn(tabs[id := tabs[id].(lastActive := now)], c) == TabsIn(tabs, c) { }
  }

  lemma OneLess(tabs: Tabs, id: string)
    requires id in tabs
    ensures |tabs - {id}| == |tabs| - 1
  {
  }

  lemma OneMore(tabs: Tabs, id: string, t: Tab)
    requires id !in tabs
    ensures |tabs[id := t]| == |tabs| + 1 && tabs[id := t] - {id} == tabs
    ensures |TabsIn(tabs[id := t], t.container)| == |TabsIn(tabs, t.container)| + 1
  {
    assert tabs[id := t].Keys == tabs.Keys + {id};
    assert |tabs[id := t].Keys| == |tabs[id := t]| && |tabs.Keys| == |tabs|;
    InsideAfterAdd(tabs, id, t, t.container);
  }

  // --- The registry -----------------------------------------------------------------

  class TabRegistry {
    var maxTabs: int
    const maxPerContainer: int
    var tabs: Tabs
    var perContainer: map<string, int>
    var emptySince: map<string, int>

    /** The counters agree with the tabs, and a container marked empty holds none. */
    ghost predicate Valid()
      reads this
    {
      Agree(tabs, perContainer) && forall c :: c in emptySince ==> Count(perContainer, c) == 0
    }

    constructor (maxTabs: int, maxPerContainer: int)
      ensures Valid() && tabs == map[] && this.maxTabs == maxTabs && this.maxPerContainer == maxPerContainer
    {
      this.maxTabs, this.maxPerContainer := maxTabs, maxPerContainer;
      tabs, perContainer, emptySince := map[], map[], map[];
      new;
      forall c ensures TabsIn(map[], c) == {} { }
    }

    predicate Full()
      reads this
    {
      |tabs| >= maxTabs
    }

    method Add(id: string, container: string, now: int)
      requires Valid() && id !in tabs
      modifies this`tabs, this`perContainer, this`emptySince
      ensures Valid() && tabs == old(tabs)[id := Tab(container, now)] && emptySince == old(emptySince) - {container}
    {
      AddCounts(tabs, perContainer, id, Tab(container, now));
      tabs := tabs[id := Tab(container, now)];
      perContainer := perContainer[container := Count(perContainer, container) + 1];
      emptySince := emptySince - {container};
    }

    /** The container of a removed tab is marked empty when it was the last one there. */
    method Remove(id: string, now: int) returns (container: string, ok: bool)
      requires Valid()
      modifies this`tabs, this`perContainer, this`emptySince
      ensures Valid() && ok == (id in old(tabs)) && tabs == old(tabs) - {id}
      ensures ok ==> container == old(tabs)[id].container && container !in old(emptySince)
      ensures emptySince == if ok && TabsIn(tabs, old(tabs)[id].container) == {}
                            then old(emptySince)[old(tabs)[id].container := now] else old(emptySince)
    {
      if id !in tabs { return "", false; }
      var t := tabs[id];
      RemoveCounts(tabs, perContainer, id);
      tabs := tabs - {id};
      perContainer := perContainer[t.container := Count(perContainer, t.container) - 1];
      assert Count(perContainer, t.container) == |TabsIn(tabs, t.container)|;
      if perContainer[t.container] <= 0 {
        perContainer := perContainer[t.container := 0];
        emptySince := emptySince[t.container := now];
      }
      return t.container, true;
    }

    method Touch(id: string, now: int)
      requires Valid()
      modifies this`tabs
      ensures Valid()
      ensures tabs == if id in old(tabs) then old(tabs)[id := old(tabs)[id].(lastActive := now)] else old(tabs)
    {
      if id in tabs {
        TouchCounts(tabs, perContainer, id, now);
        tabs := tabs[id := tabs[id].(lastActive := now)];
      }
    }

    /** The least recently active tab; the map is walked in no particular order. */
    method Lru() returns (r: Option<string>)
      ensures r.None? <==> tabs == map[]
      ensures r.Some? ==> r.value in tabs && forall id :: id in tabs ==> tabs[r.value].lastActive <= tabs[id].lastActive
    {
      r := None;
      var todo := tabs.Keys;
      while todo != {}
        invariant todo <= tabs.Keys && (r.None? <==> todo == tabs.Keys)
        invariant r.Some? ==> r.value in tabs
        invariant r.Some? ==> forall id :: id in tabs && id !in todo ==> tabs[r.value].lastActive <= tabs[id].lastActive
        decreases |todo|
      {
        var id :| id in todo;
        todo := todo - {id};
        if r.None? || tabs[id].lastActive < tabs[r.value].lastActive { r := Some(id); }
      }
    }

    /** Tabs without activity for longer than `ttl`; none when `ttl` is not positive. */
    method Idle(ttl: int, now: int) returns (out: set<string>)
      ensures out == set id | id in tabs && ttl > 0 && tabs[id].lastActive < now - ttl
    {
      out := {};
      if ttl <= 0 { return; }
      var todo := tabs.Keys;
      while todo != {}
        invariant todo <= tabs.Keys
        invariant out == set id | id in tabs && id !in todo && tabs[id].lastActive < now - ttl
        decreases |todo|
      {
        var id :| id in todo;
        todo := todo - {id};
        if tabs[id].lastActive < now - ttl { out := out + {id}; }
      }
    }

    /** Containers marked empty for longer than `ttl`. */
    method ReapableContainers(ttl: int, now: int) returns (out: set<string>)
      requires Valid()
      ensures out == set c | c in emptySince && ttl > 0 && emptySince[c] < now - ttl
      ensures forall c :: c in out ==> TabsIn(tabs, c) == {}
    {
      out := {};
      if ttl <= 0 { return; }
      var todo := emptySince.Keys;
      while todo != {}
        invariant todo <= emptySince.Keys
        invariant out == set c | c in emptySince && c !in todo && emptySince[c] < now - ttl
        decreases |todo|
      {
        var c :| c in todo;
        todo := todo - {c};
        if Count(perContainer, c) == 0 && emptySince[c] < now - ttl { out := out + {c}; }
      }
      forall c | c in out ensures TabsIn(tabs, c) == {} { assert |TabsIn(tabs, c)| == 0; }
    }

    method ForgetContainer(c: string)
      requires Valid() && TabsIn(tabs, c) == {}
      modifies this`perContainer, this`emptySince
      ensures Valid() && emptySince == old(emptySince) - {c}
    {
      assert Count(perContainer, c) == 0;
      perContainer := perContainer - {c};
      emptySince := emptySince - {c};
    }
  }

  type Marks = map<string, int>

  /** Containers marked empty before keep their mark, new marks say now, and every container
      that lost its last tab has one. */
  ghost predicate MarksFollow(tabs: Tabs, marks: Marks, tabs2: Tabs, marks2: Marks, now: int) {
    && (forall c :: c in marks ==> c in marks2 && marks2[c] == marks[c])
    && (forall c :: c in marks2 && c !in marks ==> marks2[c] == now)
    && (forall c :: TabsIn(tabs, c) != {} && TabsIn(tabs2, c) == {} ==> c in marks2)
  }

  lemma MarksSame(tabs: Tabs, marks: Marks, now: int)
    ensures MarksFollow(tabs, marks, tabs, marks, now)
  {
  }

  lemma MarksTrans(tabs: Tabs, marks: Marks, tabs2: Tabs, marks2: Marks, tabs3: Tabs, marks3: Marks, now: int)
    requires MarksFollow(tabs, marks, tabs2, marks2, now) && MarksFollow(tabs2, marks2, tabs3, marks3, now)
    ensures MarksFollow(tabs, marks, tabs3, marks3, now)
  {
  }

  // --- The service --------------------------------------------------------------------

  /** How an attempt to open a tab ended. */
  datatype Opening = Opened | AtCapacity | Failed

  /** What the browser answers while a tab is opened. */
  datatype Dials = Dials(attach: bool, newTab: bool, redial: bool, newTabAgain: bool)

  class Service {
    const reg: TabRegistry
    var sessions: map<string, string>
    var containers: set<string>
    /** How often the done channel of each session ever opened was closed. */
    var closes: map<string, nat>

    /** Sessions and registry hold the same tabs in the same containers, and a session's
        channel has been closed once if it is gone and never if it is live. */
    ghost predicate Valid()
      reads this, reg
    {
      && reg.Valid()
      && sessions == SessionsOf(reg.tabs)
      && sessions.Keys <= closes.Keys
      && forall id :: id in closes ==> closes[id] == if id in sessions then 0 else 1
    }

    lemma LiveAndClosed()
      requires Valid()
      ensures sessions == SessionsOf(reg.tabs) && sessions.Keys <= closes.Keys
      ensures forall id :: id in closes ==> closes[id] == if id in sessions then 0 else 1
    {
    }

    constructor (maxTabs: int, maxPerContainer: int)
      ensures Valid() && fresh(reg) && sessions == map[] && containers == {} && closes == map[]
      ensures reg.maxTabs == maxTabs && reg.maxPerContainer == maxPerContainer
    {
      reg := new TabRegistry(maxTabs, maxPerContainer);
      sessions, containers, closes := map[], {}, map[];
    }

    twostate predicate NewlyMarked(now: int)
      reads this, reg
    {
      MarksFollow(old(reg.tabs), old(reg.emptySince), reg.tabs, reg.emptySince, now)
    }

    /** closeLocked. */
    method CloseLocked(id: string, now: int)
      requires Valid()
      modifies this`sessions, this`closes, reg`tabs, reg`perContainer, reg`emptySince
      ensures Valid() && sessions == old(sessions) - {id} && reg.tabs == old(reg.tabs) - {id}
      ensures closes == if id in old(sessions) then old(closes)[id := 1] else old(closes)
      ensures NewlyMarked(now)
    {
      if id !in sessions { return; }
      sessions := sessions - {id};
      var home, ok := reg.Remove(id, now);
      closes := closes[id := closes[id] + 1];
    }

    /** Close a set of sessions, in no particular order. */
    method CloseEach(ids: set<string>, now: int)
      requires Valid() && ids <= sessions.Keys
      modifies this`sessions, this`closes, reg`tabs, reg`perContainer, reg`emptySince
      ensures Valid() && sessions == old(sessions) - ids && reg.tabs == old(reg.tabs) - ids
      ensures closes.Keys == old(closes).Keys
      ensures NewlyMarked(now)
    {
      hide Agree, MarksFollow, TabsIn;
      var todo := ids;
      ghost var tabs0, marks0 := reg.tabs, reg.emptySince;
      MarksSame(tabs0, marks0, now);
      while todo != {}
        invariant todo <= ids && Valid()
        invariant sessions == old(sessions) - (ids - todo) && reg.tabs == old(reg.tabs) - (ids - todo)
        invariant closes.Keys == old(closes).Keys
        invariant NewlyMarked(now)
        decreases |todo|
      {
        var id :| id in todo;
        ghost var tabs1, marks1 := reg.tabs, reg.emptySince;
        CloseLocked(id, now);
        MarksTrans(tabs0, marks0, tabs1, marks1, reg.tabs, reg.emptySince, now);
        todo := todo - {id};
      }
    }

    /** supersedeContainerLocked: at the cap every session of the container goes. */
    method Supersede(c: string, now: int)
      requires Valid()
      modifies this`sessions, this`closes, reg`tabs, reg`perContainer, reg`emptySince
      ensures Valid() && closes.Keys == old(closes).Keys && NewlyMarked(now)
      ensures reg.tabs == if |TabsIn(old(reg.tabs), c)| < reg.maxPerContainer then old(reg.tabs)
                          else old(reg.tabs) - TabsIn(old(reg.tabs), c)
    {
      if Count(reg.perContainer, c) < reg.maxPerContainer { return; }
      var inside := set id | id in sessions && sessions[id] == c;
      assert inside == TabsIn(reg.tabs, c);
      CloseEach(inside, now);
    }

    /** attachSandboxLocked: reuse the cached engine, else dial. */
    method Attach(c: string, dials: bool) returns (ok: bool)
      modifies this`containers
      ensures ok == (c in old(containers) || dials)
      ensures containers == if ok then old(containers) + {c} else old(containers)
    {
      if c in containers { return true; }
      if !dials { return false; }
      containers := containers + {c};
      return true;
    }

    /** openTabInSandboxLocked: a tab that cannot be made drops the engine and dials once more. */
    method OpenTab(c: string, id: string, now: int, d: Dials) returns (ok: bool)
      requires Valid() && id !in closes
      modifies this`sessions, this`containers, this`closes, reg`tabs, reg`perContainer, reg`emptySince
      ensures Valid()
      ensures ok == ((c in old(containers) || d.attach) && (d.newTab || (d.redial && d.newTabAgain)))
      ensures reg.tabs == if ok then old(reg.tabs)[id := Tab(c, now)] else old(reg.tabs)
      ensures closes == if ok then old(closes)[id := 0] else old(closes)
      ensures containers == if ok then old(containers) + {c} else if c in old(containers) || d.attach then
                (if d.redial then old(containers) + {c} else old(containers) - {c}) else old(containers)
    {
      ok := Attach(c, d.attach);
      if !ok { return; }
      if !d.newTab {
        containers := containers - {c};
        ok := Attach(c, d.redial);
        if !ok || !d.newTabAgain { return false; }
      }
      Register(c, id, now);
      return true;
    }

    method Register(c: string, id: string, now: int)
      requires Valid() && id !in closes
      modifies this`sessions, this`closes, reg`tabs, reg`perContainer, reg`emptySince
      ensures Valid() && reg.tabs == old(reg.tabs)[id := Tab(c, now)] && closes == old(closes)[id := 0]
      ensures id in sessions
    {
      hide Agree;
      sessions := sessions[id := c];
      reg.Add(id, c, now);
      closes := closes[id := 0];
    }

    /** At the global cap, evict the least recently active tab. */
    method MakeRoom(now: int) returns (room: bool, ghost evicted: Option<string>)
      requires Valid()
      modifies this`sessions, this`closes, reg`tabs, reg`perContainer, reg`emptySince
      ensures Valid() && closes.Keys == old(closes).Keys && room == (|reg.tabs| < reg.maxTabs) && NewlyMarked(now)
      ensures evicted.Some? <==> |old(reg.tabs)| >= reg.maxTabs && old(reg.tabs) != map[]
      ensures reg.tabs == if evicted.Some? then old(reg.tabs) - {evicted.value} else old(reg.tabs)
      ensures evicted.Some? ==> evicted.value in old(reg.tabs) && |reg.tabs| == |old(reg.tabs)| - 1
      ensures evicted.Some? ==>
        forall x :: x in old(reg.tabs) ==> old(reg.tabs)[evicted.value].lastActive <= old(reg.tabs)[x].lastActive
    {
      evicted := None;
      if !reg.Full() { return true, evicted; }
      var lru := reg.Lru();
      if lru.Some? {
        OneLess(reg.tabs, lru.value);
        CloseLocked(lru.value, now);
      }
      return !reg.Full(), lru;
    }

    /** What opening does first: supersede, then make room. */
    method Prepare(c: string, now: int) returns (room: bool, ghost evicted: Option<string>)
      requires Valid()
      modifies this`sessions, this`closes, reg`tabs, reg`perContainer, reg`emptySince
      ensures Valid() && closes.Keys == old(closes).Keys && room == (|reg.tabs| < reg.maxTabs) && NewlyMarked(now)
      ensures Kept(old(reg.tabs), c, reg.maxPerContainer, evicted, reg.tabs)
      ensures reg.maxPerContainer >= 1 ==> |TabsIn(reg.tabs, c)| + 1 <= reg.maxPerContainer
      ensures var left := |Superseded(old(reg.tabs), c, reg.maxPerContainer)|;
              && (evicted.Some? <==> left >= reg.maxTabs && left > 0)
              && (!room <==> left > reg.maxTabs || (left == reg.maxTabs && left == 0))
    {
      hide Agree, MarksFollow;
      Supersede(c, now);
      ghost var left, marks := reg.tabs, reg.emptySince;
      SupersededFits(old(reg.tabs), c, reg.maxPerContainer);
      room, evicted := MakeRoom(now);
      MarksTrans(old(reg.tabs), old(reg.emptySince), left, marks, reg.tabs, reg.emptySince, now);
      FewerInside(left, reg.tabs, c);
    }

    /** The locked part of OpenInSandbox.  `id` is the identifier the new session gets. */
    method OpenInSandbox(c: string, id: string, now: int, d: Dials) returns (r: Opening, ghost evicted: Option<string>)
      requires Valid() && id !in closes
      modifies this`sessions, this`containers, this`closes, reg`tabs, reg`perContainer, reg`emptySince
      ensures Valid()
      ensures !r.AtCapacity? ==>
                (r.Opened? <==> (c in old(containers) || d.attach) && (d.newTab || (d.redial && d.newTabAgain)))
      ensures r.Opened? ==> id in sessions && sessions[id] == c && id in reg.tabs && reg.tabs[id] == Tab(c, now)
      ensures !r.Opened? ==> id !in sessions
      ensures containers == EnginesAfter(old(containers), c, r, d)
      ensures forall x :: x in closes <==> x in old(closes) || (x == id && r.Opened?)
      ensures r.Opened? ==> |reg.tabs| <= reg.maxTabs
      ensures r.Opened? && reg.maxPerContainer >= 1 ==> |TabsIn(reg.tabs, c)| <= reg.maxPerContainer
      ensures Kept(old(reg.tabs), c, reg.maxPerContainer, evicted, if r.Opened? then reg.tabs - {id} else reg.tabs)
      ensures OnlyCloses(old(sessions), Superseded(old(reg.tabs), c, reg.maxPerContainer), evicted, sessions, closes)
      ensures var left := |Superseded(old(reg.tabs), c, reg.maxPerContainer)|;
              && (evicted.Some? <==> left >= reg.maxTabs && left > 0)
              && (r.AtCapacity? <==> left > reg.maxTabs || (left == reg.maxTabs && left == 0))
    {
      hide Valid, TabsIn, Superseded, Kept, OnlyCloses;
      ghost var was := reg.tabs;
      LiveAndClosed();
      var room;
      room, evicted := Prepare(c, now);
      ghost var kept := reg.tabs;
      LiveAndClosed();
      if !room {
        SessionsFollow(was, c, reg.maxPerContainer, evicted, kept, reg.tabs, closes);
        return AtCapacity, evicted;
      }
      var ok := OpenTab(c, id, now, d);
      LiveAndClosed();
      SessionsFollow(was, c, reg.maxPerContainer, evicted, kept, reg.tabs, closes);
      if !ok { return Failed, evicted; }
      OneMore(kept, id, Tab(c, now));
      return Opened, evicted;
    }

    /** sweep: idle tabs go, then the engines of containers empty for long enough. */
    method Sweep(tabTTL: int, containerTTL: int, now: int)
      requires Valid()
      modifies this`sessions, this`containers, this`closes, reg`tabs, reg`perContainer, reg`emptySince
      ensures Valid() && closes.Keys == old(closes).Keys
      ensures reg.tabs == map id | id in old(reg.tabs) && !(tabTTL > 0 && old(reg.tabs)[id].lastActive < now - tabTTL)
                                 :: old(reg.tabs)[id]
      ensures containers <= old(containers)
      ensures forall c :: c in old(containers) && c !in containers ==>
                TabsIn(reg.tabs, c) == {} && c in old(reg.emptySince) && old(reg.emptySince)[c] < now - containerTTL
      ensures forall c :: c in old(reg.emptySince) && containerTTL > 0 && old(reg.emptySince)[c] < now - containerTTL
                ==> c !in containers && c !in reg.emptySince
      ensures forall c :: c in old(reg.emptySince) && !(containerTTL > 0 && old(reg.emptySince)[c] < now - containerTTL)
                ==> c in reg.emptySince && reg.emptySince[c] == old(reg.emptySince)[c]
      ensures forall c :: TabsIn(old(reg.tabs), c) != {} && TabsIn(reg.tabs, c) == {}
                ==> c in reg.emptySince && reg.emptySince[c] == now
    {
      var idle := reg.Idle(tabTTL, now);
      CloseEach(idle, now);
      var reapable := reg.ReapableContainers(containerTTL, now);
      Disconnect(reapable);
    }

    /** The second loop of sweep: drop the engines and forget the containers. */
    method Disconnect(names: set<string>)
      requires Valid() && forall c :: c in names ==> TabsIn(reg.tabs, c) == {}
      modifies this`containers, reg`perContainer, reg`emptySince
      ensures Valid() && containers == old(containers) - names && reg.emptySince == old(reg.emptySince) - names
    {
      var todo := names;
      while todo != {}
        invariant todo <= names && Valid()
        invariant containers == old(containers) - (names - todo)
        invariant reg.emptySince == old(reg.emptySince) - (names - todo)
        decreases |todo|
      {
        var name :| name in todo;
        containers := containers - {name};
        reg.ForgetContainer(name);
        todo := todo - {name};
      }
    }

    method SetMaxTabs(n: int) returns (ok: bool)
      requires Valid()
      modifies reg`maxTabs
      ensures Valid() && ok == (n >= 1) && reg.maxTabs == if ok then n else old(reg.maxTabs)
    {
      if n < 1 { return false; }
      reg.maxTabs := n;
      return true;
    }
  }

  /** The tabs left once the sessions of a full container are superseded. */
  ghost function Superseded(tabs: Tabs, c: string, maxPer: int): Tabs {
    if |TabsIn(tabs, c)| < maxPer then tabs else tabs - TabsIn(tabs, c)
  }

  /** The cached engines after an attempt: one that failed has dropped the engine unless it
      could be dialled, and dialled again where its first tab could not be made. */
  function EnginesAfter(containers: set<string>, c: string, r: Opening, d: Dials): set<string> {
    match r
    case AtCapacity => containers
    case Opened => containers + {c}
    case Failed =>
      if c !in containers && !d.attach then containers
      else if d.redial then containers + {c} else containers - {c}
  }

  /** What opening keeps: all tabs but the superseded ones and one least recently active. */
  ghost predicate Kept(before: Tabs, c: string, maxPer: int, evicted: Option<string>, after: Tabs) {
    var left := Superseded(before, c, maxPer);
    match evicted
    case None => after == left
    case Some(id) => && id in left && after == left - {id}
                     && forall x :: x in left ==> left[id].lastActive <= left[x].lastActive
  }

  /** The sessions of some tabs. */
  ghost function SessionsOf(tabs: Tabs): (sessions: map<string, string>)
    ensures sessions.Keys == tabs.Keys && forall id :: id in tabs ==> sessions[id] == tabs[id].container
  {
    map id | id in tabs :: tabs[id].container
  }

  /** Of the sessions there were, exactly those not left, or evicted, are gone and closed. */
  ghost predicate OnlyCloses(was: map<string, string>, left: Tabs, evicted: Option<string>,
                             sessions: map<string, string>, closes: map<string, nat>)
  {
    forall x :: x in was ==>
      && x in closes && closes[x] == (if x in sessions then 0 else 1)
      && (x in sessions <==> x in left && evicted != Some(x))
      && (x in sessions ==> sessions[x] == was[x])
  }

  lemma SessionsFollow(was: Tabs, c: string, maxPer: int, evicted: Option<string>, kept: Tabs, now: Tabs, closes: map<string, nat>)
    requires Kept(was, c, maxPer, evicted, kept) && was.Keys <= closes.Keys
    requires forall x :: x in was ==> (x in now <==> x in kept) && (x in now ==> now[x] == kept[x])
    requires forall x :: x in closes ==> closes[x] == if x in now then 0 else 1
    ensures OnlyCloses(SessionsOf(was), Superseded(was, c, maxPer), evicted, SessionsOf(now), closes)
  {
  }

  /** One more tab fits in the container exactly when its cap is at least one. */
  lemma SupersededFits(tabs: Tabs, c: string, maxPer: int)
    ensures |TabsIn(Superseded(tabs, c, maxPer), c)| + 1 <= maxPer <==> maxPer >= 1
  {
  }

  lemma FewerInside(before: Tabs, after: Tabs, c: string)
    requires forall id :: id in after ==> id in before && after[id] == before[id]
    ensures |TabsIn(after, c)| <= |TabsIn(before, c)|
  {
    assert TabsIn(before, c) == TabsIn(after, c) + (TabsIn(before, c) - TabsIn(after, c));
  }
}
