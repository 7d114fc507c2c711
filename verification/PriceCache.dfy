/** The cache of model prices in front of the model_costs table. A lookup that misses queries the
table without holding the cache, and stores what it found later; a refresh lists the table and
swaps the cache later. Edits and other callers come in between. */
module PriceCache {
  import opened Model

  datatype Cost = Cost(inputPerMillion: Money, outputPerMillion: Money)

  type PriceTable = map<string, Cost>

  /** Strips a version suffix such as -2024-07-18, -20240229 or -v1; an id without one is
      returned as it is. */
  type Strip = string -> string

  type Caller = nat

  /** The lookup without a cache: the exact id, else the id without its version suffix. */
  function Uncached(table: PriceTable, strip: Strip, modelId: string): Option<Cost> {
    if modelId in table then Some(table[modelId])
    else if strip(modelId) != modelId && strip(modelId) in table then Some(table[strip(modelId)])
    else None
  }

  /** `expiresAt` is None until something is cached (Go's zero time). `storedAt` records when
      each entry was stored. */
  datatype Cache = Cache(
    costs: map<string, Cost>,
    expiresAt: Option<Instant>,
    ttl: nat,
    storedAt: map<string, Instant>)
  {
    /** now.Before(expiresAt) */
    predicate Live(now: Instant) {
      expiresAt.Some? && now < expiresAt.value
    }

    /** now.After(expiresAt) */
    predicate Expired(now: Instant) {
      expiresAt.None? || now > expiresAt.value
    }

    predicate Hits(modelId: string, now: Instant) {
      Live(now) && modelId in costs
    }
  }

  function Store(c: Cache, modelId: string, cost: Cost, now: Instant): Cache {
    c.(costs := c.costs[modelId := cost],
       storedAt := c.storedAt[modelId := now],
       expiresAt := if c.Expired(now) then Some(now + c.ttl) else c.expiresAt)
  }

  function Refreshed(c: Cache, table: PriceTable, now: Instant): Cache {
    c.(costs := table, storedAt := map m | m in table :: now, expiresAt := Some(now + c.ttl))
  }

  /** Where a price was read: the tables of the exact query and of the query that found it. */
  datatype Source = Source(first: nat, last: nat)

  /** A lookup under way: the exact query found nothing, or a price was found. */
  datatype Reading =
    | Missed(modelId: string, at: nat)
    | Found(modelId: string, cost: Cost, source: Source)

  /** - `Ask`: consult the cache and, on a miss, query the exact id.
      - `AskBase`: query the id without its suffix.
      - `Put`: store what was found and return it.
      - `List`, `Swap`: the two halves of a refresh. */
  datatype Event =
    | Ask(caller: Caller, modelId: string, now: Instant)
    | AskBase(caller: Caller)
    | Put(caller: Caller, now: Instant)
    | List
    | Swap(now: Instant)
    | Edit(table: PriceTable)

  /** `history` holds every table so far, the current one last; `since` is the one that the last
      refresh listed, `listing` the one that the refresh under way has listed, and `sources`
      where the cached prices were read. */
  datatype World = World(
    cache: Cache,
    history: seq<PriceTable>,
    since: nat,
    sources: map<string, Source>,
    readings: map<Caller, Reading>,
    listing: Option<nat>,
    clock: Instant)

  function Current(w: World): PriceTable
    requires w.history != []
  {
    w.history[|w.history| - 1]
  }

  function Start(table: PriceTable, ttl: nat): World {
    World(Cache(map[], None, ttl, map[]), [table], 0, map[], map[], None, 0)
  }

  function Happen(w: World, strip: Strip, e: Event): World
    requires w.history != []
  {
    var now := |w.history| - 1;
    match e
    case Ask(c, m, t) =>
      var asked := w.(clock := t);
      if c in w.readings || w.cache.Hits(m, t) then asked
      else if m in Current(w) then asked.(readings := w.readings[c := Found(m, Current(w)[m], Source(now, now))])
      else if strip(m) != m then asked.(readings := w.readings[c := Missed(m, now)])
      else asked
    case AskBase(c) =>
      if c !in w.readings || !w.readings[c].Missed? then w
      else
        var r := w.readings[c];
        if strip(r.modelId) in Current(w)
        then w.(readings := w.readings[c := Found(r.modelId, Current(w)[strip(r.modelId)], Source(r.at, now))])
        else w.(readings := w.readings - {c})
    case Put(c, t) =>
      if c !in w.readings || !w.readings[c].Found? then w.(clock := t)
      else
        var r := w.readings[c];
        w.(cache := Store(w.cache, r.modelId, r.cost, t), sources := w.sources[r.modelId := r.source],
           readings := w.readings - {c}, clock := t)
    case List => w.(listing := Some(now))
    case Swap(t) =>
      if w.listing.None? || w.listing.value >= |w.history| then w.(clock := t)
      else
        var at := w.listing.value;
        w.(cache := Refreshed(w.cache, w.history[at], t), sources := map m | m in w.history[at] :: Source(at, at),
           since := at, listing := None, clock := t)
    case Edit(table) => w.(history := w.history + [table])
  }

  function After(w: World, strip: Strip, events: seq<Event>): (r: World)
    requires w.history != []
    ensures r.history != []
  {
    if events == [] then w
    else Happen(After(w, strip, events[..|events| - 1]), strip, events[|events| - 1])
  }

  lemma OneMoreEvent(w: World, strip: Strip, events: seq<Event>, e: Event)
    requires w.history != []
    ensures After(w, strip, events + [e]) == Happen(After(w, strip, events), strip, e)
    ensures TimelyRun(w, strip, events + [e]) <==>
      TimelyRun(w, strip, events) && Timely(After(w, strip, events), e)
  {
    assert (events + [e])[..|events|] == events;
  }

  // ---------- where prices come from ----------

  /** The price is what the queries of a lookup answer on the tables of its source. */
  ghost predicate ReadFrom(history: seq<PriceTable>, strip: Strip, m: string, cost: Cost, s: Source) {
    && s.first <= s.last < |history|
    && (|| (s.first == s.last && m in history[s.last] && history[s.last][m] == cost)
        || (m !in history[s.first] && strip(m) != m && strip(m) in history[s.last] && history[s.last][strip(m)] == cost))
  }

  /** The exact id came in between the two queries, with another price. */
  predicate Torn(history: seq<PriceTable>, m: string, cost: Cost, s: Source)
    requires s.last < |history|
  {
    s.first < s.last && m in history[s.last] && history[s.last][m] != cost
  }

  ghost predicate ReadingIsSound(history: seq<PriceTable>, strip: Strip, r: Reading) {
    match r
    case Missed(m, at) => at < |history| && m !in history[at] && strip(m) != m
    case Found(m, cost, s) => ReadFrom(history, strip, m, cost, s)
  }

  ghost predicate EntriesAreSound(w: World, strip: Strip) {
    && w.sources.Keys == w.cache.costs.Keys
    && forall m :: m in w.cache.costs ==> ReadFrom(w.history, strip, m, w.cache.costs[m], w.sources[m])
  }

  /** Every price in the cache, and every one about to be stored, has a source. */
  ghost predicate Sound(w: World, strip: Strip) {
    && w.history != [] && w.since < |w.history|
    && EntriesAreSound(w, strip)
    && (forall c :: c in w.readings ==> ReadingIsSound(w.history, strip, w.readings[c]))
    && (w.listing.Some? ==> w.since <= w.listing.value < |w.history|)
  }

  lemma StaysRead(history: seq<PriceTable>, table: PriceTable, strip: Strip, m: string, cost: Cost, src: Source)
    requires ReadFrom(history, strip, m, cost, src)
    ensures ReadFrom(history + [table], strip, m, cost, src)
  {
    assert forall k :: 0 <= k < |history| ==> (history + [table])[k] == history[k];
  }

  lemma EditKeepsSound(w: World, strip: Strip, table: PriceTable)
    requires Sound(w, strip)
    ensures Sound(w.(history := w.history + [table]), strip)
  {
    forall m | m in w.cache.costs
      ensures ReadFrom(w.history + [table], strip, m, w.cache.costs[m], w.sources[m])
    {
      StaysRead(w.history, table, strip, m, w.cache.costs[m], w.sources[m]);
    }
    forall c | c in w.readings
      ensures ReadingIsSound(w.history + [table], strip, w.readings[c])
    {
      var r := w.readings[c];
      assert ReadingIsSound(w.history, strip, r);
      if r.Found? {
        StaysRead(w.history, table, strip, r.modelId, r.cost, r.source);
      } else {
        assert (w.history + [table])[r.at] == w.history[r.at];
      }
    }
  }

  lemma PutKeepsSound(w: World, strip: Strip, c: Caller, now: Instant)
    requires Sound(w, strip)
    ensures Sound(Happen(w, strip, Put(c, now)), strip)
  {
    hide ReadFrom;
    if c in w.readings && w.readings[c].Found? {
      assert ReadingIsSound(w.history, strip, w.readings[c]);
    }
  }

  lemma QueryKeepsSound(w: World, strip: Strip, e: Event)
    requires Sound(w, strip) && (e.Ask? || e.AskBase?)
    ensures Sound(Happen(w, strip, e), strip)
  {
    hide EntriesAreSound;
    if e.caller in w.readings {
      assert ReadingIsSound(w.history, strip, w.readings[e.caller]);
    }
    var after := Happen(w, strip, e);
    forall c | c in after.readings
      ensures ReadingIsSound(after.history, strip, after.readings[c])
    {
      if c != e.caller {
        assert ReadingIsSound(w.history, strip, w.readings[c]);
      }
    }
    UnchangedEntries(w, after, strip);
  }

  lemma UnchangedEntries(w: World, after: World, strip: Strip)
    requires EntriesAreSound(w, strip)
    requires after.cache == w.cache && after.sources == w.sources && after.history == w.history
    ensures EntriesAreSound(after, strip)
  {}

  lemma RefreshKeepsSound(w: World, strip: Strip, e: Event)
    requires Sound(w, strip) && (e.List? || e.Swap?)
    ensures Sound(Happen(w, strip, e), strip)
  {
    hide ReadingIsSound;
  }

  lemma HappenKeepsSound(w: World, strip: Strip, e: Event)
    requires Sound(w, strip)
    ensures Sound(Happen(w, strip, e), strip)
  {
    match e
    case Edit(table) => EditKeepsSound(w, strip, table);
    case Put(c, now) => PutKeepsSound(w, strip, c, now);
    case Ask(_, _, _) => QueryKeepsSound(w, strip, e);
    case AskBase(_) => QueryKeepsSound(w, strip, e);
    case _ => RefreshKeepsSound(w, strip, e);
    hide Sound, ReadFrom;
  }

  lemma {:induction false} RunIsSound(table: PriceTable, ttl: nat, strip: Strip, events: seq<Event>)
    ensures Sound(After(Start(table, ttl), strip, events), strip)
  {
    RunKeepsSound(Start(table, ttl), strip, events);
  }

  lemma {:induction false} RunKeepsSound(w: World, strip: Strip, events: seq<Event>)
    requires Sound(w, strip)
    ensures Sound(After(w, strip, events), strip)
  {
    if events != [] {
      RunKeepsSound(w, strip, events[..|events| - 1]);
      hide Happen;
      HappenKeepsSound(After(w, strip, events[..|events| - 1]), strip, events[|events| - 1]);
    }
  }

  // ---------- when an answer is true ----------

  /** The uncached lookup gives this price on some table since the last refresh. */
  ghost predicate WasTrue(w: World, strip: Strip, m: string, cost: Cost) {
    exists k :: w.since <= k < |w.history| && Uncached(w.history[k], strip, m) == Some(cost)
  }

  /** It was read from tables older than what the last refresh listed. */
  predicate Late(w: World, s: Source) {
    s.last < w.since
  }

  /** Every table since the last refresh prices the model differently. */
  ghost predicate PricedDifferently(w: World, strip: Strip, m: string, cost: Cost) {
    forall k :: w.since <= k < |w.history| ==> Uncached(w.history[k], strip, m) != Some(cost)
  }

  lemma TrueWhereFound(history: seq<PriceTable>, strip: Strip, m: string, cost: Cost, s: Source)
    requires ReadFrom(history, strip, m, cost, s) && !Torn(history, m, cost, s)
    ensures Uncached(history[s.last], strip, m) == Some(cost)
  {}

  /** A refresh listed the table after the price was read, or the exact id came in between its
      two queries; and every table since that refresh prices the model differently. */
  ghost predicate Outdated(w: World, strip: Strip, m: string, cost: Cost, s: Source)
    requires s.last < |w.history|
  {
    (Late(w, s) || Torn(w.history, m, cost, s)) && PricedDifferently(w, strip, m, cost)
  }

  lemma TrueUnlessOutdated(w: World, strip: Strip, m: string, cost: Cost, s: Source)
    requires ReadFrom(w.history, strip, m, cost, s)
    ensures WasTrue(w, strip, m, cost) <==> !Outdated(w, strip, m, cost, s)
  {
    if !Late(w, s) && !Torn(w.history, m, cost, s) {
      TrueWhereFound(w.history, strip, m, cost, s);
    }
  }

  ghost predicate SourcesAreKept(w: World) {
    && w.sources.Keys == w.cache.costs.Keys
    && (forall m :: m in w.sources ==> w.sources[m].last < |w.history|)
    && (forall c :: c in w.readings && w.readings[c].Found? ==> w.readings[c].source.last < |w.history|)
  }

  /** In every run, every cached price, and every price a lookup is about to store and return,
      was the uncached lookup at some moment since the last refresh, unless it is outdated. */
  lemma {:induction false} AnswersAreTrueIff(table: PriceTable, ttl: nat, strip: Strip, events: seq<Event>)
    ensures SourcesAreKept(After(Start(table, ttl), strip, events))
    ensures var w := After(Start(table, ttl), strip, events);
      forall m :: m in w.cache.costs ==>
        (WasTrue(w, strip, m, w.cache.costs[m]) <==> !Outdated(w, strip, m, w.cache.costs[m], w.sources[m]))
    ensures var w := After(Start(table, ttl), strip, events);
      forall c :: c in w.readings && w.readings[c].Found? ==>
        var r := w.readings[c];
        (WasTrue(w, strip, r.modelId, r.cost) <==> !Outdated(w, strip, r.modelId, r.cost, r.source))
  {
    var w := After(Start(table, ttl), strip, events);
    RunIsSound(table, ttl, strip, events);
    hide WasTrue, Outdated, After;
    forall m | m in w.cache.costs
      ensures WasTrue(w, strip, m, w.cache.costs[m]) <==> !Outdated(w, strip, m, w.cache.costs[m], w.sources[m])
    {
      TrueUnlessOutdated(w, strip, m, w.cache.costs[m], w.sources[m]);
    }
    forall c | c in w.readings && w.readings[c].Found?
      ensures var r := w.readings[c];
        WasTrue(w, strip, r.modelId, r.cost) <==> !Outdated(w, strip, r.modelId, r.cost, r.source)
    {
      var r := w.readings[c];
      assert ReadingIsSound(w.history, strip, r);
      TrueUnlessOutdated(w, strip, r.modelId, r.cost, r.source);
    }
  }

  // ---------- what must have happened ----------

  function AskedAt(r: Reading): nat {
    match r
    case Missed(_, at) => at
    case Found(_, _, s) => s.first
  }

  function LastQuery(r: Reading): nat {
    match r
    case Missed(_, at) => at
    case Found(_, _, s) => s.last
  }

  predicate Queries(e: Event, c: Caller) {
    (e.Ask? || e.AskBase?) && e.caller == c
  }

  /** The last query of a lookup under way. */
  lemma {:induction false} LookupQueried(w: World, strip: Strip, events: seq<Event>, c: Caller) returns (i: nat)
    requires w.history != [] && w.readings == map[] && c in After(w, strip, events).readings
    ensures i < |events| && Queries(events[i], c)
  {
    var pre, e := events[..|events| - 1], events[|events| - 1];
    if Queries(e, c) {
      i := |pre|;
    } else {
      i := LookupQueried(w, strip, pre, c);
    }
  }

  predicate IsListedLater(w: World, c: Caller) {
    c in w.readings && w.listing.Some? && LastQuery(w.readings[c]) < w.listing.value
  }

  predicate IsLateLookup(w: World, c: Caller) {
    c in w.readings && LastQuery(w.readings[c]) < w.since
  }

  lemma StepListed(w: World, strip: Strip, e: Event, c: Caller)
    requires Sound(w, strip) && IsListedLater(Happen(w, strip, e), c)
    ensures c in w.readings && (e.List? || IsListedLater(w, c))
  {
    hide EntriesAreSound, ReadingIsSound, Store, Refreshed;
  }

  lemma StepLate(w: World, strip: Strip, e: Event, c: Caller)
    requires Sound(w, strip) && IsLateLookup(Happen(w, strip, e), c)
    ensures IsLateLookup(w, c) || (e.Swap? && IsListedLater(w, c))
  {
    hide EntriesAreSound, ReadingIsSound, Store, Refreshed;
  }

  /** A table was listed after the lookup's last query, by a refresh that is under way. */
  lemma {:induction false} ListedAfterQuery(w: World, strip: Strip, events: seq<Event>, c: Caller) returns (i: nat, l: nat)
    requires Sound(w, strip) && w.readings == map[] && IsListedLater(After(w, strip, events), c)
    ensures i < l < |events| && Queries(events[i], c) && events[l].List?
  {
    var pre, e := events[..|events| - 1], events[|events| - 1];
    RunKeepsSound(w, strip, pre);
    hide Happen, Sound;
    StepListed(After(w, strip, pre), strip, e, c);
    if e.List? {
      i := LookupQueried(w, strip, pre, c);
      l := |pre|;
    } else {
      i, l := ListedAfterQuery(w, strip, pre, c);
    }
  }

  lemma LastEvent(w: World, strip: Strip, events: seq<Event>)
    requires w.history != [] && events != []
    ensures After(w, strip, events) == Happen(After(w, strip, events[..|events| - 1]), strip, events[|events| - 1])
  {}

  /** The last event, if the lookup was not late before: the swap of a refresh that had listed
      the table later. */
  lemma {:induction false} LateSinceSwap(w: World, strip: Strip, events: seq<Event>, c: Caller)
    requires Sound(w, strip) && w.readings == map[] && IsLateLookup(After(w, strip, events), c)
    ensures events != []
    ensures var pre, e := events[..|events| - 1], events[|events| - 1];
      IsLateLookup(After(w, strip, pre), c) || (e.Swap? && IsListedLater(After(w, strip, pre), c))
  {
    assert events != [];
    RunKeepsSound(w, strip, events[..|events| - 1]);
    LastEvent(w, strip, events);
    hide Happen, After, IsLateLookup, IsListedLater, Sound;
    StepLate(After(w, strip, events[..|events| - 1]), strip, events[|events| - 1], c);
  }

  /** A lookup is late only because a refresh listed the table after its last query and has
      swapped the cache since. */
  lemma {:induction false} LateLookupWasOvertaken(w: World, strip: Strip, events: seq<Event>, c: Caller)
    returns (i: nat, l: nat, s: nat)
    requires w.history != [] && Sound(w, strip) && w.readings == map[] && IsLateLookup(After(w, strip, events), c)
    ensures i < l < s < |events| && Queries(events[i], c) && events[l].List? && events[s].Swap?
  {
    hide Happen, Sound, After, IsLateLookup, IsListedLater;
    LateSinceSwap(w, strip, events, c);
    var pre := events[..|events| - 1];
    if IsLateLookup(After(w, strip, pre), c) {
      i, l, s := LateLookupWasOvertaken(w, strip, pre, c);
    } else {
      i, l := ListedAfterQuery(w, strip, pre, c);
      s := |pre|;
    }
    assert Queries(events[i], c) && events[l].List? && events[s].Swap?;
  }

  predicate IsLateEntry(w: World, m: string) {
    m in w.sources && Late(w, w.sources[m])
  }

  /** The event stores what a late lookup found for the model. */
  predicate StoresLate(w: World, e: Event, m: string) {
    && e.Put? && IsLateLookup(w, e.caller)
    && w.readings[e.caller].Found? && w.readings[e.caller].modelId == m
  }

  lemma StepLateEntry(w: World, strip: Strip, e: Event, m: string)
    requires Sound(w, strip) && IsLateEntry(Happen(w, strip, e), m)
    ensures IsLateEntry(w, m) || StoresLate(w, e, m)
  {}

  /** A late entry was stored by a lookup that was late already. */
  lemma {:induction false} LateEntryWasLateLookup(w: World, strip: Strip, events: seq<Event>, m: string) returns (p: nat)
    requires Sound(w, strip) && w.sources == map[] && IsLateEntry(After(w, strip, events), m)
    ensures p < |events| && StoresLate(After(w, strip, events[..p]), events[p], m)
  {
    var pre, e := events[..|events| - 1], events[|events| - 1];
    RunKeepsSound(w, strip, pre);
    hide Happen, Sound, StoresLate;
    StepLateEntry(After(w, strip, pre), strip, e, m);
    if IsLateEntry(After(w, strip, pre), m) {
      p := LateEntryWasLateLookup(w, strip, pre, m);
      assert pre[..p] == events[..p];
    } else {
      p := |pre|;
    }
  }

  // ---------- undisturbed lookups ----------

  /** No edit and no swap comes in between the halves of a lookup. */
  ghost predicate Undisturbed(w: World, strip: Strip, events: seq<Event>)
    requires w.history != []
  {
    forall i :: 0 <= i < |events| && (events[i].Edit? || events[i].Swap?) ==> After(w, strip, events[..i]).readings == map[]
  }

  ghost predicate Timeless(w: World) {
    && w.history != [] && w.since < |w.history|
    && (forall m :: m in w.sources ==> w.sources[m].first == w.sources[m].last && w.since <= w.sources[m].last)
    && (forall c :: c in w.readings ==> AskedAt(w.readings[c]) == LastQuery(w.readings[c]) == |w.history| - 1)
  }

  lemma StepIsTimeless(w: World, strip: Strip, e: Event)
    requires Sound(w, strip) && Timeless(w) && (e.Edit? || e.Swap? ==> w.readings == map[])
    ensures Timeless(Happen(w, strip, e))
  {
    hide EntriesAreSound, ReadingIsSound, Store, Refreshed;
  }

  lemma {:induction false} UndisturbedIsTimeless(w: World, strip: Strip, events: seq<Event>)
    requires Sound(w, strip) && Timeless(w) && Undisturbed(w, strip, events)
    ensures Timeless(After(w, strip, events))
  {
    if events != [] {
      var pre, e := events[..|events| - 1], events[|events| - 1];
      hide Happen, Timeless, Sound;
      forall i | 0 <= i < |pre| && (pre[i].Edit? || pre[i].Swap?)
        ensures After(w, strip, pre[..i]).readings == map[]
      {
        assert pre[..i] == events[..i];
      }
      UndisturbedIsTimeless(w, strip, pre);
      RunKeepsSound(w, strip, pre);
      assert events[..|pre|] == pre;
      StepIsTimeless(After(w, strip, pre), strip, e);
    }
  }

  /** Then every answer is the uncached lookup at some moment since the last refresh, and the
      current one if the table has not changed since then. */
  lemma {:induction false} AnswersWereTrue(table: PriceTable, ttl: nat, strip: Strip, events: seq<Event>, m: string)
    requires Undisturbed(Start(table, ttl), strip, events) && m in After(Start(table, ttl), strip, events).cache.costs
    ensures var w := After(Start(table, ttl), strip, events);
      && WasTrue(w, strip, m, w.cache.costs[m])
      && ((forall k :: w.since <= k < |w.history| ==> w.history[k] == Current(w)) ==>
            Uncached(Current(w), strip, m) == Some(w.cache.costs[m]))
  {
    UndisturbedIsTimeless(Start(table, ttl), strip, events);
    RunIsSound(table, ttl, strip, events);
    var w := After(Start(table, ttl), strip, events);
    TrueUnlessOutdated(w, strip, m, w.cache.costs[m], w.sources[m]);
  }

  // ---------- lookups that are overtaken ----------

  /** A lookup reads the old price; it is edited, a refresh lists and swaps; the lookup stores.
      The cache then answers a price that was true at no moment since the refresh. */
  lemma LatePriceSurvivesRefresh(m: string, before: Cost, now: Cost, strip: Strip, ttl: nat) returns (events: seq<Event>)
    requires before != now && ttl > 0
    ensures var start := Start(map[m := before], ttl);
      var w := After(start, strip, events);
      && TimelyRun(start, strip, events) && w.readings == map[]
      && w.cache.Hits(m, w.clock) && w.cache.costs[m] == before && !WasTrue(w, strip, m, before)
  {
    var start := Start(map[m := before], ttl);
    assert After(start, strip, []) == start;
    OneMoreEvent(start, strip, [], Ask(0, m, 0));
    var e1 := [] + [Ask(0, m, 0)];
    OneMoreEvent(start, strip, e1, Edit(map[m := now]));
    var e2 := e1 + [Edit(map[m := now])];
    OneMoreEvent(start, strip, e2, List);
    var e3 := e2 + [List];
    OneMoreEvent(start, strip, e3, Swap(0));
    var e4 := e3 + [Swap(0)];
    OneMoreEvent(start, strip, e4, Put(0, 0));
    events := e4 + [Put(0, 0)];
    hide After, TimelyRun;
    assert After(start, strip, e1) == start.(readings := map[0 := Found(m, before, Source(0, 0))]);
    var w := After(start, strip, events);
    assert w.history == [map[m := before], map[m := now]] && w.since == 1;
  }

  /** The exact id comes in, and the price of the stripped id changes, between the two queries:
      the answer is a price that the table never gave. */
  lemma TornPriceWasNeverTrue(m: string, base: string, first: Cost, second: Cost, exact: Cost, strip: Strip, ttl: nat)
    returns (events: seq<Event>)
    requires strip(m) == base != m && second != first && second != exact
    ensures var start := Start(map[base := first], ttl);
      var w := After(start, strip, events);
      && 0 in w.readings && w.readings[0].Found? && w.readings[0].modelId == m && w.readings[0].cost == second
      && forall k :: 0 <= k < |w.history| ==> Uncached(w.history[k], strip, m) != Some(second)
  {
    var start := Start(map[base := first], ttl);
    var table := map[base := second, m := exact];
    assert After(start, strip, []) == start;
    OneMoreEvent(start, strip, [], Ask(0, m, 0));
    var e1 := [] + [Ask(0, m, 0)];
    OneMoreEvent(start, strip, e1, Edit(table));
    var e2 := e1 + [Edit(table)];
    OneMoreEvent(start, strip, e2, AskBase(0));
    events := e2 + [AskBase(0)];
    hide After, TimelyRun;
    assert After(start, strip, e1) == start.(readings := map[0 := Missed(m, 0)]);
    assert After(start, strip, events).history == [map[base := first], table];
  }

  // ---------- the time to live ----------

  /** Time does not run backwards. */
  predicate Timely(w: World, e: Event) {
    match e
    case Ask(_, _, now) => w.clock <= now
    case Put(_, now) => w.clock <= now
    case Swap(now) => w.clock <= now
    case _ => true
  }

  predicate TimelyRun(w: World, strip: Strip, events: seq<Event>)
    requires w.history != []
  {
    events == [] ||
    (TimelyRun(w, strip, events[..|events| - 1])
     && Timely(After(w, strip, events[..|events| - 1]), events[|events| - 1]))
  }

  /** The entries were stored before the deadline, and the deadline was set before now. */
  ghost predicate Dated(w: World) {
    && w.cache.storedAt.Keys == w.cache.costs.Keys
    && (w.cache.expiresAt.None? ==> w.cache.costs == map[])
    && (w.cache.expiresAt.Some? ==> w.cache.expiresAt.value - w.cache.ttl <= w.clock)
    && forall m :: m in w.cache.costs ==> w.cache.storedAt[m] <= w.cache.expiresAt.value
  }

  lemma HappenKeepsDated(w: World, strip: Strip, e: Event)
    requires w.history != [] && Dated(w) && Timely(w, e)
    ensures Dated(Happen(w, strip, e))
  {}

  lemma {:induction false} RunIsDated(table: PriceTable, ttl: nat, strip: Strip, events: seq<Event>)
    requires TimelyRun(Start(table, ttl), strip, events)
    ensures Dated(After(Start(table, ttl), strip, events))
  {
    if events != [] {
      RunIsDated(table, ttl, strip, events[..|events| - 1]);
      HappenKeepsDated(After(Start(table, ttl), strip, events[..|events| - 1]), strip, events[|events| - 1]);
    }
  }

  /** No answer from the cache was stored as long ago as the ttl. */
  ghost predicate WithinTtl(c: Cache)
    requires c.storedAt.Keys == c.costs.Keys
  {
    forall m, now :: c.Hits(m, now) ==> now - c.storedAt[m] < c.ttl
  }

  lemma WithinTtlMeans(c: Cache)
    requires c.storedAt.Keys == c.costs.Keys
    ensures WithinTtl(c) <==>
      forall m :: m in c.costs && c.expiresAt.Some? ==> c.expiresAt.value - c.ttl <= c.storedAt[m]
  {
    if WithinTtl(c) {
      forall m | m in c.costs && c.expiresAt.Some?
        ensures c.expiresAt.value - c.ttl <= c.storedAt[m]
      {
        assert c.Hits(m, c.expiresAt.value - 1);
      }
    }
  }

  /** A lookup stores its price after the deadline while other models are cached. */
  predicate RenewsOthers(w: World, e: Event) {
    && e.Put? && e.caller in w.readings && w.readings[e.caller].Found?
    && w.cache.Expired(e.now)
    && exists other :: other in w.cache.costs && other != w.readings[e.caller].modelId
  }

  /** A ttl bound on every answer survives an event exactly when the event is no such store: it
      renews the other entries too. */
  lemma TtlBoundSurvivesIff(w: World, strip: Strip, e: Event)
    requires w.history != [] && Dated(w) && Timely(w, e) && WithinTtl(w.cache)
    ensures Dated(Happen(w, strip, e))
    ensures WithinTtl(Happen(w, strip, e).cache) <==> !RenewsOthers(w, e)
  {
    var after := Happen(w, strip, e).cache;
    WithinTtlMeans(w.cache);
    WithinTtlMeans(after);
    if RenewsOthers(w, e) {
      var other :| other in w.cache.costs && other != w.readings[e.caller].modelId;
      assert after.storedAt[other] == w.cache.storedAt[other] <= w.cache.expiresAt.value < e.now;
    }
  }

  /** `a` is still answered with a price that the table no longer has, `b` is priced, nothing is
      under way, and the deadline has just been renewed. */
  ghost predicate Stale(w: World, a: string, b: string, before: Cost) {
    && w.history != [] && w.readings == map[]
    && w.cache.storedAt.Keys == w.cache.costs.Keys
    && a in w.cache.costs && w.cache.costs[a] == before && w.cache.storedAt[a] == 0
    && a in Current(w) && Current(w)[a] != before && b in Current(w)
    && w.cache.expiresAt == Some(w.clock + w.cache.ttl)
  }

  lemma StaleAsks(w: World, strip: Strip, a: string, b: string, before: Cost, t: Instant)
    requires Stale(w, a, b, before) && t == w.clock + w.cache.ttl + 1
    ensures Timely(w, Ask(0, b, t))
    ensures Happen(w, strip, Ask(0, b, t))
      == w.(clock := t, readings := map[0 := Found(b, Current(w)[b], Source(|w.history| - 1, |w.history| - 1))])
  {}

  lemma StaleAgain(w: World, strip: Strip, a: string, b: string, before: Cost)
    requires Stale(w, a, b, before) && a != b
    ensures var t := w.clock + w.cache.ttl + 1;
      var asked := Happen(w, strip, Ask(0, b, t));
      var w' := Happen(asked, strip, Put(0, t));
      && Timely(w, Ask(0, b, t)) && Timely(asked, Put(0, t))
      && Stale(w', a, b, before) && w'.clock == t && w'.cache.ttl == w.cache.ttl
  {
    var t := w.clock + w.cache.ttl + 1;
    StaleAsks(w, strip, a, b, before, t);
    var asked := w.(clock := t, readings := map[0 := Found(b, Current(w)[b], Source(|w.history| - 1, |w.history| - 1))]);
    var w' := Happen(asked, strip, Put(0, t));
    assert w'.cache == Store(w.cache, b, Current(w)[b], t) && w'.history == w.history && w'.readings == map[];
  }

  lemma StaleOnce(a: string, b: string, before: Cost, now: Cost, strip: Strip, ttl: nat) returns (events: seq<Event>)
    requires a != b && before != now
    ensures var start := Start(map[a := before, b := now], ttl);
      var w := After(start, strip, events);
      TimelyRun(start, strip, events) && Stale(w, a, b, before) && w.clock == 0 && w.cache.ttl == ttl
  {
    var start := Start(map[a := before, b := now], ttl);
    var edit := Edit(map[a := now, b := now]);
    assert After(start, strip, []) == start;
    OneMoreEvent(start, strip, [], Ask(0, a, 0));
    var e1 := [] + [Ask(0, a, 0)];
    OneMoreEvent(start, strip, e1, Put(0, 0));
    var e2 := e1 + [Put(0, 0)];
    OneMoreEvent(start, strip, e2, edit);
    events := e2 + [edit];
    hide After, TimelyRun;
    assert After(start, strip, e1) == start.(readings := map[0 := Found(a, before, Source(0, 0))]);
    assert After(start, strip, e2).readings == map[];
  }

  /** Looking up another model just after each deadline keeps the entry stale for as long as
      one likes. */
  lemma {:induction false} StaysStale(start: World, strip: Strip, earlier: seq<Event>, a: string, b: string, before: Cost, n: nat)
    returns (events: seq<Event>)
    requires start.history != [] && TimelyRun(start, strip, earlier) && a != b
    requires Stale(After(start, strip, earlier), a, b, before) && After(start, strip, earlier).clock >= 0
    ensures TimelyRun(start, strip, events) && Stale(After(start, strip, events), a, b, before)
    ensures After(start, strip, events).clock >= n
    ensures After(start, strip, events).cache.ttl == After(start, strip, earlier).cache.ttl
  {
    events := earlier;
    if n > 0 {
      events := StaysStale(start, strip, earlier, a, b, before, n - 1);
      var w := After(start, strip, events);
      var t := w.clock + w.cache.ttl + 1;
      StaleAgain(w, strip, a, b, before);
      OneMoreEvent(start, strip, events, Ask(0, b, t));
      OneMoreEvent(start, strip, events + [Ask(0, b, t)], Put(0, t));
      hide After, TimelyRun, Timely, Stale, Happen;
      events := events + [Ask(0, b, t)] + [Put(0, t)];
    }
  }

  /** So there is no bound on the age of an answer, even with undisturbed lookups: for any ttl a
      price that was edited away at time 0 can still be the answer after time n. */
  lemma {:induction false} AnswersCanBeArbitrarilyOld(a: string, b: string, before: Cost, now: Cost, strip: Strip, ttl: nat, n: nat)
    returns (events: seq<Event>)
    requires a != b && ttl > 0 && before != now
    ensures var start := Start(map[a := before, b := now], ttl);
      var w := After(start, strip, events);
      && TimelyRun(start, strip, events) && w.clock >= n
      && w.cache.Hits(a, w.clock) && a in w.cache.storedAt && w.cache.storedAt[a] == 0
      && Some(w.cache.costs[a]) == Some(before) != Uncached(Current(w), strip, a)
  {
    var earlier := StaleOnce(a, b, before, now, strip, ttl);
    hide After, TimelyRun;
    events := StaysStale(Start(map[a := before, b := now], ttl), strip, earlier, a, b, before, n);
  }

  // ---------- the cache in place ----------

  class ModelCostCache {
    var costs: map<string, Cost>
    var expiresAt: Option<Instant>
    const ttl: nat
    ghost var storedAt: map<string, Instant>

    ghost function Contents(): Cache
      reads this
    {
      Cache(costs, expiresAt, ttl, storedAt)
    }

    constructor (ttl: nat)
      ensures Contents() == Cache(map[], None, ttl, map[])
    {
      this.ttl := ttl;
      costs, expiresAt, storedAt := map[], None, map[];
    }

    /** The first half of a lookup: the cached price, if the deadline has not passed. */
    method Consult(modelId: string, now: Instant) returns (cost: Option<Cost>)
      ensures cost.Some? <==> Contents().Hits(modelId, now)
      ensures cost.Some? <==> modelId in costs && expiresAt.Some? && now < expiresAt.value
      ensures cost.Some? ==> cost.value == costs[modelId]
    {
      if expiresAt.Some? && now < expiresAt.value && modelId in costs {
        return Some(costs[modelId]);
      }
      return None;
    }

    /** The second half: what the queries found, however long ago. */
    method Remember(modelId: string, cost: Cost, now: Instant)
      modifies this
      ensures Contents() == Store(old(Contents()), modelId, cost, now)
      ensures costs == old(costs)[modelId := cost]
      ensures expiresAt == if old(expiresAt).None? || now > old(expiresAt).value then Some(now + ttl) else old(expiresAt)
    {
      costs := costs[modelId := cost];
      storedAt := storedAt[modelId := now];
      if expiresAt.None? || now > expiresAt.value {
        expiresAt := Some(now + ttl);
      }
    }

    /** GetModelCost with nothing in between: the two queries see one table. */
    method GetModelCost(table: PriceTable, strip: Strip, modelId: string, asked: Instant, stored: Instant)
      returns (cost: Option<Cost>)
      modifies this
      ensures cost == if old(Contents()).Hits(modelId, asked) then Some(old(costs)[modelId]) else Uncached(table, strip, modelId)
      ensures !old(Contents()).Hits(modelId, asked) ==>
        && (modelId in table ==> cost == Some(table[modelId]))
        && (modelId !in table && strip(modelId) in table ==> cost == Some(table[strip(modelId)]))
        && (modelId !in table && strip(modelId) !in table ==> cost.None?)
      ensures Contents() ==
        if old(Contents()).Hits(modelId, asked) || cost.None? then old(Contents())
        else Store(old(Contents()), modelId, cost.value, stored)
    {
      cost := Consult(modelId, asked);
      if cost.Some? {
        return;
      }
      if modelId in table {
        cost := Some(table[modelId]);
      } else {
        var base := strip(modelId);
        if base != modelId && base in table {
          cost := Some(table[base]);
        }
      }
      if cost.Some? {
        Remember(modelId, cost.value, stored);
      }
    }

    /** RefreshModelCostCache with the rows it listed. */
    method RefreshModelCostCache(listed: PriceTable, at: Instant)
      modifies this
      ensures Contents() == Refreshed(old(Contents()), listed, at)
      ensures costs == listed && expiresAt == Some(at + ttl)
    {
      costs := listed;
      storedAt := map m | m in listed :: at;
      expiresAt := Some(at + ttl);
    }
  }
}
