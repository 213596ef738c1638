/** The prepared-statement cache: reference counts, one preparation per query,
    and a generation that retires what was being prepared when it closed. Each
    function below is one locked section; threads interleave them. */
module Prepared {
  import opened Counts
  import opened Queues

  datatype Option<T> = None | Some(value: T)

  /** closes counts how often its statement was closed; call is the one that
      prepared it. */
  datatype Entry = Entry(refs: int, retired: bool, closes: nat, call: nat)

  datatype Call = Call(waiters: int, generation: nat, complete: bool, entry: Option<nat>)

  /** Entries and calls are known by their position; order has the queries kept,
      the least recently used first. */
  datatype Cache = Cache(
    max: nat, items: map<string, nat>, order: seq<string>, preparing: map<string, nat>, generation: nat,
    entries: seq<Entry>, calls: seq<Call>)

  function New(max: nat): Cache {
    Cache(max, map[], [], map[], 0, [], [])
  }

  // --- the locked sections ---

  function SetEntry(c: Cache, e: nat, entry: Entry): Cache
    requires e < |c.entries|
  {
    c.(entries := c.entries[e := entry])
  }

  function Released(entry: Entry): Entry {
    var refs := entry.refs - 1;
    entry.(refs := refs, closes := entry.closes + if refs == 0 && entry.retired then 1 else 0)
  }

  function Retired(entry: Entry): Entry {
    entry.(retired := true, closes := entry.closes + if entry.refs == 0 then 1 else 0)
  }

  function Hit(c: Cache, query: string): Cache
    requires query in c.items && c.items[query] < |c.entries|
  {
    var e := c.items[query];
    SetEntry(c, e, c.entries[e].(refs := c.entries[e].refs + 1)).(order := Without(c.order, query) + [query])
  }

  function Join(c: Cache, query: string): Cache
    requires query in c.preparing && c.preparing[query] < |c.calls|
  {
    var k := c.preparing[query];
    c.(calls := c.calls[k := c.calls[k].(waiters := c.calls[k].waiters + 1)])
  }

  function Start(c: Cache, query: string): Cache {
    c.(calls := c.calls + [Call(1, c.generation, false, None)], preparing := c.preparing[query := |c.calls|])
  }

  function FinishError(c: Cache, query: string, k: nat): Cache
    requires k < |c.calls|
  {
    c.(calls := c.calls[k := c.calls[k].(complete := true)], preparing := c.preparing - {query})
  }

  /** The least recently used entry goes, when there is no room. */
  function Evict(c: Cache): Cache {
    if |c.order| >= c.max && c.order != [] && c.order[0] in c.items && c.items[c.order[0]] < |c.entries| then
      var e := c.items[c.order[0]];
      SetEntry(c, e, Retired(c.entries[e])).(items := c.items - {c.order[0]}, order := c.order[1..])
    else c
  }

  /** The call is complete, with the entry e. */
  function Complete(c: Cache, query: string, k: nat, entry: Entry): Cache
    requires k < |c.calls|
  {
    c.(calls := c.calls[k := c.calls[k].(complete := true, entry := Some(|c.entries|))],
       preparing := c.preparing - {query}, entries := c.entries + [entry])
  }

  function FinishSuccess(c: Cache, query: string, k: nat): Cache
    requires k < |c.calls|
  {
    var entry := Entry(c.calls[k].waiters, false, 0, k);
    if c.calls[k].generation == c.generation then
      var kept := Evict(c);
      Complete(kept, query, k, entry).(items := kept.items[query := |c.entries|], order := kept.order + [query])
    else Complete(c, query, k, entry.(retired := true))
  }

  /** A stale plan's entry is dropped, unless it already was. */
  function Fail(c: Cache, query: string, e: nat): Cache
    requires e < |c.entries|
  {
    if query in c.items && c.items[query] == e then
      SetEntry(c, e, Retired(c.entries[e])).(items := c.items - {query}, order := Without(c.order, query))
    else c
  }

  function Cancel(c: Cache, k: nat): Cache
    requires k < |c.calls|
  {
    var call := c.calls[k];
    var left := c.(calls := c.calls[k := call.(waiters := call.waiters - 1)]);
    if call.complete && call.entry.Some? && call.entry.value < |c.entries| then
      SetEntry(left, call.entry.value, Released(c.entries[call.entry.value]))
    else left
  }

  function Release(c: Cache, e: nat): Cache
    requires e < |c.entries|
  {
    SetEntry(c, e, Released(c.entries[e]))
  }

  function CloseAll(c: Cache): Cache {
    c.(generation := c.generation + 1, items := map[], order := [],
       entries := seq(|c.entries|, e requires 0 <= e < |c.entries| =>
                        if e in c.items.Values then Retired(c.entries[e]) else c.entries[e]))
  }

  // --- threads ---

  datatype Thread = Preparing(query: string, call: nat) | Waiting(call: nat) | Holding(entry: nat)

  datatype State = State(cache: Cache, threads: map<nat, Thread>)

  datatype Step =
    | Enter(t: nat, query: string)
    | PrepareFails(t: nat)
    | PrepareSucceeds(t: nat)
    | Wake(t: nat)
    | Abandon(t: nat)
    | Leave(t: nat)
    | Stale(t: nat, query: string)
    | CloseCache

  /** A thread's claim on entry e of call k. */
  function Claims(e: nat, k: nat): Thread -> bool {
    (t: Thread) => t == Holding(e) || t == Waiting(k)
  }

  /** The threads on call k. */
  function OnCall(k: nat): Thread -> bool {
    (t: Thread) => t == Waiting(k) || (t.Preparing? && t.call == k)
  }

  // --- what every step keeps ---

  /** A statement is closed, once, exactly when its entry is retired and nobody
      holds or waits for it. */
  predicate ClosedRight(entry: Entry) {
    entry.refs >= 0 && entry.closes == if entry.retired && entry.refs == 0 then 1 else 0
  }

  ghost predicate EntryRight(s: State, e: nat)
    requires e < |s.cache.entries|
  {
    var entry := s.cache.entries[e];
    && ClosedRight(entry)
    && entry.refs == Count(Claims(e, entry.call), s.threads)
    && entry.call < |s.cache.calls| && s.cache.calls[entry.call].complete && s.cache.calls[entry.call].entry == Some(e)
  }

  ghost predicate CallRight(s: State, k: nat)
    requires k < |s.cache.calls|
  {
    var call := s.cache.calls[k];
    if call.complete then call.entry.Some? ==>
        call.entry.value < |s.cache.entries| && s.cache.entries[call.entry.value].call == k
    else call.entry.None? && call.waiters == Count(OnCall(k), s.threads)
  }

  /** Each kept entry is of one query and not retired; every other is retired. */
  ghost predicate Kept(c: Cache) {
    && (forall q :: q in c.items ==> c.items[q] < |c.entries| && !c.entries[c.items[q]].retired)
    && (forall q, r :: q in c.items && r in c.items && c.items[q] == c.items[r] ==> q == r)
    && (forall e :: 0 <= e < |c.entries| && !c.entries[e].retired ==> e in c.items.Values)
  }

  ghost predicate PreparingRight(c: Cache) {
    && (forall q :: q in c.preparing ==>
       q !in c.items && c.preparing[q] < |c.calls| && !c.calls[c.preparing[q]].complete)
    && (forall q, r :: q in c.preparing && r in c.preparing && c.preparing[q] == c.preparing[r] ==> q == r)
  }

  ghost predicate ThreadRight(s: State, t: nat)
    requires t in s.threads
  {
    match s.threads[t]
    case Preparing(q, k) => q in s.cache.preparing && s.cache.preparing[q] == k
    case Waiting(k) => k < |s.cache.calls|
    case Holding(e) => e < |s.cache.entries|
  }

  ghost predicate ThreadsRight(s: State) {
    && (forall t :: t in s.threads ==> ThreadRight(s, t))
    && (forall t, u :: t in s.threads && u in s.threads && s.threads[t].Preparing? && s.threads[u].Preparing? ==>
          s.threads[t].call == s.threads[u].call ==> t == u)
  }

  ghost predicate EntriesRight(s: State) {
    forall e :: 0 <= e < |s.cache.entries| ==> EntryRight(s, e)
  }

  ghost predicate CallsRight(s: State) {
    forall k :: 0 <= k < |s.cache.calls| ==> CallRight(s, k)
  }

  /** At most max entries are kept, each listed once. */
  ghost predicate OrderRight(c: Cache) {
    c.max > 0 && |c.order| <= c.max && Lists(c.order, c.items.Keys)
  }

  ghost predicate Sound(s: State) {
    && OrderRight(s.cache) && Kept(s.cache) && PreparingRight(s.cache)
    && ThreadsRight(s) && EntriesRight(s) && CallsRight(s)
  }

  // --- the steps ---

  function Put(s: State, c: Cache, t: nat, thread: Thread): State {
    State(c, s.threads[t := thread])
  }

  function Drop(s: State, c: Cache, t: nat): State {
    State(c, s.threads - {t})
  }

  /** A call that ended is left with its entry, or with none. */
  function Woken(s: State, t: nat, call: Call): State {
    if !call.complete then s
    else if call.entry.None? then Drop(s, s.cache, t)
    else Put(s, s.cache, t, Holding(call.entry.value))
  }

  function Entered(s: State, t: nat, q: string): State
    requires Sound(s)
  {
    var c := s.cache;
    if q in c.items then Put(s, Hit(c, q), t, Holding(c.items[q]))
    else if q in c.preparing then Put(s, Join(c, q), t, Waiting(c.preparing[q]))
    else Put(s, Start(c, q), t, Preparing(q, |c.calls|))
  }

  /** What thread t does next. */
  function Acted(s: State, t: nat, step: Step): State
    requires Sound(s) && t in s.threads
  {
    var c := s.cache;
    assert ThreadRight(s, t);
    match s.threads[t]
    case Preparing(q, k) =>
      if step.PrepareFails? then Drop(s, FinishError(c, q, k), t)
      else if step.PrepareSucceeds? then Put(s, FinishSuccess(c, q, k), t, Holding(|c.entries|))
      else s
    case Waiting(k) =>
      if step.Wake? then Woken(s, t, c.calls[k])
      else if step.Abandon? then Drop(s, Cancel(c, k), t)
      else s
    case Holding(e) =>
      if step.Leave? then Drop(s, Release(c, e), t)
      else if step.Stale? then State(Fail(c, step.query, e), s.threads)
      else s
  }

  /** A step its thread cannot take changes nothing. */
  function Next(s: State, step: Step): State
    requires Sound(s)
  {
    match step
    case CloseCache => State(CloseAll(s.cache), s.threads)
    case Enter(t, q) => if t in s.threads then s else Entered(s, t, q)
    case _ => if step.t in s.threads then Acted(s, step.t, step) else s
  }
}
