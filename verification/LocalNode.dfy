/** A node that authors but ingests nothing: through all its stops and reloads it is a store to which its events are
    applied one after the other. */
module LocalNode {
  import opened Events
  import opened CausalGraph
  import opened EventGraphs
  import opened Convergence
  import opened Reducer
  import opened Engine

  datatype Life =
    | Author(e: Event)                              // an append that runs to its end
    | Stop(order: seq<Event>)                       // the node stops and reloads its disk in some order
    | WriteAndStop(e: Event, order: seq<Event>)     // it stops once the event is on disk, and reloads

  ghost function Live(s: Engine, life: Life): Engine {
    match life
    case Author(e) => Do(s, Append(e))
    case Stop(order) => Do(s, Restart(order))
    case WriteAndStop(e, order) => Do(Do(s, Put(e)), Restart(order))
  }

  /** Events are authored on the graph as it is, and the graph accepts them. */
  ghost predicate Possible(book: ObjectId -> Event, s: Engine, life: Life) {
    match life
    case Author(e) => Enabled(book, s, Append(e)) && Succeeds(s.graph, e)
    case Stop(order) => Enabled(book, s, Restart(order))
    case WriteAndStop(e, order) =>
      Enabled(book, s, Append(e)) && Succeeds(s.graph, e) && Enabled(book, Do(s, Put(e)), Restart(order))
  }

  /** What a bare store does instead. */
  function Effect(store: Tickets, life: Life): Tickets {
    match life
    case Author(e) => Apply(store, e)
    case Stop(_) => store
    case WriteAndStop(e, _) => Apply(store, e)
  }

  /** Everything on disk is in the graph, and the cache is its reduction. */
  ghost predicate Settled(book: ObjectId -> Event, s: Engine) {
    && Inv(book, s) && s.disk == EventSet(s.graph) && s.pending == 0
    && DistinctIds(s.disk) && s.cache == State(s.disk)
  }

  lemma CausalIsConsistent(g: Graph)
    requires Keyed(g) && Causal(g)
    ensures LamportConsistent(EventSet(g))
  {
    EventSetDistinct(g);
  }

  /** A reload on a consistent disk brings everything back and shows its reduction. */
  lemma ReloadShowsDisk(book: ObjectId -> Event, s: Engine, order: seq<Event>)
    requires Inv(book, s) && Enabled(book, s, Restart(order)) && LamportConsistent(s.disk)
    ensures Settled(book, Do(s, Restart(order))) && Do(s, Restart(order)).disk == s.disk
  {
    StepKeepsInv(book, s, Restart(order));
    RestartReflects(book, s, order);
    ReloadIsInv(book, order);
    EventSetDistinct(InsertAll(order));
  }

  /** Stopping and reloading changes nothing that is shown. */
  lemma RestartIsNeutral(book: ObjectId -> Event, s: Engine, order: seq<Event>)
    requires Settled(book, s) && Enabled(book, s, Restart(order))
    ensures Settled(book, Do(s, Restart(order))) && Do(s, Restart(order)).cache == s.cache
  {
    CausalIsConsistent(s.graph);
    ReloadShowsDisk(book, s, order);
  }

  lemma AppendSettles(book: ObjectId -> Event, s: Engine, e: Event)
    requires Settled(book, s) && Enabled(book, s, Append(e)) && Succeeds(s.graph, e)
    ensures Settled(book, Do(s, Append(e))) && Do(s, Append(e)).disk == s.disk + {e}
  {
    StepKeepsInv(book, s, Append(e));
    AppendIsIncremental(book, s, e, EventSet(s.graph));
  }

  /** An event that was written ahead takes effect on reload exactly as if its append had been completed. */
  lemma WrittenAheadTakesEffect(book: ObjectId -> Event, s: Engine, e: Event, order: seq<Event>)
    requires Settled(book, s) && Possible(book, s, WriteAndStop(e, order))
    ensures Settled(book, Do(Do(s, Put(e)), Restart(order)))
    ensures Do(Do(s, Put(e)), Restart(order)).cache == Do(s, Append(e)).cache
  {
    AppendSettles(book, s, e);
    var full, s1 := Do(s, Append(e)), Do(s, Put(e));
    CausalIsConsistent(full.graph);
    StepKeepsInv(book, s, Put(e));
    assert s1.disk == full.disk;
    ReloadShowsDisk(book, s1, order);
  }

  lemma LifeIsEffect(book: ObjectId -> Event, s: Engine, life: Life)
    requires Settled(book, s) && Possible(book, s, life)
    ensures Settled(book, Live(s, life)) && Live(s, life).cache == Effect(s.cache, life)
  {
    match life {
      case Author(e) => AppendSettles(book, s, e);
      case Stop(order) => RestartIsNeutral(book, s, order);
      case WriteAndStop(e, order) => WrittenAheadTakesEffect(book, s, e, order);
    }
  }

  // ---- Whole lives ----

  ghost function LiveAll(lives: seq<Life>): Engine {
    if lives == [] then FRESH else Live(LiveAll(lives[..|lives| - 1]), lives[|lives| - 1])
  }

  function EffectAll(lives: seq<Life>): Tickets {
    if lives == [] then map[] else Effect(EffectAll(lives[..|lives| - 1]), lives[|lives| - 1])
  }

  ghost predicate AllPossible(book: ObjectId -> Event, lives: seq<Life>) {
    lives != [] ==>
      var front, life := lives[..|lives| - 1], lives[|lives| - 1];
      AllPossible(book, front) && Possible(book, LiveAll(front), life)
  }

  lemma FreshIsSettled(book: ObjectId -> Event)
    ensures Settled(book, FRESH)
  {
    assert EventSet(EMPTY) == {};
  }

  /** Whatever its stops and reload orders, the node shows its events applied in the order of authoring. */
  lemma {:induction false} LocalNodeIsAStore(book: ObjectId -> Event, lives: seq<Life>)
    requires AllPossible(book, lives)
    ensures Settled(book, LiveAll(lives)) && LiveAll(lives).cache == EffectAll(lives)
  {
    if lives == [] {
      FreshIsSettled(book);
    } else {
      LocalNodeIsAStore(book, lives[..|lives| - 1]);
      LifeIsEffect(book, LiveAll(lives[..|lives| - 1]), lives[|lives| - 1]);
    }
  }
}
