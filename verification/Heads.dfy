/** The stand-alone set of heads, advanced event by event. */
module HeadSets {
  import opened Events
  import opened CausalGraph

  function Advance(heads: set<ObjectId>, id: ObjectId, parents: seq<ObjectId>): (r: set<ObjectId>) {
    heads - (set p | p in parents) + {id}
  }

  class Heads {
    var heads: set<ObjectId>

    constructor ()
      ensures heads == {}
    {
      heads := {};
    }

    /** The parents are retired and the event becomes a head. */
    method ApplyEvent(id: ObjectId, parents: seq<ObjectId>)
      modifies this
      ensures heads == Advance(old(heads), id, parents)
    {
      for i := 0 to |parents|
        invariant heads == old(heads) - (set p | p in parents[..i])
      {
        heads := heads - {parents[i]};
      }
      heads := heads + {id};
    }
  }

  /** They differ when a child arrives before its parent: the graph knows that the parent is no head. */
  lemma ParentAfterChild(child: Event, parent: Event)
    requires child.parents == [parent.id] && parent.parents == [] && child.id != parent.id
    requires parent.lamport < child.lamport
    ensures var g := Insert(EMPTY, child);
      && Valid(g) && parent.id !in g.events && Accepts(g, parent)
      && Insert(g, parent).heads == {child.id}
      && Advance(g.heads, parent.id, parent.parents) == {child.id, parent.id}
  {
    var g := Insert(EMPTY, child);
    InsertKeepsValid(EMPTY, child);
    assert [parent.id][..0] == [] && Register(map[], [parent.id][..0], child.id) == map[];
    assert Kids(g.children, parent.id) == [child.id];
    assert (set p | p in parent.parents) == {};
  }

  /** The stand-alone update agrees with the graph exactly when nothing present, nor the event
      itself, already names the newcomer as a parent. */
  lemma AdvanceAgreesWithInsert(g: Graph, e: Event)
    requires Valid(g) && e.id !in g.events && Accepts(g, e)
    ensures Insert(g, e).heads == Advance(g.heads, e.id, e.parents)
      <==> !Named(g, e.id) && e.id !in e.parents
  {
    var r := Insert(g, e);
    InsertKeepsValid(g, e);
    assert r.events[e.id] == e;
    if e.id in r.heads {
      assert !Named(r, e.id);
      forall c | c in g.events ensures e.id !in g.events[c].parents {
        assert r.events[c] == g.events[c];
      }
    } else {
      var c :| c in r.events && e.id in r.events[c].parents;
      assert c == e.id || c in g.events;
      assert e.id in Advance(g.heads, e.id, e.parents);
    }
  }
}
