/**
 What the load balancer's indexes hold, told from the reports alone: which container is cached for a definition, and
 which containers a worker lists.
 */
module LbHistory {
  import opened Wrappers
  import opened LbCatalogue

  /** The container last cached for the definition under that id and not removed, nor its worker evicted, since. */
  function Surviving(events: seq<Event>, d: Definition, id: ContId): Option<Container> {
    if events == [] then None
    else
      var front, e := events[..|events| - 1], events[|events| - 1];
      var before := Surviving(front, d, id);
      match e
      case Registers(_) => before
      case Adds(f, cont) => if f == d && cont.id == id && cont.worker in After(front).desks then Some(cont) else before
      case Removes(w, f, x) => if f == d && x == id && w in After(front).desks then None else before
      case Evicts(w) => if before.Some? && before.value.worker == w && w in After(front).live then None else before
  }

  /** The container last added by the worker under that id, for whatever definition, if none was removed since. */
  function Listed(events: seq<Event>, w: WorkerId, id: ContId): Option<Container> {
    if events == [] then None
    else
      var front, e := events[..|events| - 1], events[|events| - 1];
      var before := Listed(front, w, id);
      match e
      case Adds(_, cont) => if cont.worker == w && cont.id == id && w in After(front).desks then Some(cont) else before
      case Removes(v, _, x) => if v == w && x == id then None else before
      case _ => before
  }

  function CachedIn(c: Catalogue, d: Definition, id: ContId): Option<Container> {
    if IsCached(c, d, id) then Some(c.cached[d][id]) else None
  }

  function ListedIn(c: Catalogue, w: WorkerId, id: ContId): Option<Container> {
    if w in c.desks && id in c.desks[w].containers then Some(c.desks[w].containers[id]) else None
  }

  lemma AddCachedIn(c: Catalogue, f: Definition, cont: Container, d: Definition, id: ContId)
    requires cont.worker in c.desks
    ensures CachedIn(Add(c, f, cont), d, id) == if f == d && cont.id == id then Some(cont) else CachedIn(c, d, id)
  {
  }

  lemma RemoveCachedIn(c: Catalogue, w: WorkerId, f: Definition, x: ContId, d: Definition, id: ContId)
    requires w in c.desks
    ensures CachedIn(Remove(c, w, f, x), d, id) == if f == d && x == id then None else CachedIn(c, d, id)
  {
    if d in c.cached && id in c.cached[d] && (f != d || x != id) {
      assert f == d ==> id in c.cached[d] - {x};
    }
  }

  lemma EvictCachedIn(c: Catalogue, w: WorkerId, d: Definition, id: ContId)
    requires w in c.desks && DeskIsComplete(c, w)
    ensures var before := CachedIn(c, d, id);
            CachedIn(Evict(c, w), d, id) == if before.Some? && before.value.worker == w then None else before
  {
    EvictForgets(c, w);
    var defs := c.desks[w].scripts.Keys;
    if IsCached(c, d, id) && c.cached[d][id].worker != w {
      assert id in WithoutOwner(c.cached[d], w);
    }
    if IsCached(Evict(c, w), d, id) {
      assert Evict(c, w).cached[d][id] == c.cached[d][id];
    }
  }

  /** While the counters agree, what is cached is what the reports leave. */
  lemma {:induction false} CachedExactly(events: seq<Event>, d: Definition, id: ContId)
    requires forall n: nat :: n <= |events| ==> Agrees(After(events[..n]))
    ensures CachedIn(After(events), d, id) == Surviving(events, d, id)
  {
    hide Agrees, Add, Remove, Evict, Register, After, CachedIn, DeskIsComplete;
    if events == [] {
      NothingCached(d, id);
    } else {
      var n := |events| - 1;
      var front, e := events[..n], events[n];
      forall m: nat | m <= n ensures Agrees(After(front[..m])) {
        assert front[..m] == events[..m];
      }
      CachedExactly(front, d, id);
      AfterLast(events);
      assert Agrees(After(events[..n]));
      LiveDesks(After(front));
      match e
      case Registers(w) => RegisterKeeps(After(front), w, d, id);
      case Adds(f, cont) =>
        if cont.worker in After(front).desks { AddCachedIn(After(front), f, cont, d, id); }
      case Removes(w, f, x) =>
        if w in After(front).desks { RemoveCachedIn(After(front), w, f, x, d, id); }
      case Evicts(w) =>
        if w in After(front).live {
          DeskNamesAll(After(front), w);
          EvictCachedIn(After(front), w, d, id);
        }
    }
  }

  lemma NothingCached(d: Definition, id: ContId)
    ensures CachedIn(After([]), d, id) == None
  {
  }

  lemma RegisterKeeps(c: Catalogue, w: WorkerId, d: Definition, id: ContId)
    ensures CachedIn(Register(c, w), d, id) == CachedIn(c, d, id)
  {
  }

  lemma AddListedIn(c: Catalogue, f: Definition, cont: Container, w: WorkerId, id: ContId)
    requires cont.worker in c.desks
    ensures ListedIn(Add(c, f, cont), w, id) ==
              if cont.worker == w && cont.id == id then Some(cont) else ListedIn(c, w, id)
  {
    hide AddCached, AddIndex;
  }

  lemma RemoveListedIn(c: Catalogue, v: WorkerId, f: Definition, x: ContId, w: WorkerId, id: ContId)
    requires v in c.desks
    ensures ListedIn(Remove(c, v, f, x), w, id) == if v == w && x == id then None else ListedIn(c, w, id)
  {
    hide RemoveCached, RemoveIndex;
  }

  /** In every run: a worker lists a container if and only if it was the last it reported about that id. */
  lemma {:induction false} ListedExactly(events: seq<Event>, w: WorkerId, id: ContId)
    ensures ListedIn(After(events), w, id) == Listed(events, w, id)
  {
    hide Add, Remove, Evict, Register, After, ListedIn;
    if events == [] {
      NothingListed(w, id);
    } else {
      var front, e := events[..|events| - 1], events[|events| - 1];
      ListedExactly(front, w, id);
      AfterLast(events);
      var c := After(front);
      match e
      case Registers(v) => if v !in c.desks { RegisterLists(c, v, w, id); }
      case Adds(f, cont) => if cont.worker in c.desks { AddListedIn(c, f, cont, w, id); }
      case Removes(v, f, x) => if v in c.desks { RemoveListedIn(c, v, f, x, w, id); } else { NotThere(c, v, x); }
      case Evicts(v) => if v in c.desks { EvictLists(c, v, w, id); }
    }
  }

  lemma NothingListed(w: WorkerId, id: ContId)
    ensures ListedIn(After([]), w, id) == None
  {
  }

  lemma NotThere(c: Catalogue, w: WorkerId, id: ContId)
    requires w !in c.desks
    ensures ListedIn(c, w, id) == None
  {
  }

  lemma RegisterLists(c: Catalogue, v: WorkerId, w: WorkerId, id: ContId)
    requires v !in c.desks
    ensures ListedIn(Register(c, v), w, id) == ListedIn(c, w, id)
  {
  }

  lemma EvictLists(c: Catalogue, v: WorkerId, w: WorkerId, id: ContId)
    requires v in c.desks
    ensures ListedIn(Evict(c, v), w, id) == ListedIn(c, w, id)
  {
  }
}
