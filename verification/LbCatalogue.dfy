/**
 The load balancer's indexes of cached containers.  Server keeps, per definition, the cached containers
 and, per script index, a count per worker; each Worker keeps a reference count per definition.
 Definition.Hash and Index.Hash are injective, so definitions and indexes are used as their own keys.
 */
module LbCatalogue {

  type WorkerId = string
  type ContId = string

  /** workerContainersCached */
  type CacheMap = map<Definition, map<ContId, Container>>

  /** workersByIndex */
  type IndexMap = map<Index, map<WorkerId, int>>

  datatype Index = Index(runtime: string, sourceHash: string, userID: string)

  datatype Definition = Definition(index: Index, environment: string, entrypoint: string, mCPU: nat, async: nat)

  datatype Container = Container(id: ContId, worker: WorkerId)

  /** The per-worker index. */
  datatype Desk = Desk(
    scripts: map<Definition, Definition>,
    refs: map<Definition, int>,
    containers: map<ContId, Container>)

  /** Both server maps and the desks of all workers; `live` are those not yet evicted. */
  datatype Catalogue = Catalogue(
    cached: CacheMap,
    byIndex: IndexMap,
    desks: map<WorkerId, Desk>,
    live: set<WorkerId>)

  const EmptyDesk := Desk(map[], map[], map[])
  const Empty := Catalogue(map[], map[], map[], {})

  // ---- What the operations do ----

  function AddToDesk(k: Desk, d: Definition, cont: Container): Desk {
    Desk(k.scripts[d := d],
         k.refs[d := (if d in k.refs then k.refs[d] else 0) + 1],
         k.containers[cont.id := cont])
  }

  function RemoveFromDesk(k: Desk, d: Definition, id: ContId): Desk {
    var rest := k.containers - {id};
    if d in k.refs && k.refs[d] > 1 then
      Desk(k.scripts[d := d], k.refs[d := k.refs[d] - 1], rest)
    else
      Desk(k.scripts - {d}, k.refs - {d}, rest)
  }

  function AddCached(m: CacheMap, d: Definition, cont: Container): CacheMap {
    m[d := (if d in m then m[d] else map[])[cont.id := cont]]
  }

  function RemoveCached(m: CacheMap, d: Definition, id: ContId): CacheMap {
    if d !in m then m
    else if m[d] - {id} == map[] then m - {d}
    else m[d := m[d] - {id}]
  }

  function AddIndex(m: IndexMap, i: Index, w: WorkerId): IndexMap {
    var inner := if i in m then m[i] else map[];
    m[i := inner[w := (if w in inner then inner[w] else 0) + 1]]
  }

  function RemoveIndex(m: IndexMap, i: Index, w: WorkerId): IndexMap {
    if i !in m then m
    else
      var inner :=
        if w !in m[i] then m[i] else if m[i][w] <= 1 then m[i] - {w} else m[i][w := m[i][w] - 1];
      if inner == map[] then m - {i} else m[i := inner]
  }

  function Register(c: Catalogue, w: WorkerId): Catalogue {
    c.(desks := c.desks[w := EmptyDesk], live := c.live + {w})
  }

  function Add(c: Catalogue, d: Definition, cont: Container): Catalogue
    requires cont.worker in c.desks
  {
    c.(desks := c.desks[cont.worker := AddToDesk(c.desks[cont.worker], d, cont)],
       cached := AddCached(c.cached, d, cont),
       byIndex := AddIndex(c.byIndex, d.index, cont.worker))
  }

  function Remove(c: Catalogue, w: WorkerId, d: Definition, id: ContId): Catalogue
    requires w in c.desks
  {
    c.(desks := c.desks[w := RemoveFromDesk(c.desks[w], d, id)],
       cached := RemoveCached(c.cached, d, id),
       byIndex := RemoveIndex(c.byIndex, d.index, w))
  }

  function WithoutOwner(m: map<ContId, Container>, w: WorkerId): map<ContId, Container> {
    map id | id in m && m[id].worker != w :: m[id]
  }

  /** Eviction touches only the definitions the worker still refers to. */
  function EvictCached(m: CacheMap, defs: set<Definition>, w: WorkerId): CacheMap {
    map d | d in m && (d in defs ==> WithoutOwner(m[d], w) != map[]) ::
      if d in defs then WithoutOwner(m[d], w) else m[d]
  }

  function EvictIndex(m: IndexMap, defs: set<Definition>, w: WorkerId): IndexMap {
    map i | i in m && (Touches(defs, i) ==> m[i] - {w} != map[]) :: if Touches(defs, i) then m[i] - {w} else m[i]
  }

  function Evict(c: Catalogue, w: WorkerId): Catalogue
    requires w in c.desks
  {
    var defs := c.desks[w].scripts.Keys;
    c.(cached := EvictCached(c.cached, defs, w), byIndex := EvictIndex(c.byIndex, defs, w), live := c.live - {w})
  }

  predicate Touches(defs: set<Definition>, i: Index) {
    exists d :: d in defs && d.index == i
  }

  // ---- What the indexes should say ----

  ghost function Owned(c: Catalogue, w: WorkerId, d: Definition): set<ContId> {
    if d in c.cached then set id | id in c.cached[d] && c.cached[d][id].worker == w else {}
  }

  ghost function OwnedUnder(c: Catalogue, w: WorkerId, i: Index): set<(Definition, ContId)> {
    set d, id | d in c.cached && d.index == i && id in c.cached[d] && c.cached[d][id].worker == w :: (d, id)
  }

  function RefOf(c: Catalogue, w: WorkerId, d: Definition): int {
    if w in c.desks && d in c.desks[w].refs then c.desks[w].refs[d] else 0
  }

  function IndexRefOf(c: Catalogue, i: Index, w: WorkerId): int {
    if i in c.byIndex && w in c.byIndex[i] then c.byIndex[i][w] else 0
  }

  ghost predicate MapsHealthy(c: Catalogue) {
    && (forall d :: d in c.cached ==> c.cached[d] != map[])
    && (forall i :: i in c.byIndex ==> c.byIndex[i] != map[])
    && (forall i, w :: i in c.byIndex && w in c.byIndex[i] ==> 1 <= c.byIndex[i][w])
  }

  ghost predicate DeskHealthy(k: Desk) {
    && k.scripts.Keys == k.refs.Keys
    && (forall d :: d in k.scripts ==> k.scripts[d] == d)
    && (forall d :: d in k.refs ==> 1 <= k.refs[d])
  }

  /** Holds in every run: nothing empty or zero is kept, and both desk maps have the same keys. */
  ghost predicate Healthy(c: Catalogue) {
    && c.live <= c.desks.Keys
    && MapsHealthy(c)
    && (forall w :: w in c.desks ==> DeskHealthy(c.desks[w]))
  }

  ghost predicate AgreesOn(c: Catalogue, w: WorkerId) {
    && (forall d :: RefOf(c, w, d) == |Owned(c, w, d)|)
    && (forall i :: IndexRefOf(c, i, w) == |OwnedUnder(c, w, i)|)
  }

  ghost predicate OwnersLive(c: Catalogue) {
    && (forall d, id :: d in c.cached && id in c.cached[d] ==> c.cached[d][id].worker in c.live)
    && (forall i, w :: i in c.byIndex && w in c.byIndex[i] ==> w in c.live)
  }

  /** The counters are the numbers of cached containers, and only live workers are referred to. */
  ghost predicate Agrees(c: Catalogue) {
    && Healthy(c)
    && OwnersLive(c)
    && (forall w :: w in c.live ==> AgreesOn(c, w))
  }

  predicate IsCached(c: Catalogue, d: Definition, id: ContId) {
    d in c.cached && id in c.cached[d]
  }

  // ---- Every run: Healthy ----

  lemma AddMaps(c: Catalogue, d: Definition, cont: Container)
    requires MapsHealthy(c) && cont.worker in c.desks
    ensures MapsHealthy(Add(c, d, cont))
  {
    var r := Add(c, d, cont);
    assert cont.id in r.cached[d];
    assert cont.worker in r.byIndex[d.index];
  }

  lemma RemoveMaps(c: Catalogue, w: WorkerId, d: Definition, id: ContId)
    requires MapsHealthy(c) && w in c.desks
    ensures MapsHealthy(Remove(c, w, d, id))
  {
  }

  lemma DeskSteps(k: Desk, d: Definition, cont: Container, id: ContId)
    requires DeskHealthy(k)
    ensures DeskHealthy(AddToDesk(k, d, cont)) && DeskHealthy(RemoveFromDesk(k, d, id))
  {
  }

  lemma AddHealthy(c: Catalogue, d: Definition, cont: Container)
    requires Healthy(c) && cont.worker in c.desks
    ensures Healthy(Add(c, d, cont))
  {
    hide MapsHealthy, DeskHealthy, AddToDesk, AddCached, AddIndex;
    AddMaps(c, d, cont);
    DeskSteps(c.desks[cont.worker], d, cont, cont.id);
  }

  lemma RemoveHealthy(c: Catalogue, w: WorkerId, d: Definition, id: ContId)
    requires Healthy(c) && w in c.desks
    ensures Healthy(Remove(c, w, d, id))
  {
    hide MapsHealthy, DeskHealthy, RemoveFromDesk, RemoveCached, RemoveIndex;
    RemoveMaps(c, w, d, id);
    DeskSteps(c.desks[w], d, Container(id, w), id);
  }

  lemma EvictHealthy(c: Catalogue, w: WorkerId)
    requires Healthy(c) && w in c.desks
    ensures Healthy(Evict(c, w))
  {
  }

  // ---- How the sets of cached containers change ----

  lemma AddOwned(c: Catalogue, d: Definition, cont: Container, w: WorkerId, e: Definition)
    requires cont.worker in c.desks
    ensures Owned(Add(c, d, cont), w, e) ==
              if e != d then Owned(c, w, e)
              else if w == cont.worker then Owned(c, w, e) + {cont.id}
              else Owned(c, w, e) - {cont.id}
  {
  }

  lemma AddOwnedUnder(c: Catalogue, d: Definition, cont: Container, w: WorkerId, i: Index)
    requires cont.worker in c.desks
    ensures OwnedUnder(Add(c, d, cont), w, i) ==
              if i == d.index && w == cont.worker then OwnedUnder(c, w, i) + {(d, cont.id)}
              else OwnedUnder(c, w, i) - {(d, cont.id)}
  {
  }

  lemma RemoveOwned(c: Catalogue, v: WorkerId, d: Definition, id: ContId, w: WorkerId, e: Definition)
    requires v in c.desks
    ensures Owned(Remove(c, v, d, id), w, e) == if e == d then Owned(c, w, e) - {id} else Owned(c, w, e)
  {
    if d in c.cached {
      forall x | x in Owned(c, w, d) && x != id ensures x in Owned(Remove(c, v, d, id), w, d) {
        assert x in c.cached[d] - {id};
      }
    }
  }

  lemma RemoveOwnedUnder(c: Catalogue, v: WorkerId, d: Definition, id: ContId, w: WorkerId, i: Index)
    requires v in c.desks
    ensures OwnedUnder(Remove(c, v, d, id), w, i) == OwnedUnder(c, w, i) - {(d, id)}
  {
    var r := Remove(c, v, d, id);
    forall p | p in OwnedUnder(c, w, i) && p != (d, id) ensures p in OwnedUnder(r, w, i) {
      if p.0 == d { assert p.1 in c.cached[d] - {id}; }
    }
  }

  lemma OwnedIn(c: Catalogue, w: WorkerId, d: Definition, id: ContId)
    ensures id in Owned(c, w, d) <==> IsCached(c, d, id) && c.cached[d][id].worker == w
    ensures (d, id) in OwnedUnder(c, w, d.index) <==> id in Owned(c, w, d)
  {
  }

  // ---- How the counters change ----

  lemma AddRefs(c: Catalogue, d: Definition, cont: Container, w: WorkerId)
    requires cont.worker in c.desks
    ensures forall e :: RefOf(Add(c, d, cont), w, e) == RefOf(c, w, e) + (if e == d && w == cont.worker then 1 else 0)
    ensures forall i :: IndexRefOf(Add(c, d, cont), i, w) ==
                          IndexRefOf(c, i, w) + (if i == d.index && w == cont.worker then 1 else 0)
  {
  }

  lemma RemoveIndexRef(m: IndexMap, k: Index, v: WorkerId, i: Index, w: WorkerId)
    requires forall j, u :: j in m && u in m[j] ==> 1 <= m[j][u]
    ensures var r := RemoveIndex(m, k, v);
            (if i in r && w in r[i] then r[i][w] else 0) ==
              (if i in m && w in m[i] then m[i][w] else 0) - (if i == k && w == v && k in m && v in m[k] then 1 else 0)
  {
    if k in m && w in m[k] && v in m[k] {
      assert 1 <= m[k][v] && v in m[k][v := m[k][v] - 1];
      if w != v { assert w in m[k] - {v} && w in m[k][v := m[k][v] - 1]; }
    }
  }

  lemma RemoveRefs(c: Catalogue, v: WorkerId, d: Definition, id: ContId, w: WorkerId)
    requires Healthy(c) && v in c.desks
    ensures forall e :: RefOf(Remove(c, v, d, id), w, e) ==
                          RefOf(c, w, e) - (if e == d && w == v && RefOf(c, v, d) != 0 then 1 else 0)
    ensures forall i :: IndexRefOf(Remove(c, v, d, id), i, w) ==
                          IndexRefOf(c, i, w)
                            - (if i == d.index && w == v && IndexRefOf(c, d.index, v) != 0 then 1 else 0)
  {
    forall i ensures IndexRefOf(Remove(c, v, d, id), i, w) ==
                       IndexRefOf(c, i, w) - (if i == d.index && w == v && IndexRefOf(c, d.index, v) != 0 then 1 else 0)
    {
      RemoveIndexRef(c.byIndex, d.index, v, i, w);
    }
  }

  lemma EvictRefs(c: Catalogue, w: WorkerId, v: WorkerId)
    requires w in c.desks && v != w
    ensures forall e :: RefOf(Evict(c, w), v, e) == RefOf(c, v, e)
    ensures forall i :: IndexRefOf(Evict(c, w), i, v) == IndexRefOf(c, i, v)
  {
    forall i ensures IndexRefOf(Evict(c, w), i, v) == IndexRefOf(c, i, v) {
      if i in c.byIndex && v in c.byIndex[i] { assert v in c.byIndex[i] - {w}; }
    }
  }

  lemma AddOwners(c: Catalogue, d: Definition, cont: Container)
    requires cont.worker in c.desks && cont.worker in c.live
    requires OwnersLive(c)
    ensures OwnersLive(Add(c, d, cont))
  {
  }

  lemma RemoveOwners(c: Catalogue, w: WorkerId, d: Definition, id: ContId)
    requires w in c.desks && OwnersLive(c)
    ensures OwnersLive(Remove(c, w, d, id))
  {
  }

  // ---- Agreement ----

  lemma AddAgreesOn(c: Catalogue, d: Definition, cont: Container, w: WorkerId)
    requires AgreesOn(c, w) && cont.worker in c.desks && !IsCached(c, d, cont.id)
    ensures AgreesOn(Add(c, d, cont), w)
  {
    hide Add, Owned, OwnedUnder, RefOf, IndexRefOf;
    var r := Add(c, d, cont);
    OwnedIn(c, w, d, cont.id);
    AddRefs(c, d, cont, w);
    forall e ensures RefOf(r, w, e) == |Owned(r, w, e)| { AddOwned(c, d, cont, w, e); }
    forall i ensures IndexRefOf(r, i, w) == |OwnedUnder(r, w, i)| {
      AddOwnedUnder(c, d, cont, w, i);
      if i != d.index { OtherIndex(c, w, d, cont.id, i); }
    }
  }

  lemma AddTwice(c: Catalogue, d: Definition, cont: Container)
    requires cont.worker in c.desks && IsCached(c, d, cont.id) && AgreesOn(c, c.cached[d][cont.id].worker)
    ensures !AgreesOn(Add(c, d, cont), c.cached[d][cont.id].worker)
  {
    hide Add, Owned, OwnedUnder, RefOf, IndexRefOf;
    var r, owner := Add(c, d, cont), c.cached[d][cont.id].worker;
    AddOwned(c, d, cont, owner, d);
    AddRefs(c, d, cont, owner);
    OwnedIn(c, owner, d, cont.id);
    assert Owned(c, owner, d) + {cont.id} == Owned(c, owner, d);
    assert RefOf(c, owner, d) == |Owned(c, owner, d)|;
    assert RefOf(r, owner, d) != |Owned(r, owner, d)|;
  }

  /** addCache keeps the indexes in agreement exactly when the container was not cached for the definition. */
  lemma AddKeepsAgreement(c: Catalogue, d: Definition, cont: Container)
    requires Agrees(c) && cont.worker in c.live
    ensures cont.worker in c.desks
    ensures Agrees(Add(c, d, cont)) <==> !IsCached(c, d, cont.id)
  {
    hide AgreesOn;
    AddHealthy(c, d, cont);
    AddOwners(c, d, cont);
    if IsCached(c, d, cont.id) {
      AddTwice(c, d, cont);
    } else {
      forall w | w in c.live ensures AgreesOn(Add(c, d, cont), w) { AddAgreesOn(c, d, cont, w); }
    }
  }

  lemma RemoveAgreesOn(c: Catalogue, v: WorkerId, d: Definition, id: ContId, w: WorkerId)
    requires Healthy(c) && v in c.desks && AgreesOn(c, w) && AgreesOn(c, v)
    requires if IsCached(c, d, id) then c.cached[d][id].worker == v else OwnedUnder(c, v, d.index) == {}
    ensures AgreesOn(Remove(c, v, d, id), w)
  {
    hide Remove, Owned, OwnedUnder, RefOf, IndexRefOf, Healthy;
    var r := Remove(c, v, d, id);
    OwnedIn(c, w, d, id);
    OwnedIn(c, v, d, id);
    RemoveRefs(c, v, d, id, w);
    if !IsCached(c, d, id) { NoneOwned(c, v, d); }
    assert RefOf(c, v, d) == |Owned(c, v, d)| && IndexRefOf(c, d.index, v) == |OwnedUnder(c, v, d.index)|;
    forall e ensures RefOf(r, w, e) == |Owned(r, w, e)| { RemoveOwned(c, v, d, id, w, e); }
    forall i ensures IndexRefOf(r, i, w) == |OwnedUnder(r, w, i)| {
      RemoveOwnedUnder(c, v, d, id, w, i);
      if i != d.index { OtherIndex(c, w, d, id, i); }
    }
  }

  lemma OtherIndex(c: Catalogue, w: WorkerId, d: Definition, id: ContId, i: Index)
    requires i != d.index
    ensures (d, id) !in OwnedUnder(c, w, i)
  {
  }

  lemma NoneOwned(c: Catalogue, w: WorkerId, d: Definition)
    requires OwnedUnder(c, w, d.index) == {}
    ensures Owned(c, w, d) == {}
  {
    if id :| id in Owned(c, w, d) { OwnedIn(c, w, d, id); }
  }

  lemma RemoveForeign(c: Catalogue, v: WorkerId, d: Definition, id: ContId)
    requires Healthy(c) && v in c.desks && IsCached(c, d, id) && c.cached[d][id].worker != v
    requires AgreesOn(c, c.cached[d][id].worker)
    ensures !AgreesOn(Remove(c, v, d, id), c.cached[d][id].worker)
  {
    hide Remove, Owned, OwnedUnder, RefOf, IndexRefOf, Healthy;
    var r, owner := Remove(c, v, d, id), c.cached[d][id].worker;
    RemoveOwned(c, v, d, id, owner, d);
    RemoveRefs(c, v, d, id, owner);
    OwnedIn(c, owner, d, id);
    assert RefOf(c, owner, d) == |Owned(c, owner, d)|;
    assert RefOf(r, owner, d) != |Owned(r, owner, d)|;
  }

  lemma RemoveUnknown(c: Catalogue, v: WorkerId, d: Definition, id: ContId)
    requires Healthy(c) && v in c.desks && !IsCached(c, d, id) && OwnedUnder(c, v, d.index) != {}
    requires AgreesOn(c, v)
    ensures !AgreesOn(Remove(c, v, d, id), v)
  {
    hide Remove, Owned, OwnedUnder, RefOf, IndexRefOf, Healthy;
    var r := Remove(c, v, d, id);
    RemoveOwnedUnder(c, v, d, id, v, d.index);
    RemoveRefs(c, v, d, id, v);
    OwnedIn(c, v, d, id);
    assert OwnedUnder(c, v, d.index) - {(d, id)} == OwnedUnder(c, v, d.index);
    assert IndexRefOf(c, d.index, v) == |OwnedUnder(c, v, d.index)|;
    assert IndexRefOf(r, d.index, v) != |OwnedUnder(r, v, d.index)|;
  }

  /**
   removeCache keeps the indexes in agreement exactly when the container is cached for that definition
   by that worker, or when nothing is cached under that id and the worker has nothing under the index.
   */
  lemma RemoveKeepsAgreement(c: Catalogue, w: WorkerId, d: Definition, id: ContId)
    requires Agrees(c) && w in c.live
    ensures w in c.desks
    ensures Agrees(Remove(c, w, d, id)) <==>
              if IsCached(c, d, id) then c.cached[d][id].worker == w else OwnedUnder(c, w, d.index) == {}
  {
    hide AgreesOn;
    RemoveHealthy(c, w, d, id);
    RemoveOwners(c, w, d, id);
    if IsCached(c, d, id) && c.cached[d][id].worker != w {
      RemoveForeign(c, w, d, id);
    } else if !IsCached(c, d, id) && OwnedUnder(c, w, d.index) != {} {
      RemoveUnknown(c, w, d, id);
    } else {
      forall v | v in c.live ensures AgreesOn(Remove(c, w, d, id), v) { RemoveAgreesOn(c, w, d, id, v); }
    }
  }

  // ---- Eviction ----

  lemma EvictOwned(c: Catalogue, w: WorkerId, v: WorkerId, d: Definition)
    requires w in c.desks && v != w
    ensures Owned(Evict(c, w), v, d) == Owned(c, v, d)
  {
    var r := Evict(c, w);
    forall id | id in Owned(c, v, d) ensures id in Owned(r, v, d) {
      assert id in WithoutOwner(c.cached[d], w);
    }
  }

  lemma EvictOwnedUnder(c: Catalogue, w: WorkerId, v: WorkerId, i: Index)
    requires w in c.desks && v != w
    ensures OwnedUnder(Evict(c, w), v, i) == OwnedUnder(c, v, i)
  {
    var r := Evict(c, w);
    forall p | p in OwnedUnder(c, v, i) ensures p in OwnedUnder(r, v, i) {
      assert p.1 in WithoutOwner(c.cached[p.0], w);
    }
  }

  lemma EvictAgreesOn(c: Catalogue, w: WorkerId, v: WorkerId)
    requires w in c.desks && v != w && AgreesOn(c, v)
    ensures AgreesOn(Evict(c, w), v)
  {
    hide Evict, Owned, OwnedUnder, RefOf, IndexRefOf;
    var r := Evict(c, w);
    EvictRefs(c, w, v);
    forall d ensures RefOf(r, v, d) == |Owned(r, v, d)| { EvictOwned(c, w, v, d); }
    forall i ensures IndexRefOf(r, i, v) == |OwnedUnder(r, v, i)| { EvictOwnedUnder(c, w, v, i); }
  }

  /** No entry of worker w is left in either server map. */
  ghost predicate Forgotten(c: Catalogue, w: WorkerId) {
    && (forall d, id :: IsCached(c, d, id) ==> c.cached[d][id].worker != w)
    && (forall i :: i in c.byIndex ==> w !in c.byIndex[i])
  }

  /** The worker's desk names every definition and index under which the server maps mention it. */
  ghost predicate DeskIsComplete(c: Catalogue, w: WorkerId)
    requires w in c.desks
  {
    && (forall d, id :: IsCached(c, d, id) && c.cached[d][id].worker == w ==> d in c.desks[w].scripts)
    && (forall i :: i in c.byIndex && w in c.byIndex[i] ==> Touches(c.desks[w].scripts.Keys, i))
  }

  /** Eviction forgets a worker exactly when its desk was complete. */
  lemma EvictForgets(c: Catalogue, w: WorkerId)
    requires w in c.desks
    ensures Forgotten(Evict(c, w), w) <==> DeskIsComplete(c, w)
  {
    var r := Evict(c, w);
    var defs := c.desks[w].scripts.Keys;
    if Forgotten(r, w) {
      forall d, id | IsCached(c, d, id) && c.cached[d][id].worker == w ensures d in defs {
        assert d !in defs ==> IsCached(r, d, id);
      }
      forall i | i in c.byIndex && w in c.byIndex[i] ensures Touches(defs, i) {
        assert !Touches(defs, i) ==> i in r.byIndex;
      }
    }
  }

  lemma DeskNamesAll(c: Catalogue, w: WorkerId)
    requires Agrees(c) && w in c.live
    ensures DeskIsComplete(c, w)
  {
    forall d, id | IsCached(c, d, id) && c.cached[d][id].worker == w ensures d in c.desks[w].scripts {
      OwnedIn(c, w, d, id);
      assert RefOf(c, w, d) == |Owned(c, w, d)|;
    }
    forall i | i in c.byIndex && w in c.byIndex[i] ensures Touches(c.desks[w].scripts.Keys, i) {
      IndexHasEntry(c, w, i);
    }
  }

  lemma IndexHasEntry(c: Catalogue, w: WorkerId, i: Index)
    requires Healthy(c) && AgreesOn(c, w) && w in c.desks && i in c.byIndex && w in c.byIndex[i]
    ensures Touches(c.desks[w].scripts.Keys, i)
  {
    assert IndexRefOf(c, i, w) == |OwnedUnder(c, w, i)|;
    var p :| p in OwnedUnder(c, w, i);
    OwnedIn(c, w, p.0, p.1);
    assert RefOf(c, w, p.0) == |Owned(c, w, p.0)|;
  }

  lemma EvictOwnersLive(c: Catalogue, w: WorkerId)
    requires w in c.desks && OwnersLive(c) && DeskIsComplete(c, w)
    ensures OwnersLive(Evict(c, w))
  {
    EvictForgets(c, w);
  }

  /** Eviction leaves no reference to the worker in either server map and every other worker as it was. */
  lemma EvictKeepsAgreement(c: Catalogue, w: WorkerId)
    requires Agrees(c) && w in c.live
    ensures w in c.desks && Agrees(Evict(c, w)) && Forgotten(Evict(c, w), w)
    ensures forall v, d :: v != w ==> Owned(Evict(c, w), v, d) == Owned(c, v, d)
  {
    hide AgreesOn;
    EvictHealthy(c, w);
    DeskNamesAll(c, w);
    EvictForgets(c, w);
    EvictOwnersLive(c, w);
    forall v, d | v != w ensures Owned(Evict(c, w), v, d) == Owned(c, v, d) { EvictOwned(c, w, v, d); }
    forall v | v in c.live - {w} ensures AgreesOn(Evict(c, w), v) { EvictAgreesOn(c, w, v); }
  }

  // ---- Whole runs ----

  datatype Event =
    | Registers(w: WorkerId)
    | Adds(d: Definition, cont: Container)
    | Removes(w: WorkerId, d: Definition, id: ContId)
    | Evicts(w: WorkerId)

  /** Events that can reach the server: a worker registers once and is evicted once. */
  predicate Possible(c: Catalogue, e: Event) {
    match e
    case Registers(w) => w !in c.desks
    case Adds(_, cont) => cont.worker in c.desks
    case Removes(w, _, _) => w in c.desks
    case Evicts(w) => w in c.live
  }

  /** Workers report what they cached, and only that. */
  predicate Truthful(c: Catalogue, e: Event) {
    match e
    case Registers(_) => true
    case Adds(d, cont) => cont.worker in c.live && !IsCached(c, d, cont.id)
    case Removes(w, d, id) => w in c.live && IsCached(c, d, id) && c.cached[d][id].worker == w
    case Evicts(_) => true
  }

  function Apply(c: Catalogue, e: Event): Catalogue {
    if !Possible(c, e) then c else
    match e
    case Registers(w) => Register(c, w)
    case Adds(d, cont) => Add(c, d, cont)
    case Removes(w, d, id) => Remove(c, w, d, id)
    case Evicts(w) => if w in c.desks then Evict(c, w) else c
  }

  function After(events: seq<Event>): Catalogue {
    if events == [] then Empty else Apply(After(events[..|events| - 1]), events[|events| - 1])
  }

  ghost predicate AllTruthful(events: seq<Event>) {
    events == [] ||
    (AllTruthful(events[..|events| - 1]) && Truthful(After(events[..|events| - 1]), events[|events| - 1]))
  }

  /** No restriction on what workers report. */
  lemma {:induction false} AlwaysHealthy(events: seq<Event>)
    ensures Healthy(After(events))
  {
    if events != [] {
      var c, e := After(events[..|events| - 1]), events[|events| - 1];
      AlwaysHealthy(events[..|events| - 1]);
      if Possible(c, e) {
        match e
        case Registers(w) => RegisterHealthy(c, w);
        case Adds(d, cont) => AddHealthy(c, d, cont);
        case Removes(w, d, id) => RemoveHealthy(c, w, d, id);
        case Evicts(w) => if w in c.desks { EvictHealthy(c, w); }
      }
    }
  }

  lemma RegisterHealthy(c: Catalogue, w: WorkerId)
    requires Healthy(c) && w !in c.desks
    ensures Healthy(Register(c, w))
  {
  }

  lemma RegisterAgreesOn(c: Catalogue, w: WorkerId, v: WorkerId)
    requires Healthy(c) && OwnersLive(c) && w !in c.desks && (v == w || (v in c.live && AgreesOn(c, v)))
    ensures AgreesOn(Register(c, w), v)
  {
    var r := Register(c, w);
    forall d ensures RefOf(r, v, d) == |Owned(r, v, d)| {
      assert Owned(r, v, d) == Owned(c, v, d);
      if v == w { NoEntries(c, w, d); }
    }
    forall i ensures IndexRefOf(r, i, v) == |OwnedUnder(r, v, i)| {
      assert OwnedUnder(r, v, i) == OwnedUnder(c, v, i) && IndexRefOf(r, i, v) == IndexRefOf(c, i, v);
      if v == w { NoIndexEntries(c, w, i); }
    }
  }

  lemma RegisterAgrees(c: Catalogue, w: WorkerId)
    requires Agrees(c) && w !in c.desks
    ensures Agrees(Register(c, w))
  {
    hide AgreesOn;
    RegisterHealthy(c, w);
    forall v | v in Register(c, w).live ensures AgreesOn(Register(c, w), v) { RegisterAgreesOn(c, w, v); }
  }

  lemma NoEntries(c: Catalogue, w: WorkerId, d: Definition)
    requires Healthy(c) && OwnersLive(c) && w !in c.desks
    ensures Owned(c, w, d) == {}
  {
  }

  lemma NoIndexEntries(c: Catalogue, w: WorkerId, i: Index)
    requires Healthy(c) && OwnersLive(c) && w !in c.desks
    ensures OwnedUnder(c, w, i) == {} && IndexRefOf(c, i, w) == 0
  {
  }

  /** An add by an evicted worker brings it back into the server's maps. */
  lemma AddByEvicted(c: Catalogue, d: Definition, cont: Container)
    requires cont.worker in c.desks && cont.worker !in c.live
    ensures !Agrees(Add(c, d, cont))
  {
    hide AgreesOn, Healthy;
    var r := Add(c, d, cont);
    assert cont.worker in r.byIndex[d.index];
  }

  /** A removal that an evicted worker reports, for nothing that is cached, touches only its own desk. */
  lemma RemoveByEvicted(c: Catalogue, w: WorkerId, d: Definition, id: ContId)
    requires Agrees(c) && w in c.desks && w !in c.live && !IsCached(c, d, id)
    ensures var r := Remove(c, w, d, id); r.cached == c.cached && r.byIndex == c.byIndex && r.live == c.live
    ensures var r := Remove(c, w, d, id); r.desks == c.desks[w := r.desks[w]]
    ensures OwnedUnder(c, w, d.index) == {}
  {
    hide AgreesOn;
    if d in c.cached { assert c.cached[d] - {id} == c.cached[d]; }
  }

  lemma SameAgreesOn(c: Catalogue, r: Catalogue, w: WorkerId, v: WorkerId)
    requires r.cached == c.cached && r.byIndex == c.byIndex && w in r.desks && r.desks == c.desks[w := r.desks[w]]
    requires v != w && AgreesOn(c, v)
    ensures AgreesOn(r, v)
  {
    forall d ensures RefOf(r, v, d) == |Owned(r, v, d)| {
      assert Owned(r, v, d) == Owned(c, v, d);
    }
    forall i ensures IndexRefOf(r, i, v) == |OwnedUnder(r, v, i)| {
      assert OwnedUnder(r, v, i) == OwnedUnder(c, v, i);
    }
  }

  /** The event keeps agreement: an add of an uncached container, a removal that the worker's counters can bear. */
  ghost predicate Harmless(c: Catalogue, e: Event) {
    Possible(c, e) ==>
      match e
      case Registers(_) => true
      case Adds(d, cont) => cont.worker in c.live && !IsCached(c, d, cont.id)
      case Removes(w, d, id) =>
        if IsCached(c, d, id) then c.cached[d][id].worker == w else OwnedUnder(c, w, d.index) == {}
      case Evicts(_) => true
  }

  lemma RemoveExactly(c: Catalogue, w: WorkerId, d: Definition, id: ContId)
    requires Agrees(c) && w in c.desks
    ensures Agrees(Remove(c, w, d, id)) <==>
              if IsCached(c, d, id) then c.cached[d][id].worker == w else OwnedUnder(c, w, d.index) == {}
  {
    hide AgreesOn;
    if w in c.live {
      RemoveKeepsAgreement(c, w, d, id);
    } else if IsCached(c, d, id) {
      RemoveForeign(c, w, d, id);
    } else {
      RemoveByEvicted(c, w, d, id);
      RemoveHealthy(c, w, d, id);
      forall v | v in c.live ensures AgreesOn(Remove(c, w, d, id), v) {
        SameAgreesOn(c, Remove(c, w, d, id), w, v);
      }
    }
  }

  lemma EventExactly(c: Catalogue, e: Event)
    requires Agrees(c)
    ensures Agrees(Apply(c, e)) <==> Harmless(c, e)
  {
    hide Agrees, Register, Add, Remove, Evict;
    if Possible(c, e) {
      LiveDesks(c);
      match e
      case Registers(w) => RegisterAgrees(c, w);
      case Adds(d, cont) =>
        if cont.worker in c.live { AddKeepsAgreement(c, d, cont); } else { AddByEvicted(c, d, cont); }
      case Removes(w, d, id) => RemoveExactly(c, w, d, id);
      case Evicts(w) => EvictKeepsAgreement(c, w);
    }
  }

  lemma LiveDesks(c: Catalogue)
    requires Agrees(c)
    ensures c.live <= c.desks.Keys
  {
  }

  lemma EmptyAgrees()
    ensures Agrees(Empty)
  {
  }

  lemma AfterLast(events: seq<Event>)
    requires events != []
    ensures After(events) == Apply(After(events[..|events| - 1]), events[|events| - 1])
  {
  }

  lemma AfterNothing()
    ensures After([]) == Empty
  {
  }

  /**
   Over every run: the counters are the numbers of cached containers throughout if and only if each event is harmless.
   */
  lemma {:induction false} RunsAgreeExactly(events: seq<Event>)
    ensures (forall n: nat :: n <= |events| ==> Agrees(After(events[..n]))) <==>
            (forall n: nat :: n < |events| ==> Harmless(After(events[..n]), events[n]))
  {
    hide Agrees, Harmless, After;
    AfterNothing();
    EmptyAgrees();
    if events == [] {
      assert events[..0] == [];
      return;
    }
    var last := |events| - 1;
    var front := events[..last];
    RunsAgreeExactly(front);
    assert forall n: nat :: n <= last ==> front[..n] == events[..n];
    assert events[..last + 1] == events;
    AfterLast(events);
    if Agrees(After(front)) { EventExactly(After(front), events[last]); }
    PrefixesJoin(events);
  }

  /** What holds of all prefixes holds of those of the front and of the last. */
  lemma PrefixesJoin(events: seq<Event>)
    requires events != []
    ensures var last := |events| - 1; var front := events[..last];
            && ((forall n: nat :: n <= |events| ==> Agrees(After(events[..n]))) <==>
                  (forall n: nat :: n <= last ==> Agrees(After(front[..n]))) && Agrees(After(events)))
            && ((forall n: nat :: n < |events| ==> Harmless(After(events[..n]), events[n])) <==>
                  (forall n: nat :: n < last ==> Harmless(After(front[..n]), front[n]))
                  && Harmless(After(front), events[last]))
            && ((forall n: nat :: n <= last ==> Agrees(After(front[..n]))) ==> Agrees(After(front)))
  {
    hide Agrees, Harmless, After;
    var last := |events| - 1;
    var front := events[..last];
    assert front[..last] == front && events[..|events|] == events;
    forall n: nat | n <= last ensures After(front[..n]) == After(events[..n]) {
      assert front[..n] == events[..n];
    }
  }

  lemma TruthfulLast(events: seq<Event>)
    requires events != [] && AllTruthful(events)
    ensures AllTruthful(events[..|events| - 1])
    ensures Harmless(After(events[..|events| - 1]), events[|events| - 1])
  {
  }

  lemma {:induction false} TruthfulHarmless(events: seq<Event>, n: nat)
    requires AllTruthful(events) && n < |events|
    ensures Harmless(After(events[..n]), events[n])
  {
    hide Harmless, AllTruthful, After;
    TruthfulLast(events);
    if n < |events| - 1 {
      var front := events[..|events| - 1];
      TruthfulHarmless(front, n);
      assert front[..n] == events[..n];
    }
  }

  /** While workers report truthfully, the counters are the numbers of cached containers. */
  lemma {:induction false} TruthfulRunsAgree(events: seq<Event>)
    requires AllTruthful(events)
    ensures Agrees(After(events))
  {
    hide Agrees, Harmless, AllTruthful, After;
    forall n: nat | n < |events| ensures Harmless(After(events[..n]), events[n]) {
      TruthfulHarmless(events, n);
    }
    RunsAgreeExactly(events);
    assert events[..|events|] == events;
  }

  /**
   Without truthful reports agreement fails: a removal that names any other container than the cached one still
   lowers the counters, so a later eviction leaves the worker's container behind.
   */
  lemma StrayRemovalLeavesDangling(d: Definition, cont: Container, other: ContId)
    requires other != cont.id
    ensures var w := cont.worker; var c := After([Registers(w), Adds(d, cont), Removes(w, d, other), Evicts(w)]);
            w !in c.live && IsCached(c, d, cont.id) && c.cached[d][cont.id] == cont && !Forgotten(c, w)
  {
    hide After, Register, Add, Remove, Evict, IsCached;
    var w := cont.worker;
    assert After([]) == Empty by { AfterNothing(); }
    var e1, e2 := [Registers(w)], [Registers(w), Adds(d, cont)];
    var e3 := [Registers(w), Adds(d, cont), Removes(w, d, other)];
    AfterAppend([], Registers(w));
    AfterAppend(e1, Adds(d, cont));
    AfterAppend(e2, Removes(w, d, other));
    AfterAppend(e3, Evicts(w));
    assert [] + e1 == e1 && e1 + [Adds(d, cont)] == e2 && e2 + [Removes(w, d, other)] == e3;
    assert e3 + [Evicts(w)] == [Registers(w), Adds(d, cont), Removes(w, d, other), Evicts(w)];
    StrayStates(d, cont, other);
  }

  lemma StrayStates(d: Definition, cont: Container, other: ContId)
    requires other != cont.id
    ensures var w := cont.worker;
            var c1 := Register(Empty, w);
            w in c1.desks && w in c1.live &&
            var c2 := Add(c1, d, cont);
            w in c2.desks && w in c2.live &&
            var c3 := Remove(c2, w, d, other);
            w in c3.desks && w in c3.live &&
            var c4 := Evict(c3, w);
            w !in c4.live && IsCached(c4, d, cont.id) && c4.cached[d][cont.id] == cont
  {
    var w := cont.worker;
    var c2 := Add(Register(Empty, w), d, cont);
    var c3 := Remove(c2, w, d, other);
    assert cont.id in c2.cached[d] - {other};
    assert IsCached(c3, d, cont.id) && c3.desks[w].scripts.Keys == {};
  }

  lemma AfterAppend(events: seq<Event>, e: Event)
    ensures After(events + [e]) == Apply(After(events), e)
  {
    assert (events + [e])[..|events|] == events;
  }

  // ---- The objects that hold the indexes ----

  /** lb.Worker, as far as its container index goes. */
  class Worker {
    const id: WorkerId
    var alive: bool
    var scripts: map<Definition, Definition>
    var scriptsRefCounter: map<Definition, int>
    var containers: map<ContId, Container>

    function View(): Desk
      reads this
    {
      Desk(scripts, scriptsRefCounter, containers)
    }

    constructor (id: WorkerId)
      ensures this.id == id && alive && View() == EmptyDesk
    {
      this.id := id;
      alive := true;
      scripts, scriptsRefCounter, containers := map[], map[], map[];
    }

    method AddCache(def: Definition, container: Container)
      modifies this
      ensures View() == AddToDesk(old(View()), def, container) && alive == old(alive)
    {
      var ref := if def in scriptsRefCounter then scriptsRefCounter[def] else 0;
      scriptsRefCounter := scriptsRefCounter[def := ref + 1];
      scripts := scripts[def := def];
      containers := containers[container.id := container];
    }

    method RemoveCache(def: Definition, contID: ContId) returns (last: bool)
      modifies this
      ensures View() == RemoveFromDesk(old(View()), def, contID) && alive == old(alive)
      ensures last <==> !(def in old(scriptsRefCounter) && old(scriptsRefCounter)[def] > 1)
    {
      containers := containers - {contID};
      var ref := if def in scriptsRefCounter then scriptsRefCounter[def] else 0;
      if ref > 1 {
        scriptsRefCounter := scriptsRefCounter[def := ref - 1];
        scripts := scripts[def := def];
        last := false;
      } else {
        scriptsRefCounter := scriptsRefCounter - {def};
        scripts := scripts - {def};
        last := true;
      }
    }

    /** Returns every cached definition once, in some order. */
    method Shutdown() returns (defs: seq<Definition>)
      requires DeskHealthy(View())
      modifies this
      ensures View() == old(View()) && !alive
      ensures |defs| == |scripts| && forall d :: d in defs <==> d in scripts
    {
      alive := false;
      defs := [];
      var rest := scripts.Keys;
      while rest != {}
        invariant rest <= scripts.Keys && |defs| + |rest| == |scripts|
        invariant forall d :: d in defs <==> d in scripts && d !in rest
        invariant !alive && View() == old(View())
        decreases |rest|
      {
        var h :| h in rest;
        defs := defs + [scripts[h]];
        rest := rest - {h};
      }
    }
  }

  lemma EvictOneCached(c: CacheMap, defs: set<Definition>, d: Definition, w: WorkerId)
    ensures var m := EvictCached(c, defs, w);
            EvictCached(c, defs + {d}, w) ==
              if d !in m then m else if WithoutOwner(m[d], w) == map[] then m - {d} else m[d := WithoutOwner(m[d], w)]
  {
    if d in c {
      assert WithoutOwner(WithoutOwner(c[d], w), w) == WithoutOwner(c[d], w);
    }
  }

  lemma EvictOneIndex(b: IndexMap, defs: set<Definition>, d: Definition, w: WorkerId)
    ensures var n := EvictIndex(b, defs, w);
            EvictIndex(b, defs + {d}, w) ==
              if d.index !in n then n
              else if n[d.index] - {w} == map[] then n - {d.index}
              else n[d.index := n[d.index] - {w}]
  {
    forall i ensures Touches(defs + {d}, i) <==> Touches(defs, i) || i == d.index {
      if i == d.index { assert d in defs + {d}; }
      if Touches(defs, i) {
        var e :| e in defs && e.index == i;
        assert e in defs + {d};
      }
    }
    if d.index in b {
      assert b[d.index] - {w} - {w} == b[d.index] - {w};
    }
  }

  /** lb.Server, as far as its container indexes go; `known` remembers evicted workers too. */
  class Server {
    var workers: map<WorkerId, Worker>
    ghost var known: map<WorkerId, Worker>
    var workerContainersCached: CacheMap
    var workersByIndex: IndexMap

    ghost predicate Valid()
      reads this, known.Values
    {
      && (forall id :: id in workers ==> id in known && known[id] == workers[id])
      && (forall id :: id in known ==> known[id].id == id)
    }

    ghost function View(): Catalogue
      reads this, known.Values
    {
      Catalogue(workerContainersCached, workersByIndex, Desks(), workers.Keys)
    }

    ghost function Desks(): map<WorkerId, Desk>
      reads this`known, known.Values
    {
      map id | id in known :: known[id].View()
    }

    method AddToWorker(w: Worker, cont: Container, def: Definition)
      requires Valid() && w.id in known && known[w.id] == w
      modifies w
      ensures Desks() == old(Desks())[w.id := AddToDesk(old(Desks())[w.id], def, cont)]
    {
      w.AddCache(def, cont);
    }

    method RemoveFromWorker(w: Worker, def: Definition, containerID: ContId)
      requires Valid() && w.id in known && known[w.id] == w
      modifies w
      ensures Desks() == old(Desks())[w.id := RemoveFromDesk(old(Desks())[w.id], def, containerID)]
    {
      var last := w.RemoveCache(def, containerID);
    }

    constructor ()
      ensures Valid() && View() == Empty && fresh(known.Values)
    {
      workers, known, workerContainersCached, workersByIndex := map[], map[], map[], map[];
    }

    /** Server.Register, for an ID not seen before. */
    method RegisterWorker(id: WorkerId) returns (w: Worker)
      requires Valid() && id !in known
      modifies this
      ensures Valid() && fresh(w) && w.id == id && w.alive && known == old(known)[id := w]
      ensures View() == Register(old(View()), id)
    {
      hide Healthy, OwnersLive;
      ghost var desks := Desks();
      w := new Worker(id);
      assert Desks() == desks;
      workers, known := workers[id := w], known[id := w];
      assert Desks() == desks[id := EmptyDesk];
      assert workers.Keys == old(workers.Keys) + {id};
    }

    /** Deleting the cache entry runs the eviction callback once, after the entry is gone. */
    method Disconnect(id: WorkerId)
      requires Valid() && Healthy(View())
      modifies this, if id in known then {known[id]} else {}
      ensures Valid() && known == old(known) && id !in workers
      ensures View() == if old(id in workers) then Evict(old(View()), id) else old(View())
    {
      if id in workers {
        var w := workers[id];
        workers := workers - {id};
        OnEvictedWorker(w);
      }
    }

    method CacheContainer(cont: Container, def: Definition)
      modifies this`workerContainersCached
      ensures workerContainersCached == AddCached(old(workerContainersCached), def, cont)
    {
      if def in workerContainersCached {
        workerContainersCached := workerContainersCached[def := workerContainersCached[def][cont.id := cont]];
      } else {
        workerContainersCached := workerContainersCached[def := map[cont.id := cont]];
      }
    }

    method IncreaseIndex(idx: Index, w: WorkerId)
      modifies this`workersByIndex
      ensures workersByIndex == AddIndex(old(workersByIndex), idx, w)
    {
      if idx in workersByIndex {
        var m := workersByIndex[idx];
        workersByIndex := workersByIndex[idx := m[w := (if w in m then m[w] else 0) + 1]];
      } else {
        workersByIndex := workersByIndex[idx := map[w := 1]];
      }
    }

    method UncacheContainer(def: Definition, containerID: ContId) returns (removed: bool)
      modifies this`workerContainersCached
      ensures workerContainersCached == RemoveCached(old(workerContainersCached), def, containerID)
      ensures removed <==> def in old(workerContainersCached) && containerID in old(workerContainersCached)[def]
    {
      removed := false;
      if def in workerContainersCached {
        var m := workerContainersCached[def];
        if containerID in m {
          removed := true;
          m := m - {containerID};
        } else {
          assert m - {containerID} == m;
        }
        workerContainersCached :=
          if m == map[] then workerContainersCached - {def} else workerContainersCached[def := m];
      }
    }

    method DecreaseIndex(idx: Index, w: WorkerId) returns (removed: bool)
      modifies this`workersByIndex
      ensures workersByIndex == RemoveIndex(old(workersByIndex), idx, w)
      ensures removed <==> idx in old(workersByIndex) && w in old(workersByIndex)[idx]
    {
      removed := false;
      if idx in workersByIndex {
        var m := workersByIndex[idx];
        if w in m {
          removed := true;
          m := if m[w] <= 1 then m - {w} else m[w := m[w] - 1];
        }
        workersByIndex := if m == map[] then workersByIndex - {idx} else workersByIndex[idx := m];
      }
    }

    /** One definition of an evicted worker: its containers and its index entry go. */
    method Forget(def: Definition, w: WorkerId, ghost seen: set<Definition>,
                  ghost c: CacheMap, ghost b: IndexMap)
      requires workerContainersCached == EvictCached(c, seen, w) && workersByIndex == EvictIndex(b, seen, w)
      modifies this`workerContainersCached, this`workersByIndex
      ensures workerContainersCached == EvictCached(c, seen + {def}, w)
      ensures workersByIndex == EvictIndex(b, seen + {def}, w)
    {
      EvictOneCached(c, seen, def, w);
      EvictOneIndex(b, seen, def, w);
      if def in workerContainersCached {
        var m := WithoutOwner(workerContainersCached[def], w);
        workerContainersCached :=
          if m == map[] then workerContainersCached - {def} else workerContainersCached[def := m];
      }
      if def.index in workersByIndex {
        var m := workersByIndex[def.index] - {w};
        workersByIndex := if m == map[] then workersByIndex - {def.index} else workersByIndex[def.index := m];
      }
    }

    method AddCache(w: Worker, cont: Container, def: Definition)
      requires Valid() && w.id in known && known[w.id] == w && cont.worker == w.id
      modifies this, w
      ensures Valid() && known == old(known) && workers == old(workers)
      ensures View() == Add(old(View()), def, cont)
    {
      hide AddToDesk, AddCached, AddIndex, Desks;
      AddToWorker(w, cont, def);
      CacheContainer(cont, def);
      IncreaseIndex(def.index, w.id);
    }

    method RemoveCache(w: Worker, def: Definition, containerID: ContId) returns (removed: bool)
      requires Valid() && w.id in known && known[w.id] == w
      modifies this, w
      ensures Valid() && known == old(known) && workers == old(workers)
      ensures View() == Remove(old(View()), w.id, def, containerID)
      ensures removed <==>
                old(IsCached(View(), def, containerID) && def.index in workersByIndex
                    && w.id in workersByIndex[def.index])
    {
      hide RemoveFromDesk, RemoveCached, RemoveIndex, Desks;
      RemoveFromWorker(w, def, containerID);
      var removedContainer := UncacheContainer(def, containerID);
      var removedIdx := DecreaseIndex(def.index, w.id);
      removed := removedContainer && removedIdx;
    }

    /** The eviction callback: the worker's entry has already left `workers`. */
    method OnEvictedWorker(w: Worker)
      requires Valid() && Healthy(View()) && w.id in known && known[w.id] == w && w.id !in workers
      modifies this, w
      ensures Valid() && known == old(known) && workers == old(workers) && !w.alive
      ensures View() == Evict(old(View()), w.id)
    {
      hide EvictCached, EvictIndex, MapsHealthy, Desks;
      var scriptDefs := ShutdownWorker(w);
      ForgetAll(scriptDefs, w.id);
    }

    method ShutdownWorker(w: Worker) returns (defs: seq<Definition>)
      requires Valid() && Healthy(View()) && w.id in known && known[w.id] == w
      modifies w
      ensures Desks() == old(Desks()) && !w.alive && w.id in Desks()
      ensures (set d | d in defs) == Desks()[w.id].scripts.Keys
    {
      assert View().desks[w.id] == w.View();
      defs := w.Shutdown();
      assert Desks()[w.id] == w.View();
    }

    /** The loop over the definitions that Shutdown returned. */
    method ForgetAll(scriptDefs: seq<Definition>, w: WorkerId)
      modifies this`workerContainersCached, this`workersByIndex
      ensures workerContainersCached == EvictCached(old(workerContainersCached), (set d | d in scriptDefs), w)
      ensures workersByIndex == EvictIndex(old(workersByIndex), (set d | d in scriptDefs), w)
    {
      hide EvictCached, EvictIndex;
      ghost var c, b := workerContainersCached, workersByIndex;
      EvictNone(c, b, w);
      var k: nat := 0;
      ghost var seen: set<Definition> := {};
      while k < |scriptDefs|
        invariant k <= |scriptDefs| && forall d :: d in seen <==> d in scriptDefs[..k]
        invariant workerContainersCached == EvictCached(c, seen, w)
        invariant workersByIndex == EvictIndex(b, seen, w)
      {
        Forget(scriptDefs[k], w, seen, c, b);
        seen := seen + {scriptDefs[k]};
        k := k + 1;
      }
      assert seen == (set d | d in scriptDefs);
    }
  }

  lemma EvictNone(c: CacheMap, b: IndexMap, w: WorkerId)
    ensures EvictCached(c, {}, w) == c && EvictIndex(b, {}, w) == b
  {
  }
}