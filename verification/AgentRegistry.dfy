/** The multi-tenant agent registry with its cached model indexes and recorded sources. */
module AgentRegistry {
  import opened Wrappers
  import opened Strings

  /** A definition; its own tenant and name are the key it is stored under. */
  datatype Def = Def(tenant: string, name: string, model: string, rest: nat)

  type Nested<V> = map<string, map<string, V>>

  function Find<V>(m: Nested<V>, a: string, b: string): Option<V> {
    if a in m && b in m[a] then Some(m[a][b]) else None
  }

  function Put<V>(m: Nested<V>, a: string, b: string, v: V): Nested<V> {
    m[a := (if a in m then m[a] else map[])[b := v]]
  }

  /** Delete one entry, and the inner map with it when it becomes empty. */
  function Drop<V>(m: Nested<V>, a: string, b: string): Nested<V> {
    if a !in m then m
    else if |m[a] - {b}| == 0 then m - {a}
    else m[a := m[a] - {b}]
  }

  lemma FindPut<V>(m: Nested<V>, a: string, b: string, v: V, x: string, y: string)
    ensures Find(Put(m, a, b, v), x, y) == if x == a && y == b then Some(v) else Find(m, x, y)
  {
  }

  lemma FindDrop<V>(m: Nested<V>, a: string, b: string, x: string, y: string)
    ensures Find(Drop(m, a, b), x, y) == if x == a && y == b then None else Find(m, x, y)
  {
    if a in m && |m[a] - {b}| == 0 {
      assert m[a] - {b} == map[];
      assert forall z :: z in m[a] && z != b ==> z in m[a] - {b};
    }
  }

  predicate HasModel(r: Option<Def>, model: string) { r.Some? && r.value.model == model }

  /** Definitions are stored under their own tenant and name. */
  ghost predicate Keyed(agents: Nested<Def>) {
    forall o, n :: Find(agents, o, n).Some? ==>
      Find(agents, o, n).value.tenant == o && Find(agents, o, n).value.name == n
  }

  ghost predicate Registered(agents: Nested<Def>, d: Def) {
    Find(agents, d.tenant, d.name) == Some(d)
  }

  /** `r` is what a full scan finds for the model among one owner's agents: the smallest name, or nothing. */
  ghost predicate BestIs(agents: Nested<Def>, model: string, owner: string, r: Option<Def>) {
    match r
    case None => forall n :: !HasModel(Find(agents, owner, n), model)
    case Some(d) =>
      && Find(agents, owner, d.name) == r && d.model == model
      && forall n :: HasModel(Find(agents, owner, n), model) ==> n == d.name || Less(d.name, n)
  }

  /** The scan result is unique, so the index entry is determined. */
  lemma BestUnique(agents: Nested<Def>, model: string, owner: string, r: Option<Def>, s: Option<Def>)
    requires BestIs(agents, model, owner, r) && BestIs(agents, model, owner, s)
    ensures r == s
  {
    if r.Some? && s.Some? && r.value.name != s.value.name {
      assert HasModel(Find(agents, owner, s.value.name), model) && HasModel(Find(agents, owner, r.value.name), model);
      LessTransitive(r.value.name, s.value.name, r.value.name);
      LessIrreflexive(r.value.name);
    }
  }

  ghost predicate ModelIndex(byModelTenant: Nested<Def>, agents: Nested<Def>) {
    forall m, o :: IndexEntryOk(byModelTenant, agents, m, o)
  }

  /** Agents without a model are not indexed. */
  ghost predicate IndexEntryOk(byModelTenant: Nested<Def>, agents: Nested<Def>, m: string, o: string) {
    if m == "" then Find(byModelTenant, m, o).None? else BestIs(agents, m, o, Find(byModelTenant, m, o))
  }

  /** Two registries that agree on every agent of a model have the same scan results for it. */
  lemma BestFrame(a: Nested<Def>, b: Nested<Def>, model: string, owner: string, r: Option<Def>)
    requires forall n :: HasModel(Find(a, owner, n), model) || HasModel(Find(b, owner, n), model)
                         ==> Find(a, owner, n) == Find(b, owner, n)
    requires BestIs(a, model, owner, r)
    ensures BestIs(b, model, owner, r)
  {
    if r.Some? {
      assert HasModel(Find(a, owner, r.value.name), model);
    }
  }

  /** The scan of one owner's bucket, in whatever order the map yields it. */
  method BestInBucket(byName: map<string, Def>, model: string) returns (r: Option<Def>)
    requires forall n :: n in byName ==> byName[n].name == n
    ensures r.None? ==> forall n :: n in byName ==> byName[n].model != model
    ensures r.Some? ==> r.value.name in byName && byName[r.value.name] == r.value && r.value.model == model
    ensures r.Some? ==> forall n :: n in byName && byName[n].model == model ==>
              n == r.value.name || Less(r.value.name, n)
  {
    r := None;
    var todo := byName.Keys;
    while todo != {}
      invariant todo <= byName.Keys
      invariant r.None? ==> forall n :: n in byName && n !in todo ==> byName[n].model != model
      invariant r.Some? ==> r.value.name in byName && byName[r.value.name] == r.value && r.value.model == model
      invariant r.Some? ==> forall n :: n in byName && n !in todo && byName[n].model == model
                              ==> n == r.value.name || Less(r.value.name, n)
    {
      var n :| n in todo;
      todo := todo - {n};
      var def := byName[n];
      if def.model != model {
        continue;
      }
      if r.None? {
        r := Some(def);
      } else {
        ReplaceBest(byName, model, r.value, def);
        if Less(def.name, r.value.name) {
          r := Some(def);
        }
      }
    }
  }

  /** A smaller name stays smaller than everything the previous best was smaller than. */
  lemma ReplaceBest(byName: map<string, Def>, model: string, best: Def, def: Def)
    ensures Less(def.name, best.name) ==> forall n :: Less(best.name, n) ==> Less(def.name, n)
    ensures !Less(def.name, best.name) ==> def.name == best.name || Less(best.name, def.name)
  {
    LessTotal(def.name, best.name);
    if Less(def.name, best.name) {
      forall n | Less(best.name, n) ensures Less(def.name, n) {
        LessTransitive(def.name, best.name, n);
      }
    }
  }

  ghost predicate OwnersOk(agents: Nested<Def>, model: string, owners: map<string, Def>) {
    forall o :: BestIs(agents, model, o, if o in owners then Some(owners[o]) else None)
  }

  method RebuildOwners(agents: Nested<Def>, model: string) returns (owners: map<string, Def>)
    requires Keyed(agents)
    ensures OwnersOk(agents, model, owners)
  {
    owners := map[];
    var todo := agents.Keys;
    while todo != {}
      invariant todo <= agents.Keys && owners.Keys !! todo
      invariant forall o :: o !in todo ==> BestIs(agents, model, o, if o in owners then Some(owners[o]) else None)
    {
      var o :| o in todo;
      todo := todo - {o};
      BucketKeyed(agents, o);
      var best := BestInBucket(agents[o], model);
      BucketBest(agents, model, o, best);
      if best.Some? {
        owners := owners[o := best.value];
      }
    }
  }

  lemma BucketKeyed(agents: Nested<Def>, o: string)
    requires Keyed(agents) && o in agents
    ensures forall n :: n in agents[o] ==> agents[o][n].name == n
  {
    forall n | n in agents[o] ensures agents[o][n].name == n {
      assert Find(agents, o, n).Some?;
    }
  }

  lemma BucketBest(agents: Nested<Def>, model: string, o: string, r: Option<Def>)
    requires o in agents
    requires r.None? ==> forall n :: n in agents[o] ==> agents[o][n].model != model
    requires r.Some? ==> r.value.name in agents[o] && agents[o][r.value.name] == r.value && r.value.model == model
    requires r.Some? ==>
               forall n :: n in agents[o] && agents[o][n].model == model ==> n == r.value.name || Less(r.value.name, n)
    ensures BestIs(agents, model, o, r)
  {
  }

  method RebuildModelBucket(byModelTenant: Nested<Def>, agents: Nested<Def>, model: string) returns (r: Nested<Def>)
    requires Keyed(agents)
    ensures model == "" ==> r == byModelTenant
    ensures model != "" ==> forall o :: BestIs(agents, model, o, Find(r, model, o))
    ensures forall m, o :: m != model ==> Find(r, m, o) == Find(byModelTenant, m, o)
  {
    if model == "" {
      return byModelTenant;
    }
    var owners := RebuildOwners(agents, model);
    if |owners| == 0 {
      r := byModelTenant - {model};
    } else {
      r := byModelTenant[model := owners];
    }
    forall o ensures BestIs(agents, model, o, Find(r, model, o)) {
      assert Find(r, model, o) == if o in owners then Some(owners[o]) else None;
    }
  }

  /** Clear the model slot if it still points at `d`. */
  function Forget(byModel: map<string, Def>, d: Def): map<string, Def> {
    if d.model != "" && d.model in byModel && byModel[d.model] == d then byModel - {d.model} else byModel
  }

  /**
   The tenant-agnostic slot of a model holds its most recent registrant as long as that very definition is still
   registered, and is empty otherwise.
   */
  ghost predicate LatestSlots(byModel: map<string, Def>, agents: Nested<Def>, latest: map<string, Def>) {
    && (forall m :: m in latest ==> m != "" && latest[m].model == m)
    && (forall m :: m in byModel <==> m in latest && Registered(agents, latest[m]))
    && (forall m :: m in byModel ==> byModel[m] == latest[m])
  }

  ghost predicate SourcesRegistered(sources: Nested<string>, agents: Nested<Def>) {
    forall o, n :: Find(sources, o, n).Some? ==> Find(agents, o, n).Some?
  }

  lemma DropSlot(byModel: map<string, Def>, agents: Nested<Def>, latest: map<string, Def>, d: Def)
    requires LatestSlots(byModel, agents, latest) && Registered(agents, d)
    ensures LatestSlots(Forget(byModel, d), Drop(agents, d.tenant, d.name), latest)
  {
    var after := Drop(agents, d.tenant, d.name);
    forall m | m in latest ensures Registered(after, latest[m]) <==> Registered(agents, latest[m]) && latest[m] != d {
      FindDrop(agents, d.tenant, d.name, latest[m].tenant, latest[m].name);
    }
  }

  /** Apart from the model it declares, a registration only unseats the definition it replaces. */
  lemma PutKeepsOthers(agents: Nested<Def>, d: Def, e: Def)
    requires Keyed(agents) && e.model != d.model
    ensures Registered(Put(agents, d.tenant, d.name, d), e)
       <==> Registered(agents, e) && Find(agents, d.tenant, d.name) != Some(e)
  {
    FindPut(agents, d.tenant, d.name, d, e.tenant, e.name);
  }

  function ClearReplaced(byModel: map<string, Def>, prev: Option<Def>): map<string, Def> {
    match prev
    case Some(p) => Forget(byModel, p)
    case None => byModel
  }

  lemma PutSlot(byModel: map<string, Def>, agents: Nested<Def>, latest: map<string, Def>, d: Def)
    requires LatestSlots(byModel, agents, latest) && Keyed(agents)
    ensures var cleared := ClearReplaced(byModel, Find(agents, d.tenant, d.name));
            if d.model == "" then LatestSlots(cleared, Put(agents, d.tenant, d.name, d), latest)
            else LatestSlots(cleared[d.model := d], Put(agents, d.tenant, d.name, d), latest[d.model := d])
  {
    var after := Put(agents, d.tenant, d.name, d);
    FindPut(agents, d.tenant, d.name, d, d.tenant, d.name);
    forall m | m in latest && m != d.model
      ensures Registered(after, latest[m]) <==>
              Registered(agents, latest[m]) && Find(agents, d.tenant, d.name) != Some(latest[m])
    {
      PutKeepsOthers(agents, d, latest[m]);
    }
  }

  class Registry {
    var agents: Nested<Def>
    var byModel: map<string, Def>
    var byModelTenant: Nested<Def>
    var sources: Nested<string>
    // The most recent registrant of each model, kept for specification only.
    ghost var latest: map<string, Def>

    /** Everything but the tenant-aware model index. */
    ghost predicate Consistent()
      reads this
    {
      && Keyed(agents)
      && LatestSlots(byModel, agents, latest)
      && SourcesRegistered(sources, agents)
    }

    ghost predicate Valid()
      reads this
    {
      Consistent() && ModelIndex(byModelTenant, agents)
    }

    constructor ()
      ensures Valid() && agents == map[] && sources == map[] && latest == map[]
    {
      agents, byModel, byModelTenant, sources, latest := map[], map[], map[], map[], map[];
    }

    method Register(def: Def)
      requires Valid()
      modifies this
      ensures Valid()
      ensures agents == Put(old(agents), def.tenant, def.name, def) && sources == old(sources)
      ensures latest == if def.model == "" then old(latest) else old(latest)[def.model := def]
    {
      var prev := Find(agents, def.tenant, def.name);
      ghost var before := agents;
      PutSlot(byModel, agents, latest, def);
      var oldModel := "";
      if prev.Some? {
        oldModel := prev.value.model;
        byModel := Forget(byModel, prev.value);
      }
      agents := Put(agents, def.tenant, def.name, def);
      if def.model != "" {
        byModel := byModel[def.model := def];
        latest := latest[def.model := def];
      }
      PutKeyed(before, def);
      ghost var index0 := byModelTenant;
      byModelTenant := RebuildModelBucket(byModelTenant, agents, def.model);
      ghost var index1 := byModelTenant;
      if oldModel != "" && oldModel != def.model {
        byModelTenant := RebuildModelBucket(byModelTenant, agents, oldModel);
      }
      PutIndex(before, index0, index1, byModelTenant, def, oldModel);
      PutSources(sources, before, def);
    }

    method RegisterWithSource(def: Def, path: string)
      requires Valid()
      modifies this
      ensures Valid()
      ensures agents == Put(old(agents), def.tenant, def.name, def)
      ensures sources == if path == "" then old(sources) else Put(old(sources), def.tenant, def.name, path)
      ensures latest == if def.model == "" then old(latest) else old(latest)[def.model := def]
    {
      Register(def);
      if path != "" {
        AddSource(sources, agents, def, path);
        sources := Put(sources, def.tenant, def.name, path);
      }
    }

    /** Tenant-precise removal. */
    method RemoveForTenant(name: string, tenant: string) returns (found: bool)
      requires Valid()
      modifies this
      ensures Valid() && latest == old(latest)
      ensures found <==> Find(old(agents), tenant, name).Some?
      ensures agents == (if found then Drop(old(agents), tenant, name) else old(agents))
      ensures sources == (if found then Drop(old(sources), tenant, name) else old(sources))
    {
      var r := Find(agents, tenant, name);
      if r.None? {
        return false;
      }
      var def := r.value;
      ghost var before, index0 := agents, byModelTenant;
      DropOne(def);
      byModelTenant := RebuildModelBucket(byModelTenant, agents, def.model);
      DropIndex(before, index0, byModelTenant, def);
      return true;
    }

    /** Delete one registered definition and what is recorded about it, leaving the model index to be rebuilt. */
    method DropOne(def: Def)
      requires Consistent() && Registered(agents, def)
      modifies this`agents, this`byModel, this`sources
      ensures Consistent()
      ensures agents == Drop(old(agents), def.tenant, def.name) && sources == Drop(old(sources), def.tenant, def.name)
    {
      DropSlot(byModel, agents, latest, def);
      DropKeyed(agents, sources, def.tenant, def.name);
      byModel := Forget(byModel, def);
      agents := Drop(agents, def.tenant, def.name);
      sources := Drop(sources, def.tenant, def.name);
    }

    /** Remove every agent of that name, in any tenant's bucket. */
    method Remove(name: string) returns (found: bool)
      requires Valid()
      modifies this
      ensures Valid() && latest == old(latest)
      ensures found <==> exists o :: Find(old(agents), o, name).Some?
      ensures Swept(agents, old(agents), name, {}) && Swept(sources, old(sources), name, {})
    {
      var models;
      found, models := Sweep(name);
      if !found {
        return;
      }
      UnindexedUnchanged(byModelTenant, old(agents), agents, name, models);
      RebuildAll(models);
    }

    method Sweep(name: string) returns (found: bool, models: set<string>)
      requires Valid()
      modifies this`agents, this`byModel, this`sources
      ensures Consistent()
      ensures found <==> exists o :: Find(old(agents), o, name).Some?
      ensures Swept(agents, old(agents), name, {}) && Swept(sources, old(sources), name, {})
      ensures !found ==> agents == old(agents)
      ensures forall o :: Find(old(agents), o, name).Some? ==> ModelIn(Find(old(agents), o, name).value, models)
      ensures "" !in models
    {
      found, models := false, {};
      var todo := agents.Keys;
      SweepStart(agents, sources, name);
      while todo != {}
        invariant Consistent()
        invariant Swept(agents, old(agents), name, todo) && Swept(sources, old(sources), name, todo)
        invariant found <==> exists o :: o !in todo && Find(old(agents), o, name).Some?
        invariant !found ==> agents == old(agents)
        invariant "" !in models
        invariant forall o :: o !in todo && Find(old(agents), o, name).Some? ==>
                    ModelIn(Find(old(agents), o, name).value, models)
      {
        var owner :| owner in todo;
        var r := Find(agents, owner, name);
        assert r == Find(old(agents), owner, name);
        if r.None? {
          todo := todo - {owner};
          continue;
        }
        found := true;
        if r.value.model != "" {
          models := models + {r.value.model};
        }
        SweptMore(agents, old(agents), owner, name, todo);
        SweptMore(sources, old(sources), owner, name, todo);
        DropOne(r.value);
        todo := todo - {owner};
      }
    }

    /** The tenant-agnostic model lookup: the latest registrant of the model while it is still registered. */
    method GetByModel(model: string) returns (r: Option<Def>)
      requires Valid()
      ensures r == if model in latest && Registered(agents, latest[model]) then Some(latest[model]) else None
      ensures r.Some? ==> r.value.model == model && Registered(agents, r.value)
    {
      r := if model in byModel then Some(byModel[model]) else None;
    }

    /** The hot-path lookup equals a full scan: the tenant's own smallest name first, else the global one. */
    method GetByModelForTenant(model: string, tenant: string) returns (r: Option<Def>)
      requires Valid()
      ensures model == "" ==> r == None
      ensures model != "" ==> exists own, shared ::
                && BestIs(agents, model, tenant, own) && BestIs(agents, model, "", shared)
                && r == if own.Some? then own else shared
    {
      assert IndexEntryOk(byModelTenant, agents, model, tenant) && IndexEntryOk(byModelTenant, agents, model, "");
      if model !in byModelTenant {
        assert Find(byModelTenant, model, tenant) == None && Find(byModelTenant, model, "") == None;
        return None;
      }
      var owners := byModelTenant[model];
      assert Find(byModelTenant, model, tenant) == if tenant in owners then Some(owners[tenant]) else None;
      assert Find(byModelTenant, model, "") == if "" in owners then Some(owners[""]) else None;
      if tenant in owners {
        return Some(owners[tenant]);
      }
      r := if "" in owners then Some(owners[""]) else None;
    }

    method GetForTenant(name: string, tenant: string) returns (r: Option<Def>)
      ensures r == Visible(agents, name, tenant)
    {
      if tenant in agents && name in agents[tenant] {
        return Some(agents[tenant][name]);
      }
      if tenant != "" {
        if "" in agents && name in agents[""] {
          return Some(agents[""][name]);
        }
      }
      return None;
    }

    /** Globals first, then the tenant's own agents shadowing them. */
    method MergedForTenant(tenant: string) returns (merged: map<string, Def>)
      ensures forall n :: (if n in merged then Some(merged[n]) else None) == Visible(agents, n, tenant)
    {
      merged := if "" in agents then agents[""] else map[];
      if tenant != "" && tenant in agents {
        merged := merged + agents[tenant];
      }
    }

    method RebuildAll(models: set<string>)
      requires Consistent()
      requires forall m, o :: m !in models ==> IndexEntryOk(byModelTenant, agents, m, o)
      requires "" !in models
      modifies this`byModelTenant
      ensures ModelIndex(byModelTenant, agents)
    {
      var todo := models;
      while todo != {}
        invariant todo <= models
        invariant forall m, o :: m !in todo ==> IndexEntryOk(byModelTenant, agents, m, o)
      {
        var model :| model in todo;
        todo := todo - {model};
        ghost var before := byModelTenant;
        byModelTenant := RebuildModelBucket(byModelTenant, agents, model);
        forall m, o | m !in todo ensures IndexEntryOk(byModelTenant, agents, m, o) {
          if m != model {
            assert IndexEntryOk(before, agents, m, o);
          }
        }
      }
    }
  }

  /** What a tenant sees under a name: its own agent, else the global one. */
  function Visible(agents: Nested<Def>, name: string, tenant: string): Option<Def> {
    var own := Find(agents, tenant, name);
    if own.Some? then own else Find(agents, "", name)
  }

  /**
   Removing the latest registrant hides the model from the tenant-agnostic lookup although another agent still
   declares it; the tenant-aware lookup still finds that agent.
   */
  method RemovalHidesSurvivor() returns (agnostic: Option<Def>, scoped: Option<Def>)
    ensures agnostic == None && scoped == Some(Def("", "a", "m", 0))
  {
    var r := new Registry();
    var a, b := Def("", "a", "m", 0), Def("", "b", "m", 0);
    r.Register(a);
    r.Register(b);
    assert Find(r.agents, "", "a") == Some(a) && Find(r.agents, "", "b") == Some(b);
    var found := r.RemoveForTenant("b", "");
    FindDrop(Put(Put(map[], "", "a", a), "", "b", b), "", "b", "", "b");
    FindDrop(Put(Put(map[], "", "a", a), "", "b", b), "", "b", "", "a");
    agnostic := r.GetByModel("m");
    scoped := r.GetByModelForTenant("m", "");
    OnlyAgentIsBest(r.agents, a, b);
    ghost var own, shared :| BestIs(r.agents, "m", "", own) && BestIs(r.agents, "m", "", shared)
      && scoped == if own.Some? then own else shared;
    BestUnique(r.agents, "m", "", own, Some(a));
    BestUnique(r.agents, "m", "", shared, Some(a));
  }

  lemma OnlyAgentIsBest(agents: Nested<Def>, a: Def, b: Def)
    requires a != b && a.tenant == b.tenant == "" && a.name != b.name
    requires agents == Drop(Put(Put(map[], "", a.name, a), "", b.name, b), "", b.name)
    ensures BestIs(agents, a.model, "", Some(a))
  {
    var one := Put(map[], "", a.name, a);
    var two := Put(one, "", b.name, b);
    forall n ensures Find(agents, "", n) == if n == a.name then Some(a) else None {
      FindDrop(two, "", b.name, "", n);
      FindPut(one, "", b.name, b, "", n);
      FindPut(map[], "", a.name, a, "", n);
    }
  }

  predicate ModelIn(d: Def, models: set<string>) { d.model == "" || d.model in models }

  /** `now` is `was` without the entries called `name` of the owners already handled. */
  ghost predicate Swept<V(!new)>(now: Nested<V>, was: Nested<V>, name: string, todo: set<string>) {
    forall o, n :: Find(now, o, n) == if n == name && o !in todo then None else Find(was, o, n)
  }

  lemma SweepStart(agents: Nested<Def>, sources: Nested<string>, name: string)
    requires SourcesRegistered(sources, agents)
    ensures Swept(agents, agents, name, agents.Keys) && Swept(sources, sources, name, agents.Keys)
  {
    forall o, n | n == name && o !in agents ensures Find(sources, o, n).None? {
      assert Find(agents, o, n).None?;
    }
  }

  lemma SweptMore<V(!new)>(now: Nested<V>, was: Nested<V>, owner: string, name: string, todo: set<string>)
    requires Swept(now, was, name, todo)
    ensures Swept(Drop(now, owner, name), was, name, todo - {owner})
  {
    forall o, n
      ensures Find(Drop(now, owner, name), o, n) ==
              if n == name && o !in todo - {owner} then None else Find(was, o, n)
    {
      FindDrop(now, owner, name, o, n);
    }
  }

  /** Models none of whose agents were swept keep their index entries. */
  lemma UnindexedUnchanged(index: Nested<Def>, was: Nested<Def>, now: Nested<Def>, name: string, models: set<string>)
    requires ModelIndex(index, was) && Swept(now, was, name, {})
    requires forall o :: Find(was, o, name).Some? ==> ModelIn(Find(was, o, name).value, models)
    ensures forall m, o :: m !in models ==> IndexEntryOk(index, now, m, o)
  {
    forall m, o | m !in models ensures IndexEntryOk(index, now, m, o) {
      assert IndexEntryOk(index, was, m, o);
      if m != "" {
        forall n
          ensures HasModel(Find(was, o, n), m) || HasModel(Find(now, o, n), m) ==> Find(was, o, n) == Find(now, o, n)
        {
        }
        BestFrame(was, now, m, o, Find(index, m, o));
      }
    }
  }

  lemma PutKeyed(agents: Nested<Def>, d: Def)
    requires Keyed(agents)
    ensures Keyed(Put(agents, d.tenant, d.name, d))
  {
    forall o, n | Find(Put(agents, d.tenant, d.name, d), o, n).Some?
      ensures Find(Put(agents, d.tenant, d.name, d), o, n).value.tenant == o
              && Find(Put(agents, d.tenant, d.name, d), o, n).value.name == n
    {
      FindPut(agents, d.tenant, d.name, d, o, n);
    }
  }

  lemma PutSources(sources: Nested<string>, agents: Nested<Def>, d: Def)
    requires SourcesRegistered(sources, agents)
    ensures SourcesRegistered(sources, Put(agents, d.tenant, d.name, d))
  {
    forall o, n | Find(sources, o, n).Some? ensures Find(Put(agents, d.tenant, d.name, d), o, n).Some? {
      FindPut(agents, d.tenant, d.name, d, o, n);
    }
  }

  lemma AddSource(sources: Nested<string>, agents: Nested<Def>, d: Def, path: string)
    requires SourcesRegistered(sources, agents) && Registered(agents, d)
    ensures SourcesRegistered(Put(sources, d.tenant, d.name, path), agents)
  {
    forall o, n | Find(Put(sources, d.tenant, d.name, path), o, n).Some? ensures Find(agents, o, n).Some? {
      FindPut(sources, d.tenant, d.name, path, o, n);
    }
  }

  /** After a registration only the new and the old model of that agent needed rebuilding. */
  lemma PutIndex(agents: Nested<Def>, index0: Nested<Def>, index1: Nested<Def>, index2: Nested<Def>,
                 d: Def, oldModel: string)
    requires Keyed(agents) && ModelIndex(index0, agents)
    requires oldModel == match Find(agents, d.tenant, d.name) case Some(p) => p.model case None => ""
    requires d.model == "" ==> index1 == index0
    requires d.model != "" ==>
               forall o :: BestIs(Put(agents, d.tenant, d.name, d), d.model, o, Find(index1, d.model, o))
    requires forall m, o :: m != d.model ==> Find(index1, m, o) == Find(index0, m, o)
    requires if oldModel != "" && oldModel != d.model
             then (forall o :: BestIs(Put(agents, d.tenant, d.name, d), oldModel, o, Find(index2, oldModel, o)))
                  && (forall m, o :: m != oldModel ==> Find(index2, m, o) == Find(index1, m, o))
             else index2 == index1
    ensures ModelIndex(index2, Put(agents, d.tenant, d.name, d))
  {
    var after := Put(agents, d.tenant, d.name, d);
    forall m, o ensures IndexEntryOk(index2, after, m, o) {
      assert IndexEntryOk(index0, agents, m, o);
      if m != "" && m != d.model && m != oldModel {
        forall n
          ensures HasModel(Find(agents, o, n), m) || HasModel(Find(after, o, n), m) ==>
                    Find(agents, o, n) == Find(after, o, n)
        {
          FindPut(agents, d.tenant, d.name, d, o, n);
        }
        BestFrame(agents, after, m, o, Find(index0, m, o));
      }
    }
  }

  lemma DropKeyed(agents: Nested<Def>, sources: Nested<string>, tenant: string, name: string)
    requires Keyed(agents) && SourcesRegistered(sources, agents)
    ensures Keyed(Drop(agents, tenant, name))
    ensures SourcesRegistered(Drop(sources, tenant, name), Drop(agents, tenant, name))
  {
    forall o, n | Find(Drop(agents, tenant, name), o, n).Some?
      ensures Find(Drop(agents, tenant, name), o, n).value.tenant == o
              && Find(Drop(agents, tenant, name), o, n).value.name == n
    {
      FindDrop(agents, tenant, name, o, n);
    }
    forall o, n | Find(Drop(sources, tenant, name), o, n).Some? ensures Find(Drop(agents, tenant, name), o, n).Some? {
      FindDrop(sources, tenant, name, o, n);
      FindDrop(agents, tenant, name, o, n);
    }
  }

  lemma DropIndex(agents: Nested<Def>, index0: Nested<Def>, index1: Nested<Def>, d: Def)
    requires ModelIndex(index0, agents) && Registered(agents, d)
    requires d.model == "" ==> index1 == index0
    requires d.model != "" ==> forall o :: BestIs(Drop(agents, d.tenant, d.name), d.model, o, Find(index1, d.model, o))
    requires forall m, o :: m != d.model ==> Find(index1, m, o) == Find(index0, m, o)
    ensures ModelIndex(index1, Drop(agents, d.tenant, d.name))
  {
    var after := Drop(agents, d.tenant, d.name);
    forall m, o ensures IndexEntryOk(index1, after, m, o) {
      assert IndexEntryOk(index0, agents, m, o);
      if m != "" && m != d.model {
        forall n
          ensures HasModel(Find(agents, o, n), m) || HasModel(Find(after, o, n), m) ==>
                    Find(agents, o, n) == Find(after, o, n)
        {
          FindDrop(agents, d.tenant, d.name, o, n);
        }
        BestFrame(agents, after, m, o, Find(index0, m, o));
      }
    }
  }
}
