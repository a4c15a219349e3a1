/** Stored provider connections: per-provider indexes, metadata and configuration
    under derived keys, and a cache of who owns what. */
module Connections {
  import opened Sequences

  datatype Provider = Provider(id: string, hasSchema: bool)

  type Config = map<string, string>

  datatype Meta = Meta(id: string, providerId: string, name: string, createdAt: int, updatedAt: int)

  datatype Connection = Connection(meta: Meta, config: Config)

  /** The stored part; keys are made from the sanitized provider id. */
  datatype Tables = Tables(index: map<string, seq<string>>, meta: map<(string, string), Meta>,
                           config: map<(string, string), Config>)

  /** `replaceAll(".", "_")`. */
  function Key(provider: string): string {
    if provider == "" then "" else [if provider[0] == '.' then '_' else provider[0]] + Key(provider[1..])
  }

  /** Character by character: a dot becomes an underscore, everything else stays. */
  lemma {:induction false} KeyChars(provider: string)
    ensures |Key(provider)| == |provider|
    ensures forall i | 0 <= i < |provider| :: Key(provider)[i] == if provider[i] == '.' then '_' else provider[i]
  {
    if provider != "" {
      KeyChars(provider[1..]);
    }
  }

  predicate HasSchema(registry: seq<Provider>, provider: string) {
    exists p <- registry :: p.id == provider && p.hasSchema
  }

  function IndexOf(t: Tables, provider: string): seq<string> {
    if Key(provider) in t.index then t.index[Key(provider)] else []
  }

  predicate Owns(registry: seq<Provider>, t: Tables, provider: string, id: string) {
    HasSchema(registry, provider) && id in IndexOf(t, provider)
  }

  /** The full scan: the first provider whose index lists the connection. */
  function Owner(registry: seq<Provider>, t: Tables, id: string): Option<string> {
    if registry == [] then None
    else if registry[0].hasSchema && id in IndexOf(t, registry[0].id) then Some(registry[0].id)
    else Owner(registry[1..], t, id)
  }

  function At(t: Tables, provider: string, id: string): Option<Connection> {
    var key := (Key(provider), id);
    if key in t.meta && key in t.config then Some(Connection(t.meta[key], t.config[key])) else None
  }

  /** What the store holds under an id, found without the cache. */
  function Lookup(registry: seq<Provider>, t: Tables, id: string): Option<Connection> {
    var owner := Owner(registry, t, id);
    if owner.None? then None else At(t, owner.value, id)
  }

  // ------------------------------------------------------------- invariants

  /** No two providers share a sanitized key. */
  ghost predicate KeysApart(registry: seq<Provider>) {
    forall p, q :: p in registry && q in registry && Key(p.id) == Key(q.id) ==> p == q
  }

  ghost predicate OneOwner(registry: seq<Provider>, t: Tables) {
    forall p, q, id :: Owns(registry, t, p, id) && Owns(registry, t, q, id) ==> p == q
  }

  ghost predicate StoredAt(t: Tables, provider: string, id: string) {
    At(t, provider, id).Some? && At(t, provider, id).value.meta.id == id && At(t, provider, id).value.meta.providerId == provider
  }

  ghost predicate AllStored(registry: seq<Provider>, t: Tables) {
    forall p, id :: Owns(registry, t, p, id) ==> StoredAt(t, p, id)
  }

  ghost predicate Inv(registry: seq<Provider>, t: Tables) {
    && KeysApart(registry) && OneOwner(registry, t) && AllStored(registry, t)
    && forall p :: HasSchema(registry, p) ==> NoRepeats(IndexOf(t, p))
  }

  /** Every cached owner really owns the connection. */
  ghost predicate CacheAgrees(registry: seq<Provider>, t: Tables, cache: map<string, string>) {
    forall id <- cache :: Owns(registry, t, cache[id], id)
  }

  lemma HasSchemaCons(registry: seq<Provider>, p: string)
    requires registry != []
    ensures HasSchema(registry, p) <==> (registry[0].id == p && registry[0].hasSchema) || HasSchema(registry[1..], p)
  {
    assert registry == [registry[0]] + registry[1..];
    if HasSchema(registry[1..], p) {
      var q :| q in registry[1..] && q.id == p && q.hasSchema;
      assert q in registry;
    }
    if registry[0].id == p && registry[0].hasSchema {
      assert registry[0] in registry;
    }
  }

  lemma {:induction false} OwnerOwns(registry: seq<Provider>, t: Tables, id: string)
    ensures var owner := Owner(registry, t, id);
      if owner.Some? then Owns(registry, t, owner.value, id) else forall p :: !Owns(registry, t, p, id)
  {
    if registry != [] {
      OwnerOwns(registry[1..], t, id);
      forall p ensures Owns(registry, t, p, id) <==>
        (registry[0].id == p && registry[0].hasSchema && id in IndexOf(t, p)) || Owns(registry[1..], t, p, id)
      {
        HasSchemaCons(registry, p);
      }
    }
  }

  /** With one owner each, whoever owns a connection is whom the scan finds. */
  lemma ScanFindsOwner(registry: seq<Provider>, t: Tables, provider: string, id: string)
    requires OneOwner(registry, t) && Owns(registry, t, provider, id)
    ensures Owner(registry, t, id) == Some(provider)
  {
    OwnerOwns(registry, t, id);
  }

  /** The cache answers exactly as the full scan would. */
  lemma CachedLookupIsScan(registry: seq<Provider>, t: Tables, cache: map<string, string>, id: string)
    requires Inv(registry, t) && CacheAgrees(registry, t, cache) && id in cache
    ensures Owner(registry, t, id) == Some(cache[id])
  {
    ScanFindsOwner(registry, t, cache[id], id);
  }

  /** Whatever is listed can be looked up. */
  lemma ListedIsStored(registry: seq<Provider>, t: Tables, provider: string, id: string)
    requires Inv(registry, t) && Owns(registry, t, provider, id)
    ensures Lookup(registry, t, id) == At(t, provider, id) && StoredAt(t, provider, id)
  {
    ScanFindsOwner(registry, t, provider, id);
  }

  // -------------------------------------------------------------- operations

  function WithMeta(t: Tables, provider: string, id: string, meta: Meta): Tables {
    t.(meta := t.meta[(Key(provider), id) := meta])
  }

  function Created(t: Tables, provider: string, c: Connection): Tables {
    var id := c.meta.id;
    WithMeta(t, provider, id, c.meta).(
      config := t.config[(Key(provider), id) := c.config],
      index := t.index[Key(provider) := IndexOf(t, provider) + [id]])
  }

  function Updated(t: Tables, provider: string, id: string, c: Connection): Tables {
    WithMeta(t, provider, id, c.meta).(config := t.config[(Key(provider), id) := c.config])
  }

  function Deleted(t: Tables, provider: string, id: string): Tables {
    Tables(t.index[Key(provider) := Filter(other => other != id, IndexOf(t, provider))],
           t.meta - {(Key(provider), id)}, t.config - {(Key(provider), id)})
  }

  lemma KeysDiffer(registry: seq<Provider>, p: string, q: string)
    requires KeysApart(registry) && HasSchema(registry, p) && HasSchema(registry, q)
    ensures Key(p) == Key(q) <==> p == q
  {
    var a :| a in registry && a.id == p && a.hasSchema;
    var b :| b in registry && b.id == q && b.hasSchema;
  }

  lemma IndexAfter(registry: seq<Provider>, t: Tables, u: Tables, provider: string, ids: seq<string>)
    requires KeysApart(registry) && HasSchema(registry, provider) && u.index == t.index[Key(provider) := ids]
    ensures forall p :: HasSchema(registry, p) ==> IndexOf(u, p) == if p == provider then ids else IndexOf(t, p)
  {
    forall p | HasSchema(registry, p) ensures IndexOf(u, p) == if p == provider then ids else IndexOf(t, p) {
      KeysDiffer(registry, p, provider);
    }
  }

  lemma FilterNoRepeats(keep: string -> bool, ids: seq<string>)
    requires NoRepeats(ids)
    ensures NoRepeats(Filter(keep, ids))
  {
    if ids != [] {
      FilterNoRepeats(keep, ids[1..]);
      assert forall x <- Filter(keep, ids[1..]) :: x in ids[1..];
    }
  }

  /** `u` is `t` with ownership of `id` by `provider` added or removed. */
  ghost predicate Gains(registry: seq<Provider>, t: Tables, u: Tables, provider: string, id: string) {
    forall p, x :: Owns(registry, u, p, x) <==> Owns(registry, t, p, x) || (p == provider && x == id)
  }

  ghost predicate Loses(registry: seq<Provider>, t: Tables, u: Tables, id: string) {
    forall p, x :: Owns(registry, u, p, x) <==> Owns(registry, t, p, x) && x != id
  }

  ghost predicate IndexesClean(registry: seq<Provider>, t: Tables) {
    forall p :: HasSchema(registry, p) ==> NoRepeats(IndexOf(t, p))
  }

  /** The same connection under every owned id but one. */
  ghost predicate StoredAlike(registry: seq<Provider>, t: Tables, u: Tables, except: string) {
    forall p, x :: Owns(registry, t, p, x) && x != except ==> At(u, p, x) == At(t, p, x)
  }

  lemma CreatedShape(registry: seq<Provider>, t: Tables, provider: string, c: Connection)
    requires Inv(registry, t) && HasSchema(registry, provider) && Owner(registry, t, c.meta.id) == None
    ensures var u := Created(t, provider, c);
      && Gains(registry, t, u, provider, c.meta.id) && IndexesClean(registry, u)
      && StoredAlike(registry, t, u, c.meta.id) && At(u, provider, c.meta.id) == Some(c)
  {
    OwnerOwns(registry, t, c.meta.id);
    CreatedIndexes(registry, t, provider, c);
    CreatedStores(registry, t, provider, c);
  }

  lemma CreatedIndexes(registry: seq<Provider>, t: Tables, provider: string, c: Connection)
    requires KeysApart(registry) && HasSchema(registry, provider) && IndexesClean(registry, t)
    requires forall p :: !Owns(registry, t, p, c.meta.id)
    ensures var u := Created(t, provider, c); Gains(registry, t, u, provider, c.meta.id) && IndexesClean(registry, u)
  {
    assert !Owns(registry, t, provider, c.meta.id);
    IndexAfter(registry, t, Created(t, provider, c), provider, IndexOf(t, provider) + [c.meta.id]);
  }

  lemma CreatedStores(registry: seq<Provider>, t: Tables, provider: string, c: Connection)
    ensures var u := Created(t, provider, c);
      StoredAlike(registry, t, u, c.meta.id) && At(u, provider, c.meta.id) == Some(c)
  {
  }

  lemma DeletedShape(registry: seq<Provider>, t: Tables, provider: string, id: string)
    requires Inv(registry, t) && Owns(registry, t, provider, id)
    ensures var u := Deleted(t, provider, id);
      Loses(registry, t, u, id) && IndexesClean(registry, u) && StoredAlike(registry, t, u, id)
  {
    var u, keep := Deleted(t, provider, id), (x: string) => x != id;
    var ids := IndexOf(t, provider);
    DropsOne(id, ids);
    IndexAfter(registry, t, u, provider, Filter(other => other != id, ids));
    forall p, x ensures Owns(registry, u, p, x) <==> Owns(registry, t, p, x) && x != id {
      if Owns(registry, t, p, id) {
        assert p == provider;
      }
    }
  }

  lemma DropsOne(id: string, ids: seq<string>)
    requires NoRepeats(ids)
    ensures var r := Filter(other => other != id, ids);
      NoRepeats(r) && forall x :: x in r <==> x in ids && x != id
  {
    FilterNoRepeats(other => other != id, ids);
    forall x | x in ids && x != id ensures x in Filter(other => other != id, ids) {
      FilterKeeps(other => other != id, ids, x);
    }
  }

  lemma GainKeepsInv(registry: seq<Provider>, t: Tables, u: Tables, provider: string, id: string)
    requires Inv(registry, t) && Gains(registry, t, u, provider, id) && IndexesClean(registry, u)
    requires StoredAlike(registry, t, u, id) && StoredAt(u, provider, id) && forall p :: !Owns(registry, t, p, id)
    ensures Inv(registry, u)
  {
    forall p, x | Owns(registry, u, p, x) ensures StoredAt(u, p, x) {
      if x != id {
        assert Owns(registry, t, p, x) && StoredAt(t, p, x);
      }
    }
  }

  lemma LossKeepsInv(registry: seq<Provider>, t: Tables, u: Tables, id: string)
    requires Inv(registry, t) && Loses(registry, t, u, id) && IndexesClean(registry, u) && StoredAlike(registry, t, u, id)
    ensures Inv(registry, u)
  {
    forall p, x | Owns(registry, u, p, x) ensures StoredAt(u, p, x) {
      assert Owns(registry, t, p, x) && StoredAt(t, p, x);
    }
  }

  lemma SameLookup(registry: seq<Provider>, t: Tables, u: Tables, x: string, except: string)
    requires Inv(registry, t) && Inv(registry, u) && x != except && StoredAlike(registry, t, u, except)
    requires forall p :: Owns(registry, u, p, x) <==> Owns(registry, t, p, x)
    ensures Lookup(registry, u, x) == Lookup(registry, t, x)
  {
    OwnerOwns(registry, t, x);
    OwnerOwns(registry, u, x);
  }

  /** Creating a connection adds it, and every other id holds what it held. */
  lemma CreateThenLookup(registry: seq<Provider>, t: Tables, provider: string, c: Connection)
    requires Inv(registry, t) && HasSchema(registry, provider) && Owner(registry, t, c.meta.id) == None
    requires c.meta.providerId == provider
    ensures Inv(registry, Created(t, provider, c))
    ensures forall x :: Lookup(registry, Created(t, provider, c), x) == if x == c.meta.id then Some(c) else Lookup(registry, t, x)
  {
    var u, id := Created(t, provider, c), c.meta.id;
    CreatedShape(registry, t, provider, c);
    OwnerOwns(registry, t, id);
    GainKeepsInv(registry, t, u, provider, id);
    ScanFindsOwner(registry, u, provider, id);
    forall x | x != id ensures Lookup(registry, u, x) == Lookup(registry, t, x) {
      SameLookup(registry, t, u, x, id);
    }
  }

  /** Deleting it removes exactly that. */
  lemma DeleteThenLookup(registry: seq<Provider>, t: Tables, provider: string, id: string)
    requires Inv(registry, t) && Owns(registry, t, provider, id)
    ensures Inv(registry, Deleted(t, provider, id))
    ensures forall x :: Lookup(registry, Deleted(t, provider, id), x) == if x == id then None else Lookup(registry, t, x)
  {
    var u := Deleted(t, provider, id);
    DeletedShape(registry, t, provider, id);
    LossKeepsInv(registry, t, u, id);
    OwnerOwns(registry, u, id);
    forall x | x != id ensures Lookup(registry, u, x) == Lookup(registry, t, x) {
      SameLookup(registry, t, u, x, id);
    }
  }

  /** Changing a stored connection changes what its id holds, and nothing else. */
  lemma UpdateThenLookup(registry: seq<Provider>, t: Tables, provider: string, c: Connection)
    requires Inv(registry, t) && Owns(registry, t, provider, c.meta.id) && c.meta.providerId == provider
    ensures Inv(registry, Updated(t, provider, c.meta.id, c))
    ensures forall x ::
      Lookup(registry, Updated(t, provider, c.meta.id, c), x) == (if x == c.meta.id then Some(c) else Lookup(registry, t, x))
  {
    var u, id := Updated(t, provider, c.meta.id, c), c.meta.id;
    assert forall p, x :: Owns(registry, u, p, x) <==> Owns(registry, t, p, x) by {
      assert forall p :: IndexOf(u, p) == IndexOf(t, p);
    }
    forall p, x | Owns(registry, u, p, x) ensures StoredAt(u, p, x) {
      assert Owns(registry, t, p, x) && StoredAt(t, p, x);
    }
    assert forall p :: IndexOf(u, p) == IndexOf(t, p);
    ScanFindsOwner(registry, u, provider, id);
    forall x | x != id ensures Lookup(registry, u, x) == Lookup(registry, t, x) {
      SameLookup(registry, t, u, x, id);
    }
  }

  /** Creating and deleting a connection leaves every lookup as it was. */
  lemma CreateDeleteRoundTrip(registry: seq<Provider>, t: Tables, provider: string, c: Connection)
    requires Inv(registry, t) && HasSchema(registry, provider) && Owner(registry, t, c.meta.id) == None
    requires c.meta.providerId == provider
    ensures forall x :: Lookup(registry, Deleted(Created(t, provider, c), provider, c.meta.id), x) == Lookup(registry, t, x)
  {
    var u := Created(t, provider, c);
    CreateThenLookup(registry, t, provider, c);
    CreatedShape(registry, t, provider, c);
    DeleteThenLookup(registry, u, provider, c.meta.id);
  }

  /** The listing of a provider: every indexed connection, in index order. */
  function Listed(t: Tables, provider: string, ids: seq<string>): seq<Connection>
    decreases |ids|
  {
    if ids == [] then []
    else
      var front, c := Listed(t, provider, ids[..|ids| - 1]), At(t, provider, ids[|ids| - 1]);
      if c.Some? then front + [c.value] else front
  }

  /** A listing misses nothing: it is what looking up each indexed id gives. */
  lemma {:induction false} ListingIsComplete(registry: seq<Provider>, t: Tables, provider: string, ids: seq<string>)
    requires Inv(registry, t) && forall id <- ids :: Owns(registry, t, provider, id)
    ensures var r := Listed(t, provider, ids);
      |r| == |ids| && forall i | 0 <= i < |ids| :: Some(r[i]) == Lookup(registry, t, ids[i]) && r[i].meta.id == ids[i]
    decreases |ids|
  {
    if ids != [] {
      var front, last := ids[..|ids| - 1], ids[|ids| - 1];
      assert ids == front + [last];
      ListingIsComplete(registry, t, provider, front);
      ListedIsStored(registry, t, provider, last);
    }
  }

  class ConnectionStore {
    const registry: seq<Provider>
    var index: map<string, seq<string>>
    var meta: map<(string, string), Meta>
    var config: map<(string, string), Config>
    var cache: map<string, string>

    constructor (registry: seq<Provider>)
      requires KeysApart(registry)
      ensures Valid() && this.registry == registry && Now() == Tables(map[], map[], map[])
    {
      this.registry := registry;
      index, meta, config, cache := map[], map[], map[], map[];
    }

    ghost function Now(): Tables
      reads this
    {
      Tables(index, meta, config)
    }

    ghost predicate Valid()
      reads this
    {
      Inv(registry, Now()) && CacheAgrees(registry, Now(), cache)
    }

    method FindConnectionProvider(id: string) returns (r: Option<string>)
      requires Valid()
      modifies this`cache
      ensures Valid() && r == Owner(registry, Now(), id)
    {
      if id in cache {
        CachedLookupIsScan(registry, Now(), cache, id);
        return Some(cache[id]);
      }
      for i := 0 to |registry|
        invariant cache == old(cache)
        invariant Owner(registry, Now(), id) == Owner(registry[i..], Now(), id)
      {
        var p := registry[i];
        var t := Tables(index, meta, config);
        assert registry[i..][1..] == registry[i + 1..];
        if p.hasSchema && id in IndexOf(t, p.id) {
          OwnerOwns(registry, Now(), id);
          cache := cache[id := p.id];
          return Some(p.id);
        }
      }
      return None;
    }

    method GetConnection(id: string) returns (r: Option<Connection>)
      requires Valid()
      modifies this`cache
      ensures Valid() && r == Lookup(registry, Now(), id)
    {
      var owner := FindConnectionProvider(id);
      r := if owner.None? then None else At(Tables(index, meta, config), owner.value, id);
    }

    method ListConnections(provider: string) returns (r: seq<Connection>)
      requires Valid()
      modifies this`cache
      ensures Valid()
      ensures r == if HasSchema(registry, provider) then Listed(Now(), provider, IndexOf(Now(), provider)) else []
    {
      if !HasSchema(registry, provider) {
        return [];
      }
      var t := Tables(index, meta, config);
      var ids := IndexOf(t, provider);
      r := [];
      for i := 0 to |ids|
        invariant r == Listed(t, provider, ids[..i]) && CacheAgrees(registry, t, cache)
      {
        assert ids[..i + 1][..i] == ids[..i];
        var c := At(t, provider, ids[i]);
        if c.Some? {
          cache := cache[ids[i] := provider];
          r := r + [c.value];
        }
      }
      assert ids[..|ids|] == ids;
    }

    /** `None` is the error for a provider without a connection schema; its metadata
        has been written by then, under an id no index lists. */
    method CreateConnection(provider: string, name: string, settings: Config, id: string, now: int)
      returns (r: Option<Connection>)
      requires Valid() && Owner(registry, Now(), id) == None
      modifies this
      ensures Valid()
      ensures r == if HasSchema(registry, provider) then Some(Connection(Meta(id, provider, name, now, now), settings)) else None
      ensures r.Some? ==> Now() == Created(old(Now()), provider, r.value)
      ensures forall x :: Lookup(registry, Now(), x) == if r.Some? && x == id then r else old(Lookup(registry, Now(), x))
    {
      ghost var t := Now();
      var m := Meta(id, provider, name, now, now);
      OwnerOwns(registry, t, id);
      meta := meta[(Key(provider), id) := m];
      if !HasSchema(registry, provider) {
        OrphanMetaIsUnseen(registry, t, provider, id, m, Now());
        return None;
      }
      var c := Connection(m, settings);
      CreateThenLookup(registry, t, provider, c);
      CreatedShape(registry, t, provider, c);
      config := config[(Key(provider), id) := settings];
      var before := if Key(provider) in index then index[Key(provider)] else [];
      index := index[Key(provider) := before + [id]];
      assert Now() == Created(t, provider, c);
      assert Gains(registry, t, Now(), provider, id);
      cache := cache[id := provider];
      return Some(c);
    }

    /** `None` is the error for an unknown connection, or for stored settings that the
        provider's schema, `parses`, rejects when they are read. The settings are merged
        by key and stored without a check. */
    method UpdateConnection(id: string, name: Option<string>, changes: Option<Config>, now: int, parses: Config -> bool)
      returns (r: Option<Connection>)
      requires Valid()
      modifies this
      ensures Valid()
      ensures var before := old(Lookup(registry, Now(), id));
        && r.Some? == (before.Some? && parses(before.value.config))
        && (r.Some? ==>
             r.value == Connection(before.value.meta.(name := if name.Some? then name.value else before.value.meta.name,
                                                      updatedAt := now),
                                   if changes.Some? then before.value.config + changes.value else before.value.config))
      ensures forall x :: Lookup(registry, Now(), x) == if r.Some? && x == id then r else old(Lookup(registry, Now(), x))
    {
      var owner := FindConnectionProvider(id);
      ghost var t := Now();
      OwnerOwns(registry, t, id);
      if owner.None? {
        return None;
      }
      var key := (Key(owner.value), id);
      if key !in meta || key !in config || !parses(config[key]) {
        return None;
      }
      ListedIsStored(registry, t, owner.value, id);
      var m := meta[key].(name := if name.Some? then name.value else meta[key].name, updatedAt := now);
      var settings := if changes.Some? then config[key] + changes.value else config[key];
      var c := Connection(m, settings);
      UpdateThenLookup(registry, t, owner.value, c);
      meta := meta[key := m];
      config := config[key := settings];
      assert Now() == Updated(t, owner.value, id, c);
      assert forall p :: IndexOf(Now(), p) == IndexOf(t, p);
      return Some(c);
    }

    method DeleteConnection(id: string) returns (ok: bool)
      requires Valid()
      modifies this
      ensures Valid() && ok == old(Lookup(registry, Now(), id)).Some?
      ensures forall x :: Lookup(registry, Now(), x) == if x == id then None else old(Lookup(registry, Now(), x))
    {
      var owner := FindConnectionProvider(id);
      ghost var t := Now();
      OwnerOwns(registry, t, id);
      if owner.None? {
        return false;
      }
      var p := owner.value;
      ListedIsStored(registry, t, p, id);
      DeleteThenLookup(registry, t, p, id);
      DeletedShape(registry, t, p, id);
      config := config - {(Key(p), id)};
      meta := meta - {(Key(p), id)};
      var ids := if Key(p) in index then index[Key(p)] else [];
      var filtered := Filter(other => other != id, ids);
      if |filtered| == |ids| {
        FilterDrops(id, ids);
        return false;
      }
      index := index[Key(p) := filtered];
      assert Now() == Deleted(t, p, id);
      assert Loses(registry, t, Now(), id);
      cache := cache - {id};
      return true;
    }
  }

  lemma {:induction false} FilterDrops(id: string, ids: seq<string>)
    requires id in ids
    ensures |Filter(other => other != id, ids)| < |ids|
  {
    if ids[0] != id {
      FilterDrops(id, ids[1..]);
    }
  }

  lemma OrphanMetaIsUnseen(registry: seq<Provider>, t: Tables, provider: string, id: string, m: Meta, u: Tables)
    requires Inv(registry, t) && (forall p :: !Owns(registry, t, p, id))
    requires u == WithMeta(t, provider, id, m)
    ensures Inv(registry, u) && forall x :: Lookup(registry, u, x) == Lookup(registry, t, x)
    ensures forall p, x :: Owns(registry, u, p, x) <==> Owns(registry, t, p, x)
  {
    assert u.index == t.index;
    forall p, x ensures Owns(registry, u, p, x) <==> Owns(registry, t, p, x) {
      assert IndexOf(u, p) == IndexOf(t, p);
    }
    forall p, x | Owns(registry, u, p, x) ensures StoredAt(u, p, x) {
      assert Owns(registry, t, p, x) && StoredAt(t, p, x);
    }
    assert OneOwner(registry, u);
    forall x ensures Lookup(registry, u, x) == Lookup(registry, t, x) {
      if x == id {
        OwnerOwns(registry, t, x);
        OwnerOwns(registry, u, x);
      } else {
        SameLookup(registry, t, u, x, id);
      }
    }
  }

  // ------------------------------------------------------ keys not apart

  /** The first provider in registration order with a schema and this key. */
  function FirstWithKey(registry: seq<Provider>, key: string): Option<string> {
    if registry == [] then None
    else if registry[0].hasSchema && Key(registry[0].id) == key then Some(registry[0].id)
    else FirstWithKey(registry[1..], key)
  }

  lemma {:induction false} SharedIndexScan(registry: seq<Provider>, t: Tables, provider: string, c: Connection)
    requires Owner(registry, t, c.meta.id) == None
    ensures Owner(registry, Created(t, provider, c), c.meta.id) == FirstWithKey(registry, Key(provider))
  {
    if registry != [] {
      SharedIndexScan(registry[1..], t, provider, c);
      var p, u := registry[0].id, Created(t, provider, c);
      assert c.meta.id in IndexOf(u, p) <==> (Key(p) == Key(provider) || c.meta.id in IndexOf(t, p));
    }
  }

  /** For any registry, and whatever is stored: a new connection belongs to the
      provider it was created for exactly when that provider is the first in
      registration order with its sanitized id. */
  lemma CreatorOwnsIff(registry: seq<Provider>, t: Tables, provider: string, c: Connection)
    requires Owner(registry, t, c.meta.id) == None
    ensures Owner(registry, Created(t, provider, c), c.meta.id) == Some(provider)
      <==> FirstWithKey(registry, Key(provider)) == Some(provider)
    ensures forall p <- registry | p.hasSchema ::
      Owns(registry, Created(t, provider, c), p.id, c.meta.id) <==> Key(p.id) == Key(provider)
  {
    SharedIndexScan(registry, t, provider, c);
    OwnerOwns(registry, t, c.meta.id);
    forall p | p in registry && p.hasSchema
      ensures Owns(registry, Created(t, provider, c), p.id, c.meta.id) <==> Key(p.id) == Key(provider)
    {
      assert !Owns(registry, t, p.id, c.meta.id);
    }
  }

  lemma {:induction false} FirstIsIndexed(registry: seq<Provider>, key: string)
    ensures FirstWithKey(registry, key).None? <==> forall p <- registry :: p.hasSchema ==> Key(p.id) != key
    ensures var first := FirstWithKey(registry, key);
      first.Some? ==> HasSchema(registry, first.value) && Key(first.value) == key
  {
    if registry != [] {
      FirstIsIndexed(registry[1..], key);
      assert registry == [registry[0]] + registry[1..];
      var first := FirstWithKey(registry, key);
      if first.Some? {
        HasSchemaCons(registry, first.value);
      }
    }
  }

  /** Every creation finds its own provider exactly when no two providers with a
      schema share a sanitized id. */
  lemma AllCreatorsOwnIff(registry: seq<Provider>)
    ensures (forall p <- registry :: p.hasSchema ==> FirstWithKey(registry, Key(p.id)) == Some(p.id))
      <==> forall p, q | p in registry && q in registry && p.hasSchema && q.hasSchema && Key(p.id) == Key(q.id) :: p.id == q.id
  {
    forall p | p in registry && p.hasSchema
      ensures var first := FirstWithKey(registry, Key(p.id));
        first.Some? && HasSchema(registry, first.value) && Key(first.value) == Key(p.id)
    {
      FirstIsIndexed(registry, Key(p.id));
    }
  }

  /** Two real qualified ids, a plugin id and a provider id joined by a dot, that
      differ only in the place of the dot. */
  lemma DottedIdsCollide(t: Tables, c: Connection)
    requires Owner([Provider("a_b.c", true), Provider("a.b_c", true)], t, c.meta.id) == None
    ensures Key("a" + "." + "b_c") == Key("a_b" + "." + "c")
    ensures Owner([Provider("a_b.c", true), Provider("a.b_c", true)], Created(t, "a.b_c", c), c.meta.id) == Some("a_b.c")
  {
    assert "a" + "." + "b_c" == "a.b_c" && "a_b" + "." + "c" == "a_b.c";
    assert Key("a_b.c") == "a_b_c" && Key("a.b_c") == "a_b_c";
    CreatorOwnsIff([Provider("a_b.c", true), Provider("a.b_c", true)], t, "a.b_c", c);
  }
}
