/** The frontend's plugin list and the extension and route indexes derived from it. */
module PluginRegistry {
  import opened Sequences

  datatype Extension = Extension(id: string, slot: string, component: int)

  datatype Route = Route(id: string, owner: string, path: string)

  datatype Plugin = Plugin(id: string, extensions: seq<Extension>, routes: seq<Route>)

  function FullPath(r: Route): string {
    "/" + r.owner + (if |r.path| > 0 && r.path[0] == '/' then r.path else "/" + r.path)
  }

  /** The path of a route starts at its plugin and has one slash between the two parts. */
  predicate IsPath(full: string, r: Route) {
    var n := |r.owner| + 1;
    && |full| > n && full[0] == '/' && full[1..n] == r.owner && full[n] == '/'
    && (if r.path != "" && r.path[0] == '/' then full[n..] else full[n + 1..]) == r.path
  }

  lemma FullPathIsPath(r: Route)
    ensures IsPath(FullPath(r), r)
  {
    var rest := if |r.path| > 0 && r.path[0] == '/' then r.path else "/" + r.path;
    var full, n := FullPath(r), |r.owner| + 1;
    assert full == ("/" + r.owner) + rest;
    assert full[..n] == "/" + r.owner && full[n..] == rest;
    assert full[n + 1..] == rest[1..];
  }

  function InSlot(slot: string): Extension -> bool { (e: Extension) => e.slot == slot }

  function Extensions(plugins: seq<Plugin>): seq<Extension> {
    if plugins == [] then [] else plugins[0].extensions + Extensions(plugins[1..])
  }

  function Routes(plugins: seq<Plugin>): seq<Route> {
    if plugins == [] then [] else plugins[0].routes + Routes(plugins[1..])
  }

  function Slot(index: map<string, seq<Extension>>, slot: string): seq<Extension> { if slot in index then index[slot] else [] }

  /** Every slot lists the extensions of the registered plugins, in order. */
  ghost predicate ExtensionsAgree(plugins: seq<Plugin>, index: map<string, seq<Extension>>) {
    forall slot :: Slot(index, slot) == Filter(InSlot(slot), Extensions(plugins))
  }

  function Put(paths: map<string, string>, routes: seq<Route>): map<string, string>
    decreases |routes|
  {
    if routes == [] then paths
    else Put(paths, routes[..|routes| - 1])[routes[|routes| - 1].id := FullPath(routes[|routes| - 1])]
  }

  /** The route map holds exactly the routes of the registered plugins. */
  ghost predicate RoutesAgree(plugins: seq<Plugin>, paths: map<string, string>) {
    && (forall r <- Routes(plugins) :: r.id in paths && paths[r.id] == FullPath(r))
    && (forall id :: id in paths ==> exists r <- Routes(plugins) :: r.id == id)
  }

  /** Across plugins, neither a slot repeats an extension id nor any route id repeats. */
  ghost predicate Apart(p: Plugin, q: Plugin) {
    && p.id != q.id
    && (forall e <- p.extensions, f <- q.extensions :: e.slot == f.slot ==> e.id != f.id)
    && (forall r <- p.routes, s <- q.routes :: r.id != s.id)
  }

  ghost predicate Consistent(p: Plugin) {
    && (forall r <- p.routes :: r.owner == p.id)
    && forall i, j | 0 <= i < j < |p.routes| :: p.routes[i].id != p.routes[j].id
  }

  ghost predicate WellFormed(plugins: seq<Plugin>) {
    && (forall i | 0 <= i < |plugins| :: Consistent(plugins[i]))
    && forall i, j | 0 <= i < |plugins| && 0 <= j < |plugins| && i != j :: Apart(plugins[i], plugins[j])
  }

  lemma Associates<T>(a: seq<T>, b: seq<T>, c: seq<T>)
    ensures (a + b) + c == a + (b + c)
  {
  }

  lemma {:induction false} ExtensionsAppend(a: seq<Plugin>, b: seq<Plugin>)
    ensures Extensions(a + b) == Extensions(a) + Extensions(b)
  {
    if a == [] {
      assert a + b == b;
    } else {
      ExtensionsAppend(a[1..], b);
      assert (a + b)[1..] == a[1..] + b && (a + b)[0] == a[0];
      Associates(a[0].extensions, Extensions(a[1..]), Extensions(b));
    }
  }

  lemma {:induction false} RoutesAppend(a: seq<Plugin>, b: seq<Plugin>)
    ensures Routes(a + b) == Routes(a) + Routes(b)
  {
    if a == [] {
      assert a + b == b;
    } else {
      RoutesAppend(a[1..], b);
      assert (a + b)[1..] == a[1..] + b && (a + b)[0] == a[0];
      Associates(a[0].routes, Routes(a[1..]), Routes(b));
    }
  }

  lemma {:induction false} ExtensionOrigin(plugins: seq<Plugin>, e: Extension) returns (i: nat)
    requires e in Extensions(plugins)
    ensures i < |plugins| && e in plugins[i].extensions
  {
    if e in plugins[0].extensions {
      i := 0;
    } else {
      i := ExtensionOrigin(plugins[1..], e);
      i := i + 1;
    }
  }

  lemma {:induction false} RouteOrigin(plugins: seq<Plugin>, r: Route) returns (i: nat)
    requires r in Routes(plugins)
    ensures i < |plugins| && r in plugins[i].routes
  {
    if r in plugins[0].routes {
      i := 0;
    } else {
      i := RouteOrigin(plugins[1..], r);
      i := i + 1;
    }
  }

  lemma SplitExtensions(before: seq<Plugin>, p: Plugin, after: seq<Plugin>, keep: Extension -> bool)
    ensures Filter(keep, Extensions(before + [p] + after))
      == Filter(keep, Extensions(before)) + Filter(keep, p.extensions) + Filter(keep, Extensions(after))
  {
    ExtensionsAppend(before + [p], after);
    ExtensionsAppend(before, [p]);
    assert [p][1..] == [] && Extensions([p]) == p.extensions;
    FilterAppend(keep, Extensions(before) + p.extensions, Extensions(after));
    FilterAppend(keep, Extensions(before), p.extensions);
  }

  lemma SplitRoutes(before: seq<Plugin>, p: Plugin, after: seq<Plugin>)
    ensures Routes(before + [p] + after) == Routes(before) + p.routes + Routes(after)
  {
    RoutesAppend(before + [p], after);
    RoutesAppend(before, [p]);
    assert [p][1..] == [] && Routes([p]) == p.routes;
  }

  lemma {:induction false} PutMeaning(paths: map<string, string>, routes: seq<Route>)
    ensures forall id :: id in Put(paths, routes) <==> id in paths || exists r <- routes :: r.id == id
    ensures forall id :: id in paths && (forall r <- routes :: r.id != id) ==>
      id in Put(paths, routes) && Put(paths, routes)[id] == paths[id]
    ensures (forall i, j | 0 <= i < j < |routes| :: routes[i].id != routes[j].id) ==>
      forall r <- routes :: r.id in Put(paths, routes) && Put(paths, routes)[r.id] == FullPath(r)
    decreases |routes|
  {
    if routes != [] {
      PutMeaning(paths, routes[..|routes| - 1]);
      assert routes == routes[..|routes| - 1] + [routes[|routes| - 1]];
    }
  }

  /** Routes of distinct ids are all resolved to their paths; other routes stay. */
  ghost predicate Resolved(routes: seq<Route>, before: map<string, string>, after: map<string, string>) {
    && (forall r <- routes :: r.id in after && IsPath(after[r.id], r))
    && (forall id | id in before && (forall r <- routes :: r.id != id) :: id in after && after[id] == before[id])
    && (forall id <- after :: id in before || exists r <- routes :: r.id == id)
  }

  ghost predicate DistinctIds(routes: seq<Route>) {
    forall i, j | 0 <= i < j < |routes| :: routes[i].id != routes[j].id
  }

  lemma PutResolves(paths: map<string, string>, routes: seq<Route>)
    requires DistinctIds(routes)
    ensures Resolved(routes, paths, Put(paths, routes))
  {
    PutMeaning(paths, routes);
    forall r | r in routes ensures IsPath(FullPath(r), r) {
      FullPathIsPath(r);
    }
  }

  // ----------------------------------------------------- removing extensions

  /** `findIndex` by id, then `splice`. */
  function DropFirst(list: seq<Extension>, id: string): seq<Extension> {
    if list == [] then [] else if list[0].id == id then list[1..] else [list[0]] + DropFirst(list[1..], id)
  }

  /** The extensions' ids dropped one after another. */
  function DropEach(list: seq<Extension>, es: seq<Extension>): seq<Extension>
    decreases |es|
  {
    if es == [] then list else DropFirst(DropEach(list, es[..|es| - 1]), es[|es| - 1].id)
  }

  lemma {:induction false} DropSkips(a: seq<Extension>, e: Extension, b: seq<Extension>)
    requires forall x <- a :: x.id != e.id
    ensures DropFirst(a + [e] + b, e.id) == a + b
  {
    if a == [] {
      assert [] + [e] + b == [e] + b && a + b == b;
    } else {
      assert (a + [e] + b)[1..] == a[1..] + [e] + b;
      DropSkips(a[1..], e, b);
      assert a + b == [a[0]] + (a[1..] + b);
    }
  }

  lemma {:induction false} DropsOwn(a: seq<Extension>, p: seq<Extension>, b: seq<Extension>, n: nat)
    requires n <= |p| && forall x <- a, e <- p :: x.id != e.id
    ensures DropEach(a + p + b, p[..n]) == a + p[n..] + b
    decreases n
  {
    if n > 0 {
      assert p[..n][..n - 1] == p[..n - 1];
      DropsOwn(a, p, b, n - 1);
      assert a + p[n - 1..] + b == a + [p[n - 1]] + (p[n..] + b);
      DropSkips(a, p[n - 1], p[n..] + b);
      assert a + (p[n..] + b) == a + p[n..] + b;
    }
  }

  function WithId(id: string): Extension -> bool { (e: Extension) => e.id == id }

  lemma {:induction false} DropFirstOfId(list: seq<Extension>, id: string, v: string)
    ensures var f := Filter(WithId(v), list);
      Filter(WithId(v), DropFirst(list, id)) == if id == v && f != [] then f[1..] else f
  {
    if list != [] && list[0].id != id {
      DropFirstOfId(list[1..], id, v);
      FilterCons(WithId(v), list[0], DropFirst(list[1..], id));
    }
  }

  /** Of each id, as many leading entries go as there are extensions to drop. */
  lemma {:induction false} DropEachOfId(list: seq<Extension>, es: seq<Extension>, v: string)
    requires |Filter(WithId(v), es)| <= |Filter(WithId(v), list)|
    ensures Filter(WithId(v), DropEach(list, es)) == Filter(WithId(v), list)[|Filter(WithId(v), es)|..]
    decreases |es|
  {
    if es != [] {
      var front, e := es[..|es| - 1], es[|es| - 1];
      assert es == front + [e];
      FilterSnoc(WithId(v), front, e);
      DropEachOfId(list, front, v);
      DropOneMore(DropEach(list, front), e, v, Filter(WithId(v), list), |Filter(WithId(v), front)|);
    }
  }

  lemma DropOneMore(left: seq<Extension>, e: Extension, v: string, kept: seq<Extension>, n: nat)
    requires n <= |kept| && Filter(WithId(v), left) == kept[n..] && (e.id == v ==> n < |kept|)
    ensures Filter(WithId(v), DropFirst(left, e.id)) == if e.id == v then kept[n + 1..] else kept[n..]
  {
    DropFirstOfId(left, e.id, v);
    if e.id == v {
      TailOfTail(kept, n);
    }
  }

  lemma TailOfTail<T>(s: seq<T>, n: nat)
    requires n < |s|
    ensures s[n..] != [] && s[n..][1..] == s[n + 1..]
  {
  }

  /** The first entry of an earlier list is among the dropped ones. */
  lemma HeadIsLost(a: seq<Extension>, own: seq<Extension>, b: seq<Extension>)
    requires a != [] && own != [] && (a + own + b)[|own|..] == a + b
    ensures a[0] in own
  {
    var all, n := a + own + b, |own|;
    assert multiset(all) == multiset(all[..n]) + multiset(a + b) by {
      assert all == all[..n] + all[n..];
    }
    assert multiset(all) == multiset(a) + multiset(own) + multiset(b);
    assert a[0] in all[..n] by {
      assert all[..n][0] == a[0];
    }
    var x := a[0];
    assert multiset(all)[x] == multiset(all[..n])[x] + multiset(a + b)[x];
    assert multiset(a + b)[x] == multiset(a)[x] + multiset(b)[x];
    assert multiset(all)[x] == multiset(a)[x] + multiset(own)[x] + multiset(b)[x];
  }

  lemma SharedIdIsLost(a: seq<Extension>, own: seq<Extension>, b: seq<Extension>, v: string)
    requires forall x <- a :: x !in own
    requires Filter(WithId(v), a) != [] && Filter(WithId(v), own) != []
    ensures DropEach(a + own + b, own) != a + b
  {
    var f := WithId(v);
    FilterAppend(f, a + own, b);
    FilterAppend(f, a, own);
    FilterAppend(f, a, b);
    DropEachOfId(a + own + b, own, v);
    if DropEach(a + own + b, own) == a + b {
      HeadIsLost(Filter(f, a), Filter(f, own), Filter(f, b));
    }
  }

  /** Dropping a plugin's ids from a slot drops exactly its own entries if and only
      if no entry before them shares an id with them. */
  lemma DropsOwnIff(a: seq<Extension>, own: seq<Extension>, b: seq<Extension>)
    requires forall x <- a :: x !in own
    ensures DropEach(a + own + b, own) == a + b <==> forall x <- a, e <- own :: x.id != e.id
  {
    if x, e :| x in a && e in own && x.id == e.id {
      FilterKeeps(WithId(x.id), a, x);
      FilterKeeps(WithId(x.id), own, e);
      SharedIdIsLost(a, own, b, x.id);
    } else {
      DropsOwn(a, own, b, |own|);
      assert own[..|own|] == own && a + own[|own|..] + b == a + b;
    }
  }

  /** An earlier plugin put an extension with one of `p`'s ids into the slot. */
  ghost predicate SharesEarlier(before: seq<Plugin>, p: Plugin, slot: string) {
    exists x <- Extensions(before), e <- p.extensions :: x.slot == slot && e.slot == slot && x.id == e.id
  }

  /** No earlier plugin holds one of `p`'s own extension objects. */
  ghost predicate OwnObjects(before: seq<Plugin>, p: Plugin) {
    forall x <- Extensions(before) :: x !in p.extensions
  }

  /** After dropping a plugin's ids a slot holds what the other plugins put there if
      and only if no earlier plugin shares an id in it; later ones do not matter. */
  lemma SlotRightIff(before: seq<Plugin>, p: Plugin, after: seq<Plugin>, slot: string)
    requires OwnObjects(before, p)
    ensures !SharesEarlier(before, p, slot) <==>
      (DropEach(Filter(InSlot(slot), Extensions(before + [p] + after)), Filter(InSlot(slot), p.extensions))
        == Filter(InSlot(slot), Extensions(before + after)))
  {
    var keep := InSlot(slot);
    var a, own, b := Filter(keep, Extensions(before)), Filter(keep, p.extensions), Filter(keep, Extensions(after));
    SplitExtensions(before, p, after, keep);
    ExtensionsAppend(before, after);
    FilterAppend(keep, Extensions(before), Extensions(after));
    DropsOwnIff(a, own, b);
    if x, e :| x in Extensions(before) && e in p.extensions && x.slot == slot && e.slot == slot && x.id == e.id {
      FilterKeeps(keep, Extensions(before), x);
      FilterKeeps(keep, p.extensions, e);
    }
  }

  /** `u` is `index` with the ids of the extensions dropped from their slots. */
  ghost predicate Dropped(index: map<string, seq<Extension>>, u: map<string, seq<Extension>>, es: seq<Extension>) {
    forall slot :: Slot(u, slot) == DropEach(Slot(index, slot), Filter(InSlot(slot), es))
  }

  /** All slots at once. */
  lemma SlotsRightIff(before: seq<Plugin>, p: Plugin, after: seq<Plugin>,
                      index: map<string, seq<Extension>>, u: map<string, seq<Extension>>)
    requires OwnObjects(before, p) && ExtensionsAgree(before + [p] + after, index) && Dropped(index, u, p.extensions)
    ensures ExtensionsAgree(before + after, u) <==> forall slot :: !SharesEarlier(before, p, slot)
  {
    forall slot
      ensures Slot(u, slot) == Filter(InSlot(slot), Extensions(before + after)) <==> !SharesEarlier(before, p, slot)
    {
      SlotRightIff(before, p, after, slot);
    }
  }

  lemma EarlierIdsDiffer(before: seq<Plugin>, p: Plugin, after: seq<Plugin>)
    requires WellFormed(before + [p] + after)
    ensures OwnObjects(before, p) && forall slot :: !SharesEarlier(before, p, slot)
  {
    var all := before + [p] + after;
    forall x, e | x in Extensions(before) && e in p.extensions && x.slot == e.slot ensures x.id != e.id {
      var i := ExtensionOrigin(before, x);
      assert all[i] == before[i] && all[|before|] == p;
      assert Apart(all[i], all[|before|]);
    }
  }

  lemma OtherRoutesDiffer(before: seq<Plugin>, p: Plugin, after: seq<Plugin>, r: Route, s: Route)
    requires WellFormed(before + [p] + after) && s in p.routes
    requires r in Routes(before) || r in Routes(after)
    ensures r.id != s.id
  {
    var all := before + [p] + after;
    assert all[|before|] == p;
    if r in Routes(before) {
      var i := RouteOrigin(before, r);
      assert all[i] == before[i] && Apart(all[i], all[|before|]);
    } else {
      var i := RouteOrigin(after, r);
      assert all[|before| + 1 + i] == after[i] && Apart(all[|before| + 1 + i], all[|before|]);
    }
  }

  function RouteIds(p: Plugin): set<string> { set r <- p.routes :: r.id }

  /** Deleting a plugin's route ids leaves exactly the other plugins' routes if and
      only if none of those uses one of the ids. */
  lemma RoutesRightIff(before: seq<Plugin>, p: Plugin, after: seq<Plugin>, paths: map<string, string>)
    requires RoutesAgree(before + [p] + after, paths)
    ensures RoutesAgree(before + after, paths - RouteIds(p)) <==> forall r <- Routes(before + after) :: r.id !in RouteIds(p)
  {
    SplitRoutes(before, p, after);
    RoutesAppend(before, after);
  }

  lemma RoutesWithout(before: seq<Plugin>, p: Plugin, after: seq<Plugin>, paths: map<string, string>)
    requires WellFormed(before + [p] + after) && RoutesAgree(before + [p] + after, paths)
    ensures RoutesAgree(before + after, paths - RouteIds(p))
  {
    RoutesRightIff(before, p, after, paths);
    RoutesAppend(before, after);
    forall r, s | r in Routes(before + after) && s in p.routes ensures r.id != s.id {
      OtherRoutesDiffer(before, p, after, r, s);
    }
  }

  /** How many routes come before the first one that names another plugin. */
  function OwnCount(routes: seq<Route>, owner: string): (n: nat)
    ensures n <= |routes| && forall i | 0 <= i < n :: routes[i].owner == owner
    ensures n < |routes| ==> routes[n].owner != owner
  {
    if routes == [] || routes[0].owner != owner then 0 else 1 + OwnCount(routes[1..], owner)
  }

  /** The routes that are stored: those before the first one that names another plugin. */
  function Accepted(routes: seq<Route>, owner: string): (r: seq<Route>)
    ensures forall x <- r :: x in routes
    ensures r == routes <==> forall x <- routes :: x.owner == owner
  {
    routes[..OwnCount(routes, owner)]
  }

  lemma ExtensionsAfterRegister(plugins: seq<Plugin>, p: Plugin, index: map<string, seq<Extension>>,
                                u: map<string, seq<Extension>>)
    requires ExtensionsAgree(plugins, index) && Extended(index, u, p.extensions)
    ensures ExtensionsAgree(plugins + [p], u)
  {
    assert plugins + [p] + [] == plugins + [p];
    forall slot ensures Slot(u, slot) == Filter(InSlot(slot), Extensions(plugins + [p])) {
      SplitExtensions(plugins, p, [], InSlot(slot));
    }
  }

  /** Registering adds the plugin's extensions and routes at the end. */
  lemma AgreeAfterRegister(plugins: seq<Plugin>, p: Plugin, index: map<string, seq<Extension>>, u: map<string, seq<Extension>>,
                           paths: map<string, string>)
    requires ExtensionsAgree(plugins, index) && RoutesAgree(plugins, paths) && WellFormed(plugins + [p])
    requires Extended(index, u, p.extensions)
    ensures ExtensionsAgree(plugins + [p], u) && RoutesAgree(plugins + [p], Put(paths, p.routes))
  {
    ExtensionsAfterRegister(plugins, p, index, u);
    assert plugins + [p] + [] == plugins + [p];
    PutMeaning(paths, p.routes);
    SplitRoutes(plugins, p, []);
    assert Consistent((plugins + [p])[|plugins|]);
    forall r, s | r in Routes(plugins) && s in p.routes ensures r.id != s.id {
      OtherRoutesDiffer(plugins, p, [], r, s);
    }
  }

  /** The index of the first plugin with the id, as `findIndex` gives it. */
  function Position(plugins: seq<Plugin>, id: string): (i: nat)
    ensures i <= |plugins| && (i == |plugins| <==> forall p <- plugins :: p.id != id)
    ensures i < |plugins| ==> plugins[i].id == id
  {
    if plugins == [] then 0 else if plugins[0].id == id then 0 else 1 + Position(plugins[1..], id)
  }

  /** Every slot of `now` is that of `start` followed by the new extensions of the slot. */
  ghost predicate Extended(start: map<string, seq<Extension>>, now: map<string, seq<Extension>>, es: seq<Extension>) {
    forall slot :: Slot(now, slot) == Slot(start, slot) + Filter(InSlot(slot), es)
  }

  lemma AddedOne(start: map<string, seq<Extension>>, before: map<string, seq<Extension>>, es: seq<Extension>, e: Extension)
    requires Extended(start, before, es)
    ensures Extended(start, before[e.slot := Slot(before, e.slot) + [e]], es + [e])
  {
    forall slot
      ensures Filter(InSlot(slot), es + [e])
        == if e.slot == slot then Filter(InSlot(slot), es) + [e] else Filter(InSlot(slot), es)
    {
      FilterSnoc(InSlot(slot), es, e);
    }
  }

  function Without(index: map<string, seq<Extension>>, e: Extension): map<string, seq<Extension>> {
    if e.slot in index then index[e.slot := DropFirst(index[e.slot], e.id)] else index
  }

  lemma DroppedOne(start: map<string, seq<Extension>>, before: map<string, seq<Extension>>,
                   es: seq<Extension>, e: Extension, slot: string)
    requires Slot(before, slot) == DropEach(Slot(start, slot), Filter(InSlot(slot), es))
    ensures Slot(Without(before, e), slot) == DropEach(Slot(start, slot), Filter(InSlot(slot), es + [e]))
  {
    FilterAppend(InSlot(slot), es, [e]);
    var f := Filter(InSlot(slot), es);
    if e.slot == slot {
      assert Filter(InSlot(slot), [e]) == [e];
      assert (f + [e])[..|f|] == f;
      assert DropEach(Slot(start, slot), f + [e]) == DropFirst(Slot(before, slot), e.id);
    } else {
      assert Filter(InSlot(slot), [e]) == [] && f + [] == f;
    }
  }

  class Registry {
    var plugins: seq<Plugin>
    var extensions: map<string, seq<Extension>>
    var routeMap: map<string, string>
    var version: nat

    constructor ()
      ensures Valid() && plugins == [] && version == 0
    {
      plugins, extensions, routeMap, version := [], map[], map[], 0;
    }

    ghost predicate Valid()
      reads this
    {
      WellFormed(plugins) && ExtensionsAgree(plugins, extensions) && RoutesAgree(plugins, routeMap)
    }

    method AddExtensions(es: seq<Extension>)
      modifies this`extensions
      ensures Extended(old(extensions), extensions, es)
    {
      for i := 0 to |es|
        invariant Extended(old(extensions), extensions, es[..i])
      {
        assert es[..i + 1] == es[..i] + [es[i]];
        AddedOne(old(extensions), extensions, es[..i], es[i]);
        extensions := extensions[es[i].slot := Slot(extensions, es[i].slot) + [es[i]]];
      }
      assert es[..|es|] == es;
    }

    method DropExtensions(es: seq<Extension>)
      modifies this`extensions
      ensures Dropped(old(extensions), extensions, es)
    {
      ghost var start := extensions;
      for i := 0 to |es|
        invariant forall slot :: Slot(extensions, slot) == DropEach(Slot(start, slot), Filter(InSlot(slot), es[..i]))
      {
        ghost var before := extensions;
        if es[i].slot in extensions {
          extensions := extensions[es[i].slot := DropFirst(extensions[es[i].slot], es[i].id)];
        }
        assert es[..i + 1] == es[..i] + [es[i]];
        forall slot ensures Slot(extensions, slot) == DropEach(Slot(start, slot), Filter(InSlot(slot), es[..i + 1])) {
          DroppedOne(start, before, es[..i], es[i], slot);
        }
      }
      assert es[..|es|] == es;
    }

    /** Throws at the first route that names another plugin, leaving the earlier ones. */
    method RegisterRoutes(p: Plugin) returns (ok: bool)
      modifies this`routeMap
      ensures routeMap == Put(old(routeMap), Accepted(p.routes, p.id))
      ensures ok == (Accepted(p.routes, p.id) == p.routes)
      ensures ok && DistinctIds(p.routes) ==> Resolved(p.routes, old(routeMap), routeMap)
    {
      if DistinctIds(p.routes) {
        PutResolves(routeMap, p.routes);
      }
      for i := 0 to |p.routes|
        invariant routeMap == Put(old(routeMap), p.routes[..i])
        invariant i <= OwnCount(p.routes, p.id)
      {
        if p.routes[i].owner != p.id {
          return false;
        }
        assert p.routes[..i + 1][..i] == p.routes[..i];
        assert i != OwnCount(p.routes, p.id);
        routeMap := routeMap[p.routes[i].id := FullPath(p.routes[i])];
      }
      assert p.routes[..|p.routes|] == p.routes;
      return true;
    }

    /** A rejected plugin stays listed, with its extensions, and the version stays too. */
    method Register(p: Plugin) returns (ok: bool)
      modifies this
      ensures (exists q <- old(plugins) :: q.id == p.id) ==>
        ok && plugins == old(plugins) && extensions == old(extensions) && routeMap == old(routeMap) && version == old(version)
      ensures !(exists q <- old(plugins) :: q.id == p.id) ==>
        && plugins == old(plugins) + [p]
        && Extended(old(extensions), extensions, p.extensions)
        && ok == (forall r <- p.routes :: r.owner == p.id)
        && version == (if ok then old(version) + 1 else old(version))
        && routeMap == Put(old(routeMap), Accepted(p.routes, p.id))
        && (ok && DistinctIds(p.routes) ==> Resolved(p.routes, old(routeMap), routeMap))
      ensures old(ExtensionsAgree(plugins, extensions)) ==> ExtensionsAgree(plugins, extensions)
      ensures old(Valid()) && WellFormed(old(plugins) + [p]) ==> ok && Valid() && plugins == old(plugins) + [p]
    {
      if exists q <- plugins :: q.id == p.id {
        ghost var q :| q in plugins && q.id == p.id;
        ghost var i :| 0 <= i < |plugins| && plugins[i] == q;
        assert WellFormed(plugins + [p]) ==> Apart((plugins + [p])[i], (plugins + [p])[|plugins|]);
        return true;
      }
      plugins := plugins + [p];
      AddExtensions(p.extensions);
      if old(ExtensionsAgree(plugins, extensions)) {
        ExtensionsAfterRegister(old(plugins), p, old(extensions), extensions);
      }
      ok := RegisterRoutes(p);
      assert WellFormed(plugins) ==> Consistent(plugins[|plugins| - 1]);
      if !ok {
        return;
      }
      version := version + 1;
      if old(Valid()) && WellFormed(plugins) {
        AgreeAfterRegister(old(plugins), p, old(extensions), extensions, old(routeMap));
      }
    }

    /** Works on every registry, also on one that holds a rejected plugin. The slots
        stay right exactly when no earlier plugin shares an id with the removed one. */
    method Unregister(id: string) returns (ok: bool)
      modifies this
      ensures ok == exists p <- old(plugins) :: p.id == id
      ensures !ok ==>
        plugins == old(plugins) && extensions == old(extensions) && routeMap == old(routeMap) && version == old(version)
      ensures ok ==>
        var i := old(Position(plugins, id)); var p := old(plugins)[i];
        && plugins == old(plugins)[..i] + old(plugins)[i + 1..]
        && Dropped(old(extensions), extensions, p.extensions)
        && routeMap == old(routeMap) - RouteIds(p) && version == old(version) + 1
        && RightUnlessShared(old(plugins)[..i], p, old(plugins)[i + 1..], old(extensions), extensions)
      ensures old(Valid()) ==> Valid()
    {
      var i := Position(plugins, id);
      if i == |plugins| {
        return false;
      }
      var p := plugins[i];
      ghost var before, after := plugins[..i], plugins[i + 1..];
      assert plugins == before + [p] + after;
      plugins := plugins[..i] + plugins[i + 1..];
      DropExtensions(p.extensions);
      RemovalKeeps(before, p, after, old(extensions), extensions, routeMap);
      routeMap := routeMap - set r <- p.routes :: r.id;
      version := version + 1;
      return true;
    }
  }

  /** If the slots were right before, they are right after removing `p` exactly when no
      earlier plugin shares an id in a slot. */
  ghost predicate RightUnlessShared(before: seq<Plugin>, p: Plugin, after: seq<Plugin>, index: map<string, seq<Extension>>,
                                    u: map<string, seq<Extension>>) {
    OwnObjects(before, p) && ExtensionsAgree(before + [p] + after, index) ==>
      (ExtensionsAgree(before + after, u) <==> forall slot :: !SharesEarlier(before, p, slot))
  }

  lemma RemovalKeeps(before: seq<Plugin>, p: Plugin, after: seq<Plugin>, index: map<string, seq<Extension>>,
                     u: map<string, seq<Extension>>, paths: map<string, string>)
    requires Dropped(index, u, p.extensions)
    ensures RightUnlessShared(before, p, after, index, u)
    ensures WellFormed(before + [p] + after) && ExtensionsAgree(before + [p] + after, index) ==>
      WellFormed(before + after) && ExtensionsAgree(before + after, u)
    ensures WellFormed(before + [p] + after) && RoutesAgree(before + [p] + after, paths) ==>
      RoutesAgree(before + after, paths - RouteIds(p))
  {
    if OwnObjects(before, p) && ExtensionsAgree(before + [p] + after, index) {
      SlotsRightIff(before, p, after, index, u);
    }
    if WellFormed(before + [p] + after) {
      EarlierIdsDiffer(before, p, after);
      StillWellFormed(before, p, after);
      if RoutesAgree(before + [p] + after, paths) {
        RoutesWithout(before, p, after, paths);
      }
    }
  }

  lemma StillWellFormed(before: seq<Plugin>, p: Plugin, after: seq<Plugin>)
    requires WellFormed(before + [p] + after)
    ensures WellFormed(before + after)
  {
    var all, rest := before + [p] + after, before + after;
    var at := (i: int) => if i < |before| then i else i + 1;
    assert forall i | 0 <= i < |rest| :: rest[i] == all[at(i)];
    forall i, j | 0 <= i < |rest| && 0 <= j < |rest| && i != j ensures Apart(rest[i], rest[j]) {
      assert Apart(all[at(i)], all[at(j)]);
    }
  }

  lemma {:induction false} PutThenDelete(paths: map<string, string>, routes: seq<Route>, ids: set<string>)
    requires forall r <- routes :: r.id in ids
    ensures Put(paths, routes) - ids == paths - ids
    decreases |routes|
  {
    if routes != [] {
      PutThenDelete(paths, routes[..|routes| - 1], ids);
      assert routes[|routes| - 1].id in ids;
    }
  }

  /** Registering any plugin, accepted or rejected, and unregistering it restores a
      slot exactly when none of its ids was in the slot, and the route map exactly
      when none of its route ids was in use. */
  lemma RegisterUnregisterRoundTrip(p: Plugin, index: map<string, seq<Extension>>, u: map<string, seq<Extension>>,
                                    slot: string, paths: map<string, string>)
    requires Extended(index, u, p.extensions) && forall x <- Slot(index, slot) :: x !in p.extensions
    ensures DropEach(Slot(u, slot), Filter(InSlot(slot), p.extensions)) == Slot(index, slot)
      <==> forall x <- Slot(index, slot), e <- Filter(InSlot(slot), p.extensions) :: x.id != e.id
    ensures Put(paths, Accepted(p.routes, p.id)) - RouteIds(p) == paths <==> forall r <- p.routes :: r.id !in paths
  {
    var own := Filter(InSlot(slot), p.extensions);
    DropsOwnIff(Slot(index, slot), own, []);
    assert Slot(index, slot) + own + [] == Slot(u, slot) && Slot(index, slot) + [] == Slot(index, slot);
    PutThenDelete(paths, Accepted(p.routes, p.id), RouteIds(p));
    if r :| r in p.routes && r.id in paths {
      assert r.id !in paths - RouteIds(p);
    } else {
      assert paths - RouteIds(p) == paths;
    }
  }
}
