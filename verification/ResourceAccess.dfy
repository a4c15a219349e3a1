/** Resource-level access: the decision for one resource, the bulk lookup, and the
    middleware that applies them to requests and responses. */
module ResourceAccess {
  import opened Sequences

  // -------------------------------------------------- the access database

  datatype Level = Read | Manage

  datatype Kind = User | Application | Service

  datatype Grant = Grant(resourceType: string, resourceId: string, team: string, canRead: bool, canManage: bool)

  datatype Database = Database(grants: seq<Grant>, teamOnly: map<(string, string), bool>,
                               userTeams: set<(string, string)>, applicationTeams: set<(string, string)>)

  /** A question to the auth service, but for the resource. */
  datatype Query = Query(kind: Kind, id: string, resourceType: string, level: Level, hasGlobal: bool)

  function TeamsOf(db: Database, q: Query): set<string> {
    var rows := if q.kind == User then db.userTeams else db.applicationTeams;
    set row | row in rows && row.0 == q.id :: row.1
  }

  predicate Gives(db: Database, q: Query, g: Grant) {
    g.team in TeamsOf(db, q) && if q.level == Manage then g.canManage else g.canRead
  }

  function On(resource: string): Grant -> bool { (g: Grant) => g.resourceId == resource }

  function Among(q: Query, ids: seq<string>): Grant -> bool {
    (g: Grant) => g.resourceType == q.resourceType && g.resourceId in ids
  }

  function Exactly(q: Query, resource: string): Grant -> bool {
    (g: Grant) => g.resourceType == q.resourceType && g.resourceId == resource
  }

  predicate TeamOnly(db: Database, q: Query, resource: string) {
    (q.resourceType, resource) in db.teamOnly && db.teamOnly[(q.resourceType, resource)]
  }

  /** `checkResourceTeamAccess`: without grants, global access decides; with grants it
      still suffices unless the resource is for teams only; otherwise a team grant must. */
  predicate Check(db: Database, q: Query, resource: string) {
    var grants := Filter(Exactly(q, resource), db.grants);
    if grants == [] then q.hasGlobal
    else if !TeamOnly(db, q, resource) && q.hasGlobal then true
    else exists g <- grants :: Gives(db, q, g)
  }

  /** The decision from the raw rows. Without a grant on the resource global access decides;
      with one it suffices unless the resource is for teams only; otherwise a grant to a team
      of the caller must carry the level. */
  ghost predicate RowsOpen(db: Database, q: Query, resource: string) {
    if !(exists g <- db.grants :: g.resourceType == q.resourceType && g.resourceId == resource) then q.hasGlobal
    else
      || (q.hasGlobal && !((q.resourceType, resource) in db.teamOnly && db.teamOnly[(q.resourceType, resource)]))
      || exists g <- db.grants :: GrantOpens(db, q, resource, g)
  }

  ghost predicate GrantOpens(db: Database, q: Query, resource: string, g: Grant) {
    && g.resourceType == q.resourceType && g.resourceId == resource
    && (if q.kind == User then (q.id, g.team) in db.userTeams else (q.id, g.team) in db.applicationTeams)
    && (q.level == Manage ==> g.canManage) && (q.level == Read ==> g.canRead)
  }

  lemma CheckIsRowsOpen(db: Database, q: Query, resource: string)
    ensures Check(db, q, resource) <==> RowsOpen(db, q, resource)
  {
    var grants := Filter(Exactly(q, resource), db.grants);
    forall g | g in db.grants && g.resourceType == q.resourceType && g.resourceId == resource ensures g in grants {
      FilterKeeps(Exactly(q, resource), db.grants, g);
    }
    forall g | g in grants ensures g in db.grants && (Gives(db, q, g) <==> GrantOpens(db, q, resource, g)) {
      assert Exactly(q, resource)(g);
      assert g.team in TeamsOf(db, q) <==> if q.kind == User then (q.id, g.team) in db.userTeams
        else (q.id, g.team) in db.applicationTeams;
    }
    if grants != [] {
      assert grants[0] in grants && Exactly(q, resource)(grants[0]);
    }
    if exists g <- db.grants :: GrantOpens(db, q, resource, g) {
      var g :| g in db.grants && GrantOpens(db, q, resource, g);
      assert g in grants;
    }
  }

  function Checks(db: Database, q: Query): string -> bool { (id: string) => Check(db, q, id) }

  function GroupOf(groups: map<string, seq<Grant>>, r: string): seq<Grant> { if r in groups then groups[r] else [] }

  /** Grants fetched at once, grouped by resource. */
  method GroupGrants(grants: seq<Grant>) returns (groups: map<string, seq<Grant>>)
    ensures forall r :: GroupOf(groups, r) == Filter(On(r), grants)
  {
    groups := map[];
    for i := 0 to |grants|
      invariant forall r :: GroupOf(groups, r) == Filter(On(r), grants[..i])
    {
      var g := grants[i];
      ghost var before := groups;
      groups := groups[g.resourceId := GroupOf(groups, g.resourceId) + [g]];
      forall r ensures GroupOf(groups, r) == Filter(On(r), grants[..i + 1]) {
        assert grants[..i + 1] == grants[..i] + [g];
        FilterAppend(On(r), grants[..i], [g]);
        assert GroupOf(before, r) == Filter(On(r), grants[..i]);
      }
    }
    assert grants[..|grants|] == grants;
  }

  function Decide(db: Database, q: Query, groups: map<string, seq<Grant>>): string -> bool {
    (id: string) =>
      var grants := GroupOf(groups, id);
      if grants == [] then q.hasGlobal
      else if !TeamOnly(db, q, id) && q.hasGlobal then true
      else exists g <- grants :: Gives(db, q, g)
  }

  lemma BulkIsRowsOpen(db: Database, q: Query, ids: seq<string>)
    ensures forall id <- ids :: id in Filter(Checks(db, q), ids) <==> RowsOpen(db, q, id)
  {
    forall id | id in ids ensures id in Filter(Checks(db, q), ids) <==> RowsOpen(db, q, id) {
      CheckIsRowsOpen(db, q, id);
      if Checks(db, q)(id) {
        FilterKeeps(Checks(db, q), ids, id);
      }
    }
  }

  /** Where a resource has grants and global access does not suffice, grants that only
      carry reading never open managing. */
  lemma ReadOnlyNeverManages(db: Database, q: Query, ids: seq<string>, resource: string)
    requires q.level == Manage && exists g <- db.grants :: g.resourceType == q.resourceType && g.resourceId == resource
    requires forall g <- db.grants :: g.resourceType == q.resourceType && g.resourceId == resource ==> !g.canManage
    requires !q.hasGlobal || TeamOnly(db, q, resource)
    ensures resource !in Filter(Checks(db, q), ids)
  {
    CheckIsRowsOpen(db, q, resource);
    assert !Checks(db, q)(resource);
  }

  /** `getAccessibleResourceIds`: the grouped bulk lookup keeps exactly the ids that
      the decision for one resource grants. */
  method GetAccessibleResourceIds(db: Database, q: Query, ids: seq<string>) returns (r: seq<string>)
    ensures r == Filter(Checks(db, q), ids)
    ensures forall id <- ids :: id in r <==> RowsOpen(db, q, id)
  {
    BulkIsRowsOpen(db, q, ids);
    if ids == [] {
      return [];
    }
    var groups := GroupGrants(Filter(Among(q, ids), db.grants));
    r := Filter(Decide(db, q, groups), ids);
    forall id | id in ids ensures Decide(db, q, groups)(id) == Checks(db, q)(id) {
      FilterFilter(On(id), Among(q, ids), Exactly(q, id), db.grants);
      assert GroupOf(groups, id) == Filter(Exactly(q, id), db.grants);
    }
    FilterSame(Decide(db, q, groups), Checks(db, q), ids);
  }

  // ------------------------------------------------------------ middleware

  /** Where a rule finds its resources; an absent key is `None`. */
  datatype Instance = Instance(idParam: Option<string>, listKey: Option<string>, recordKey: Option<string>)

  datatype Rule = Rule(qualifiedId: string, resourceType: string, level: Level, instance: Option<Instance>)

  predicate IsSingle(rule: Rule) {
    && rule.instance.Some? && rule.instance.value.idParam.Some?
    && rule.instance.value.listKey.None? && rule.instance.value.recordKey.None?
  }

  predicate IsList(rule: Rule) { rule.instance.Some? && rule.instance.value.listKey.Some? }

  predicate IsRecord(rule: Rule) { rule.instance.Some? && rule.instance.value.recordKey.Some? }

  datatype Caller = Nobody | Somebody(kind: Kind, id: string, rules: set<string>)

  /** The auth service as the middleware sees it; when it cannot be reached, global
      access decides. */
  datatype Auth = Auth(db: Database, anonymousRules: set<string>, reachable: bool)

  datatype Endpoint = Open | Public | ForUsers | ForServices | Authenticated

  /** An item of a list; `None` when its id is missing or not a string. */
  datatype Item = Item(id: Option<string>, body: int)

  datatype Value = Items(items: seq<Item>) | Entries(entries: map<string, int>) | Other

  datatype Response = Reply(output: Option<map<string, Value>>) | Unauthorized | Forbidden | InternalError

  predicate Holds(rules: set<string>, rule: Rule) { "*" in rules || rule.qualifiedId in rules }

  function Ask(rule: Rule, caller: Caller): Query
    requires caller.Somebody?
  {
    Query(caller.kind, caller.id, rule.resourceType, rule.level, Holds(caller.rules, rule))
  }

  /** The decision for one resource, as the middleware gets it. */
  predicate Admits(rule: Rule, caller: Caller, auth: Auth, resource: string) {
    if caller.Nobody? then Holds(auth.anonymousRules, rule)
    else if auth.reachable then Check(auth.db, Ask(rule, caller), resource)
    else Holds(caller.rules, rule)
  }

  /** What a list rule keeps: a known caller only sees items with an id, a nobody
      everything or nothing. */
  predicate Shows(rule: Rule, caller: Caller, auth: Auth, item: Item) {
    if caller.Nobody? then Holds(auth.anonymousRules, rule)
    else item.id.Some? && item.id.value != "" && Admits(rule, caller, auth, item.id.value)
  }

  function Shown(rule: Rule, caller: Caller, auth: Auth): Item -> bool { (item: Item) => Shows(rule, caller, auth, item) }

  function IdsOf(items: seq<Item>): seq<string> {
    if items == [] then [] else (if items[0].id.Some? then [items[0].id.value] else []) + IdsOf(items[1..])
  }

  lemma {:induction false} IdsOfAll(items: seq<Item>, id: string)
    ensures id in IdsOf(items) <==> exists item <- items :: item.id == Some(id)
  {
    if items != [] {
      IdsOfAll(items[1..], id);
      assert items == [items[0]] + items[1..];
    }
  }

  /** The ids the service returns, or the fallback when it cannot be reached. */
  method AccessibleIds(auth: Auth, q: Query, ids: seq<string>) returns (r: seq<string>)
    ensures r == if auth.reachable then Filter(Checks(auth.db, q), ids) else if q.hasGlobal then ids else []
  {
    if ids == [] {
      return [];
    }
    if auth.reachable {
      r := GetAccessibleResourceIds(auth.db, q, ids);
    } else {
      r := if q.hasGlobal then ids else [];
    }
  }

  method FilterItems(rule: Rule, caller: Caller, auth: Auth, items: seq<Item>) returns (r: seq<Item>)
    ensures r == Filter(Shown(rule, caller, auth), items)
  {
    if caller.Nobody? {
      if Holds(auth.anonymousRules, rule) {
        FilterAll(Shown(rule, caller, auth), items);
        return items;
      }
      FilterNone(Shown(rule, caller, auth), items);
      return [];
    }
    var ids := IdsOf(items);
    var accessible := AccessibleIds(auth, Ask(rule, caller), ids);
    var keep := (item: Item) => item.id.Some? && item.id.value != "" && item.id.value in accessible;
    r := Filter(keep, items);
    forall item | item in items ensures keep(item) == Shown(rule, caller, auth)(item) {
      if item.id.Some? {
        IdsOfAll(items, item.id.value);
        if Checks(auth.db, Ask(rule, caller))(item.id.value) {
          FilterKeeps(Checks(auth.db, Ask(rule, caller)), ids, item.id.value);
        }
      }
    }
    FilterSame(keep, Shown(rule, caller, auth), items);
  }

  method KeysOf(entries: map<string, int>) returns (keys: seq<string>)
    ensures forall k :: k in keys <==> k in entries
  {
    keys := [];
    var left := entries.Keys;
    while left != {}
      invariant forall k :: k in entries <==> k in keys || k in left
      decreases |left|
    {
      var k :| k in left;
      keys := keys + [k];
      left := left - {k};
    }
  }

  method FilterEntries(rule: Rule, caller: Caller, auth: Auth, entries: map<string, int>) returns (r: map<string, int>)
    ensures r == map k | k in entries && Admits(rule, caller, auth, k) :: entries[k]
  {
    if caller.Nobody? {
      return if Holds(auth.anonymousRules, rule) then entries else map[];
    }
    var ids := KeysOf(entries);
    var accessible := AccessibleIds(auth, Ask(rule, caller), ids);
    r := map k | k in entries && k in accessible :: entries[k];
    forall k | k in entries ensures k in accessible <==> Admits(rule, caller, auth, k) {
      if Checks(auth.db, Ask(rule, caller))(k) {
        FilterKeeps(Checks(auth.db, Ask(rule, caller)), ids, k);
      }
    }
  }

  /** One list rule on the response; `None` is a response of the wrong shape. */
  function ListStep(out: map<string, Value>, rule: Rule, caller: Caller, auth: Auth): Option<map<string, Value>>
    requires IsList(rule)
  {
    var key := rule.instance.value.listKey.value;
    if key in out && out[key].Items? then Some(out[key := Items(Filter(Shown(rule, caller, auth), out[key].items))]) else None
  }

  function RecordStep(out: map<string, Value>, rule: Rule, caller: Caller, auth: Auth): Option<map<string, Value>>
    requires IsRecord(rule)
  {
    var key := rule.instance.value.recordKey.value;
    if key in out && out[key].Entries? then
      Some(out[key := Entries(map k | k in out[key].entries && Admits(rule, caller, auth, k) :: out[key].entries[k])])
    else None
  }

  function Lists(out: map<string, Value>, rules: seq<Rule>, caller: Caller, auth: Auth): Option<map<string, Value>>
    requires forall r <- rules :: IsList(r)
    decreases |rules|
  {
    if rules == [] then Some(out)
    else
      var front := Lists(out, rules[..|rules| - 1], caller, auth);
      if front.None? then None else ListStep(front.value, rules[|rules| - 1], caller, auth)
  }

  function Records(out: map<string, Value>, rules: seq<Rule>, caller: Caller, auth: Auth): Option<map<string, Value>>
    requires forall r <- rules :: IsRecord(r)
    decreases |rules|
  {
    if rules == [] then Some(out)
    else
      var front := Records(out, rules[..|rules| - 1], caller, auth);
      if front.None? then None else RecordStep(front.value, rules[|rules| - 1], caller, auth)
  }

  predicate GlobalOk(endpoint: Endpoint, rules: seq<Rule>, caller: Caller, auth: Auth) {
    forall r <- rules :: r.instance.None? ==>
      if caller.Nobody? then r.qualifiedId in auth.anonymousRules
      else (endpoint == Public && caller.kind == Service) || Holds(caller.rules, r)
  }

  function IdGiven(rule: Rule, input: map<string, string>): Option<string>
    requires IsSingle(rule)
  {
    var path := rule.instance.value.idParam.value;
    if path in input && input[path] != "" then Some(input[path]) else None
  }

  predicate PreOk(rules: seq<Rule>, caller: Caller, auth: Auth, input: map<string, string>) {
    forall r <- rules :: IsSingle(r) && IdGiven(r, input).Some? ==> Admits(r, caller, auth, IdGiven(r, input).value)
  }

  function PostFilter(rules: seq<Rule>, caller: Caller, auth: Auth, output: Option<map<string, Value>>): Response {
    if output.None? then Reply(None)
    else
      var lists := Lists(output.value, Filter(IsList, rules), caller, auth);
      if lists.None? then InternalError
      else
        var records := Records(lists.value, Filter(IsRecord, rules), caller, auth);
        if records.None? then InternalError else Reply(records)
  }

  /** The middleware around a handler that would answer `output`. */
  function Respond(endpoint: Endpoint, rules: seq<Rule>, caller: Caller, auth: Auth, input: map<string, string>,
                   output: Option<map<string, Value>>): Response
  {
    if endpoint == Open then Reply(output)
    else if endpoint == Public && !GlobalOk(endpoint, rules, caller, auth) then Forbidden
    else if endpoint == Public && (forall r <- rules :: r.instance.None?) then Reply(output)
    else if endpoint != Public && caller.Nobody? then Unauthorized
    else if caller.Somebody? && endpoint == ForUsers && caller.kind != User then Forbidden
    else if caller.Somebody? && endpoint == ForServices && caller.kind != Service then Forbidden
    else if caller.Somebody? && caller.kind == Service then Reply(output)
    else if endpoint != Public && !GlobalOk(endpoint, rules, caller, auth) then Forbidden
    else if !PreOk(rules, caller, auth, input) then Forbidden
    else PostFilter(rules, caller, auth, output)
  }

  method FilterLists(out: map<string, Value>, rules: seq<Rule>, caller: Caller, auth: Auth)
    returns (r: Option<map<string, Value>>)
    requires forall r <- rules :: IsList(r)
    ensures r == Lists(out, rules, caller, auth)
  {
    var mutable := out;
    for i := 0 to |rules|
      invariant Lists(out, rules[..i], caller, auth) == Some(mutable)
    {
      assert rules[..i + 1][..i] == rules[..i];
      assert IsList(rules[i]);
      var key := rules[i].instance.value.listKey.value;
      if key !in mutable || !mutable[key].Items? {
        ListsStayFailed(out, rules, i + 1, caller, auth);
        return None;
      }
      var items := FilterItems(rules[i], caller, auth, mutable[key].items);
      mutable := mutable[key := Items(items)];
    }
    assert rules[..|rules|] == rules;
    return Some(mutable);
  }

  lemma {:induction false} ListsStayFailed(out: map<string, Value>, rules: seq<Rule>, n: nat, caller: Caller, auth: Auth)
    requires forall r <- rules :: IsList(r)
    requires n <= |rules| && Lists(out, rules[..n], caller, auth) == None
    ensures Lists(out, rules, caller, auth) == None
    decreases |rules| - n
  {
    if n == |rules| {
      assert rules[..n] == rules;
    } else {
      assert rules[..n + 1][..n] == rules[..n];
      ListsStayFailed(out, rules, n + 1, caller, auth);
    }
  }

  method FilterRecords(out: map<string, Value>, rules: seq<Rule>, caller: Caller, auth: Auth)
    returns (r: Option<map<string, Value>>)
    requires forall r <- rules :: IsRecord(r)
    ensures r == Records(out, rules, caller, auth)
  {
    var mutable := out;
    for i := 0 to |rules|
      invariant Records(out, rules[..i], caller, auth) == Some(mutable)
    {
      assert rules[..i + 1][..i] == rules[..i];
      assert IsRecord(rules[i]);
      var key := rules[i].instance.value.recordKey.value;
      if key !in mutable || !mutable[key].Entries? {
        RecordsStayFailed(out, rules, i + 1, caller, auth);
        return None;
      }
      var entries := FilterEntries(rules[i], caller, auth, mutable[key].entries);
      mutable := mutable[key := Entries(entries)];
    }
    assert rules[..|rules|] == rules;
    return Some(mutable);
  }

  lemma {:induction false} RecordsStayFailed(out: map<string, Value>, rules: seq<Rule>, n: nat, caller: Caller, auth: Auth)
    requires forall r <- rules :: IsRecord(r)
    requires n <= |rules| && Records(out, rules[..n], caller, auth) == None
    ensures Records(out, rules, caller, auth) == None
    decreases |rules| - n
  {
    if n == |rules| {
      assert rules[..n] == rules;
    } else {
      assert rules[..n + 1][..n] == rules[..n];
      RecordsStayFailed(out, rules, n + 1, caller, auth);
    }
  }

  method CheckGlobalRules(endpoint: Endpoint, rules: seq<Rule>, caller: Caller, auth: Auth) returns (ok: bool)
    ensures ok == GlobalOk(endpoint, rules, caller, auth)
  {
    for i := 0 to |rules|
      invariant GlobalOk(endpoint, rules[..i], caller, auth)
    {
      var r := rules[i];
      assert rules[..i + 1] == rules[..i] + [r];
      if r.instance.None? {
        if caller.Nobody? {
          if r.qualifiedId !in auth.anonymousRules {
            return false;
          }
        } else if !(endpoint == Public && caller.kind == Service) && !Holds(caller.rules, r) {
          return false;
        }
      }
    }
    assert rules[..|rules|] == rules;
    return true;
  }

  method CheckSingleRules(rules: seq<Rule>, caller: Caller, auth: Auth, input: map<string, string>) returns (ok: bool)
    ensures ok == PreOk(rules, caller, auth, input)
  {
    for i := 0 to |rules|
      invariant PreOk(rules[..i], caller, auth, input)
    {
      var r := rules[i];
      assert rules[..i + 1] == rules[..i] + [r];
      if IsSingle(r) && IdGiven(r, input).Some? && !Admits(r, caller, auth, IdGiven(r, input).value) {
        return false;
      }
    }
    assert rules[..|rules|] == rules;
    return true;
  }

  method AutoAuth(endpoint: Endpoint, rules: seq<Rule>, caller: Caller, auth: Auth, input: map<string, string>,
                  output: Option<map<string, Value>>) returns (r: Response)
    ensures r == Respond(endpoint, rules, caller, auth, input, output)
    ensures Refusals(endpoint, rules, caller, auth, input, r)
    ensures Replies(endpoint, rules, caller, auth, output, r)
    ensures !r.Unauthorized? && !r.Forbidden? ==>
      (r == InternalError <==> output.Some? && endpoint != Open && Filterable(caller) && Misshapen(rules, output.value))
  {
    FailsExactly(endpoint, rules, caller, auth, input, output);
    RefusedExactly(endpoint, rules, caller, auth, input, output);
    RepliesAreRows(endpoint, rules, caller, auth, input, output);
    if endpoint == Open {
      return Reply(output);
    }
    if endpoint == Public {
      var ok := CheckGlobalRules(endpoint, rules, caller, auth);
      if !ok {
        return Forbidden;
      }
      if forall r <- rules :: r.instance.None? {
        return Reply(output);
      }
    }
    if endpoint != Public && caller.Nobody? {
      return Unauthorized;
    }
    if caller.Somebody? {
      if endpoint == ForUsers && caller.kind != User {
        return Forbidden;
      }
      if endpoint == ForServices && caller.kind != Service {
        return Forbidden;
      }
      if caller.kind == Service {
        return Reply(output);
      }
    }
    if endpoint != Public {
      var ok := CheckGlobalRules(endpoint, rules, caller, auth);
      if !ok {
        return Forbidden;
      }
    }
    var ok := CheckSingleRules(rules, caller, auth, input);
    if !ok {
      return Forbidden;
    }
    if output.None? {
      return Reply(None);
    }
    var lists := FilterLists(output.value, Filter(IsList, rules), caller, auth);
    if lists.None? {
      return InternalError;
    }
    var records := FilterRecords(lists.value, Filter(IsRecord, rules), caller, auth);
    return if records.None? then InternalError else Reply(records);
  }

  // ------------------------------------------------------------ main results

  /** The item passes every list rule on the key. */
  predicate PassesAll(rules: seq<Rule>, key: string, caller: Caller, auth: Auth, item: Item) {
    forall r <- rules :: IsList(r) && r.instance.value.listKey.value == key ==> Shows(r, caller, auth, item)
  }

  function Passing(rules: seq<Rule>, key: string, caller: Caller, auth: Auth): Item -> bool {
    (item: Item) => PassesAll(rules, key, caller, auth, item)
  }

  ghost predicate Filtered(out: map<string, Value>, rules: seq<Rule>, caller: Caller, auth: Auth, t: map<string, Value>) {
    && t.Keys == out.Keys
    && forall key <- out.Keys ::
         t[key] == if out[key].Items? then Items(Filter(Passing(rules, key, caller, auth), out[key].items)) else out[key]
  }

  lemma FilteredStep(out: map<string, Value>, front: seq<Rule>, last: Rule, caller: Caller, auth: Auth, u: map<string, Value>)
    requires Filtered(out, front, caller, auth, u) && IsList(last) && ListStep(u, last, caller, auth).Some?
    ensures Filtered(out, front + [last], caller, auth, ListStep(u, last, caller, auth).value)
  {
    var rules := front + [last];
    forall key | key in out.Keys && out[key].Items?
      ensures Filter(Passing(rules, key, caller, auth), out[key].items) ==
        var before := Filter(Passing(front, key, caller, auth), out[key].items);
        if key == last.instance.value.listKey.value then Filter(Shown(last, caller, auth), before) else before
    {
      if key == last.instance.value.listKey.value {
        FilterFilter(Shown(last, caller, auth), Passing(front, key, caller, auth),
                     Passing(rules, key, caller, auth), out[key].items);
      } else {
        FilterSame(Passing(rules, key, caller, auth), Passing(front, key, caller, auth), out[key].items);
      }
    }
  }

  /** The rules applied one after another keep, of every list, the items that pass all
      the rules on its key, in order. */
  lemma {:induction false} ListsMeaning(out: map<string, Value>, rules: seq<Rule>, caller: Caller, auth: Auth)
    requires (forall r <- rules :: IsList(r)) && Lists(out, rules, caller, auth).Some?
    ensures Filtered(out, rules, caller, auth, Lists(out, rules, caller, auth).value)
    decreases |rules|
  {
    if rules == [] {
      forall key | key in out.Keys && out[key].Items?
        ensures Filter(Passing(rules, key, caller, auth), out[key].items) == out[key].items
      {
        FilterAll(Passing(rules, key, caller, auth), out[key].items);
      }
    } else {
      var front, last := rules[..|rules| - 1], rules[|rules| - 1];
      assert IsList(last) && rules == front + [last];
      ListsMeaning(out, front, caller, auth);
      FilteredStep(out, front, last, caller, auth, Lists(out, front, caller, auth).value);
    }
  }

  /** Every record rule on the key grants the resource. */
  predicate AdmittedByAll(rules: seq<Rule>, key: string, caller: Caller, auth: Auth, id: string) {
    forall r <- rules :: IsRecord(r) && r.instance.value.recordKey.value == key ==> Admits(r, caller, auth, id)
  }

  function Admitted(rules: seq<Rule>, key: string, caller: Caller, auth: Auth, entries: map<string, int>): map<string, int> {
    map id | id in entries && AdmittedByAll(rules, key, caller, auth, id) :: entries[id]
  }

  lemma AdmittedSnoc(front: seq<Rule>, last: Rule, key: string, caller: Caller, auth: Auth, entries: map<string, int>)
    requires IsRecord(last)
    ensures Admitted(front + [last], key, caller, auth, entries) ==
      var before := Admitted(front, key, caller, auth, entries);
      if key == last.instance.value.recordKey.value
      then map id | id in before && Admits(last, caller, auth, id) :: before[id] else before
  {
    forall id ensures AdmittedByAll(front + [last], key, caller, auth, id) <==>
      (AdmittedByAll(front, key, caller, auth, id)
        && (last.instance.value.recordKey.value == key ==> Admits(last, caller, auth, id)))
    {
      assert forall r :: r in front + [last] <==> r in front || r == last;
    }
  }

  lemma {:induction false} RecordsMeaning(out: map<string, Value>, rules: seq<Rule>, caller: Caller, auth: Auth)
    requires (forall r <- rules :: IsRecord(r)) && Records(out, rules, caller, auth).Some?
    ensures var t := Records(out, rules, caller, auth).value;
      && t.Keys == out.Keys
      && forall key <- out.Keys ::
           t[key] == if out[key].Entries? then Entries(Admitted(rules, key, caller, auth, out[key].entries)) else out[key]
    decreases |rules|
  {
    if rules == [] {
      forall key | key in out.Keys && out[key].Entries?
        ensures Admitted(rules, key, caller, auth, out[key].entries) == out[key].entries
      {
      }
    } else {
      var front, last := rules[..|rules| - 1], rules[|rules| - 1];
      assert IsRecord(last) && rules == front + [last];
      RecordsMeaning(out, front, caller, auth);
      forall key | key in out.Keys && out[key].Entries? {
        AdmittedSnoc(front, last, key, caller, auth, out[key].entries);
      }
    }
  }

  // ------------------------------------------------ every refusal, row by row

  /** What a rule asks of the access database in the name of the caller. */
  function Asked(rule: Rule, caller: Caller): Query
    requires caller.Somebody?
  {
    Query(caller.kind, caller.id, rule.resourceType, rule.level, "*" in caller.rules || rule.qualifiedId in caller.rules)
  }

  /** The caller lacks a rule that is not about resources. */
  ghost predicate LacksRule(rules: seq<Rule>, caller: Caller, auth: Auth) {
    exists r <- rules :: r.instance.None? &&
      if caller.Nobody? then r.qualifiedId !in auth.anonymousRules
      else "*" !in caller.rules && r.qualifiedId !in caller.rules
  }

  /** A resource is open to a caller under a rule: to nobody in particular by the anonymous
      rules, to others by the rows, or, when these cannot be reached, by their own rules. */
  ghost predicate OpenTo(r: Rule, caller: Caller, auth: Auth, id: string) {
    if caller.Nobody? then "*" in auth.anonymousRules || r.qualifiedId in auth.anonymousRules
    else if auth.reachable then RowsOpen(auth.db, Asked(r, caller), id)
    else "*" in caller.rules || r.qualifiedId in caller.rules
  }

  lemma AdmitsIsOpenTo(r: Rule, caller: Caller, auth: Auth, id: string)
    ensures Admits(r, caller, auth, id) <==> OpenTo(r, caller, auth, id)
  {
    if caller.Somebody? {
      CheckIsRowsOpen(auth.db, Ask(r, caller), id);
    }
  }

  /** A rule about one resource, named in the input, that the caller may not touch. */
  ghost predicate LacksResource(rules: seq<Rule>, caller: Caller, auth: Auth, input: map<string, string>) {
    exists r <- rules | r.instance.Some? :: exists path | path in input ::
      && r.instance == Some(Instance(Some(path), None, None)) && input[path] != "" && !OpenTo(r, caller, auth, input[path])
  }

  /** Exactly which requests are refused. */
  ghost predicate Refusals(endpoint: Endpoint, rules: seq<Rule>, caller: Caller, auth: Auth, input: map<string, string>,
                           r: Response)
  {
    && (r == Unauthorized <==> caller.Nobody? && endpoint != Open && endpoint != Public)
    && (r == Forbidden <==>
         if endpoint == Open || (caller.Nobody? && endpoint != Public) then false
         else if caller.Somebody? && caller.kind == Service then endpoint == ForUsers
         else
           || (caller.Somebody? && ((endpoint == ForUsers && caller.kind != User) || endpoint == ForServices))
           || LacksRule(rules, caller, auth) || LacksResource(rules, caller, auth, input))
  }

  lemma RefusedExactly(endpoint: Endpoint, rules: seq<Rule>, caller: Caller, auth: Auth, input: map<string, string>,
                       output: Option<map<string, Value>>)
    ensures Refusals(endpoint, rules, caller, auth, input, Respond(endpoint, rules, caller, auth, input, output))
  {
    GlobalIsRules(endpoint, rules, caller, auth);
    SinglesAreRows(rules, caller, auth, input);
  }

  lemma GlobalIsRules(endpoint: Endpoint, rules: seq<Rule>, caller: Caller, auth: Auth)
    ensures !(caller.Somebody? && caller.kind == Service) ==>
      (GlobalOk(endpoint, rules, caller, auth) <==> !LacksRule(rules, caller, auth))
    ensures caller.Somebody? && caller.kind == Service && endpoint == Public ==> GlobalOk(endpoint, rules, caller, auth)
  {
  }

  lemma SinglesAreRows(rules: seq<Rule>, caller: Caller, auth: Auth, input: map<string, string>)
    ensures PreOk(rules, caller, auth, input) <==> !LacksResource(rules, caller, auth, input)
  {
    forall r, id | r in rules ensures Admits(r, caller, auth, id) <==> OpenTo(r, caller, auth, id) {
      AdmitsIsOpenTo(r, caller, auth, id);
    }
    if !PreOk(rules, caller, auth, input) {
      var r :| r in rules && IsSingle(r) && IdGiven(r, input).Some? && !Admits(r, caller, auth, IdGiven(r, input).value);
      var path := r.instance.value.idParam.value;
      assert path in input && r.instance == Some(Instance(Some(path), None, None));
    }
  }

  predicate Known(caller: Caller) { caller.Somebody? && caller.kind != Service }

  /** Callers whose responses are filtered: everybody but other services. */
  predicate Filterable(caller: Caller) { caller.Nobody? || caller.kind != Service }

  /** A filterable caller of any endpoint but an open one gets the early reply, of a public
      endpoint without instance rules, or the filtered one. */
  lemma ReplyIsFiltered(endpoint: Endpoint, rules: seq<Rule>, caller: Caller, auth: Auth, input: map<string, string>,
                        output: map<string, Value>, t: map<string, Value>)
    requires Filterable(caller) && endpoint != Open
    requires Respond(endpoint, rules, caller, auth, input, Some(output)) == Reply(Some(t))
    ensures PostFilter(rules, caller, auth, Some(output)) == Reply(Some(t))
  {
    if endpoint == Public && forall r <- rules :: r.instance.None? {
      FilterNone(IsList, rules);
      FilterNone(IsRecord, rules);
    }
  }

  /** A reply to a user, an application or an anonymous caller, on whatever endpoint checks
      access, shows of every list the handler returned exactly the items that every list
      rule on its key lets through. */
  lemma ListReplyIsExact(endpoint: Endpoint, rules: seq<Rule>, caller: Caller, auth: Auth, input: map<string, string>,
                         output: map<string, Value>, t: map<string, Value>, key: string)
    requires Filterable(caller) && endpoint != Open
    requires Respond(endpoint, rules, caller, auth, input, Some(output)) == Reply(Some(t))
    requires key in output && output[key].Items?
    ensures t.Keys == output.Keys
    ensures t[key] == Items(Filter(Passing(rules, key, caller, auth), output[key].items))
  {
    var lists := Filter(IsList, rules);
    ReplyIsFiltered(endpoint, rules, caller, auth, input, output, t);
    ListsMeaning(output, lists, caller, auth);
    RecordsMeaning(Lists(output, lists, caller, auth).value, Filter(IsRecord, rules), caller, auth);
    forall item | item in output[key].items
      ensures Passing(lists, key, caller, auth)(item) == Passing(rules, key, caller, auth)(item)
    {
      forall r | r in rules && IsList(r) ensures r in lists {
        FilterKeeps(IsList, rules, r);
      }
    }
    FilterSame(Passing(lists, key, caller, auth), Passing(rules, key, caller, auth), output[key].items);
  }

  /** Likewise for an endpoint that returns a record keyed by resource id. */
  lemma RecordReplyIsExact(endpoint: Endpoint, rules: seq<Rule>, caller: Caller, auth: Auth, input: map<string, string>,
                           output: map<string, Value>, t: map<string, Value>, key: string)
    requires Filterable(caller) && endpoint != Open
    requires Respond(endpoint, rules, caller, auth, input, Some(output)) == Reply(Some(t))
    requires key in output && output[key].Entries?
    ensures key in t && t[key] == Entries(Admitted(rules, key, caller, auth, output[key].entries))
  {
    var lists, records := Filter(IsList, rules), Filter(IsRecord, rules);
    ReplyIsFiltered(endpoint, rules, caller, auth, input, output, t);
    ListsMeaning(output, lists, caller, auth);
    RecordsMeaning(Lists(output, lists, caller, auth).value, records, caller, auth);
    forall id ensures AdmittedByAll(records, key, caller, auth, id) == AdmittedByAll(rules, key, caller, auth, id) {
      forall r | r in rules && IsRecord(r) ensures r in records {
        FilterKeeps(IsRecord, rules, r);
      }
    }
    assert Admitted(records, key, caller, auth, output[key].entries) == Admitted(rules, key, caller, auth, output[key].entries);
  }

  /** An item of a list that a rule on the list lets through. */
  ghost predicate Visible(r: Rule, caller: Caller, auth: Auth, item: Item) {
    if caller.Nobody? then "*" in auth.anonymousRules || r.qualifiedId in auth.anonymousRules
    else item.id.Some? && item.id.value != "" && OpenTo(r, caller, auth, item.id.value)
  }

  /** What a reply keeps of one value: of a list the items that every rule on it lets through,
      of a record the keys that every rule on it opens, anything else as it is. */
  ghost predicate Keeps(rules: seq<Rule>, key: string, caller: Caller, auth: Auth, before: Value, after: Value) {
    match before
    case Items(items) =>
      && after.Items?
      && forall item :: item in after.items <==>
           item in items && forall r <- rules :: r.instance.Some? && r.instance.value.listKey == Some(key) ==>
             Visible(r, caller, auth, item)
    case Entries(entries) =>
      && after.Entries?
      && (forall id :: id in after.entries <==>
           id in entries && forall r <- rules :: r.instance.Some? && r.instance.value.recordKey == Some(key) ==>
             OpenTo(r, caller, auth, id))
      && (forall id <- after.entries :: id in entries && after.entries[id] == entries[id])
    case Other => after == Other
  }

  /** A rule speaks of a list or a record that the answer does not have. */
  ghost predicate Misshapen(rules: seq<Rule>, out: map<string, Value>) {
    || (exists r <- rules | r.instance.Some? && r.instance.value.listKey.Some? ::
         var key := r.instance.value.listKey.value; key !in out || !out[key].Items?)
    || (exists r <- rules | r.instance.Some? && r.instance.value.recordKey.Some? ::
         var key := r.instance.value.recordKey.value; key !in out || !out[key].Entries?)
  }

  lemma {:induction false} ListsFailIff(out: map<string, Value>, rules: seq<Rule>, caller: Caller, auth: Auth)
    requires forall r <- rules :: IsList(r)
    ensures Lists(out, rules, caller, auth).None? <==>
      exists r <- rules :: r.instance.value.listKey.value !in out || !out[r.instance.value.listKey.value].Items?
    decreases |rules|
  {
    if rules != [] {
      var front, last := rules[..|rules| - 1], rules[|rules| - 1];
      assert IsList(last) && rules == front + [last];
      ListsFailIff(out, front, caller, auth);
      if Lists(out, front, caller, auth).Some? {
        ListsMeaning(out, front, caller, auth);
      }
    }
  }

  lemma {:induction false} RecordsFailIff(out: map<string, Value>, rules: seq<Rule>, caller: Caller, auth: Auth)
    requires forall r <- rules :: IsRecord(r)
    ensures Records(out, rules, caller, auth).None? <==>
      exists r <- rules :: r.instance.value.recordKey.value !in out || !out[r.instance.value.recordKey.value].Entries?
    decreases |rules|
  {
    if rules != [] {
      var front, last := rules[..|rules| - 1], rules[|rules| - 1];
      assert IsRecord(last) && rules == front + [last];
      RecordsFailIff(out, front, caller, auth);
      if Records(out, front, caller, auth).Some? {
        RecordsMeaning(out, front, caller, auth);
      }
    }
  }

  lemma PostFailsIff(rules: seq<Rule>, caller: Caller, auth: Auth, out: map<string, Value>)
    ensures PostFilter(rules, caller, auth, Some(out)) == InternalError <==> Misshapen(rules, out)
  {
    var lists, records := Filter(IsList, rules), Filter(IsRecord, rules);
    forall r | r in rules ensures (r in lists <==> IsList(r)) && (r in records <==> IsRecord(r)) {
      if IsList(r) {
        FilterKeeps(IsList, rules, r);
      }
      if IsRecord(r) {
        FilterKeeps(IsRecord, rules, r);
      }
    }
    ListsFailIff(out, lists, caller, auth);
    if Lists(out, lists, caller, auth).Some? {
      ListsMeaning(out, lists, caller, auth);
      RecordsFailIff(Lists(out, lists, caller, auth).value, records, caller, auth);
    }
  }

  /** A request that is not refused fails exactly when its answer has the wrong shape. */
  lemma FailsExactly(endpoint: Endpoint, rules: seq<Rule>, caller: Caller, auth: Auth, input: map<string, string>,
                     output: Option<map<string, Value>>)
    ensures var r := Respond(endpoint, rules, caller, auth, input, output);
      !r.Unauthorized? && !r.Forbidden? ==>
        (r == InternalError <==> output.Some? && endpoint != Open && Filterable(caller) && Misshapen(rules, output.value))
  {
    if output.Some? {
      PostFailsIff(rules, caller, auth, output.value);
    }
  }

  /** Every reply: the handler's own for services and on open endpoints, else each value with
      what the caller may see. */
  ghost predicate Replies(endpoint: Endpoint, rules: seq<Rule>, caller: Caller, auth: Auth,
                          output: Option<map<string, Value>>, r: Response)
  {
    r.Reply? ==>
      if output.None? || endpoint == Open || (caller.Somebody? && caller.kind == Service) then r.output == output
      else
        && r.output.Some? && r.output.value.Keys == output.value.Keys
        && forall key <- output.value.Keys :: Keeps(rules, key, caller, auth, output.value[key], r.output.value[key])
  }

  lemma ListKept(rules: seq<Rule>, key: string, caller: Caller, auth: Auth, items: seq<Item>)
    ensures Keeps(rules, key, caller, auth, Items(items), Items(Filter(Passing(rules, key, caller, auth), items)))
  {
    var passing := Passing(rules, key, caller, auth);
    forall r, item | r in rules ensures Shows(r, caller, auth, item) <==> Visible(r, caller, auth, item) {
      if item.id.Some? {
        AdmitsIsOpenTo(r, caller, auth, item.id.value);
      }
    }
    forall item | item in items && passing(item) ensures item in Filter(passing, items) {
      FilterKeeps(passing, items, item);
    }
  }

  lemma RecordKept(rules: seq<Rule>, key: string, caller: Caller, auth: Auth, entries: map<string, int>)
    ensures Keeps(rules, key, caller, auth, Entries(entries), Entries(Admitted(rules, key, caller, auth, entries)))
  {
    forall r, id | r in rules ensures Admits(r, caller, auth, id) <==> OpenTo(r, caller, auth, id) {
      AdmitsIsOpenTo(r, caller, auth, id);
    }
  }

  /** Every reply of the middleware is such a reply, row by row. */
  lemma RepliesAreRows(endpoint: Endpoint, rules: seq<Rule>, caller: Caller, auth: Auth, input: map<string, string>,
                       output: Option<map<string, Value>>)
    ensures Replies(endpoint, rules, caller, auth, output, Respond(endpoint, rules, caller, auth, input, output))
  {
    var r := Respond(endpoint, rules, caller, auth, input, output);
    if r.Reply? && output.Some? && endpoint != Open && Filterable(caller) {
      FilteredReply(endpoint, rules, caller, auth, input, output.value);
      forall key | key in output.value.Keys
        ensures key in r.output.value.Keys && Keeps(rules, key, caller, auth, output.value[key], r.output.value[key])
      {
        KeptAt(endpoint, rules, caller, auth, input, output.value, r.output.value, key);
      }
    }
  }

  lemma FilteredReply(endpoint: Endpoint, rules: seq<Rule>, caller: Caller, auth: Auth, input: map<string, string>,
                      output: map<string, Value>)
    requires Respond(endpoint, rules, caller, auth, input, Some(output)).Reply? && endpoint != Open && Filterable(caller)
    ensures var r := Respond(endpoint, rules, caller, auth, input, Some(output));
      r.output.Some? && r.output.value.Keys == output.Keys
  {
    var r := Respond(endpoint, rules, caller, auth, input, Some(output));
    assert r.output.Some?;
    ReplyIsFiltered(endpoint, rules, caller, auth, input, output, r.output.value);
    var lists := Filter(IsList, rules);
    ListsMeaning(output, lists, caller, auth);
    RecordsMeaning(Lists(output, lists, caller, auth).value, Filter(IsRecord, rules), caller, auth);
  }

  lemma KeptAt(endpoint: Endpoint, rules: seq<Rule>, caller: Caller, auth: Auth, input: map<string, string>,
               output: map<string, Value>, t: map<string, Value>, key: string)
    requires Filterable(caller) && endpoint != Open && key in output
    requires Respond(endpoint, rules, caller, auth, input, Some(output)) == Reply(Some(t))
    ensures key in t && Keeps(rules, key, caller, auth, output[key], t[key])
  {
    match output[key]
    case Items(items) =>
      ListReplyIsExact(endpoint, rules, caller, auth, input, output, t, key);
      ListKept(rules, key, caller, auth, items);
    case Entries(entries) =>
      RecordReplyIsExact(endpoint, rules, caller, auth, input, output, t, key);
      RecordKept(rules, key, caller, auth, entries);
    case Other =>
      var lists := Filter(IsList, rules);
      ReplyIsFiltered(endpoint, rules, caller, auth, input, output, t);
      ListsMeaning(output, lists, caller, auth);
      RecordsMeaning(Lists(output, lists, caller, auth).value, Filter(IsRecord, rules), caller, auth);
  }

  // ----------------------------------------------- lists and single resources

  /** A rule with the same id, resource type and level that carries only a path. */
  function ForOne(rule: Rule, path: string): Rule {
    rule.(instance := Some(Instance(Some(path), None, None)))
  }

  /** A list and an endpoint for one resource agree when the latter has an id-only rule of
      its own: an item with an id is shown in the list exactly when, for every list rule on
      its key, the request for that one resource under the id-only rule is not refused. */
  lemma ListAgreesWithSingle(endpoint: Endpoint, rules: seq<Rule>, key: string, caller: Caller, auth: Auth, item: Item,
                             path: string, output: Option<map<string, Value>>)
    requires Known(caller) && endpoint in {Public, Authenticated} && item.id.Some? && item.id.value != ""
    ensures PassesAll(rules, key, caller, auth, item) <==>
      forall r <- rules :: IsList(r) && r.instance.value.listKey.value == key ==>
        Respond(endpoint, [ForOne(r, path)], caller, auth, map[path := item.id.value], output) != Forbidden
  {
    forall r | r in rules && IsList(r)
      ensures Shows(r, caller, auth, item) <==>
        Respond(endpoint, [ForOne(r, path)], caller, auth, map[path := item.id.value], output) != Forbidden
    {
      IdOnlyIsAdmits(endpoint, r, caller, auth, item.id.value, path, output);
    }
  }

  lemma IdOnlyIsAdmits(endpoint: Endpoint, r: Rule, caller: Caller, auth: Auth, id: string, path: string,
                       output: Option<map<string, Value>>)
    requires Known(caller) && endpoint in {Public, Authenticated} && id != ""
    ensures Respond(endpoint, [ForOne(r, path)], caller, auth, map[path := id], output) ==
      if Admits(r, caller, auth, id) then Reply(output) else Forbidden
  {
    var one := ForOne(r, path);
    assert one in [one] && IsSingle(one) && IdGiven(one, map[path := id]) == Some(id);
    assert Admits(one, caller, auth, id) == Admits(r, caller, auth, id);
    assert Filter(IsList, [one]) == [] && Filter(IsRecord, [one]) == [];
  }

  /** A rule that carries a list key, with a path or without, as the catalog's read rule
      does: on an endpoint for one resource it never refuses. The request goes through to
      the handler whatever its input, and only the shape of the answer counts. */
  lemma SharedRuleNeverRefuses(endpoint: Endpoint, r: Rule, caller: Caller, auth: Auth, input: map<string, string>,
                               key: string, output: Option<map<string, Value>>)
    requires Filterable(caller) && (endpoint == Public || (endpoint == Authenticated && caller.Somebody?))
    requires r.instance.Some? && r.instance.value.listKey == Some(key) && r.instance.value.recordKey.None?
    ensures Respond(endpoint, [r], caller, auth, input, output) ==
      if output.None? then Reply(None)
      else if key in output.value && output.value[key].Items?
      then Reply(Some(output.value[key := Items(Filter(Shown(r, caller, auth), output.value[key].items))]))
      else InternalError
  {
    assert r in [r] && !IsSingle(r);
    assert GlobalOk(endpoint, [r], caller, auth) && PreOk([r], caller, auth, input);
    assert Respond(endpoint, [r], caller, auth, input, output) == PostFilter([r], caller, auth, output);
    assert Filter(IsList, [r]) == [r] && Filter(IsRecord, [r]) == [];
    if output.Some? {
      assert [r][..0] == [];
      assert Lists(output.value, [r], caller, auth) == ListStep(output.value, r, caller, auth);
    }
  }

  /** Some known caller can be refused by the rule when a request carries this input. */
  ghost predicate Refusable(r: Rule, input: map<string, string>) {
    exists caller: Caller, auth: Auth, output: Option<map<string, Value>> ::
      Known(caller) && Respond(Authenticated, [r], caller, auth, input, output) == Forbidden
  }

  lemma RefusedIff(endpoint: Endpoint, r: Rule, caller: Caller, auth: Auth, input: map<string, string>,
                   output: Option<map<string, Value>>)
    requires endpoint in {Public, Authenticated} && r.instance.Some? && Known(caller)
    ensures Respond(endpoint, [r], caller, auth, input, output) == Forbidden <==>
      IsSingle(r) && IdGiven(r, input).Some? && !Admits(r, caller, auth, IdGiven(r, input).value)
  {
    assert r in [r];
  }

  /** A request is checked against the decision for its resource exactly when the rule
      carries neither a list key nor a record key and the input has an id at the rule's
      path; otherwise no caller whatever is refused. */
  lemma PreCheckedIff(r: Rule, input: map<string, string>)
    requires r.instance.Some?
    ensures Refusable(r, input) <==> IsSingle(r) && IdGiven(r, input).Some?
    ensures Refusable(r, input) ==>
      forall endpoint, caller, auth, output | endpoint in {Public, Authenticated} && Known(caller) ::
        Respond(endpoint, [r], caller, auth, input, output) == Forbidden <==> !Admits(r, caller, auth, IdGiven(r, input).value)
  {
    forall endpoint, caller, auth, output | endpoint in {Public, Authenticated} && Known(caller)
      ensures Respond(endpoint, [r], caller, auth, input, output) == Forbidden <==>
        IsSingle(r) && IdGiven(r, input).Some? && !Admits(r, caller, auth, IdGiven(r, input).value)
    {
      RefusedIff(endpoint, r, caller, auth, input, output);
    }
    if IsSingle(r) && IdGiven(r, input).Some? {
      var caller, auth := Somebody(User, "u", {}), Auth(Database([], map[], {}, {}), {}, true);
      assert !Admits(r, caller, auth, IdGiven(r, input).value);
      assert Respond(Authenticated, [r], caller, auth, input, None) == Forbidden;
    }
  }

  /** The catalog's manage rule looks for the id at `systemId`. An update sends it at `id`
      and a deletion sends a bare string: both go through whatever the caller may do. */
  lemma ManageIsNeverRefused(r: Rule, caller: Caller, auth: Auth, id: string, output: Option<map<string, Value>>)
    requires r.instance == Some(Instance(Some("systemId"), None, None)) && Known(caller)
    ensures Respond(Authenticated, [r], caller, auth, map["id" := id], output) == Reply(output)
    ensures Respond(Authenticated, [r], caller, auth, map[], output) == Reply(output)
  {
    assert "systemId" != "id" by { assert |"systemId"| != |"id"|; }
    assert Filter(IsList, [r]) == [] && Filter(IsRecord, [r]) == [];
    assert GlobalOk(Authenticated, [r], caller, auth);
    assert PreOk([r], caller, auth, map["id" := id]) && PreOk([r], caller, auth, map[]);
  }

  /** More access rules never hide an item: what the weaker caller sees is a filter of
      what the stronger one sees. */
  lemma {:induction false} GlobalAccessNeverShrinks(rules: seq<Rule>, key: string, weak: Caller, strong: Caller,
                                                    auth: Auth, items: seq<Item>)
    requires Known(weak) && Known(strong) && weak.kind == strong.kind && weak.id == strong.id && weak.rules <= strong.rules
    ensures Filter(Passing(rules, key, weak, auth), items)
      == Filter(Passing(rules, key, weak, auth), Filter(Passing(rules, key, strong, auth), items))
  {
    forall item | item in items && PassesAll(rules, key, weak, auth, item) ensures PassesAll(rules, key, strong, auth, item) {
      forall r | r in rules && IsList(r) && r.instance.value.listKey.value == key ensures Shows(r, strong, auth, item) {
        assert Shows(r, weak, auth, item);
        if auth.reachable {
          GlobalHelps(auth.db, Ask(r, weak), Ask(r, strong), item.id.value);
        }
      }
    }
    FilterFilter(Passing(rules, key, weak, auth), Passing(rules, key, strong, auth), Passing(rules, key, weak, auth), items);
  }

  lemma GlobalHelps(db: Database, weak: Query, strong: Query, id: string)
    requires strong == weak.(hasGlobal := strong.hasGlobal) && (weak.hasGlobal ==> strong.hasGlobal)
    ensures Check(db, weak, id) ==> Check(db, strong, id)
  {
    FilterSame(Exactly(weak, id), Exactly(strong, id), db.grants);
  }

  /** A resource for teams only, with some grant, is decided by the teams alone; but
      when the auth service cannot be reached global access opens it. */
  lemma TeamOnlyIgnoresGlobal(db: Database, q: Query, id: string)
    requires (q.resourceType, id) in db.teamOnly && db.teamOnly[(q.resourceType, id)]
    requires exists g <- db.grants :: g.resourceType == q.resourceType && g.resourceId == id
    ensures Check(db, q, id) <==> exists g <- db.grants :: GrantOpens(db, q, id, g)
  {
    CheckIsRowsOpen(db, q, id);
  }

  lemma UnreachableServiceOpensTeamOnly(rule: Rule, caller: Caller, db: Database, anonymous: set<string>, id: string)
    requires Known(caller) && (rule.resourceType, id) in db.teamOnly && db.teamOnly[(rule.resourceType, id)]
    requires exists g <- db.grants :: g.resourceType == rule.resourceType && g.resourceId == id
    requires forall g <- db.grants :: !GrantOpens(db, Asked(rule, caller), id, g)
    ensures !Admits(rule, caller, Auth(db, anonymous, true), id)
    ensures Admits(rule, caller, Auth(db, anonymous, false), id) <==> "*" in caller.rules || rule.qualifiedId in caller.rules
  {
    assert Ask(rule, caller) == Asked(rule, caller);
    TeamOnlyIgnoresGlobal(db, Asked(rule, caller), id);
  }
}
