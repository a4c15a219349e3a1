/** Access rules, the grants of roles, and the defaults an administrator switched off. */
module AccessRules {
  import opened Sequences

  // -------------------------------------------------------------- the tables

  datatype Rule = Rule(id: string, description: string, isDefault: bool, isPublic: bool)

  /** A grant is a (role, rule) row. Foreign keys: a granted or disabled rule exists. */
  datatype Tables = Tables(rules: map<string, string>, grants: set<(string, string)>,
                           disabled: set<string>, disabledPublic: set<string>)

  const ADMIN := "admin"
  const USERS := "users"
  const ANONYMOUS := "anonymous"

  predicate KeysHold(t: Tables) {
    && (forall g <- t.grants :: g.1 in t.rules)
    && (forall d <- t.disabled :: d in t.rules)
    && (forall d <- t.disabledPublic :: d in t.rules)
  }

  function Ids(rs: seq<Rule>): set<string> { set r <- rs :: r.id }

  function Defaults(rs: seq<Rule>): seq<Rule> { Filter((r: Rule) => r.isDefault, rs) }

  function Publics(rs: seq<Rule>): seq<Rule> { Filter((r: Rule) => r.isPublic, rs) }

  function Granted(t: Tables, role: string): set<string> { set g | g in t.grants && g.0 == role :: g.1 }

  function Rows(role: string, ids: set<string>): set<(string, string)> { set id <- ids :: (role, id) }

  /** Writing the rules' descriptions, the last one of an id winning. */
  function Described(rules: map<string, string>, rs: seq<Rule>): map<string, string>
    decreases |rs|
  {
    if rs == [] then rules
    else Described(rules, rs[..|rs| - 1])[rs[|rs| - 1].id := rs[|rs| - 1].description]
  }

  lemma {:induction false} DescribedKeys(rules: map<string, string>, rs: seq<Rule>)
    ensures Described(rules, rs).Keys == rules.Keys + Ids(rs)
    decreases |rs|
  {
    if rs != [] {
      DescribedKeys(rules, rs[..|rs| - 1]);
      assert rs == rs[..|rs| - 1] + [rs[|rs| - 1]];
    }
  }

  // ------------------------------------------------------ what a sync changes

  /** Some id occurs twice among the listed rules that still have to be granted: the
      second insert violates the primary key. */
  ghost predicate Repeats(rs: seq<Rule>, role: string, off: set<string>, grants: set<(string, string)>) {
    exists i, j | 0 <= i < j < |rs| :: rs[i].id == rs[j].id && rs[i].id !in off && (role, rs[i].id) !in grants
  }

  /** Every registered rule is written and granted to the administrator. */
  function Registered(t: Tables, rs: seq<Rule>): Tables {
    t.(rules := Described(t.rules, rs), grants := t.grants + Rows(ADMIN, Ids(rs)))
  }

  /** Only the rules in `live`, and the grants of those. */
  function Trimmed(t: Tables, live: set<string>): Tables {
    t.(rules := map id | id in t.rules && id in live :: t.rules[id], grants := set g | g in t.grants && g.1 in live)
  }

  /** Orphans deleted, defaults granted unless switched off. */
  function Cleaned(t: Tables, rs: seq<Rule>): Tables {
    var live := Trimmed(t, Ids(rs));
    live.(grants := live.grants
            + Rows(USERS, Ids(Defaults(rs)) - t.disabled) + Rows(ANONYMOUS, Ids(Publics(rs)) - t.disabledPublic))
  }

  /** A full sync that completes. */
  function Synced(t: Tables, rs: seq<Rule>): Tables { Cleaned(Registered(t, rs), rs) }

  /** An orphaned rule that an administrator had switched off cannot be deleted. */
  ghost predicate OrphanIsDisabled(t: Tables, rs: seq<Rule>) {
    exists id :: id in t.rules && id !in Ids(rs) && (id in t.disabled || id in t.disabledPublic)
  }

  ghost predicate CanClean(t: Tables, rs: seq<Rule>) {
    && !OrphanIsDisabled(t, rs)
    && !Repeats(Defaults(rs), USERS, t.disabled, t.grants)
    && !Repeats(Publics(rs), ANONYMOUS, t.disabledPublic, t.grants)
  }

  ghost predicate Completes(t: Tables, rs: seq<Rule>) { CanClean(Registered(t, rs), rs) }

  /** A clean-up that throws has still only done part of a complete one. */
  ghost predicate PartlyCleaned(t: Tables, rs: seq<Rule>, u: Tables) {
    && u.disabled == t.disabled && u.disabledPublic == t.disabledPublic
    && Ids(rs) <= u.rules.Keys
    && u.grants <= t.grants + Cleaned(t, rs).grants
    && KeysHold(u)
  }

  ghost predicate SyncEffect(t: Tables, rs: seq<Rule>, full: bool, ok: bool, u: Tables) {
    if !full then ok && u == Registered(t, rs)
    else ok == Completes(t, rs) && (if ok then u == Synced(t, rs) else PartlyCleaned(Registered(t, rs), rs, u))
  }

  lemma RegisteredKeys(t: Tables, rs: seq<Rule>)
    requires KeysHold(t)
    ensures KeysHold(Registered(t, rs)) && Ids(rs) <= Registered(t, rs).rules.Keys
  {
    DescribedKeys(t.rules, rs);
  }

  lemma CleanedKeys(t: Tables, rs: seq<Rule>)
    requires KeysHold(t) && Ids(rs) <= t.rules.Keys
    ensures forall g <- Cleaned(t, rs).grants :: g.1 in Ids(rs)
  {
    assert forall r <- Defaults(rs) + Publics(rs) :: r in rs;
  }

  lemma TrimOne(t: Tables, live: set<string>, o: string, u: Tables)
    requires u == Trimmed(t, live)
    ensures Trimmed(t, live - {o}) == u.(rules := u.rules - {o}, grants := set g | g in u.grants && g.1 != o)
  {
    assert (u.rules - {o}) == Trimmed(t, live - {o}).rules;
  }

  /** Only the rules in `live` are left: all registered ones, and nothing that is still referenced was lost. */
  ghost predicate Dropping(t: Tables, rs: seq<Rule>, live: set<string>, u: Tables) {
    && u == Trimmed(t, live) && KeysHold(u)
    && live <= t.rules.Keys && t.rules.Keys * Ids(rs) <= live
  }

  lemma DropNone(t: Tables, rs: seq<Rule>)
    requires KeysHold(t)
    ensures Dropping(t, rs, t.rules.Keys, t)
  {
    assert t.rules == Trimmed(t, t.rules.Keys).rules;
    assert t.grants == Trimmed(t, t.rules.Keys).grants;
  }

  lemma DropStep(t: Tables, rs: seq<Rule>, live: set<string>, o: string, u: Tables)
    requires Dropping(t, rs, live, u) && o in live && o !in Ids(rs) && o !in t.disabled && o !in t.disabledPublic
    ensures Dropping(t, rs, live - {o}, u.(rules := u.rules - {o}, grants := set g | g in u.grants && g.1 != o))
  {
    TrimOne(t, live, o, u);
  }

  lemma DropStuck(t: Tables, rs: seq<Rule>, live: set<string>, o: string, u: Tables)
    requires Dropping(t, rs, live, u) && o in live && o !in Ids(rs) && (o in t.disabled || o in t.disabledPublic)
    ensures OrphanIsDisabled(t, rs)
    ensures var stuck := u.(grants := set g | g in u.grants && g.1 != o);
      KeysHold(stuck) && stuck.grants <= t.grants && stuck.rules.Keys >= t.rules.Keys * Ids(rs)
  {
    assert o in t.rules;
  }

  lemma DropDone(t: Tables, rs: seq<Rule>, live: set<string>, u: Tables)
    requires Dropping(t, rs, live, u) && live <= Ids(rs)
    ensures u == Trimmed(t, t.rules.Keys * Ids(rs)) && !OrphanIsDisabled(t, rs)
  {
    assert live == t.rules.Keys * Ids(rs);
    assert u.rules.Keys == live;
  }

  // ------------------------------------------------- what a role edit changes

  datatype Role = Role(name: string, description: Option<string>)

  datatype Outcome = Done | NotFound | Violation

  /** The submitted rules that some plugin registers, duplicates included. */
  function Valid(registry: seq<Rule>, input: seq<string>): seq<string> { Filter(id => id in Ids(registry), input) }

  function Elements(ids: seq<string>): set<string> { set id <- ids }

  /** Removed defaults are switched off, submitted ones are switched on again. */
  function Switched(off: set<string>, defaults: set<string>, chosen: set<string>): set<string> {
    off + (defaults - chosen) - (chosen * defaults)
  }

  function Tracked(t: Tables, registry: seq<Rule>, role: string, chosen: set<string>, own: bool): Tables {
    if role == USERS && !own then t.(disabled := Switched(t.disabled, Ids(Defaults(registry)), chosen))
    else if role == ANONYMOUS then t.(disabledPublic := Switched(t.disabledPublic, Ids(Publics(registry)), chosen))
    else t
  }

  /** The defaults of the edited role that the edit removes. */
  function Removed(registry: seq<Rule>, role: string, chosen: set<string>, own: bool): set<string> {
    if role == USERS && !own then Ids(Defaults(registry)) - chosen
    else if role == ANONYMOUS then Ids(Publics(registry)) - chosen
    else {}
  }

  function Replaced(t: Tables, role: string, chosen: set<string>): Tables {
    t.(grants := (set g | g in t.grants && g.0 != role) + Rows(role, chosen))
  }

  /** The tracking of defaults is outside the transaction: it stays when the
      replacement of the grants is rolled back. */
  ghost predicate EditEffect(t: Tables, known: bool, registry: seq<Rule>, role: string, input: seq<string>, own: bool,
                             outcome: Outcome, u: Tables)
  {
    var valid := Valid(registry, input);
    var chosen := Elements(valid);
    var tracked := Tracked(t, registry, role, chosen, own);
    if !known then outcome == NotFound && u == t
    else if !(Removed(registry, role, chosen, own) <= t.rules.Keys) then
      && outcome == Violation && u.rules == t.rules && u.grants == t.grants && KeysHold(u)
      && t.disabled <= u.disabled <= tracked.disabled + t.disabled
      && t.disabledPublic <= u.disabledPublic <= tracked.disabledPublic + t.disabledPublic
    else if role == ADMIN || own then outcome == Done && u == tracked
    else if NoRepeats(valid) && chosen <= t.rules.Keys then outcome == Done && u == Replaced(tracked, role, chosen)
    else outcome == Violation && u == tracked
  }

  // ------------------------------------------------- the effects row by row

  ghost predicate IsRegistered(rs: seq<Rule>, id: string) { exists r <- rs :: r.id == id }

  ghost predicate IsDefault(rs: seq<Rule>, id: string) { exists r <- rs :: r.id == id && r.isDefault }

  ghost predicate IsPublic(rs: seq<Rule>, id: string) { exists r <- rs :: r.id == id && r.isPublic }

  /** The rows after an edit. Its role gets exactly the submitted registered rules, if the
      grants may change, and no other role gains or loses any; the removed defaults of the
      role are switched off and the submitted ones on. */
  ghost predicate EditRows(t: Tables, registry: seq<Rule>, role: string, input: seq<string>, own: bool,
                           outcome: Outcome, u: Tables)
  {
    && u.rules == t.rules
    && (forall other, id :: (other, id) in u.grants <==>
         if outcome == Done && role != "admin" && !own && other == role then id in input && IsRegistered(registry, id)
         else (other, id) in t.grants)
    && (outcome == Done ==>
         && (forall id :: id in u.disabled <==>
              if role == "users" && !own && IsDefault(registry, id) then id !in input else id in t.disabled)
         && (forall id :: id in u.disabledPublic <==>
              if role == "anonymous" && IsPublic(registry, id) then id !in input else id in t.disabledPublic))
  }

  lemma DefaultRows(rs: seq<Rule>)
    ensures forall id :: id in Ids(rs) <==> IsRegistered(rs, id)
    ensures forall id :: id in Ids(Defaults(rs)) <==> IsDefault(rs, id)
    ensures forall id :: id in Ids(Publics(rs)) <==> IsPublic(rs, id)
  {
    forall r | r in rs && r.isDefault ensures r in Defaults(rs) {
      FilterKeeps((x: Rule) => x.isDefault, rs, r);
    }
    forall r | r in rs && r.isPublic ensures r in Publics(rs) {
      FilterKeeps((x: Rule) => x.isPublic, rs, r);
    }
  }

  lemma EditMeansRows(t: Tables, known: bool, registry: seq<Rule>, role: string, input: seq<string>, own: bool,
                      outcome: Outcome, u: Tables)
    requires EditEffect(t, known, registry, role, input, own, outcome, u)
    ensures EditRows(t, registry, role, input, own, outcome, u)
  {
    ChosenAreRegistered(registry, input);
    DefaultRows(registry);
  }

  /** The rows after a sync: the registered rules exist and the administrator has them; if
      it is a full one nothing else does, and the users and the anonymous role also have the
      defaults that are not switched off. Other grants of registered rules stay. */
  ghost predicate SyncRows(t: Tables, rs: seq<Rule>, full: bool, u: Tables) {
    && u.disabled == t.disabled && u.disabledPublic == t.disabledPublic
    && (forall id :: id in u.rules <==> IsRegistered(rs, id) || (!full && id in t.rules))
    && (forall id <- u.rules :: if IsRegistered(rs, id) then HasDescription(rs, id, u.rules[id])
                                else id in t.rules && u.rules[id] == t.rules[id])
    && (forall role, id :: (role, id) in u.grants <==>
         || ((role, id) in t.grants && (!full || IsRegistered(rs, id))) || (role == "admin" && IsRegistered(rs, id))
         || (full && role == "users" && IsDefault(rs, id) && id !in t.disabled)
         || (full && role == "anonymous" && IsPublic(rs, id) && id !in t.disabledPublic))
  }

  /** The description of the last rule with the id. */
  ghost predicate HasDescription(rs: seq<Rule>, id: string, description: string) {
    exists i :: 0 <= i < |rs| && rs[i].id == id && rs[i].description == description
      && forall j | i < j < |rs| :: rs[j].id != id
  }

  lemma {:induction false} DescribedLast(rules: map<string, string>, rs: seq<Rule>, id: string)
    requires id in Described(rules, rs)
    ensures if IsRegistered(rs, id) then HasDescription(rs, id, Described(rules, rs)[id])
      else id in rules && Described(rules, rs)[id] == rules[id]
    decreases |rs|
  {
    if rs != [] {
      var n := |rs| - 1;
      var front := rs[..n];
      assert rs == front + [rs[n]];
      DescribedKeys(rules, front);
      if rs[n].id != id {
        DescribedLast(rules, front, id);
        if IsRegistered(front, id) {
          var i :| 0 <= i < |front| && front[i].id == id && front[i].description == Described(rules, front)[id]
            && forall j | i < j < |front| :: front[j].id != id;
          assert rs[i] == front[i] && forall j | i < j < n :: rs[j] == front[j];
        }
      }
    }
  }

  lemma SyncMeansRows(t: Tables, rs: seq<Rule>, full: bool, u: Tables)
    requires SyncEffect(t, rs, full, true, u) && KeysHold(t)
    ensures SyncRows(t, rs, full, u)
  {
    DescribedKeys(t.rules, rs);
    DefaultRows(rs);
    forall id | id in Described(t.rules, rs)
      ensures if IsRegistered(rs, id) then HasDescription(rs, id, Described(t.rules, rs)[id])
        else id in t.rules && Described(t.rules, rs)[id] == t.rules[id]
    {
      DescribedLast(t.rules, rs, id);
    }
    forall id ensures IsDefault(rs, id) || IsPublic(rs, id) ==> IsRegistered(rs, id) { }
  }

  class AccessDatabase {
    var rules: map<string, string>
    var grants: set<(string, string)>
    var disabled: set<string>
    var disabledPublic: set<string>
    var roles: map<string, Role>

    ghost function Now(): Tables
      reads this
    {
      Tables(rules, grants, disabled, disabledPublic)
    }

    method RegisterRules(rs: seq<Rule>)
      modifies this`rules
      ensures rules == Described(old(rules), rs)
    {
      for i := 0 to |rs|
        invariant rules == Described(old(rules), rs[..i])
      {
        assert rs[..i + 1][..|rs[..i + 1]| - 1] == rs[..i];
        rules := rules[rs[i].id := rs[i].description];
      }
      assert rs[..|rs|] == rs;
    }

    method GrantToAdmin(rs: seq<Rule>)
      modifies this`grants
      ensures grants == old(grants) + Rows(ADMIN, Ids(rs))
    {
      var held := Granted(Tables(map[], grants, {}, {}), ADMIN);
      for i := 0 to |rs|
        invariant grants == old(grants) + Rows(ADMIN, Ids(rs[..i]))
      {
        assert rs[..i + 1] == rs[..i] + [rs[i]];
        assert Ids(rs[..i + 1]) == Ids(rs[..i]) + {rs[i].id};
        if rs[i].id !in held {
          grants := grants + {(ADMIN, rs[i].id)};
        }
      }
      assert rs[..|rs|] == rs;
    }

    /** The grants of a rule, then the rule; a disabled rule is still referenced. */
    method DeleteOrphan(o: string) returns (ok: bool)
      modifies this`rules, this`grants
      ensures ok == (o !in disabled && o !in disabledPublic)
      ensures grants == (set g | g in old(grants) && g.1 != o)
      ensures rules == if ok then old(rules) - {o} else old(rules)
    {
      grants := set g | g in grants && g.1 != o;
      if o in disabled || o in disabledPublic {
        return false;
      }
      rules := rules - {o};
      return true;
    }

    /** Deletes each rule that no plugin registers any more, in any order. */
    method RemoveOrphans(rs: seq<Rule>) returns (ok: bool)
      requires KeysHold(Now())
      modifies this`rules, this`grants
      ensures ok == !OrphanIsDisabled(old(Now()), rs)
      ensures ok ==> Now() == Trimmed(old(Now()), old(rules).Keys * Ids(rs))
      ensures !ok ==> grants <= old(grants) && rules.Keys >= old(rules).Keys * Ids(rs)
      ensures KeysHold(Now())
    {
      var live := rules.Keys;
      var pending := live - Ids(rs);
      ghost var t := Now();
      DropNone(t, rs);
      while pending != {}
        invariant pending == live - Ids(rs) && Dropping(t, rs, live, Now())
        decreases |pending|
      {
        var o :| o in pending;
        ghost var before := Now();
        ok := DeleteOrphan(o);
        if !ok {
          DropStuck(t, rs, live, o, before);
          return;
        }
        DropStep(t, rs, live, o, before);
        live, pending := live - {o}, pending - {o};
      }
      assert live <= Ids(rs) by {
        forall id | id in live ensures id in Ids(rs) {
          assert id !in pending;
        }
      }
      DropDone(t, rs, live, Now());
      return true;
    }

    /** Grants the listed defaults to a role, except those switched off. */
    method GrantDefaults(rs: seq<Rule>, role: string, off: set<string>) returns (ok: bool)
      modifies this`grants
      ensures ok == !Repeats(rs, role, off, old(grants))
      ensures ok ==> grants == old(grants) + Rows(role, Ids(rs) - off)
      ensures old(grants) <= grants <= old(grants) + Rows(role, Ids(rs) - off)
    {
      var held := grants;
      for i := 0 to |rs|
        invariant grants == old(grants) + Rows(role, Ids(rs[..i]) - off)
        invariant !Repeats(rs[..i], role, off, held)
      {
        assert rs[..i + 1] == rs[..i] + [rs[i]];
        assert Ids(rs[..i + 1]) == Ids(rs[..i]) + {rs[i].id};
        if rs[i].id in off || (role, rs[i].id) in held {
          continue;
        }
        if (role, rs[i].id) in grants {
          assert rs[i].id in Ids(rs[..i]);
          return false;
        }
        assert rs[i].id !in Ids(rs[..i]);
        grants := grants + {(role, rs[i].id)};
      }
      assert rs[..|rs|] == rs;
      return true;
    }

    /** The part of a full sync that follows registration. */
    method CleanUp(rs: seq<Rule>) returns (ok: bool)
      requires KeysHold(Now()) && Ids(rs) <= rules.Keys
      modifies this`rules, this`grants
      ensures ok == CanClean(old(Now()), rs)
      ensures if ok then Now() == Cleaned(old(Now()), rs) else PartlyCleaned(old(Now()), rs, Now())
    {
      ghost var t := Now();
      assert rules.Keys * Ids(rs) == Ids(rs);
      ok := RemoveOrphans(rs);
      if ok {
        assert Now() == Trimmed(t, Ids(rs));
        ok := GrantDefaults(Defaults(rs), USERS, disabled);
      }
      if ok {
        ok := GrantDefaults(Publics(rs), ANONYMOUS, disabledPublic);
      }
    }

    method SyncAccessRules(rs: seq<Rule>, full: bool) returns (ok: bool)
      requires KeysHold(Now())
      modifies this`rules, this`grants
      ensures SyncEffect(old(Now()), rs, full, ok, Now())
      ensures ok ==> SyncRows(old(Now()), rs, full, Now())
    {
      RegisteredKeys(Now(), rs);
      RegisterRules(rs);
      GrantToAdmin(rs);
      ghost var t := Registered(old(Now()), rs);
      assert Now() == t;
      ok := true;
      if full {
        ok := CleanUp(rs);
      }
      if ok {
        SyncMeansRows(old(Now()), rs, full, Now());
      }
    }

    /** Inserts the removed defaults, then deletes the submitted ones. A default that is
        not in the rule table violates the foreign key and ends the edit. */
    method TrackDisabled(off: set<string>, defaults: seq<Rule>, valid: seq<string>) returns (ok: bool, now: set<string>)
      ensures ok == (Ids(defaults) - Elements(valid) <= rules.Keys)
      ensures ok ==> now == Switched(off, Ids(defaults), Elements(valid))
      ensures !ok ==> off <= now <= off + ((Ids(defaults) - Elements(valid)) * rules.Keys)
    {
      now := off;
      for i := 0 to |defaults|
        invariant now == off + (Ids(defaults[..i]) - Elements(valid))
        invariant Ids(defaults[..i]) - Elements(valid) <= rules.Keys
      {
        assert defaults[..i + 1] == defaults[..i] + [defaults[i]];
        assert Ids(defaults[..i + 1]) == Ids(defaults[..i]) + {defaults[i].id};
        if defaults[i].id !in valid {
          if defaults[i].id !in rules {
            assert defaults[i].id in Ids(defaults);
            return false, now;
          }
          now := now + {defaults[i].id};
        }
      }
      assert defaults[..|defaults|] == defaults;
      ghost var full := now;
      for i := 0 to |valid|
        invariant now == full - (Elements(valid[..i]) * Ids(defaults))
      {
        assert valid[..i + 1] == valid[..i] + [valid[i]];
        assert Elements(valid[..i + 1]) == Elements(valid[..i]) + {valid[i]};
        if valid[i] in Ids(defaults) {
          now := now - {valid[i]};
        }
      }
      assert valid[..|valid|] == valid;
      ok := true;
    }

    /** The transaction: replace the role's grants, or change nothing. */
    method ReplaceGrants(role: string, valid: seq<string>) returns (ok: bool)
      modifies this`grants
      ensures ok == (NoRepeats(valid) && Elements(valid) <= rules.Keys)
      ensures Now() == if ok then Replaced(old(Now()), role, Elements(valid)) else old(Now())
      ensures forall other, id :: (other, id) in grants <==>
        if ok && other == role then id in valid else (other, id) in old(grants)
    {
      var rows := set g | g in grants && g.0 != role;
      for i := 0 to |valid|
        invariant NoRepeats(valid[..i]) && Elements(valid[..i]) <= rules.Keys
        invariant rows == (set g | g in grants && g.0 != role) + Rows(role, Elements(valid[..i]))
      {
        assert valid[..i + 1] == valid[..i] + [valid[i]];
        assert Elements(valid[..i + 1]) == Elements(valid[..i]) + {valid[i]};
        if valid[i] !in rules {
          assert valid[i] in Elements(valid);
          return false;
        }
        if (role, valid[i]) in rows {
          assert valid[i] in valid[..i];
          return false;
        }
        assert valid[i] !in valid[..i];
        rows := rows + {(role, valid[i])};
      }
      assert valid[..|valid|] == valid;
      grants := rows;
      return true;
    }

    /** The part of an edit that is about access: the tracked defaults, then the grants. */
    method EditAccess(registry: seq<Rule>, id: string, input: seq<string>, own: bool) returns (outcome: Outcome)
      requires KeysHold(Now())
      modifies this`disabled, this`disabledPublic, this`grants
      ensures EditEffect(old(Now()), true, registry, id, input, own, outcome, Now())
    {
      var valid := Valid(registry, input);
      if id == USERS && !own {
        var ok;
        ok, disabled := TrackDisabled(disabled, Defaults(registry), valid);
        if !ok {
          return Violation;
        }
      }
      if id == ANONYMOUS {
        var ok;
        ok, disabledPublic := TrackDisabled(disabledPublic, Publics(registry), valid);
        if !ok {
          return Violation;
        }
      }
      if id != ADMIN && !own {
        var ok := ReplaceGrants(id, valid);
        if !ok {
          return Violation;
        }
      }
      return Done;
    }

    method UpdateRole(registry: seq<Rule>, id: string, name: Option<string>, description: Option<string>,
                      input: seq<string>, own: bool)
      returns (outcome: Outcome)
      requires KeysHold(Now())
      modifies this
      ensures EditEffect(old(Now()), id in old(roles), registry, id, input, own, outcome, Now())
      ensures EditRows(old(Now()), registry, id, input, own, outcome, Now())
      ensures outcome != Done ==> roles == old(roles)
      ensures outcome == Done ==>
        id in old(roles) && roles == old(roles)[id := Role(if name.Some? then name.value else old(roles)[id].name,
                                                           if description.Some? then description else old(roles)[id].description)]
    {
      ghost var before := Now();
      if id !in roles {
        EditMeansRows(before, false, registry, id, input, own, NotFound, before);
        return NotFound;
      }
      outcome := EditAccess(registry, id, input, own);
      EditMeansRows(before, true, registry, id, input, own, outcome, Now());
      if outcome != Done {
        return;
      }
      if name.Some? || description.Some? {
        var r := roles[id];
        roles := roles[id := Role(if name.Some? then name.value else r.name,
                                  if description.Some? then description else r.description)];
      }
      return Done;
    }
  }

  // ---------------------------------------------------------- over every run

  /** Which rules are defaults does not change while the system runs. */
  datatype Flags = Flags(isDefault: string -> bool, isPublic: string -> bool)

  ghost predicate Agree(rs: seq<Rule>, flags: Flags) {
    forall r <- rs :: r.isDefault == flags.isDefault(r.id) && r.isPublic == flags.isPublic(r.id)
  }

  /** Only defaults are switched off, and a default that is switched off is not granted. */
  ghost predicate OffIsOff(off: set<string>, isDefault: string -> bool, grants: set<(string, string)>, role: string) {
    forall d <- off :: isDefault(d) && (role, d) !in grants
  }

  ghost predicate Inv(t: Tables, flags: Flags) {
    && KeysHold(t)
    && OffIsOff(t.disabled, flags.isDefault, t.grants, USERS)
    && OffIsOff(t.disabledPublic, flags.isPublic, t.grants, ANONYMOUS)
  }

  datatype Op =
    | Sync(rules: seq<Rule>, full: bool, ok: bool)
    | Edit(known: bool, registry: seq<Rule>, role: string, input: seq<string>, own: bool, outcome: Outcome)

  ghost predicate Effect(t: Tables, op: Op, u: Tables) {
    match op
    case Sync(rs, full, ok) => SyncEffect(t, rs, full, ok, u)
    case Edit(known, registry, role, input, own, outcome) => EditEffect(t, known, registry, role, input, own, outcome, u)
  }

  /** All syncs, and every edit that finds no role, replaces the grants, or removes no
      default that is granted; the others switch a default off and leave it granted. */
  ghost predicate Sound(t: Tables, op: Op, flags: Flags) {
    match op
    case Sync(rs, _, _) => Agree(rs, flags)
    case Edit(known, registry, role, input, own, outcome) =>
      Agree(registry, flags) && SoundEdit(t, known, registry, role, input, own, outcome)
  }

  ghost predicate SoundEdit(t: Tables, known: bool, registry: seq<Rule>, role: string, input: seq<string>, own: bool,
                            outcome: Outcome)
  {
    || !known || (outcome == Done && !own)
    || Removed(registry, role, Elements(Valid(registry, input)), own) !! Granted(t, role)
  }

  ghost predicate Run(states: seq<Tables>, ops: seq<Op>, flags: Flags) {
    && |states| == |ops| + 1
    && forall i | 0 <= i < |ops| :: Effect(states[i], ops[i], states[i + 1]) && Sound(states[i], ops[i], flags)
  }

  lemma DefaultIds(rs: seq<Rule>, flags: Flags)
    requires Agree(rs, flags)
    ensures forall id :: id in Ids(Defaults(rs)) <==> id in Ids(rs) && flags.isDefault(id)
    ensures forall id :: id in Ids(Publics(rs)) <==> id in Ids(rs) && flags.isPublic(id)
  {
    forall r | r in rs && r.isDefault ensures r in Defaults(rs) {
      FilterKeeps((x: Rule) => x.isDefault, rs, r);
    }
    forall r | r in rs && r.isPublic ensures r in Publics(rs) {
      FilterKeeps((x: Rule) => x.isPublic, rs, r);
    }
    forall id | id in Ids(rs) && flags.isDefault(id) ensures id in Ids(Defaults(rs)) {
      var r :| r in rs && r.id == id;
      assert r in Defaults(rs);
    }
    forall id | id in Ids(rs) && flags.isPublic(id) ensures id in Ids(Publics(rs)) {
      var r :| r in rs && r.id == id;
      assert r in Publics(rs);
    }
  }

  /** A sync never grants what is switched off, complete or not. */
  lemma SyncKeepsInv(t: Tables, rs: seq<Rule>, full: bool, ok: bool, u: Tables, flags: Flags)
    requires Inv(t, flags) && SyncEffect(t, rs, full, ok, u)
    ensures Inv(u, flags) && u.disabled == t.disabled && u.disabledPublic == t.disabledPublic
  {
    RegisteredKeys(t, rs);
    var all := Registered(t, rs);
    assert all.disabled == t.disabled && all.disabledPublic == t.disabledPublic;
    assert OffIsOff(t.disabled, flags.isDefault, all.grants, USERS);
    assert OffIsOff(t.disabledPublic, flags.isPublic, all.grants, ANONYMOUS);
    if full {
      CleanKeepsInv(all, rs, flags);
      if ok {
        CleanedKeys(all, rs);
        OrphansGone(t, rs);
      }
    }
  }

  lemma CleanKeepsInv(t: Tables, rs: seq<Rule>, flags: Flags)
    requires OffIsOff(t.disabled, flags.isDefault, t.grants, USERS)
    requires OffIsOff(t.disabledPublic, flags.isPublic, t.grants, ANONYMOUS)
    ensures OffIsOff(t.disabled, flags.isDefault, Cleaned(t, rs).grants, USERS)
    ensures OffIsOff(t.disabledPublic, flags.isPublic, Cleaned(t, rs).grants, ANONYMOUS)
  {
  }

  /** After a complete sync exactly the registered rules exist. */
  lemma OrphansGone(t: Tables, rs: seq<Rule>)
    requires KeysHold(t) && Completes(t, rs)
    ensures Synced(t, rs).rules.Keys == Ids(rs)
    ensures t.disabled <= Ids(rs) && t.disabledPublic <= Ids(rs)
  {
    RegisteredKeys(t, rs);
    var all := Registered(t, rs);
    forall id | id in t.disabled || id in t.disabledPublic ensures id in Ids(rs) {
      assert id in all.rules;
    }
  }

  lemma ChosenAreRegistered(registry: seq<Rule>, input: seq<string>)
    ensures forall id :: id in Elements(Valid(registry, input)) <==> id in input && id in Ids(registry)
  {
    forall id | id in input && id in Ids(registry) ensures id in Valid(registry, input) {
      FilterKeeps(x => x in Ids(registry), input, id);
    }
  }

  lemma EditKeepsInv(t: Tables, known: bool, registry: seq<Rule>, role: string, input: seq<string>, own: bool,
                     outcome: Outcome, u: Tables, flags: Flags)
    requires Inv(t, flags) && Agree(registry, flags)
    requires EditEffect(t, known, registry, role, input, own, outcome, u)
    requires SoundEdit(t, known, registry, role, input, own, outcome)
    ensures Inv(u, flags)
  {
    ChosenAreRegistered(registry, input);
    DefaultIds(registry, flags);
    var removed := Removed(registry, role, Elements(Valid(registry, input)), own);
    if removed !! Granted(t, role) {
      forall d | d in removed ensures (role, d) !in t.grants {
        assert d !in Granted(t, role);
      }
    }
  }

  lemma {:induction false} InvariantOverRuns(states: seq<Tables>, ops: seq<Op>, flags: Flags, n: nat)
    requires Run(states, ops, flags) && Inv(states[0], flags) && n <= |ops|
    ensures Inv(states[n], flags)
    decreases n
  {
    if n > 0 {
      InvariantOverRuns(states, ops, flags, n - 1);
      var op := ops[n - 1];
      assert Effect(states[n - 1], op, states[n - 1 + 1]) && Sound(states[n - 1], op, flags);
      match op
      case Sync(rs, full, ok) => SyncKeepsInv(states[n - 1], rs, full, ok, states[n], flags);
      case Edit(known, registry, role, input, own, outcome) =>
        EditKeepsInv(states[n - 1], known, registry, role, input, own, outcome, states[n], flags);
    }
  }

  /** Over every run of syncs and edits, no default that is switched off is granted. */
  lemma DisabledDefaultsAreNeverGranted(states: seq<Tables>, ops: seq<Op>, flags: Flags, n: nat)
    requires Run(states, ops, flags) && Inv(states[0], flags) && n <= |ops|
    ensures Granted(states[n], USERS) !! states[n].disabled
    ensures Granted(states[n], ANONYMOUS) !! states[n].disabledPublic
  {
    InvariantOverRuns(states, ops, flags, n);
  }

  /** A default an administrator switched off stays off through any number of syncs,
      whichever plugins register, until an edit of the users role submits it again. */
  lemma {:induction false} SwitchedOffStaysOff(states: seq<Tables>, ops: seq<Op>, flags: Flags, d: string, n: nat)
    requires Run(states, ops, flags) && Inv(states[0], flags) && n <= |ops| && d in states[0].disabled
    requires forall i | 0 <= i < n && ops[i].Edit? && ops[i].role == USERS :: d !in ops[i].input
    ensures d in states[n].disabled && d !in Granted(states[n], USERS)
    decreases n
  {
    InvariantOverRuns(states, ops, flags, n);
    if n > 0 {
      SwitchedOffStaysOff(states, ops, flags, d, n - 1);
      InvariantOverRuns(states, ops, flags, n - 1);
      var op := ops[n - 1];
      assert Effect(states[n - 1], op, states[n - 1 + 1]);
      match op
      case Sync(rs, full, ok) => SyncKeepsInv(states[n - 1], rs, full, ok, states[n], flags);
      case Edit(known, registry, role, input, own, outcome) => ChosenAreRegistered(registry, input);
    }
  }

  // ---------------------------------------------------- right after a full sync

  predicate DistinctIds(rs: seq<Rule>) { forall i, j | 0 <= i < j < |rs| :: rs[i].id != rs[j].id }

  lemma {:induction false} FilterDistinct(keep: Rule -> bool, rs: seq<Rule>)
    requires DistinctIds(rs)
    ensures DistinctIds(Filter(keep, rs))
  {
    if rs != [] {
      FilterDistinct(keep, rs[1..]);
      forall r | r in Filter(keep, rs[1..]) ensures r.id != rs[0].id {
        assert r in rs[1..];
      }
    }
  }

  /** With distinct rule ids, a full sync completes exactly when no administrator
      switched off a default that has since become an orphan. */
  lemma FullSyncCompletes(t: Tables, rs: seq<Rule>)
    requires DistinctIds(rs)
    ensures Completes(t, rs) <==>
      forall id :: id in t.rules && id !in Ids(rs) ==> id !in t.disabled && id !in t.disabledPublic
  {
    DescribedKeys(t.rules, rs);
    FilterDistinct((r: Rule) => r.isDefault, rs);
    FilterDistinct((r: Rule) => r.isPublic, rs);
    var all := Registered(t, rs);
    assert forall id :: id in all.rules && id !in Ids(rs) <==> id in t.rules && id !in Ids(rs);
    if OrphanIsDisabled(all, rs) {
      var id :| id in all.rules && id !in Ids(rs) && (id in all.disabled || id in all.disabledPublic);
      assert id in t.rules;
    }
  }

  /** Then each registered default is granted or switched off, never both and never
      neither; the administrator holds exactly the registered rules, and only those exist. */
  lemma FullSyncSettlesDefaults(t: Tables, rs: seq<Rule>, flags: Flags, u: Tables)
    requires Inv(t, flags) && Agree(rs, flags) && SyncEffect(t, rs, true, true, u)
    ensures forall r <- rs :: r.isDefault ==> (r.id in Granted(u, USERS) <==> r.id !in u.disabled)
    ensures forall r <- rs :: r.isPublic ==> (r.id in Granted(u, ANONYMOUS) <==> r.id !in u.disabledPublic)
    ensures Granted(u, ADMIN) == Ids(rs) == u.rules.Keys
    ensures Granted(t, USERS) * Ids(rs) <= Granted(u, USERS)
  {
    SyncKeepsInv(t, rs, true, true, u, flags);
    OrphansGone(t, rs);
    RegisteredKeys(t, rs);
    CleanedKeys(Registered(t, rs), rs);
    AdminHoldsAll(t, rs);
    DefaultIds(rs, flags);
    forall r | r in rs && r.isDefault ensures r.id in Granted(u, USERS) <==> r.id !in u.disabled {
      assert r.id in Ids(Defaults(rs));
      if r.id !in u.disabled {
        assert (USERS, r.id) in u.grants;
      }
    }
    forall r | r in rs && r.isPublic ensures r.id in Granted(u, ANONYMOUS) <==> r.id !in u.disabledPublic {
      assert r.id in Ids(Publics(rs));
      if r.id !in u.disabledPublic {
        assert (ANONYMOUS, r.id) in u.grants;
      }
    }
    forall id | id in Granted(t, USERS) * Ids(rs) ensures id in Granted(u, USERS) {
      assert (USERS, id) in u.grants;
    }
  }

  lemma AdminHoldsAll(t: Tables, rs: seq<Rule>)
    requires KeysHold(t)
    ensures Granted(Synced(t, rs), ADMIN) == Ids(rs)
  {
    RegisteredKeys(t, rs);
    CleanedKeys(Registered(t, rs), rs);
    forall id | id in Ids(rs) ensures id in Granted(Synced(t, rs), ADMIN) {
      assert (ADMIN, id) in Synced(t, rs).grants;
    }
  }

  lemma {:induction false} DescribedTwice(a: map<string, string>, b: map<string, string>, rs: seq<Rule>)
    ensures forall id <- Ids(rs) :: id in Described(a, rs) && id in Described(b, rs)
    ensures forall id <- Ids(rs) :: Described(a, rs)[id] == Described(b, rs)[id]
    decreases |rs|
  {
    if rs != [] {
      var front, last := rs[..|rs| - 1], rs[|rs| - 1];
      DescribedTwice(a, b, front);
      assert rs == front + [last];
      assert Ids(rs) == Ids(front) + {last.id};
    }
  }

  lemma SyncedIsRegistered(t: Tables, rs: seq<Rule>, u: Tables)
    requires KeysHold(t) && Completes(t, rs) && u == Synced(t, rs)
    ensures Registered(u, rs) == u
  {
    OrphansGone(t, rs);
    AdminHoldsAll(t, rs);
    DescribedTwice(t.rules, u.rules, rs);
    DescribedKeys(u.rules, rs);
    forall id | id in Ids(rs) ensures (ADMIN, id) in u.grants {
      assert id in Granted(u, ADMIN);
    }
  }

  lemma CleanedTwice(t: Tables, rs: seq<Rule>, u: Tables)
    requires u == Cleaned(t, rs) && KeysHold(t) && Ids(rs) <= t.rules.Keys
    ensures Cleaned(u, rs) == u
  {
    CleanedKeys(t, rs);
    assert Trimmed(u, Ids(rs)).rules == u.rules;
    assert Trimmed(u, Ids(rs)).grants == u.grants;
  }

  /** A second full sync with the same rules completes and changes nothing. */
  lemma SecondSyncChangesNothing(t: Tables, rs: seq<Rule>)
    requires KeysHold(t) && DistinctIds(rs) && Completes(t, rs)
    ensures Completes(Synced(t, rs), rs) && Synced(Synced(t, rs), rs) == Synced(t, rs)
  {
    OrphansGone(t, rs);
    FullSyncCompletes(Synced(t, rs), rs);
    RegisteredKeys(t, rs);
    SyncedIsRegistered(t, rs, Synced(t, rs));
    CleanedTwice(Registered(t, rs), rs, Synced(t, rs));
  }

  // ------------------------------------------------------- what breaks it

  /** Once the rules are synced, an edit is rejected exactly when the role's grants may
      be changed at all and the submitted list repeats a registered rule. */
  lemma EditRejectedExactly(t: Tables, known: bool, registry: seq<Rule>, role: string, input: seq<string>, own: bool,
                            outcome: Outcome, u: Tables, flags: Flags)
    requires Agree(registry, flags) && Ids(registry) <= t.rules.Keys
    requires EditEffect(t, known, registry, role, input, own, outcome, u)
    ensures outcome == Violation <==> known && role != ADMIN && !own && !NoRepeats(Valid(registry, input))
    ensures outcome == Violation ==> u.grants == t.grants
  {
    ChosenAreRegistered(registry, input);
    DefaultIds(registry, flags);
  }

  /** When the grants stay as they were (a rejected edit, or one by somebody who has the
      role) the switched-off table has changed all the same. The result survives
      exactly when no removed default was granted. */
  lemma UnreplacedEditKeepsInvIff(t: Tables, registry: seq<Rule>, role: string, chosen: set<string>, own: bool, flags: Flags)
    requires Inv(t, flags) && Agree(registry, flags) && Ids(registry) <= t.rules.Keys
    ensures Inv(Tracked(t, registry, role, chosen, own), flags) <==>
      Removed(registry, role, chosen, own) !! Granted(t, role)
  {
    DefaultIds(registry, flags);
    var u := Tracked(t, registry, role, chosen, own);
    var removed := Removed(registry, role, chosen, own);
    if !(removed !! Granted(t, role)) {
      var d :| d in removed && d in Granted(t, role);
      assert (role, d) in t.grants;
      if role == USERS {
        assert d in u.disabled;
      } else {
        assert d in u.disabledPublic;
      }
    } else {
      forall d | d in removed ensures (role, d) !in t.grants {
        assert d !in Granted(t, role);
      }
    }
  }

  /** Over the whole of an edit, whatever becomes of it: the result survives exactly when
      there is no such role, the grants are replaced, or no removed default was granted. */
  lemma EditKeepsInvIff(t: Tables, known: bool, registry: seq<Rule>, role: string, input: seq<string>, own: bool,
                        outcome: Outcome, u: Tables, flags: Flags)
    requires Inv(t, flags) && Agree(registry, flags) && Ids(registry) <= t.rules.Keys
    requires EditEffect(t, known, registry, role, input, own, outcome, u)
    ensures Inv(u, flags) <==> SoundEdit(t, known, registry, role, input, own, outcome)
  {
    if SoundEdit(t, known, registry, role, input, own, outcome) {
      EditKeepsInv(t, known, registry, role, input, own, outcome, u, flags);
    } else {
      var chosen := Elements(Valid(registry, input));
      DefaultIds(registry, flags);
      assert Removed(registry, role, chosen, own) <= t.rules.Keys;
      assert u == Tracked(t, registry, role, chosen, own);
      UnreplacedEditKeepsInvIff(t, registry, role, chosen, own, flags);
    }
  }
}
