/** Which access groups a user is entitled to. */
module AccessGroups {
  import opened Prelude
  import opened Text

  /** Configured grants: everyone's, each user's, and each SSO group's, the latter two by folded key. */
  datatype Grants = Grants(defaults: seq<string>, own: map<string, seq<string>>, sso: map<string, seq<string>>)

  function Get(m: map<string, seq<string>>, key: string): seq<string> { if key in m then m[key] else [] }

  function Fold(s: string): string { Lower(Strip(s)) }

  /** The grants of the SSO groups, in order. */
  function FromSso(groups: seq<string>, grants: Grants): seq<string> {
    if groups == [] then []
    else FromSso(groups[..|groups| - 1], grants) + Get(grants.sso, Fold(groups[|groups| - 1]))
  }

  /** Order-preserving removal of repeats. */
  function Dedup(s: seq<string>): (d: seq<string>)
    ensures forall x :: x in d <==> x in s
    ensures Distinct(d)
  {
    if s == [] then []
    else
      var front, last := Dedup(s[..|s| - 1]), s[|s| - 1];
      assert forall x :: x in s <==> x in s[..|s| - 1] || x == last;
      if last in front then front else front + [last]
  }

  /** Where a member of the sequence first stands. */
  function FirstAt(s: seq<string>, x: string): (k: nat)
    requires x in s
    ensures k < |s| && s[k] == x && forall j :: 0 <= j < k ==> s[j] != x
  {
    if s[0] == x then 0 else 1 + FirstAt(s[1..], x)
  }

  /** What is left stands in the order in which it first stood. */
  lemma {:induction false} DedupKeepsTheOrder(s: seq<string>, i: nat, j: nat)
    requires i < j < |Dedup(s)|
    ensures FirstAt(s, Dedup(s)[i]) < FirstAt(s, Dedup(s)[j])
  {
    var n := |s| - 1;
    var front, d := s[..n], Dedup(s);
    assert forall k :: 0 <= k < n ==> s[k] == front[k];
    assert d[i] in s && d[j] in s;
    var f := Dedup(front);
    assert d == f || d == f + [s[n]];
    assert d[i] == f[i] && f[i] in front;
    assert FirstAt(s, d[i]) == FirstAt(front, d[i]);
    if j < |f| {
      DedupKeepsTheOrder(front, i, j);
      assert d[j] == f[j] && f[j] in front;
      assert FirstAt(s, d[j]) == FirstAt(front, d[j]);
    } else {
      assert d[j] == s[n] && s[n] !in front;
      assert FirstAt(s, d[j]) == n;
    }
  }

  lemma {:induction false} DedupOfDistinct(s: seq<string>)
    requires Distinct(s)
    ensures Dedup(s) == s
  {
    if s != [] {
      DedupOfDistinct(s[..|s| - 1]);
      assert s[..|s| - 1] + [s[|s| - 1]] == s;
    }
  }

  /** Adding what is already there changes nothing. */
  lemma {:induction false} DedupAbsorbs(s: seq<string>, more: seq<string>)
    requires Distinct(s) && forall x :: x in more ==> x in s
    ensures Dedup(s + more) == s
  {
    if more == [] {
      assert s + more == s;
      DedupOfDistinct(s);
    } else {
      var n := |more| - 1;
      assert (s + more)[..|s| + n] == s + more[..n] && (s + more)[|s| + n] == more[n];
      DedupAbsorbs(s, more[..n]);
    }
  }

  /** Stripped, without blanks. */
  function Cleaned(names: seq<string>): seq<string> {
    if names == [] then []
    else
      var name := Strip(names[|names| - 1]);
      Cleaned(names[..|names| - 1]) + (if name != "" then [name] else [])
  }

  /** Every name granted to the user, before cleaning. */
  function Granted(email: string, grants: Grants, ssoGroups: seq<string>): seq<string> {
    grants.defaults + Get(grants.own, Fold(email)) + FromSso(ssoGroups, grants)
  }

  /** A configured name the user is granted: everyone's, one under their own address, or one of an SSO group of theirs,
      the keys compared in lower case without surrounding white space. */
  ghost predicate Entitling(email: string, grants: Grants, ssoGroups: seq<string>, raw: string) {
    || raw in grants.defaults
    || (Lower(Strip(email)) in grants.own && raw in grants.own[Lower(Strip(email))])
    || exists k :: 0 <= k < |ssoGroups| && GrantsBy(grants.sso, Lower(Strip(ssoGroups[k])), raw)
  }

  predicate GrantsBy(m: map<string, seq<string>>, key: string, raw: string) { key in m && raw in m[key] }

  lemma {:induction false} FromSsoMembers(groups: seq<string>, grants: Grants, raw: string)
    ensures raw in FromSso(groups, grants) <==>
            exists k :: 0 <= k < |groups| && GrantsBy(grants.sso, Lower(Strip(groups[k])), raw)
  {
    if groups != [] {
      var n := |groups| - 1;
      FromSsoMembers(groups[..n], grants, raw);
      assert forall k :: 0 <= k < n ==> groups[..n][k] == groups[k];
      assert (exists k :: 0 <= k < |groups| && GrantsBy(grants.sso, Lower(Strip(groups[k])), raw)) <==>
             GrantsBy(grants.sso, Lower(Strip(groups[n])), raw)
             || exists k :: 0 <= k < n && GrantsBy(grants.sso, Lower(Strip(groups[..n][k])), raw);
    }
  }

  /** The cleaned names are those of the granted ones, source by source, that are not blank. */
  lemma NamesAreGranted(email: string, grants: Grants, ssoGroups: seq<string>, name: string)
    ensures name in Dedup(Cleaned(Granted(email, grants, ssoGroups))) <==>
            name != "" && exists raw :: Entitling(email, grants, ssoGroups, raw) && Strip(raw) == name
  {
    var granted := Granted(email, grants, ssoGroups);
    CleanedMembers(granted, name);
    forall raw ensures raw in granted <==> Entitling(email, grants, ssoGroups, raw) {
      FromSsoMembers(ssoGroups, grants, raw);
    }
    if name in Cleaned(granted) {
      var i :| 0 <= i < |granted| && Strip(granted[i]) == name;
      assert granted[i] in granted;
    }
    forall raw | raw in granted && Strip(raw) == name ensures exists i :: 0 <= i < |granted| && Strip(granted[i]) == name {
      var i :| 0 <= i < |granted| && granted[i] == raw;
    }
  }

  /** Names the user is entitled to. */
  method AccessGroupsForUser(email: string, grants: Grants, ssoGroups: seq<string>) returns (names: seq<string>)
    ensures names == Dedup(Cleaned(Granted(email, grants, ssoGroups)))
    ensures forall name :: name in names <==>
              name != "" && exists raw :: Entitling(email, grants, ssoGroups, raw) && Strip(raw) == name
  {
    var own := Get(grants.own, Fold(email));
    var explicit := AddSsoGrants(own, grants, ssoGroups);
    assert grants.defaults + explicit == grants.defaults + own + FromSso(ssoGroups, grants);
    names := CleanAndDedup(grants.defaults + explicit);
    forall name ensures name in names <==>
                        name != "" && exists raw :: Entitling(email, grants, ssoGroups, raw) && Strip(raw) == name {
      NamesAreGranted(email, grants, ssoGroups, name);
    }
  }

  method AddSsoGrants(own: seq<string>, grants: Grants, ssoGroups: seq<string>) returns (explicit: seq<string>)
    ensures explicit == own + FromSso(ssoGroups, grants)
  {
    explicit := own;
    for i := 0 to |ssoGroups|
      invariant explicit == own + FromSso(ssoGroups[..i], grants)
    {
      explicit := explicit + Get(grants.sso, Fold(ssoGroups[i]));
      assert ssoGroups[..i + 1][..i] == ssoGroups[..i];
    }
    assert ssoGroups[..|ssoGroups|] == ssoGroups;
  }

  method CleanAndDedup(all: seq<string>) returns (names: seq<string>)
    ensures names == Dedup(Cleaned(all))
  {
    names := [];
    ghost var done := [];
    for i := 0 to |all|
      invariant done == all[..i] && names == Dedup(Cleaned(done))
    {
      var cleaned := Strip(all[i]);
      names := AddName(names, cleaned);
      CleanedSnoc(done, all[i], cleaned);
      done := done + [all[i]];
    }
    assert done == all;
  }

  function AddName(names: seq<string>, name: string): seq<string> {
    if name != "" && name !in names then names + [name] else names
  }

  lemma CleanedSnoc(all: seq<string>, raw: string, name: string)
    requires name == Strip(raw)
    ensures Dedup(Cleaned(all + [raw])) == AddName(Dedup(Cleaned(all)), name)
  {
    var cleaned := Cleaned(all);
    assert (all + [raw])[..|all|] == all;
    assert (cleaned + [name])[..|cleaned|] == cleaned;
    assert cleaned + [] == cleaned;
  }

  lemma {:induction false} CleanedMembers(names: seq<string>, name: string)
    ensures name in Cleaned(names) <==> name != "" && exists i :: 0 <= i < |names| && Strip(names[i]) == name
  {
    if names != [] {
      var n := |names| - 1;
      CleanedMembers(names[..n], name);
      assert forall i :: 0 <= i < n ==> names[..n][i] == names[i];
      assert (exists i :: 0 <= i < |names| && Strip(names[i]) == name) <==>
             Strip(names[n]) == name || exists i :: 0 <= i < n && Strip(names[..n][i]) == name;
    }
  }

  /** The ids by name: a later row wins, and rows without a name or an id are skipped. */
  function IdsByName(rows: seq<(string, string)>): map<string, string> {
    if rows == [] then map[]
    else
      var front, row := IdsByName(rows[..|rows| - 1]), rows[|rows| - 1];
      if Complete(row) then front[row.0 := row.1] else front
  }

  predicate Complete(row: (string, string)) { row.0 != "" && row.1 != "" }

  /** Row i is the last complete one of the name. */
  ghost predicate LastOf(rows: seq<(string, string)>, name: string, i: nat) {
    && i < |rows| && rows[i].0 == name && Complete(rows[i])
    && forall j :: i < j < |rows| && Complete(rows[j]) ==> rows[j].0 != name
  }

  /** A name has an id exactly if a complete row carries it, and then that of the last such row. */
  lemma {:induction false} IdsByNameIsTheLastRow(rows: seq<(string, string)>, name: string)
    ensures name in IdsByName(rows) <==> exists i: nat :: LastOf(rows, name, i)
    ensures forall i: nat :: LastOf(rows, name, i) ==> name in IdsByName(rows) && IdsByName(rows)[name] == rows[i].1
  {
    if rows != [] {
      var n := |rows| - 1;
      var front := rows[..n];
      IdsByNameIsTheLastRow(front, name);
      if Complete(rows[n]) && rows[n].0 == name {
        assert LastOf(rows, name, n);
      } else {
        assert forall i: nat :: LastOf(rows, name, i) <==> LastOf(front, name, i);
      }
    }
  }

  /** The ids of the names; names that match nothing are skipped. */
  function Resolved(names: seq<string>, ids: map<string, string>): seq<string> {
    if names == [] then []
    else
      var name := names[|names| - 1];
      Resolved(names[..|names| - 1], ids) + (if name in ids then [ids[name]] else [])
  }

  method ResolveAccessGroupIds(names: seq<string>, rows: seq<(string, string)>) returns (ids: seq<string>)
    ensures ids == Resolved(names, IdsByName(rows))
  {
    var byName: map<string, string> := map[];
    for i := 0 to |rows|
      invariant byName == IdsByName(rows[..i])
    {
      assert rows[..i + 1][..i] == rows[..i];
      if Complete(rows[i]) {
        byName := byName[rows[i].0 := rows[i].1];
      }
    }
    assert rows[..|rows|] == rows;
    ids := [];
    for i := 0 to |names|
      invariant ids == Resolved(names[..i], byName)
    {
      assert names[..i + 1][..i] == names[..i];
      if names[i] in byName {
        ids := ids + [byName[names[i]]];
      }
    }
    assert names[..|names|] == names;
  }

  /** An id is resolved exactly if a name asked for has it. */
  lemma {:induction false} ResolvedMembers(names: seq<string>, ids: map<string, string>, id: string)
    ensures id in Resolved(names, ids) <==> exists name :: name in names && name in ids && ids[name] == id
  {
    if names != [] {
      var n := |names| - 1;
      ResolvedMembers(names[..n], ids, id);
      assert names == names[..n] + [names[n]];
    }
  }

  /** A granted name whose last complete row carries this id. */
  ghost predicate Entitles(email: string, grants: Grants, ssoGroups: seq<string>, rows: seq<(string, string)>, id: string,
                           raw: string, i: nat) {
    Entitling(email, grants, ssoGroups, raw) && Strip(raw) != "" && LastOf(rows, Strip(raw), i) && rows[i].1 == id
  }

  /** The ids a user gets are exactly those of the names granted to them. */
  lemma WantedAreEntitled(email: string, grants: Grants, ssoGroups: seq<string>, rows: seq<(string, string)>, id: string)
    ensures id in Resolved(Dedup(Cleaned(Granted(email, grants, ssoGroups))), IdsByName(rows)) <==>
            exists raw, i: nat :: Entitles(email, grants, ssoGroups, rows, id, raw, i)
  {
    var names, ids := Dedup(Cleaned(Granted(email, grants, ssoGroups))), IdsByName(rows);
    ResolvedMembers(names, ids, id);
    if id in Resolved(names, ids) {
      var name :| name in names && name in ids && ids[name] == id;
      NamesAreGranted(email, grants, ssoGroups, name);
      var raw :| Entitling(email, grants, ssoGroups, raw) && Strip(raw) == name;
      IdsByNameIsTheLastRow(rows, name);
      var i: nat :| LastOf(rows, name, i);
      assert Entitles(email, grants, ssoGroups, rows, id, raw, i);
    }
    forall raw, i: nat | Entitles(email, grants, ssoGroups, rows, id, raw, i) ensures id in Resolved(names, ids) {
      NamesAreGranted(email, grants, ssoGroups, Strip(raw));
      IdsByNameIsTheLastRow(rows, Strip(raw));
    }
  }
}

/** The personal team of a user: created closed, then opened by access groups only. */
module PersonalTeams {
  import opened Prelude
  import opened Text
  import opened AccessGroups

  const DENY_ALL_MODEL := "no-default-models"

  /** What a team may reach besides its access groups: nothing, or something set by hand. */
  datatype Permission = DenyAll | SetByHand(what: string)

  datatype Team = Team(models: seq<string>, permission: Permission, groups: seq<string>, managed: Option<string>,
                       members: set<string>)

  predicate StampedAsOurs(t: Team) { t.managed == Some("user-team") }

  /** A call can be refused, fail on its way there, or take effect while its answer is lost. */
  datatype Outcome = Answered | Refused | LostBefore | LostAfter

  /** What LiteLLM answers to the calls of one sync. */
  datatype World = World(create: Outcome, member: Outcome, listing: Option<seq<(string, string)>>, readable: bool, update: Outcome)

  datatype Failure = CallFailed

  function PersonalTeamId(prefix: string, email: string): string { prefix + Fold(email) }

  function Fresh(): Team { Team([DENY_ALL_MODEL], DenyAll, [], Some("user-team"), {}) }

  function Join(t: Team, email: string): Team { t.(members := t.members + {email}) }

  /** The attach write: groups only ever add, and the closed baseline is restored on a team of ours only. */
  function Attach(t: Team, ours: bool, wanted: seq<string>): Team {
    t.(groups := Dedup(t.groups + wanted), permission := if ours then DenyAll else t.permission)
  }

  /** A whole sync. */
  function Synced(t: Option<Team>, email: string, wanted: seq<string>): Team {
    var joined := Join(if t.Some? then t.value else Fresh(), email);
    Attach(joined, t.None? || StampedAsOurs(joined), wanted)
  }

  function Lookup(teams: map<string, Team>, id: string): Option<Team> { if id in teams then Some(teams[id]) else None }

  /** What every moment of a sync of team `id` guarantees, relative to the teams before it. */
  ghost predicate Safe(before: map<string, Team>, now: map<string, Team>, id: string, wanted: seq<string>) {
    && now - {id} == before - {id}
    && (id !in before && id in now ==>
          && now[id].models == ["no-default-models"] && now[id].permission == DenyAll && now[id].managed == Some("user-team")
          && forall g :: g in now[id].groups ==> g in wanted)
    && (id in before ==>
          && id in now
          && (forall g :: g in before[id].groups ==> g in now[id].groups)
          && (forall g :: g in now[id].groups ==> g in before[id].groups || g in wanted)
          && now[id].models == before[id].models && now[id].managed == before[id].managed
          && (now[id].permission == before[id].permission || (before[id].managed == Some("user-team") && now[id].permission == DenyAll)))
  }

  function Created(before: map<string, Team>, id: string): map<string, Team> {
    if id in before then before else before[id := Fresh()]
  }

  function Joined(before: map<string, Team>, id: string, email: string): map<string, Team> {
    var created := Created(before, id);
    created[id := Join(created[id], email)]
  }

  lemma StagesAreSafe(before: map<string, Team>, id: string, email: string, wanted: seq<string>)
    ensures Safe(before, before, id, wanted)
    ensures Safe(before, Created(before, id), id, wanted)
    ensures Safe(before, Joined(before, id, email), id, wanted)
  {
  }

  lemma SyncedIsSafe(before: map<string, Team>, id: string, email: string, wanted: seq<string>)
    ensures Safe(before, before[id := Synced(Lookup(before, id), email, wanted)], id, wanted)
  {
  }

  /** The id of a group whose name is granted to the user. */
  ghost predicate Entitled(email: string, grants: Grants, ssoGroups: seq<string>, w: World, g: string) {
    w.listing.Some? && exists raw, i: nat :: Entitles(email, grants, ssoGroups, w.listing.value, g, raw, i)
  }

  ghost predicate NothingGranted(email: string, grants: Grants, ssoGroups: seq<string>) {
    forall raw :: Entitling(email, grants, ssoGroups, raw) ==> Strip(raw) == ""
  }

  lemma WantedIdsAreEntitled(email: string, grants: Grants, ssoGroups: seq<string>, w: World)
    ensures var wanted := WantedIds(Dedup(Cleaned(Granted(email, grants, ssoGroups))), w.listing);
            && (wanted.None? <==> w.listing.None? && !NothingGranted(email, grants, ssoGroups))
            && (wanted.Some? ==> forall g :: g in wanted.value <==> Entitled(email, grants, ssoGroups, w, g))
  {
    var names := Dedup(Cleaned(Granted(email, grants, ssoGroups)));
    if names == [] {
      forall raw | Entitling(email, grants, ssoGroups, raw) ensures Strip(raw) == "" {
        NamesAreGranted(email, grants, ssoGroups, Strip(raw));
      }
    } else {
      NamesAreGranted(email, grants, ssoGroups, names[0]);
      if w.listing.Some? {
        forall g ensures g in Resolved(names, IdsByName(w.listing.value)) <==> Entitled(email, grants, ssoGroups, w, g) {
          WantedAreEntitled(email, grants, ssoGroups, w.listing.value, g);
        }
      }
    }
  }

  /** A successful sync leaves the team reaching what it reached before and what the user is entitled to. */
  lemma EntitledAfterwards(before: map<string, Team>, after: map<string, Team>, prefix: string, email: string, grants: Grants,
                           ssoGroups: seq<string>, w: World, r: Result<string, Failure>, states: seq<map<string, Team>>)
    requires SyncOutcome(before, after, PersonalTeamId(prefix, email), email,
                         WantedIds(Dedup(Cleaned(Granted(email, grants, ssoGroups))), w.listing), w, r, states)
    requires r.Ok?
    ensures r.value == prefix + Lower(Strip(email)) && r.value in after && email in after[r.value].members
    ensures w.listing.None? ==> NothingGranted(email, grants, ssoGroups)
    ensures r.value !in before || w.readable ==>
              forall g :: g in after[r.value].groups <==>
                (r.value in before && g in before[r.value].groups) || Entitled(email, grants, ssoGroups, w, g)
  {
    WantedIdsAreEntitled(email, grants, ssoGroups, w);
    var ids := WantedIds(Dedup(Cleaned(Granted(email, grants, ssoGroups))), w.listing);
    SyncedTeam(Lookup(before, r.value), email, ids.value);
  }

  /** The LiteLLM proxy, as the sync sees it. */
  class LiteLLM {
    var teams: map<string, Team>

    constructor ()
      ensures teams == map[]
    {
      teams := map[];
    }

    /** One write: it takes effect unless it was refused or lost on its way. */
    method Write(after: map<string, Team>, outcome: Outcome) returns (ok: bool)
      modifies this
      ensures ok <==> outcome.Answered?
      ensures teams == if outcome.Answered? || outcome.LostAfter? then after else old(teams)
    {
      if outcome.Answered? || outcome.LostAfter? {
        teams := after;
      }
      ok := outcome.Answered?;
    }

    /** `ensure_personal_team`. `states` lists the teams before the sync and after each of its calls. */
    method EnsurePersonalTeam(prefix: string, email: string, grants: Grants, ssoGroups: seq<string>, w: World)
      returns (r: Result<string, Failure>, ghost states: seq<map<string, Team>>)
      modifies this
      ensures var names := Dedup(Cleaned(Granted(email, grants, ssoGroups)));
              SyncOutcome(old(teams), teams, PersonalTeamId(prefix, email), email, WantedIds(names, w.listing), w, r, states)
      ensures r.Ok? ==>
                && r.value == prefix + Lower(Strip(email)) && r.value in teams && email in teams[r.value].members
                && (w.listing.None? ==> NothingGranted(email, grants, ssoGroups))
                && (r.value !in old(teams) || w.readable ==>
                      forall g :: g in teams[r.value].groups <==>
                        (r.value in old(teams) && g in old(teams)[r.value].groups) || Entitled(email, grants, ssoGroups, w, g))
    {
      var names := AccessGroupsForUser(email, grants, ssoGroups);
      var ids := None;
      if names == [] {
        ids := Some([]);
      } else if w.listing.Some? {
        var found := ResolveAccessGroupIds(names, w.listing.value);
        ids := Some(found);
      }
      var id := PersonalTeamId(prefix, email);
      ghost var before := teams;
      r, states := SyncTeam(id, email, ids, w);
      if r.Ok? {
        EntitledAfterwards(before, teams, prefix, email, grants, ssoGroups, w, r, states);
      }
    }

    /** The calls of a sync, given what resolving the names gave. */
    method SyncTeam(id: string, email: string, ids: Option<seq<string>>, w: World)
      returns (r: Result<string, Failure>, ghost states: seq<map<string, Team>>)
      modifies this
      ensures SyncOutcome(old(teams), teams, id, email, ids, w, r, states)
    {
      states := [teams];
      ghost var before, wanted := teams, if ids.Some? then ids.value else [];
      StagesAreSafe(before, id, email, wanted);
      SyncedIsSafe(before, id, email, wanted);

      // Phase 1: create closed.
      var weCreatedIt := id !in teams;
      var ok := Write(if weCreatedIt then teams[id := Fresh()] else teams, w.create);
      states := states + [teams];
      if !ok {
        return Err(CallFailed), states;
      }
      ok := Write(teams[id := Join(teams[id], email)], w.member);
      states := states + [teams];
      if !ok || ids.None? {
        return Err(CallFailed), states;
      }

      // Phase 2: attach.
      var current, ours := [], true;
      if !weCreatedIt {
        if !w.readable {
          return Ok(id), states;
        }
        current, ours := teams[id].groups, StampedAsOurs(teams[id]);
      }
      var updated := teams[id].(groups := Dedup(current + ids.value));
      if ours {
        updated := updated.(permission := DenyAll);
      }
      assert teams[id := updated] == before[id := Synced(Lookup(before, id), email, wanted)];
      ok := Write(teams[id := updated], w.update);
      states := states + [teams];
      r := if ok then Ok(id) else Err(CallFailed);
    }
  }

  /** The ids of the names, if they could be looked up; no names need no lookup. */
  function WantedIds(names: seq<string>, listing: Option<seq<(string, string)>>): Option<seq<string>> {
    if names == [] then Some([])
    else if listing.None? then None
    else Some(Resolved(names, IdsByName(listing.value)))
  }

  /** What a sync of team `id` did: every moment of it was safe, and if it succeeded the team is synced, or merely
      joined when it could not be read. */
  ghost predicate SyncOutcome(before: map<string, Team>, after: map<string, Team>, id: string, email: string,
                              ids: Option<seq<string>>, w: World, r: Result<string, Failure>, states: seq<map<string, Team>>) {
    && states != [] && states[0] == before && states[|states| - 1] == after
    && (forall i :: 0 <= i < |states| ==> Safe(before, states[i], id, if ids.Some? then ids.value else []))
    && (r.Ok? <==> w.create.Answered? && w.member.Answered? && ids.Some?
                   && ((id in before && !w.readable) || w.update.Answered?))
    && (r.Ok? ==>
          && r.value == id
          && after == before[id := if id in before && !w.readable then Join(before[id], email)
                                   else Synced(Lookup(before, id), email, ids.value)])
  }

  /** An owned team ends closed, an unstamped one keeps its permissions, and in either case it reaches exactly the groups
      it had and those the user is entitled to. */
  lemma SyncedTeam(t: Option<Team>, email: string, wanted: seq<string>)
    ensures var s := Synced(t, email, wanted);
            && (forall g :: g in s.groups <==> g in wanted || (t.Some? && g in t.value.groups))
            && s.members == (if t.Some? then t.value.members + {email} else {email})
            && (t.None? ==> s.models == ["no-default-models"] && s.permission == DenyAll && s.managed == Some("user-team"))
            && (t.Some? ==> s.models == t.value.models && s.managed == t.value.managed)
            && (t.Some? && t.value.managed == Some("user-team") ==> s.permission == DenyAll)
            && (t.Some? && t.value.managed != Some("user-team") ==> s.permission == t.value.permission)
  {
  }

  /** A second sync with entitlements that grew no further changes nothing. */
  lemma SyncingAgainChangesNothing(t: Option<Team>, email: string, wanted: seq<string>, again: seq<string>)
    requires forall g :: g in again ==> g in wanted || (t.Some? && g in t.value.groups)
    ensures var s := Synced(t, email, wanted); Synced(Some(s), email, again) == s
  {
    var s := Synced(t, email, wanted);
    DedupAbsorbs(s.groups, again);
  }

  /** Both sign-in paths land on one team: the id does not depend on case or on white space around the address. */
  lemma OneTeamPerAddress(prefix: string, a: string, b: string)
    ensures PersonalTeamId(prefix, a) == PersonalTeamId(prefix, b) <==> Lower(Strip(a)) == Lower(Strip(b))
    ensures prefix <= PersonalTeamId(prefix, a) && PersonalTeamId(prefix, a)[|prefix|..] == Lower(Strip(a))
  {
    assert (prefix + Fold(a))[|prefix|..] == Fold(a) && (prefix + Fold(b))[|prefix|..] == Fold(b);
  }
}
