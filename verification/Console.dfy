/** The console's key management: what a signed-in user may do to the keys of a deployment. */
module KeyConsole {
  import opened Prelude
  import opened Text
  import PersonalTeams

  datatype Config = Config(personalTeams: bool, prefix: string, defaultTeam: string)

  /** A key. `managed` keys were minted here; `rest` is everything no handler touches. */
  datatype Key = Key(owner: string, team: string, managed: bool, blocked: bool, rest: string)

  /** A row of the user's key listing. */
  datatype Listed = Listed(id: string, token: string, managed: bool)

  /** A call can be answered, refused, fail on its way there, or take effect while its answer is lost. */
  datatype Outcome = Answered | Refused | LostBefore | LostAfter

  /** What the backend does during one request. A lookup that fails is None. */
  datatype Backend = Backend(memberships: Option<set<string>>, listing: Option<seq<Listed>>, ensured: bool, write: Outcome,
                             duplicateAlias: bool)

  datatype Reply = Done | Forbidden | Conflict | Unprocessable | BadGateway

  predicate TakesEffect(o: Outcome) { o.Answered? || o.LostAfter? }

  /** A body naming a team, blanks aside. */
  predicate Names(teamId: Option<string>) { teamId.Some? && Strip(teamId.value) != "" }

  predicate Member(team: string, b: Backend) { b.memberships.Some? && team in b.memberships.value }

  /** The user's membership is known, and this team is not among them. */
  predicate Stranger(team: string, b: Backend) { b.memberships.Some? && team !in b.memberships.value }

  function First(listing: seq<Listed>, id: string): Option<Listed> {
    if listing == [] then None else if listing[0].id == id then Some(listing[0]) else First(listing[1..], id)
  }

  /** The id is not the user's, whether or not it is anyone else's: the reply must not tell which. */
  predicate Unlisted(id: string, b: Backend) { b.listing.Some? && First(b.listing.value, id).None? }

  /** The id is the user's, but of a key managed elsewhere. */
  predicate ListedElsewhere(id: string, b: Backend) {
    b.listing.Some? && First(b.listing.value, id).Some? && !First(b.listing.value, id).value.managed
  }

  /** The key at position i is the first of the listing with this id. */
  ghost predicate IsFirst(listing: seq<Listed>, id: string, i: nat) {
    && i < |listing| && listing[i].id == id
    && forall j: nat :: j < i ==> listing[j].id != id
  }

  lemma {:induction false} FirstIsListed(listing: seq<Listed>, id: string)
    ensures First(listing, id).Some? ==> exists i: nat :: IsFirst(listing, id, i) && First(listing, id).value == listing[i]
    ensures First(listing, id).None? <==> forall k :: k in listing ==> k.id != id
  {
    if listing != [] && listing[0].id == id {
      assert IsFirst(listing, id, 0);
    } else if listing != [] {
      var rest := listing[1..];
      FirstIsListed(rest, id);
      assert listing == [listing[0]] + rest;
      if First(rest, id).Some? {
        var i: nat :| IsFirst(rest, id, i) && First(rest, id).value == rest[i];
        assert forall j: nat :: 0 < j < i + 1 ==> listing[j] == rest[j - 1];
        assert IsFirst(listing, id, i + 1);
      }
    }
  }

  /** The listing holds keys of the user only, as they are. */
  ghost predicate Truthful(keys: map<string, Key>, email: string, b: Backend) {
    b.listing.Some? ==>
      forall k :: k in b.listing.value ==> k.token in keys && keys[k.token].owner == email && keys[k.token].managed == k.managed
  }

  function PersonalTeam(c: Config, email: string): string { PersonalTeams.PersonalTeamId(c.prefix, email) }

  /** What any request of a user may do to the keys: other users' keys stay; of the user's own, those managed elsewhere
      change their blocked flag only, and the others may also be deleted or moved; a new key is the user's and managed.
      With personal teams on, a new or moved key ends in the user's personal team. */
  ghost predicate Allowed(c: Config, email: string, keys: map<string, Key>, keys': map<string, Key>) {
    && (forall t :: t in keys && keys[t].owner != email ==> t in keys' && keys'[t] == keys[t])
    && (forall t :: t in keys && !keys[t].managed ==> t in keys' && keys'[t] == keys[t].(blocked := keys'[t].blocked))
    && (forall t :: t in keys && t in keys' ==>
          keys'[t] == keys[t].(blocked := keys'[t].blocked, team := keys'[t].team)
          && (c.personalTeams && keys'[t].team != keys[t].team ==> keys'[t].team == PersonalTeam(c, email)))
    && (forall t :: t in keys' && t !in keys ==>
          keys'[t].owner == email && keys'[t].managed && (c.personalTeams ==> keys'[t].team == PersonalTeam(c, email)))
  }

  class Console {
    const config: Config
    var keys: map<string, Key>

    constructor (config: Config, keys: map<string, Key>)
      ensures this.config == config && this.keys == keys
    {
      this.config, this.keys := config, keys;
    }

    /** `_validate_key_team`: the team of the body is dropped with personal teams on, and checked otherwise. */
    method ValidateKeyTeam(email: string, teamId: Option<string>, b: Backend) returns (r: Result<Option<string>, Reply>)
      ensures r == Ok(None) <==> config.personalTeams || !Names(teamId)
      ensures r.Ok? && r.value.Some? ==> Names(teamId) && r.value.value == Strip(teamId.value) && Member(r.value.value, b)
      ensures r == Err(Forbidden) <==> !config.personalTeams && Names(teamId) && Stranger(Strip(teamId.value), b)
      ensures r == Err(BadGateway) <==> !config.personalTeams && Names(teamId) && b.memberships.None?
      ensures r.Err? ==> r.error in {Forbidden, BadGateway}
    {
      if config.personalTeams || teamId.None? || Strip(teamId.value) == "" {
        return Ok(None);
      }
      var team := Strip(teamId.value);
      if b.memberships.None? {
        return Err(BadGateway);
      }
      r := if team in b.memberships.value then Ok(Some(team)) else Err(Forbidden);
    }

    /** Mint a key. `token` is the new key's name at the backend. */
    method CreateKey(email: string, sameOrigin: bool, bodyValid: bool, teamId: Option<string>, rest: string, token: string, b: Backend)
      returns (reply: Reply)
      requires token !in keys
      modifies this`keys
      ensures Allowed(config, email, old(keys), keys)
      ensures reply == Done <==>
                sameOrigin && bodyValid && b.ensured && b.write.Answered?
                && (config.personalTeams || (Names(teamId) ==> Member(Strip(teamId.value), b)))
      ensures reply == Done || keys != old(keys) ==>
                && token in keys && keys == old(keys)[token := Key(email, keys[token].team, true, false, rest)]
                && keys[token].team == (if config.personalTeams then PersonalTeam(config, email)
                                        else if Names(teamId) then Strip(teamId.value) else config.defaultTeam)
                && (!config.personalTeams && Names(teamId) ==> Member(keys[token].team, b))
      ensures keys != old(keys) ==> reply == Done || (reply == BadGateway && b.write.LostAfter?)
      ensures reply == Forbidden <==>
                !sameOrigin || (bodyValid && !config.personalTeams && Names(teamId) && Stranger(Strip(teamId.value), b))
      ensures reply == Unprocessable ==> sameOrigin && (!bodyValid || (b.write.Refused? && b.duplicateAlias))
      ensures sameOrigin && !bodyValid ==> reply == Unprocessable
      ensures reply != Conflict
    {
      if !sameOrigin {
        return Forbidden;
      }
      if !bodyValid {
        return Unprocessable;
      }
      var chosen := ValidateKeyTeam(email, teamId, b);
      if chosen.Err? {
        return chosen.error;
      }
      if !b.ensured {
        return BadGateway;
      }
      var team := if config.personalTeams && chosen.value.None? then PersonalTeam(config, email)
                  else if chosen.value.Some? then chosen.value.value
                  else config.defaultTeam;
      if TakesEffect(b.write) {
        keys := keys[token := Key(email, team, true, false, rest)];
      }
      reply := if b.write.Answered? then Done else if b.write.Refused? && b.duplicateAlias then Unprocessable else BadGateway;
    }

    /** Which key a request addresses: the first listed with that id, or why there is none. */
    method Target(id: string, b: Backend, mustBeManaged: bool) returns (r: Result<string, Reply>)
      ensures r.Ok? <==> b.listing.Some? && First(b.listing.value, id).Some?
                         && (mustBeManaged ==> First(b.listing.value, id).value.managed)
      ensures r.Ok? ==> r.value == First(b.listing.value, id).value.token
      ensures r.Err? ==> r.error == if b.listing.None? then BadGateway
                                    else if First(b.listing.value, id).None? then Forbidden else Conflict
    {
      if b.listing.None? {
        return Err(BadGateway);
      }
      var target := First(b.listing.value, id);
      if target.None? {
        return Err(Forbidden);
      }
      r := if mustBeManaged && !target.value.managed then Err(Conflict) else Ok(target.value.token);
    }

    method DeleteKey(email: string, sameOrigin: bool, id: string, b: Backend) returns (reply: Reply)
      requires Truthful(keys, email, b)
      modifies this`keys
      ensures Allowed(config, email, old(keys), keys)
      ensures reply == Done ==> b.listing.Some? && First(b.listing.value, id).Some?
                                && keys == old(keys) - {First(b.listing.value, id).value.token}
      ensures reply == Forbidden <==> !sameOrigin || Unlisted(id, b)
      ensures reply == Conflict <==> sameOrigin && ListedElsewhere(id, b)
      ensures reply == BadGateway <==>
                sameOrigin && (b.listing.None? || (!Unlisted(id, b) && !ListedElsewhere(id, b) && !b.write.Answered?))
      ensures reply != Unprocessable
      ensures keys != old(keys) ==> reply == Done || b.write.LostAfter?
    {
      if !sameOrigin {
        return Forbidden;
      }
      var target := Target(id, b, true);
      if target.Err? {
        return target.error;
      }
      FirstIsListed(b.listing.value, id);
      if TakesEffect(b.write) {
        keys := keys - {target.value};
      }
      reply := if b.write.Answered? then Done else BadGateway;
    }

    method BlockKey(email: string, sameOrigin: bool, bodyValid: bool, id: string, blocked: bool, b: Backend) returns (reply: Reply)
      requires Truthful(keys, email, b)
      modifies this`keys
      ensures Allowed(config, email, old(keys), keys)
      ensures reply == Done ==> b.listing.Some? && First(b.listing.value, id).Some?
                                && var t := First(b.listing.value, id).value.token;
                                   t in old(keys) && keys == old(keys)[t := old(keys)[t].(blocked := blocked)]
      ensures reply == Forbidden <==> !sameOrigin || (bodyValid && Unlisted(id, b))
      ensures reply == Unprocessable <==> sameOrigin && !bodyValid
      ensures reply == BadGateway <==>
                sameOrigin && bodyValid && (b.listing.None? || (!Unlisted(id, b) && !b.write.Answered?))
      ensures reply != Conflict
      ensures keys != old(keys) ==> reply == Done || b.write.LostAfter?
    {
      if !sameOrigin {
        return Forbidden;
      }
      if !bodyValid {
        return Unprocessable;
      }
      var target := Target(id, b, false);
      if target.Err? {
        return target.error;
      }
      FirstIsListed(b.listing.value, id);
      if TakesEffect(b.write) {
        keys := keys[target.value := keys[target.value].(blocked := blocked)];
      }
      reply := if b.write.Answered? then Done else BadGateway;
    }

    method ChangeKeyTeam(email: string, sameOrigin: bool, bodyValid: bool, id: string, teamId: string, b: Backend)
      returns (reply: Reply)
      requires Truthful(keys, email, b)
      modifies this`keys
      ensures Allowed(config, email, old(keys), keys)
      ensures reply == Done ==>
                && Strip(teamId) != "" && b.memberships.Some? && Strip(teamId) in b.memberships.value
                && b.listing.Some? && First(b.listing.value, id).Some? && First(b.listing.value, id).value.managed
                && var t := First(b.listing.value, id).value.token;
                   t in old(keys) && keys == old(keys)[t := old(keys)[t].(team := Strip(teamId))]
      ensures reply == Unprocessable <==> sameOrigin && (!bodyValid || Strip(teamId) == "")
      ensures var asks := bodyValid && Strip(teamId) != "";
              var elsewhere := config.personalTeams && Strip(teamId) != PersonalTeam(config, email);
              && (reply == Forbidden <==>
                    !sameOrigin || (asks && (elsewhere || Stranger(Strip(teamId), b)
                                             || (Member(Strip(teamId), b) && Unlisted(id, b)))))
              && (reply == Conflict <==>
                    sameOrigin && asks && !elsewhere && Member(Strip(teamId), b) && ListedElsewhere(id, b))
              && (reply == BadGateway <==>
                    sameOrigin && asks && !elsewhere
                    && (b.memberships.None?
                        || (Member(Strip(teamId), b)
                            && (b.listing.None? || (!Unlisted(id, b) && !ListedElsewhere(id, b) && !b.write.Answered?)))))
      ensures keys != old(keys) ==> reply == Done || b.write.LostAfter?
    {
      if !sameOrigin {
        return Forbidden;
      }
      if !bodyValid || Strip(teamId) == "" {
        return Unprocessable;
      }
      var team := Strip(teamId);
      if config.personalTeams && team != PersonalTeam(config, email) {
        return Forbidden;
      }
      if b.memberships.None? {
        return BadGateway;
      }
      if team !in b.memberships.value {
        return Forbidden;
      }
      var target := Target(id, b, true);
      if target.Err? {
        return target.error;
      }
      FirstIsListed(b.listing.value, id);
      if TakesEffect(b.write) {
        keys := keys[target.value := keys[target.value].(team := team)];
      }
      reply := if b.write.Answered? then Done else BadGateway;
    }
  }

  // ---------------------------------------------------------------- runs

  /** A run: the keys after each request, and who made each request. */
  ghost predicate IsRun(c: Config, users: seq<string>, states: seq<map<string, Key>>) {
    && |states| == |users| + 1
    && forall i :: 0 <= i < |users| ==> Allowed(c, users[i], states[i], states[i + 1])
  }

  /** How a key may differ after a run from what it was before. */
  ghost predicate Preserved(c: Config, k: Key, k': Key) {
    && k' == k.(blocked := k'.blocked, team := k'.team)
    && (!k.managed ==> k'.team == k.team)
    && (c.personalTeams && k'.team != k.team ==> k'.team == PersonalTeam(c, k.owner))
  }

  /** A key minted during the run. */
  ghost predicate Minted(c: Config, users: seq<string>, k: Key) {
    k.owner in users && k.managed && (c.personalTeams ==> k.team == PersonalTeam(c, k.owner))
  }

  /** Over every run of requests by any users: a key keeps its owner and everything but its flag and team; one managed
      elsewhere is never deleted or moved; one whose owner made no request is untouched; and with personal teams on, a
      key ends in the team it began in or in its owner's personal team, and a key minted on the way (even under the
      name of one deleted before) in the latter. */
  lemma {:induction false} RunsKeepKeysInTheirTeams(c: Config, users: seq<string>, states: seq<map<string, Key>>)
    requires IsRun(c, users, states)
    ensures forall t :: t in states[0] && t in states[|users|] ==>
              Preserved(c, states[0][t], states[|users|][t]) || Minted(c, users, states[|users|][t])
    ensures forall t :: t in states[0] && !states[0][t].managed ==>
              t in states[|users|] && Preserved(c, states[0][t], states[|users|][t])
    ensures forall t :: t in states[0] && states[0][t].owner !in users ==>
              t in states[|users|] && states[|users|][t] == states[0][t]
    ensures forall t :: t in states[|users|] && t !in states[0] ==> Minted(c, users, states[|users|][t])
  {
    if users != [] {
      var n := |users| - 1;
      assert users == users[..n] + [users[n]];
      RunsKeepKeysInTheirTeams(c, users[..n], states[..n + 1]);
    }
  }
}
