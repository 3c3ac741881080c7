/** The keys of a proxy, fetched page by page. */
module KeyListing {
  import opened Prelude

  const PAGE_SIZE: nat := 100
  const LAST_PAGE: nat := 200

  /** An answer of the listing: a batch, or something that is no list; and the number of pages, 0 when it is not told. */
  datatype Page<Row> = Page(keys: Option<seq<Row>>, totalPages: nat)

  /** The rows still to come from page `page` on. */
  function Collected<Row>(server: nat -> Page<Row>, page: nat): seq<Row>
    decreases LAST_PAGE + 1 - page
  {
    if page > LAST_PAGE then []
    else
      var answer := server(page);
      if answer.keys.None? || answer.keys.value == [] then []
      else if answer.totalPages != 0 && page >= answer.totalPages then answer.keys.value
      else if |answer.keys.value| < PAGE_SIZE then answer.keys.value
      else answer.keys.value + Collected(server, page + 1)
  }

  method FetchKeys<Row>(server: nat -> Page<Row>) returns (rows: seq<Row>)
    ensures rows == Collected(server, 1)
  {
    rows := [];
    var page := 1;
    while page <= LAST_PAGE
      invariant 1 <= page <= LAST_PAGE + 1
      invariant rows + Collected(server, page) == Collected(server, 1)
    {
      var answer := server(page);
      if answer.keys.None? || answer.keys.value == [] {
        return;
      }
      rows := rows + answer.keys.value;
      if answer.totalPages != 0 && page >= answer.totalPages {
        return;
      }
      if |answer.keys.value| < PAGE_SIZE {
        return;
      }
      page := page + 1;
    }
  }

  /** The rows of one answer. */
  function RowsOf<Row>(answer: Page<Row>): seq<Row> {
    match answer.keys
    case Some(rows) => rows
    case None => []
  }

  /** Nothing is asked for after this page: it has fewer than 100 rows, it is the last that the server tells of, or it is the
      200th. */
  predicate Ends<Row>(server: nat -> Page<Row>, page: nat) {
    || |RowsOf(server(page))| < 100
    || (server(page).totalPages > 0 && server(page).totalPages <= page)
    || page >= 200
  }

  /** The rows of the pages from `page` to `last`. */
  function RowsBetween<Row>(server: nat -> Page<Row>, page: nat, last: nat): seq<Row>
    decreases last + 1 - page
  {
    if page > last then [] else RowsOf(server(page)) + RowsBetween(server, page + 1, last)
  }

  lemma {:induction false} CollectedUpToTheEnd<Row>(server: nat -> Page<Row>, page: nat) returns (last: nat)
    requires 1 <= page <= 200
    ensures page <= last <= 200 && Ends(server, last) && forall k: nat :: page <= k < last ==> !Ends(server, k)
    ensures Collected(server, page) == RowsBetween(server, page, last)
    decreases 200 - page
  {
    if Ends(server, page) {
      last := page;
      assert RowsBetween(server, page + 1, last) == [];
      assert Collected(server, 201) == [];
    } else {
      last := CollectedUpToTheEnd(server, page + 1);
    }
  }

  /** Whatever the server answers, what is fetched are the rows of the pages up to the first that ends the listing. */
  lemma TheFirstEndStopsTheFetch<Row>(server: nat -> Page<Row>, last: nat)
    requires 1 <= last && Ends(server, last) && forall k: nat :: 1 <= k < last ==> !Ends(server, k)
    ensures Collected(server, 1) == RowsBetween(server, 1, last)
  {
    assert last > 200 ==> Ends(server, 200);
    var found := CollectedUpToTheEnd(server, 1);
    assert found == last;
  }

  function Min(a: nat, b: nat): nat { if a < b then a else b }

  /** The rows that page `page` of an honest listing holds. */
  function Batch<Row>(all: seq<Row>, page: nat): seq<Row>
    requires page >= 1
  {
    all[Min((page - 1) * PAGE_SIZE, |all|)..Min(page * PAGE_SIZE, |all|)]
  }

  /** A server that serves `all` in pages of 100 and, if it tells the number of pages, tells it right. */
  ghost predicate Honest<Row>(server: nat -> Page<Row>, all: seq<Row>) {
    forall page: nat :: page >= 1 ==>
      && server(page).keys == Some(Batch(all, page))
      && (server(page).totalPages != 0 ==>
            (server(page).totalPages - 1) * PAGE_SIZE < |all| <= server(page).totalPages * PAGE_SIZE)
  }

  lemma {:induction false} HonestRest<Row>(server: nat -> Page<Row>, all: seq<Row>, page: nat)
    requires Honest(server, all) && 1 <= page <= LAST_PAGE + 1 && (page - 1) * PAGE_SIZE <= |all|
    ensures Collected(server, page) == all[(page - 1) * PAGE_SIZE..Min(|all|, LAST_PAGE * PAGE_SIZE)]
    decreases LAST_PAGE + 1 - page
  {
    if page <= LAST_PAGE {
      var batch := Batch(all, page);
      if |batch| == PAGE_SIZE {
        HonestRest(server, all, page + 1);
        assert batch + all[page * PAGE_SIZE..Min(|all|, LAST_PAGE * PAGE_SIZE)]
            == all[(page - 1) * PAGE_SIZE..Min(|all|, LAST_PAGE * PAGE_SIZE)];
      }
    }
  }

  /** An honest listing is fetched whole, each row once and in order, if and only if it has at most 20000 rows; of a
      longer one the fetch silently keeps the first 20000. */
  lemma HonestListingIsFetched<Row>(server: nat -> Page<Row>, all: seq<Row>)
    requires Honest(server, all)
    ensures Collected(server, 1) == all[..Min(|all|, 20000)]
    ensures Collected(server, 1) == all <==> |all| <= 20000
  {
    HonestRest(server, all, 1);
  }
}

/** Moving existing keys into their owners' personal teams. */
module Migration {
  import opened Prelude
  import opened Text
  import PersonalTeams

  /** The token field of a row: missing or empty of value, something that is no text, or text. */
  datatype Token = NoToken | OtherToken | TextToken(text: string)

  /** A listed key. Empty text stands for an absent alias, source or team. */
  datatype KeyRow =
    | NotAnObject
    | KeyRow(token: Token, key: string, keyAlias: string, metaAlias: string, source: string, teamId: string,
             userId: Option<string>)

  datatype Skip = ShortRow | AchKey | AchTeam | NotOurs | NoOwner | AchDestination | AlreadyThere

  predicate AchPrefixed(s: string) { "pkid_" <= s || "ekid_" <= s }

  /** What the alias check calls the token, if that is text; a token that is no text hides the key. */
  function TokenText(row: KeyRow): string
    requires row.KeyRow?
  {
    match row.token
    case NoToken => row.key
    case OtherToken => ""
    case TextToken(text) => if text != "" then text else row.key
  }

  /** The row says which key to update. */
  predicate HasToken(row: KeyRow) { row.KeyRow? && row.token.TextToken? && row.token.text != "" }

  function Classify(row: KeyRow, prefix: string): Result<string, Skip> {
    if row.NotAnObject? then Err(ShortRow)
    else if AchPrefixed(row.keyAlias) || AchPrefixed(row.metaAlias) || AchPrefixed(TokenText(row)) then Err(AchKey)
    else if "ach-" <= row.teamId then Err(AchTeam)
    else if row.source != "token-factory" then Err(NotOurs)
    else if row.userId.None? || '@' !in row.userId.value then Err(NoOwner)
    else
      var dest := prefix + Lower(Strip(row.userId.value));
      if "ach-" <= dest then Err(AchDestination)
      else if row.teamId == dest then Err(AlreadyThere)
      else Ok(dest)
  }

  /** A key of the ach system: by its name, or by the team it sits in. */
  predicate AchOwned(row: KeyRow) {
    row.KeyRow? && (AchPrefixed(row.keyAlias) || AchPrefixed(row.metaAlias) || "ach-" <= row.teamId
                    || (row.token.TextToken? && AchPrefixed(row.token.text)))
  }

  /** What the row is called: its alias, the alias in its metadata, and its token or else its key. */
  predicate Called(row: KeyRow, name: string)
    requires row.KeyRow?
  {
    || name == row.keyAlias || name == row.metaAlias
    || (row.token.TextToken? && row.token.text != "" && name == row.token.text)
    || ((row.token.NoToken? || row.token == TextToken("")) && name == row.key)
  }

  /** A row is planned exactly if it is a whole row, nothing it is called has an ach prefix, neither its team nor its
      destination is ach's, it was minted here, its owner is an address, and it is not there yet; its destination is the
      personal team of its owner. */
  lemma PlannedExactly(row: KeyRow, prefix: string, dest: string)
    ensures Classify(row, prefix) == Ok(dest) <==>
            && row.KeyRow?
            && (forall name :: Called(row, name) ==> !("pkid_" <= name) && !("ekid_" <= name))
            && !("ach-" <= row.teamId) && row.source == "token-factory"
            && row.userId.Some? && (exists i :: 0 <= i < |row.userId.value| && row.userId.value[i] == '@')
            && dest == PersonalTeams.PersonalTeamId(prefix, row.userId.value)
            && !("ach-" <= dest) && row.teamId != dest
  {
    if row.KeyRow? {
      assert Called(row, row.keyAlias) && Called(row, row.metaAlias);
      assert row.token.TextToken? && row.token.text != "" ==> Called(row, row.token.text);
      assert row.token.NoToken? || row.token == TextToken("") ==> Called(row, row.key);
      assert row.userId.Some? ==> ('@' in row.userId.value <==> exists i :: 0 <= i < |row.userId.value| && row.userId.value[i] == '@');
    }
  }

  /** A key of ach is skipped as such, whatever else may be said of it. */
  lemma AchKeysAreSkippedFirst(row: KeyRow, prefix: string)
    requires row.KeyRow?
    ensures (exists name :: Called(row, name) && ("pkid_" <= name || "ekid_" <= name)) ==> Classify(row, prefix) == Err(AchKey)
    ensures "ach-" <= row.teamId ==> Classify(row, prefix) in {Err(AchKey), Err(AchTeam)}
  {
  }

  type Move = (KeyRow, string)

  /** The rows to migrate with their destinations. */
  function Classified(rows: seq<KeyRow>, prefix: string): seq<Move> {
    if rows == [] then []
    else
      var n := |rows| - 1;
      var front, c := Classified(rows[..n], prefix), Classify(rows[n], prefix);
      if c.Ok? then front + [(rows[n], c.value)] else front
  }

  /** A move that may be made: of a row of the listing, classified to that destination, and never ach's. */
  ghost predicate Legal(rows: seq<KeyRow>, prefix: string, m: Move) {
    && m.0 in rows && Classify(m.0, prefix) == Ok(m.1) && !AchOwned(m.0)
    && m.0.KeyRow? && m.0.userId.Some? && m.1 == PersonalTeams.PersonalTeamId(prefix, m.0.userId.value)
  }

  lemma {:induction false} ClassifiedAreLegal(rows: seq<KeyRow>, prefix: string, m: Move)
    ensures m in Classified(rows, prefix) <==> Legal(rows, prefix, m)
  {
    if rows != [] {
      var n := |rows| - 1;
      ClassifiedAreLegal(rows[..n], prefix, m);
      assert rows == rows[..n] + [rows[n]];
    }
  }

  // ---------------------------------------------------------------- the proxy

  /** A call can be answered, refused, fail on its way there, or take effect while its answer is lost. */
  datatype Outcome = Answered | Refused | LostBefore | LostAfter

  /** What happens to the calls made for one move. */
  datatype Calls = Calls(create: Outcome, confirm: Outcome, update: Outcome)

  predicate Smooth(c: Calls) { c.create.Answered? && c.confirm.Answered? && c.update.Answered? }

  /** What the run does to the proxy, in order. */
  datatype Event = Created(team: string) | Confirmed(team: string) | Updated(token: string, team: string)

  /** The teams known to be there are. */
  ghost predicate KnownTrue(known: map<string, bool>, teams: set<string>) {
    forall t :: t in known && known[t] ==> t in teams
  }

  class Proxy {
    var teams: set<string>
    var keyTeam: map<string, string>

    constructor (teams: set<string>, keyTeam: map<string, string>)
      ensures this.teams == teams && this.keyTeam == keyTeam
    {
      this.teams, this.keyTeam := teams, keyTeam;
    }

    /** Whether the team is there; None when the call fails. A refusal reads as absent. */
    method TeamExists(team: string, o: Outcome) returns (r: Option<bool>)
      ensures r == if o.Answered? then Some(team in teams) else if o.Refused? then Some(false) else None
    {
      r := if o.Answered? then Some(team in teams) else if o.Refused? then Some(false) else None;
    }

    method CreateTeam(team: string, o: Outcome) returns (ok: bool)
      modifies this`teams
      ensures ok == o.Answered?
      ensures teams == if o.Answered? || o.LostAfter? then old(teams) + {team} else old(teams)
    {
      if o.Answered? || o.LostAfter? {
        teams := teams + {team};
      }
      ok := o.Answered?;
    }

    /** A key that does not exist is not updated. */
    method UpdateKey(token: string, team: string, o: Outcome) returns (ok: bool)
      modifies this`keyTeam
      ensures ok ==> token in old(keyTeam) && o.Answered?
      ensures keyTeam == if token in old(keyTeam) && (o.Answered? || o.LostAfter?) then old(keyTeam)[token := team] else old(keyTeam)
      ensures token in old(keyTeam) && o.Answered? ==> ok
    {
      if token in keyTeam && (o.Answered? || o.LostAfter?) {
        keyTeam := keyTeam[token := team];
      }
      ok := token in keyTeam && o.Answered?;
    }

    /** The plan: every row that classifies and whose destination could be checked. */
    method Plan(rows: seq<KeyRow>, prefix: string, checks: nat -> Outcome)
      returns (planned: seq<Move>, known: map<string, bool>)
      ensures forall m :: m in planned ==> m in Classified(rows, prefix) && m.1 in known
      ensures (forall i :: 0 <= i < |rows| ==> checks(i).Answered? || checks(i).Refused?) ==> planned == Classified(rows, prefix)
      ensures KnownTrue(known, teams)
      ensures (forall i :: 0 <= i < |rows| ==> !checks(i).Refused?) ==> forall t :: t in known && t in teams ==> known[t]
    {
      planned, known := [], map[];
      for i := 0 to |rows|
        invariant forall m :: m in planned ==> m in Classified(rows[..i], prefix) && m.1 in known
        invariant (forall j :: 0 <= j < i ==> checks(j).Answered? || checks(j).Refused?) ==> planned == Classified(rows[..i], prefix)
        invariant KnownTrue(known, teams)
        invariant (forall j :: 0 <= j < i ==> !checks(j).Refused?) ==> forall t :: t in known && t in teams ==> known[t]
      {
        assert rows[..i + 1][..i] == rows[..i];
        var c := Classify(rows[i], prefix);
        if c.Ok? {
          var present := Some(true);
          if c.value !in known {
            present := TeamExists(c.value, checks(i));
            if present.Some? {
              known := known[c.value := present.value];
            }
          }
          if present.Some? {
            planned := planned + [(rows[i], c.value)];
          }
        }
      }
      assert rows[..|rows|] == rows;
    }

    /** One move: make sure of the team, then update the key. */
    method MoveKey(m: Move, present: bool, calls: Calls) returns (moved: bool, confirmed: bool, ghost events: seq<Event>)
      modifies this
      ensures OneMove(m, old(teams), old(keyTeam), teams, keyTeam, moved, events)
      ensures confirmed ==> m.1 in teams
      ensures Smooth(calls) && (present ==> m.1 in old(teams)) && HasToken(m.0) && m.0.token.text in old(keyTeam) ==> moved
    {
      events, moved, confirmed := [], false, false;
      if !HasToken(m.0) {
        return;
      }
      if !present {
        var ok := CreateTeam(m.1, calls.create);
        events := [Created(m.1)];
        if !ok {
          return;
        }
      }
      var there := TeamExists(m.1, calls.confirm);
      if there != Some(true) {
        return;
      }
      confirmed := true;
      events := events + [Confirmed(m.1)];
      moved := UpdateKey(m.0.token.text, m.1, calls.update);
      events := events + [Updated(m.0.token.text, m.1)];
    }

    /** Apply the plan, move by move. */
    method Apply(planned: seq<Move>, known: map<string, bool>, calls: nat -> Calls)
      returns (moved: seq<Move>, ghost log: seq<Event>)
      requires forall m :: m in planned ==> m.1 in known
      modifies this
      ensures OnlyMoves(planned, old(teams), old(keyTeam), teams, keyTeam, log)
      ensures forall m :: m in moved ==> m in planned && Carried(m, keyTeam, log)
      ensures KnownTrue(known, old(teams)) && (forall i :: 0 <= i < |planned| ==> Smooth(calls(i))) ==>
                forall m :: m in planned && HasToken(m.0) && m.0.token.text in old(keyTeam) ==> m in moved
    {
      moved, log := [], [];
      var sure := known;
      for i := 0 to |planned|
        invariant sure.Keys == known.Keys
        invariant OnlyMoves(planned, old(teams), old(keyTeam), teams, keyTeam, log)
        invariant forall m :: m in moved ==> m in planned && Carried(m, keyTeam, log)
        invariant KnownTrue(known, old(teams)) ==> KnownTrue(sure, teams)
        invariant KnownTrue(known, old(teams)) && (forall j :: 0 <= j < |planned| ==> Smooth(calls(j))) ==>
                    forall j :: 0 <= j < i && HasToken(planned[j].0) && planned[j].0.token.text in old(keyTeam) ==> planned[j] in moved
      {
        var m := planned[i];
        ghost var teams0, keys0, log0 := teams, keyTeam, log;
        var done, confirmed, events := MoveKey(m, sure[m.1], calls(i));
        if confirmed {
          sure := sure[m.1 := true];
        }
        log := log + events;
        OneMoreMove(planned, m, old(teams), old(keyTeam), teams0, keys0, teams, keyTeam, done, log0, events);
        if done {
          moved := moved + [m];
        }
      }
    }
  }

  /** A whole run over a fetched listing; a dry run stops after the plan. */
  method Migrate(proxy: Proxy, rows: seq<KeyRow>, prefix: string, apply: bool, checks: nat -> Outcome, calls: nat -> Calls)
    returns (planned: seq<Move>, moved: seq<Move>, ghost log: seq<Event>)
    modifies proxy
    ensures !apply ==> proxy.teams == old(proxy.teams) && proxy.keyTeam == old(proxy.keyTeam) && log == []
    ensures forall m :: m in planned ==> Legal(rows, prefix, m)
    ensures forall m :: m in planned || m in moved ==>
              m.0.KeyRow? && m.0.userId.Some? && m.1 == PersonalTeams.PersonalTeamId(prefix, m.0.userId.value)
    ensures OnlyMoves(planned, old(proxy.teams), old(proxy.keyTeam), proxy.teams, proxy.keyTeam, log)
    ensures forall m :: m in moved ==> m in planned && Carried(m, proxy.keyTeam, log)
    ensures apply && (forall i :: 0 <= i < |rows| ==> checks(i).Answered? || checks(i).Refused?)
            && (forall i: nat :: Smooth(calls(i))) ==>
              && planned == Classified(rows, prefix)
              && forall m :: m in planned && HasToken(m.0) && m.0.token.text in old(proxy.keyTeam) ==> m in moved
  {
    var known;
    planned, known := proxy.Plan(rows, prefix, checks);
    forall m ensures m in Classified(rows, prefix) <==> Legal(rows, prefix, m) {
      ClassifiedAreLegal(rows, prefix, m);
    }
    moved, log := [], [];
    if apply {
      moved, log := proxy.Apply(planned, known, calls);
    }
  }

  /** What one move does. */
  ghost predicate OneMove(m: Move, teams: set<string>, keys: map<string, string>,
                          teams': set<string>, keys': map<string, string>, moved: bool, events: seq<Event>) {
    && Ordered(events)
    && teams <= teams' <= teams + {m.1}
    && keys'.Keys == keys.Keys
    && (forall k :: 0 <= k < |events| && events[k].Updated? ==> Moves(m, events[k]) && m.1 in teams')
    && (forall t :: t in keys ==> keys'[t] == keys[t] || (Updated(t, keys'[t]) in events && keys'[t] == m.1))
    && (forall t :: t in keys && keys'[t] != keys[t] ==> HasToken(m.0) && m.0.token.text == t)
    && (moved ==> HasToken(m.0) && Updated(m.0.token.text, m.1) in events
                  && m.0.token.text in keys' && keys'[m.0.token.text] == m.1)
  }

  /** An event that updates the key of the move, to its destination. */
  predicate Moves(m: Move, e: Event) {
    HasToken(m.0) && e.Updated? && m.0.token.text == e.token && e.team == m.1
  }

  /** Every update comes right after a confirmation of its very team. */
  ghost predicate Ordered(log: seq<Event>) {
    forall k :: 0 <= k < |log| && log[k].Updated? ==> k > 0 && log[k - 1] == Confirmed(log[k].team)
  }

  /** What a run of moves does: every update is of a planned move and into a team that is there; keys change only by
      such updates, and teams are only added. */
  ghost predicate OnlyMoves(planned: seq<Move>, teams: set<string>, keys: map<string, string>,
                            teams': set<string>, keys': map<string, string>, log: seq<Event>) {
    && Ordered(log)
    && teams <= teams'
    && keys'.Keys == keys.Keys
    && (forall k :: 0 <= k < |log| && log[k].Updated? ==> ForPlanned(planned, log[k]) && log[k].team in teams')
    && (forall t :: t in keys ==> keys'[t] == keys[t] || Updated(t, keys'[t]) in log)
  }

  ghost predicate ForPlanned(planned: seq<Move>, e: Event) {
    exists m :: m in planned && Moves(m, e)
  }

  /** The move's update was made, and its key now sits where it or a later update put it. */
  ghost predicate Carried(m: Move, keys: map<string, string>, log: seq<Event>) {
    && HasToken(m.0) && m.0.token.text in keys
    && Updated(m.0.token.text, m.1) in log
    && Updated(m.0.token.text, keys[m.0.token.text]) in log
  }

  lemma OneMoreMove(planned: seq<Move>, m: Move, teams0: set<string>, keys0: map<string, string>,
                    teams: set<string>, keys: map<string, string>, teams': set<string>, keys': map<string, string>,
                    moved: bool, log: seq<Event>, events: seq<Event>)
    requires OnlyMoves(planned, teams0, keys0, teams, keys, log) && m in planned
    requires OneMove(m, teams, keys, teams', keys', moved, events)
    ensures OnlyMoves(planned, teams0, keys0, teams', keys', log + events)
    ensures moved ==> Carried(m, keys', log + events)
    ensures forall p :: Carried(p, keys, log) ==> Carried(p, keys', log + events)
  {
    var all := log + events;
    forall k | 0 <= k < |all| && all[k].Updated?
      ensures k > 0 && all[k - 1] == Confirmed(all[k].team)
      ensures ForPlanned(planned, all[k]) && all[k].team in teams'
    {
      if k < |log| {
        assert all[k] == log[k];
      } else {
        assert all[k] == events[k - |log|];
        assert Moves(m, events[k - |log|]);
      }
    }
  }

  // ---------------------------------------------------------------- running it again

  /** Each key is listed once, in the team it sits in. */
  ghost predicate TrueListing(rows: seq<KeyRow>, keys: map<string, string>) {
    && (forall i :: 0 <= i < |rows| && rows[i].KeyRow? && rows[i].token.TextToken? ==>
          rows[i].token.text in keys && keys[rows[i].token.text] == rows[i].teamId)
    && (forall i, j :: 0 <= i < j < |rows| && rows[i].KeyRow? && rows[j].KeyRow? && rows[i].token.TextToken? ==>
          rows[i].token != rows[j].token)
  }

  function Relisted(row: KeyRow, keys: map<string, string>): KeyRow {
    if row.KeyRow? && row.token.TextToken? && row.token.text in keys then row.(teamId := keys[row.token.text]) else row
  }

  function RelistedAll(rows: seq<KeyRow>, keys: map<string, string>): (again: seq<KeyRow>)
    ensures |again| == |rows|
  {
    seq(|rows|, i requires 0 <= i < |rows| => Relisted(rows[i], keys))
  }

  lemma {:induction false} ClassifiedNone(rows: seq<KeyRow>, prefix: string)
    ensures Classified(rows, prefix) == [] <==> forall i :: 0 <= i < |rows| ==> Classify(rows[i], prefix).Err?
  {
    if rows != [] {
      ClassifiedNone(rows[..|rows| - 1], prefix);
      assert forall i :: 0 <= i < |rows| - 1 ==> rows[..|rows| - 1][i] == rows[i];
    }
  }

  /** A second run has nothing to plan if and only if the first one moved every key that classified. */
  lemma SecondRunPlansNothing(rows: seq<KeyRow>, prefix: string, planned: seq<Move>, teams: set<string>,
                              keys: map<string, string>, teams': set<string>, keys': map<string, string>, log: seq<Event>)
    requires TrueListing(rows, keys)
    requires forall m :: m in planned ==> Legal(rows, prefix, m)
    requires OnlyMoves(planned, teams, keys, teams', keys', log)
    ensures Classified(RelistedAll(rows, keys'), prefix) == [] <==>
            forall i :: 0 <= i < |rows| && Classify(rows[i], prefix).Ok? ==> Relisted(rows[i], keys') != rows[i]
  {
    var again := RelistedAll(rows, keys');
    ClassifiedNone(again, prefix);
    forall i | 0 <= i < |rows|
      ensures Classify(again[i], prefix).Err? <==> (Classify(rows[i], prefix).Ok? ==> Relisted(rows[i], keys') != rows[i])
    {
      SecondRun(rows, prefix, planned, teams, keys, teams', keys', log, i);
    }
  }

  /** A row that was moved now sits in its destination. */
  lemma MovedRowsChange(rows: seq<KeyRow>, prefix: string, planned: seq<Move>, teams: set<string>, keys: map<string, string>,
                        teams': set<string>, keys': map<string, string>, log: seq<Event>, m: Move)
    requires TrueListing(rows, keys)
    requires forall p :: p in planned ==> Legal(rows, prefix, p)
    requires OnlyMoves(planned, teams, keys, teams', keys', log)
    requires Legal(rows, prefix, m) && Carried(m, keys', log)
    ensures keys'[m.0.token.text] == m.1 && Relisted(m.0, keys') == m.0.(teamId := m.1) != m.0
  {
    var e := Updated(m.0.token.text, keys'[m.0.token.text]);
    var k :| 0 <= k < |log| && log[k] == e;
    assert ForPlanned(planned, log[k]);
    var p :| p in planned && Moves(p, e);
    var i :| 0 <= i < |rows| && rows[i] == m.0;
    var j :| 0 <= j < |rows| && rows[j] == p.0;
    assert i == j;
  }

  /** A row without a text token is never moved. */
  lemma TokenlessRowsStay(rows: seq<KeyRow>, planned: seq<Move>, teams: set<string>, keys: map<string, string>,
                          teams': set<string>, keys': map<string, string>, log: seq<Event>, i: nat)
    requires TrueListing(rows, keys) && i < |rows| && !HasToken(rows[i])
    requires OnlyMoves(planned, teams, keys, teams', keys', log)
    ensures Relisted(rows[i], keys') == rows[i]
  {
    forall k | 0 <= k < |log| && log[k].Updated? ensures log[k].token != "" {
      assert ForPlanned(planned, log[k]);
    }
  }

  /** After a run that planned every row that classifies and moved every planned key, a second run has nothing to plan. */
  lemma AFullRunLeavesNothing(rows: seq<KeyRow>, prefix: string, planned: seq<Move>, moved: seq<Move>, teams: set<string>,
                              keys: map<string, string>, teams': set<string>, keys': map<string, string>, log: seq<Event>)
    requires TrueListing(rows, keys) && OnlyMoves(planned, teams, keys, teams', keys', log)
    requires planned == Classified(rows, prefix)
    requires forall m :: m in planned ==> m in moved
    requires forall m :: m in moved ==> Carried(m, keys', log)
    ensures Classified(RelistedAll(rows, keys'), prefix) == []
  {
    forall m | m in planned ensures HasToken(m.0) {
      assert Carried(m, keys', log);
    }
    ASmoothRunLeavesTheTokenless(rows, prefix, planned, moved, teams, keys, teams', keys', log);
  }

  /** When no call fails, a second run has nothing to plan exactly if every row that classifies carries a text token: those
      rows are moved, and the others never are. `Migrate` ensures the last two requirements when no call fails. */
  lemma ASmoothRunLeavesTheTokenless(rows: seq<KeyRow>, prefix: string, planned: seq<Move>, moved: seq<Move>,
                                     teams: set<string>, keys: map<string, string>, teams': set<string>,
                                     keys': map<string, string>, log: seq<Event>)
    requires TrueListing(rows, keys) && OnlyMoves(planned, teams, keys, teams', keys', log)
    requires planned == Classified(rows, prefix)
    requires forall m :: m in planned && HasToken(m.0) && m.0.token.text in keys ==> m in moved
    requires forall m :: m in moved ==> Carried(m, keys', log)
    ensures Classified(RelistedAll(rows, keys'), prefix) == [] <==> forall m :: m in planned ==> HasToken(m.0)
  {
    forall m ensures m in planned <==> Legal(rows, prefix, m) {
      ClassifiedAreLegal(rows, prefix, m);
    }
    SecondRunPlansNothing(rows, prefix, planned, teams, keys, teams', keys', log);
    forall i | 0 <= i < |rows| && Classify(rows[i], prefix).Ok?
      ensures Relisted(rows[i], keys') != rows[i] <==> HasToken(rows[i])
      ensures (rows[i], Classify(rows[i], prefix).value) in planned
    {
      var m := (rows[i], Classify(rows[i], prefix).value);
      assert Legal(rows, prefix, m);
      if HasToken(rows[i]) {
        MovedRowsChange(rows, prefix, planned, teams, keys, teams', keys', log, m);
      } else {
        TokenlessRowsStay(rows, planned, teams, keys, teams', keys', log, i);
      }
    }
  }

  /** After a run, a key classifies again exactly if it did before and the run did not change its team. */
  lemma SecondRun(rows: seq<KeyRow>, prefix: string, planned: seq<Move>, teams: set<string>, keys: map<string, string>,
                  teams': set<string>, keys': map<string, string>, log: seq<Event>, i: nat)
    requires TrueListing(rows, keys) && i < |rows|
    requires forall m :: m in planned ==> Legal(rows, prefix, m)
    requires OnlyMoves(planned, teams, keys, teams', keys', log)
    ensures Classify(Relisted(rows[i], keys'), prefix).Ok? <==>
            Classify(rows[i], prefix).Ok? && Relisted(rows[i], keys') == rows[i]
    ensures Relisted(rows[i], keys') != rows[i] ==>
              Classify(rows[i], prefix).Ok? && Relisted(rows[i], keys') == rows[i].(teamId := Classify(rows[i], prefix).value)
  {
    var row := rows[i];
    if Relisted(row, keys') != row {
      var t := row.token.text;
      var e := Updated(t, keys'[t]);
      assert e in log;
      var k :| 0 <= k < |log| && log[k] == e;
      assert ForPlanned(planned, log[k]);
      var m :| m in planned && Moves(m, e);
      var j :| 0 <= j < |rows| && rows[j] == m.0;
      assert j == i;
      assert row == m.0 && Classify(row, prefix) == Ok(keys'[t]);
    }
  }
}
