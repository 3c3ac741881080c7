/** What the endpoints do with a request that nothing disturbs: each stage succeeds exactly under the conditions written
    out here, and then leaves exactly the record written out here. */
module OAuthFlows {
  import opened Prelude
  import opened DeadlineMap
  import opened Scopes
  import opened Redirects
  import opened OAuthServer
  import Consent

  /** The record is in the store and has not expired. */
  predicate Visible(s: State, k: Key) {
    k in s.db && (s.db[k].deadline.None? || s.now < s.db[k].deadline.value)
  }

  predicate Lasts(s: State, k: Key, r: Record, until: Time) {
    k in s.db && s.db[k] == Cell(r, Some(until))
  }

  predicate TokenChar(c: char) { 'A' <= c <= 'Z' || 'a' <= c <= 'z' || '0' <= c <= '9' || c == '-' || c == '_' }

  predicate IsChallenge(challenge: string) { |challenge| == 43 && forall i :: 0 <= i < 43 ==> TokenChar(challenge[i]) }

  /** Proof Key for Code Exchange, section 4.6 of RFC 7636: an admissible verifier whose digest is the challenge. */
  predicate Proves(cfg: Config, challenge: string, verifier: string) {
    && 43 <= |verifier| <= 128
    && (forall i :: 0 <= i < |verifier| ==> TokenChar(verifier[i]) || verifier[i] == '.' || verifier[i] == '~')
    && challenge == cfg.digest(verifier)
  }

  // ---------------------------------------------------------------- authorize

  function AskedScopes(cfg: Config, scope: Option<string>): seq<string> {
    if scope.Some? && scope.value != "" then Split(scope.value) else Split(cfg.audience)
  }

  /** An authorize request that the server must accept. */
  ghost predicate Acceptable(cfg: Config, s: State, client: Name, redirect: string, scope: Option<string>, challenge: string, asksForCode: bool) {
    && Visible(s, Key(ClientKind, client)) && s.db[Key(ClientKind, client)].value.Client?
    && (exists uri :: uri in s.db[Key(ClientKind, client)].value.redirects && RedirectMatches(cfg.parse, uri, redirect))
    && (forall x :: x in AskedScopes(cfg, scope) ==> x == cfg.audience || x in cfg.services)
    && asksForCode && IsChallenge(challenge)
  }

  lemma AuthorizeDecides(cfg: Config, s: State, h: nat, client: Name, redirect: string, scope: Option<string>,
                         challenge: string, asksForCode: bool)
    requires h !in s.handlers
    ensures var t := NextAuthorize(cfg, s, Authorize(h, client, redirect, scope, challenge, asksForCode));
            && t == Goto(s, h, Pc(t, h))
            && (Acceptable(cfg, s, client, redirect, scope, challenge, asksForCode) ==>
                  Pc(t, h) == ClientSeen(client, s.db[Key(ClientKind, client)].value.redirects,
                                         FromClient(client, redirect, challenge), AskedScopes(cfg, scope)))
            && (!Acceptable(cfg, s, client, redirect, scope, challenge, asksForCode) ==> Pc(t, h) == Idle)
  {
    var k := Key(ClientKind, client);
    if Visible(s, k) && s.db[k].value.Client? {
      var redirects := s.db[k].value.redirects;
      forall i | 0 <= i < |redirects| && RedirectMatches(cfg.parse, redirects[i], redirect)
        ensures exists uri :: uri in redirects && RedirectMatches(cfg.parse, uri, redirect)
      {
        assert redirects[i] in redirects;
      }
      assert forall x :: x in AskedScopes(cfg, scope) <==> exists i :: 0 <= i < |AskedScopes(cfg, scope)| && AskedScopes(cfg, scope)[i] == x;
    }
  }

  /** An accepted request is opened for ten minutes with what was asked, and keeps its client for ninety days. */
  lemma AcceptedRequestsAreOpened(cfg: Config, s: State, h: nat, id: Name, client: Name, redirects: seq<string>,
                                  redirect: string, challenge: string, scopes: seq<string>)
    requires Pc(s, h) == ClientSeen(client, redirects, FromClient(client, redirect, challenge), scopes) && id !in s.issued
    ensures var t := NextAuthorize(cfg, NextAuthorize(cfg, s, KeepClient(h)), Open(h, id));
            && Lasts(t, Key(ClientKind, client), Client(redirects), s.now + 7776000.0)
            && Lasts(t, Key(PendingKind, id), Pending(Request(id, FromClient(client, redirect, challenge), scopes, None)), s.now + 600.0)
            && Pc(t, h) == Idle
  {
  }

  // ---------------------------------------------------------------- login

  /** A login gets its request on exactly if the record is there, Dex names a user and LiteLLM provisions him; it goes on to
      the services, or to the approval of the device. */
  lemma LoginDecides(s: State, h: nat, id: Name, answer: DexAnswer, ok: bool)
    requires h !in s.handlers
    ensures var t := NextCallback(NextCallback(NextCallback(s, Callback(h, id)), DexAnswers(h, answer)), Provision(h, ok));
            var k := Key(PendingKind, id);
            var named := answer.Identity? && answer.email != "";
            && k !in t.db
            && (Pc(t, h).ListingServices? || Pc(t, h).Approving? <==> Visible(s, k) && s.db[k].value.Pending? && named && ok)
            && (Visible(s, k) && s.db[k].value.Pending? && named && ok ==>
                  var req := s.db[k].value.req.(sub := Some(answer.email));
                  Pc(t, h) == if req.origin.FromDevice? then Approving(req.origin.device, req) else ListingServices(req))
            && (Pc(t, h).LoginFailed? <==>
                  Visible(s, k) && s.db[k].value.Pending? && answer.DexFailed? && s.db[k].value.req.origin.FromDevice?)
  {
    var s1 := NextCallback(s, Callback(h, id));
    var s2 := NextCallback(s1, DexAnswers(h, answer));
    assert Pc(s1, h) == if Visible(s, Key(PendingKind, id)) && s.db[Key(PendingKind, id)].value.Pending?
                        then AtDex(s.db[Key(PendingKind, id)].value.req) else Idle;
  }

  // ---------------------------------------------------------------- consent and code

  /** After the login the code follows at once exactly if every known service asked for is found granted. */
  lemma ListingDecides(cfg: Config, s: State, h: nat, projections: seq<Option<bool>>)
    requires Pc(s, h).ListingServices? && |projections| == |Pc(s, h).req.scopes|
    ensures var t, req := NextConsent(cfg, s, ListServices(h, projections)), Pc(s, h).req;
            && t.db == s.db
            && (Pc(t, h) == Finishing(req) <==>
                  forall i :: 0 <= i < |projections| && req.scopes[i] in cfg.services ==> projections[i] == Some(true))
            && (Pc(t, h) == Finishing(req) || (Pc(t, h).Hop? && Pc(t, h).req == req && Pc(t, h).visited == []))
            && (Pc(t, h).Hop? ==> Pc(t, h).todo != [] && forall x :: x in Pc(t, h).todo <==>
                  exists i :: 0 <= i < |projections| && req.scopes[i] == x && x in cfg.services && projections[i] != Some(true))
  {
    var req := Pc(s, h).req;
    Consent.UngrantedExactly(cfg.services, req.scopes, projections);
    var todo := Consent.Ungranted(cfg.services, req.scopes, projections);
    if todo != [] {
      assert todo[0] in todo;
    }
    forall i | 0 <= i < |projections| && req.scopes[i] in cfg.services && projections[i] != Some(true) ensures req.scopes[i] in todo {
    }
  }

  /** What remains of the ceremony after the service at the head. */
  predicate GoesOn(pc: Handler, req: Request, visited: seq<string>, todo: seq<string>) {
    if |todo| == 1 then pc == Finishing(req) else todo != [] && pc == Hop(req, visited + [todo[0]], todo[1..])
  }

  /** A broker that can be reached gets the user, under a state that lasts ten minutes; one that cannot is passed over. Either
      way, and whether the user consented or declined, the ceremony goes on with the next service. */
  lemma BrokersDecide(cfg: Config, s: State, h: nat, back: nat, up: bool, chain: Name)
    requires Pc(s, h).Hop? && Pc(s, h).todo != [] && chain !in s.issued && back !in s.handlers && back != h
    ensures var req, visited, todo := Pc(s, h).req, Pc(s, h).visited, Pc(s, h).todo;
            var tried := NextConsent(cfg, s, TryBroker(h, up));
            var sent := NextConsent(cfg, tried, Park(h, chain));
            && tried.db == s.db
            && (!up ==> GoesOn(Pc(tried, h), req, visited, todo))
            && (up ==> Lasts(sent, Key(ChainKind, chain), Chained(req, visited, todo), s.now + 600.0)
                       && GoesOn(Pc(NextConsent(cfg, sent, BrokerCallback(back, chain)), back), req, visited, todo))
  {
    var tried := NextConsent(cfg, s, TryBroker(h, up));
    if up {
      var sent := NextConsent(cfg, tried, Park(h, chain));
      assert sent.db[Key(ChainKind, chain)] == Cell(Chained(Pc(s, h).req, Pc(s, h).visited, Pc(s, h).todo), Some(s.now + 600.0));
      assert Pc(sent, back) == Idle && back !in sent.handlers;
    }
  }

  /** A finished ceremony ends in a code that lasts two minutes, for the scopes that the lookups leave. */
  lemma FinishingIssuesACode(cfg: Config, s: State, h: nat, projections: seq<Option<bool>>, code: Name)
    requires Pc(s, h).Finishing? && |projections| == |Pc(s, h).req.scopes| && code !in s.issued
    ensures var t := NextConsent(cfg, NextConsent(cfg, s, Filter(h, projections)), IssueCode(h, code));
            var req := Pc(s, h).req;
            && (exists scope :: Lasts(t, Key(CodeKind, code), Code(req, scope), s.now + 120.0))
            && (req.id, code) in t.hist.codes && Pc(t, h) == Idle
  {
    var t1 := NextConsent(cfg, s, Filter(h, projections));
    var req, scope := Pc(s, h).req, Pc(t1, h).scope;
    assert Pc(t1, h) == CodeReady(req, scope);
    var t := NextConsent(cfg, t1, IssueCode(h, code));
    assert Lasts(t, Key(CodeKind, code), Code(req, scope), s.now + 120.0);
  }

  // ---------------------------------------------------------------- redeeming a code

  /** A code that the server must redeem for this request. */
  ghost predicate Redeemable(cfg: Config, s: State, code: Name, client: Name, redirect: string, verifier: string) {
    var k := Key(CodeKind, code);
    && Visible(s, k) && s.db[k].value.Code?
    && var req := s.db[k].value.req;
    && req.origin.FromClient? && req.sub.Some?
    && req.origin.client == client
    && RedirectMatches(cfg.parse, req.origin.redirect, redirect)
    && Proves(cfg, req.origin.challenge, verifier)
  }

  /** A redemption goes on, with the code's own user, client and scope, exactly if the code is there, the client is the one
      it was issued to, the redirect URI matches and the challenge is the digest of an admissible verifier. Either way the
      code is gone. */
  lemma RedemptionDecides(cfg: Config, s: State, h: nat, code: Name, client: Name, redirect: string, verifier: string)
    requires h !in s.handlers
    ensures var t := NextToken(cfg, s, Redeem(h, code, client, redirect, verifier));
            var k := Key(CodeKind, code);
            && t.db == s.db - {k}
            && (Pc(t, h).Issuing? <==> Redeemable(cfg, s, code, client, redirect, verifier))
            && (Pc(t, h).Issuing? ==>
                  Pc(t, h) == Issuing(ByCode(code, redirect, verifier), s.db[k].value.req.id, s.db[k].value.req.sub.value, client,
                                      s.db[k].value.scope))
            && (!Pc(t, h).Issuing? ==> Pc(t, h) == Idle)
  {
    if Visible(s, Key(CodeKind, code)) && s.db[Key(CodeKind, code)].value.Code? {
      var challenge := s.db[Key(CodeKind, code)].value.req.origin;
      assert challenge.FromClient? ==> (PkceOk(cfg.digest, challenge.challenge, verifier) <==> Proves(cfg, challenge.challenge, verifier));
    }
  }

  /** Issuing stores the refresh token for its lifetime and answers one pair. */
  lemma IssuingAnswers(cfg: Config, s: State, h: nat, refresh: Name)
    requires Pc(s, h).Issuing? && refresh !in s.issued
    ensures var t := NextToken(cfg, NextToken(cfg, s, StoreRefresh(h, refresh)), Answer(h));
            var pc := Pc(s, h);
            && Lasts(t, Key(RefreshKind, refresh), Refresh(pc.request, pc.user, pc.client, pc.scope), s.now + cfg.refreshTtl as Time)
            && t.hist.uses == s.hist.uses + {Use(h, pc.via, pc.request, pc.user, pc.client, refresh)}
            && t.hist.scopes[refresh] == pc.scope
            && Pc(t, h) == Idle
  {
    var t1 := NextToken(cfg, s, StoreRefresh(h, refresh));
    assert Pc(t1, h) == Answering(Pc(s, h).via, Pc(s, h).request, Pc(s, h).user, Pc(s, h).client, refresh);
  }

  // ---------------------------------------------------------------- refreshing

  /** A refresh token that is there and belongs to the client. */
  ghost predicate Refreshable(s: State, presented: Name, client: Name) {
    var k := Key(RefreshKind, presented);
    Visible(s, k) && s.db[k].value.Refresh? && s.db[k].value.client == client
  }

  function AskAndRevalidate(cfg: Config, s: State, h: nat, presented: Name, client: Name, standing: Standing): State {
    NextToken(cfg, NextToken(cfg, s, AskRefresh(h, presented, client)), Revalidate(h, standing))
  }

  /** Dex decides first, for a token that is there: honoured goes on, refused ends with the token dropped, unreachable leaves
      everything as it was. */
  lemma DexDecides(cfg: Config, s: State, h: nat, presented: Name, client: Name, standing: Standing)
    requires h !in s.handlers
    ensures var t := AskAndRevalidate(cfg, s, h, presented, client, standing);
            && t.db == s.db
            && (Pc(t, h) == Honoured(presented, client) <==> Refreshable(s, presented, client) && standing == StillHonoured)
            && (Pc(t, h) == Refused(presented) <==> Refreshable(s, presented, client) && standing == NoLongerHonoured)
            && (Pc(t, h) == Idle <==> !Refreshable(s, presented, client) || standing == DexUnreachable)
            && (Pc(t, h).Refused? ==> NextToken(cfg, t, DropRefused(h)).db == s.db - {Key(RefreshKind, presented)}
                                      && Pc(NextToken(cfg, t, DropRefused(h)), h) == Idle)
  {
    var t1 := NextToken(cfg, s, AskRefresh(h, presented, client));
    assert Pc(t1, h) == if Refreshable(s, presented, client) then Revalidating(presented, client) else Idle;
  }

  /** Then LiteLLM: a failed lookup leaves the token as it was; otherwise the token is taken, and the refresh goes on exactly
      if the user exists and the record is still there and still the client's. */
  lemma LiteLLMDecides(cfg: Config, s: State, h: nat, presence: Presence)
    requires Pc(s, h).Honoured?
    ensures var presented, client := Pc(s, h).presented, Pc(s, h).client;
            var k := Key(RefreshKind, presented);
            var found := NextToken(cfg, s, LookUpUser(h, presence));
            var t := NextToken(cfg, found, TakeRefresh(h));
            && (presence.LookupFailed? ==> t.db == s.db && Pc(t, h) == Idle)
            && (!presence.LookupFailed? ==> t.db == s.db - {k})
            && (Pc(t, h).Rescoping? <==> presence.Exists? && Refreshable(s, presented, client))
            && (Pc(t, h).Rescoping? ==>
                  Pc(t, h) == Rescoping(ByRefresh(presented), s.db[k].value.request, s.db[k].value.user, client, s.db[k].value.scope))
            && (!Pc(t, h).Rescoping? ==> Pc(t, h) == Idle)
  {
    var found := NextToken(cfg, s, LookUpUser(h, presence));
    assert found.db == s.db && found.now == s.now;
    assert Pc(found, h) == if presence.LookupFailed? then Idle else UserLookedUp(Pc(s, h).presented, Pc(s, h).client, presence.Exists?);
  }

  /** An undisturbed refresh issues a new pair, for the same user and request, exactly if the token is there and the client's,
      Dex honours the user and LiteLLM has him. */
  lemma RefreshDecides(cfg: Config, s: State, h: nat, presented: Name, client: Name, standing: Standing, presence: Presence,
                       projections: seq<Option<bool>>)
    requires h !in s.handlers
    requires Refreshable(s, presented, client) ==> |projections| == |Split(s.db[Key(RefreshKind, presented)].value.scope)|
    ensures var asked := AskAndRevalidate(cfg, s, h, presented, client, standing);
            var taken := NextToken(cfg, NextToken(cfg, asked, LookUpUser(h, presence)), TakeRefresh(h));
            var t := NextToken(cfg, taken, Rescope(h, projections));
            && (Pc(t, h).Issuing? <==> Refreshable(s, presented, client) && standing == StillHonoured && presence == Exists)
            && (Pc(t, h).Issuing? ==>
                  && Pc(t, h).via == ByRefresh(presented) && Pc(t, h).client == client
                  && Pc(t, h).request == s.db[Key(RefreshKind, presented)].value.request
                  && Pc(t, h).user == s.db[Key(RefreshKind, presented)].value.user
                  && t.db == s.db - {Key(RefreshKind, presented)})
  {
    DexDecides(cfg, s, h, presented, client, standing);
    var asked := AskAndRevalidate(cfg, s, h, presented, client, standing);
    AskingKeepsTime(cfg, s, h, presented, client, standing);
    if Pc(asked, h) == Honoured(presented, client) {
      LiteLLMDecides(cfg, asked, h, presence);
      RescopingGoesOn(cfg, NextToken(cfg, NextToken(cfg, asked, LookUpUser(h, presence)), TakeRefresh(h)), h, projections);
    } else {
      OthersDoNotGoOn(cfg, asked, h, presence, projections);
    }
  }

  lemma AskingKeepsTime(cfg: Config, s: State, h: nat, presented: Name, client: Name, standing: Standing)
    ensures AskAndRevalidate(cfg, s, h, presented, client, standing).now == s.now
  {
  }

  lemma RescopingGoesOn(cfg: Config, s: State, h: nat, projections: seq<Option<bool>>)
    requires Pc(s, h) == Idle || (Pc(s, h).Rescoping? && |projections| == |Split(Pc(s, h).scope)|)
    ensures var t, pc := NextToken(cfg, s, Rescope(h, projections)), Pc(s, h);
            && t.db == s.db
            && (Pc(t, h).Issuing? <==> pc.Rescoping?)
            && (pc.Rescoping? ==> Pc(t, h).via == pc.via && Pc(t, h).request == pc.request && Pc(t, h).user == pc.user
                                  && Pc(t, h).client == pc.client)
  {
  }

  lemma OthersDoNotGoOn(cfg: Config, s: State, h: nat, presence: Presence, projections: seq<Option<bool>>)
    requires Pc(s, h) == Idle || Pc(s, h).Refused?
    ensures !Pc(NextToken(cfg, NextToken(cfg, NextToken(cfg, s, LookUpUser(h, presence)), TakeRefresh(h)), Rescope(h, projections)), h).Issuing?
  {
  }

  // ---------------------------------------------------------------- the device grant

  /** A known client gets a device code and a user code for ten minutes. */
  lemma DevicesAreParked(cfg: Config, s: State, h: nat, client: Name, device: Name, userCode: Name)
    requires h !in s.handlers && device !in s.issued
    ensures var asked := NextDevice(cfg, s, AskDevice(h, client));
            var t := NextDevice(cfg, NextDevice(cfg, asked, ParkDevice(h, device, userCode)), IndexDevice(h));
            if Visible(s, Key(ClientKind, client)) && s.db[Key(ClientKind, client)].value.Client? then
              && Lasts(t, Key(DeviceKind, device), Device(client, userCode, Waiting, None), s.now + 600.0)
              && Lasts(t, Key(UserCodeKind, userCode), UserCode(device), s.now + 600.0)
            else t.db == s.db
  {
    var asked := NextDevice(cfg, s, AskDevice(h, client));
    if Visible(s, Key(ClientKind, client)) && s.db[Key(ClientKind, client)].value.Client? {
      assert Pc(asked, h) == DeviceClientSeen(client);
      assert Pc(NextDevice(cfg, asked, ParkDevice(h, device, userCode)), h) == DeviceParked(device, userCode);
    } else {
      assert Pc(asked, h) == Idle;
    }
  }

  /** A user code that is there opens a login for its device, for the audience alone. */
  lemma ConfirmationsOpenALogin(cfg: Config, s: State, h: nat, userCode: Name, id: Name)
    requires h !in s.handlers && id !in s.issued
    ensures var t := NextDevice(cfg, NextDevice(cfg, s, Confirm(h, userCode)), OpenForDevice(h, id));
            var k := Key(UserCodeKind, userCode);
            if Visible(s, k) && s.db[k].value.UserCode? then
              Lasts(t, Key(PendingKind, id), Pending(Request(id, FromDevice(s.db[k].value.device), [cfg.audience], None)), s.now + 600.0)
            else t.db == s.db
  {
    var asked := NextDevice(cfg, s, Confirm(h, userCode));
    var k := Key(UserCodeKind, userCode);
    assert Pc(asked, h) == if Visible(s, k) && s.db[k].value.UserCode? then DeviceConfirmed(s.db[k].value.device) else Idle;
  }

  /** A waiting device is approved for the user who logged in, or denied by a failed login, for another ten minutes, and its
      user code is gone; one that is settled or gone stays as it is. */
  lemma SettlingDecides(s: State, h: nat)
    requires Pc(s, h).Approving? || Pc(s, h).LoginFailed?
    ensures var approves := Pc(s, h).Approving?;
            var k := Key(DeviceKind, Pc(s, h).device);
            var t := NextCallback(s, if approves then Approve(h) else Deny(h));
            if Visible(s, k) && s.db[k].value.Device? && s.db[k].value.status == Waiting then
              var d := s.db[k].value;
              && Lasts(t, k, Device(d.client, d.userCode, if approves then Approved else Denied,
                                    if approves && Pc(s, h).req.sub.Some? then Pc(s, h).req.sub else d.sub), s.now + 600.0)
              && Key(UserCodeKind, d.userCode) !in t.db
            else t.db == s.db
  {
  }

  /** A poll gets a pair, for the approving user and the audience alone, exactly if the device is approved and the client's;
      an approved or denied device is gone after it, and a waiting or foreign one stays. */
  lemma PollingDecides(cfg: Config, s: State, h: nat, device: Name, client: Name)
    requires h !in s.handlers
    requires var k := Key(DeviceKind, device);
             k in s.db && s.db[k].value.Device? ==> (s.db[k].value.sub.Some? <==> s.db[k].value.status == Approved)
    ensures var t := NextDevice(cfg, NextDevice(cfg, s, PollDevice(h, device, client)), TakeDevice(h));
            var k := Key(DeviceKind, device);
            var mine := Visible(s, k) && s.db[k].value.Device? && s.db[k].value.client == client;
            && (Pc(t, h).Issuing? <==> mine && s.db[k].value.status == Approved)
            && (Pc(t, h).Issuing? ==> Pc(t, h) == Issuing(ByDevice(device), device, s.db[k].value.sub.value, client, cfg.audience))
            && t.db == if mine && s.db[k].value.status != Waiting then s.db - {k} else s.db
  {
    var polled := NextDevice(cfg, s, PollDevice(h, device, client));
    var k := Key(DeviceKind, device);
    var mine := Visible(s, k) && s.db[k].value.Device? && s.db[k].value.client == client;
    assert Pc(polled, h) == if mine && s.db[k].value.status == Approved then DevicePolled(device, client)
                            else if mine && s.db[k].value.status == Denied then DeviceRefused(device)
                            else Idle;
  }
}
