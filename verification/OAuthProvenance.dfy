/** Provenance: whatever the server stores or answers traces back to a registration, an authorize request or
    device confirmation, and a completed login. */
module OAuthProvenance {
  import opened Prelude
  import opened DeadlineMap
  import opened Scopes
  import opened Redirects
  import opened OAuthServer

  ghost predicate SubMap<K(!new), V>(a: map<K, V>, b: map<K, V>) {
    forall k :: k in a ==> k in b && b[k] == a[k]
  }

  /** History is only added to. */
  ghost predicate Grows(a: History, b: History) {
    && SubMap(a.registered, b.registered)
    && SubMap(a.openings, b.openings)
    && a.logins <= b.logins
    && SubMap(a.devices, b.devices)
    && SubMap(a.confirmed, b.confirmed)
    && a.approvals <= b.approvals
    && a.denials <= b.denials
    && a.codes <= b.codes
    && SubMap(a.scopes, b.scopes)
    && a.uses <= b.uses
  }

  /** The request was opened by a registered client, with a redirect URI that matches one it registered. */
  ghost predicate OpeningOk(cfg: Config, hist: History, o: Opening) {
    && o.client in hist.registered
    && hist.registered[o.client] == o.redirects
    && (exists i :: 0 <= i < |o.redirects| && RedirectMatches(cfg.parse, o.redirects[i], o.redirect))
    && AllWords(o.scopes)
    && ScopesKnown(cfg, o.scopes)
  }

  ghost predicate RequestOk(cfg: Config, hist: History, req: Request) {
    && (match req.origin
        case FromClient(client, redirect, challenge) =>
          && req.id in hist.openings
          && OpeningOk(cfg, hist, hist.openings[req.id])
          && hist.openings[req.id] == Opening(client, hist.openings[req.id].redirects, redirect, challenge, req.scopes)
        case FromDevice(device) =>
          && req.id in hist.confirmed
          && hist.confirmed[req.id] == device
          && device in hist.devices)
    && (req.sub.Some? ==> (req.id, req.sub.value) in hist.logins)
  }

  /** `user` logged in for authorize request `request` of `client`. */
  ghost predicate LoggedInAtAuthorize(cfg: Config, hist: History, request: Name, user: string, client: Name) {
    && request in hist.openings
    && OpeningOk(cfg, hist, hist.openings[request])
    && hist.openings[request].client == client
    && (request, user) in hist.logins
  }

  /** `user` logged in on a page that confirmed device `request` of `client`, and that login approved it. */
  ghost predicate LoggedInForDevice(hist: History, request: Name, user: string, client: Name) {
    && request in hist.devices
    && hist.devices[request].client == client
    && exists id :: ApprovedBy(hist, request, user, id)
  }

  ghost predicate ApprovedBy(hist: History, device: Name, user: string, id: Name) {
    && (device, id) in hist.approvals
    && id in hist.confirmed
    && hist.confirmed[id] == device
    && (id, user) in hist.logins
  }

  ghost predicate IdentityOk(cfg: Config, hist: History, request: Name, user: string, client: Name) {
    LoggedInAtAuthorize(cfg, hist, request, user, client) || LoggedInForDevice(hist, request, user, client)
  }

  /** The wire form of a list with the audience once, at its head, and otherwise scopes the client asked for. */
  ghost predicate ScopeOk(cfg: Config, hist: History, request: Name, scope: string) {
    && Join(Split(scope)) == scope
    && AudienceFirst(Split(scope), cfg.audience)
    && forall x :: x in Split(scope) ==> x == cfg.audience || (request in hist.openings && x in hist.openings[request].scopes)
  }

  ghost predicate ClientRequestOk(cfg: Config, hist: History, req: Request) {
    RequestOk(cfg, hist, req) && req.origin.FromClient? && req.sub.Some?
  }

  ghost predicate RecordOk(cfg: Config, hist: History, k: Key, r: Record) {
    match r
    case Client(redirects) => k.name in hist.registered && hist.registered[k.name] == redirects
    case Pending(req) => RequestOk(cfg, hist, req)
    case Chained(req, _, _) => ClientRequestOk(cfg, hist, req)
    case Code(req, scope) => ClientRequestOk(cfg, hist, req) && ScopeOk(cfg, hist, req.id, scope) && (req.id, k.name) in hist.codes
    case Refresh(request, user, client, scope) =>
      && k.name in hist.scopes
      && hist.scopes[k.name] == scope
      && IdentityOk(cfg, hist, request, user, client)
      && ScopeOk(cfg, hist, request, scope)
    case Device(client, _, status, sub) =>
      && k.name in hist.devices
      && hist.devices[k.name].client == client
      && (sub.Some? <==> status == Approved)
      && (sub.Some? ==> LoggedInForDevice(hist, k.name, sub.value, client))
    case UserCode(device) => device in hist.devices
  }

  ghost predicate SeenOk(cfg: Config, hist: History, client: Name, redirects: seq<string>, origin: Origin, scopes: seq<string>) {
    && origin.FromClient?
    && origin.client == client
    && OpeningOk(cfg, hist, Opening(client, redirects, origin.redirect, origin.challenge, scopes))
  }

  /** The credential was presented as the source requires: a code with a redirect URI that matches the one it
      was asked with and a verifier for its challenge; a refresh token only for scopes it already had. */
  ghost predicate ViaOk(cfg: Config, hist: History, via: Via, request: Name, user: string, client: Name, scope: string) {
    match via
    case ByCode(code, redirect, verifier) =>
      && (request, code) in hist.codes
      && LoggedInAtAuthorize(cfg, hist, request, user, client)
      && RedirectMatches(cfg.parse, hist.openings[request].redirect, redirect)
      && PkceOk(cfg.digest, hist.openings[request].challenge, verifier)
    case ByRefresh(previous) => previous in hist.scopes && Subsequence(Split(scope), Split(hist.scopes[previous]))
    case ByDevice(device) => device == request && LoggedInForDevice(hist, request, user, client) && scope == cfg.audience
  }

  ghost predicate PairOk(cfg: Config, hist: History, via: Via, request: Name, user: string, client: Name, refresh: Name) {
    && refresh in hist.scopes
    && IdentityOk(cfg, hist, request, user, client)
    && ScopeOk(cfg, hist, request, hist.scopes[refresh])
    && ViaOk(cfg, hist, via, request, user, client, hist.scopes[refresh])
  }

  ghost predicate UseOk(cfg: Config, hist: History, u: Use) {
    PairOk(cfg, hist, u.via, u.request, u.user, u.client, u.refresh)
  }

  ghost predicate HandlerOk(cfg: Config, hist: History, pc: Handler) {
    match pc
    case ClientSeen(client, redirects, origin, scopes) => SeenOk(cfg, hist, client, redirects, origin, scopes)
    case ClientKept(client, redirects, origin, scopes) => SeenOk(cfg, hist, client, redirects, origin, scopes)
    case AtDex(req) => RequestOk(cfg, hist, req)
    case LoginFailed(device, req) => RequestOk(cfg, hist, req) && req.origin == FromDevice(device)
    case Provisioning(req) => RequestOk(cfg, hist, req) && req.sub.Some?
    case Approving(device, req) => RequestOk(cfg, hist, req) && req.sub.Some? && req.origin == FromDevice(device)
    case ListingServices(req) => ClientRequestOk(cfg, hist, req)
    case Hop(req, _, _) => ClientRequestOk(cfg, hist, req)
    case ParkingAtBroker(req, _, _) => ClientRequestOk(cfg, hist, req)
    case Finishing(req) => ClientRequestOk(cfg, hist, req)
    case CodeReady(req, scope) => ClientRequestOk(cfg, hist, req) && ScopeOk(cfg, hist, req.id, scope)
    case Rescoping(via, request, user, client, scope) =>
      && IdentityOk(cfg, hist, request, user, client)
      && ScopeOk(cfg, hist, request, scope)
      && via.ByRefresh? && via.previous in hist.scopes && hist.scopes[via.previous] == scope
    case Issuing(via, request, user, client, scope) =>
      && IdentityOk(cfg, hist, request, user, client)
      && ScopeOk(cfg, hist, request, scope)
      && ViaOk(cfg, hist, via, request, user, client, scope)
    case Answering(via, request, user, client, refresh) => PairOk(cfg, hist, via, request, user, client, refresh)
    case DeviceParked(device, _) => device in hist.devices
    case DeviceConfirmed(device) => device in hist.devices
    case DevicePolled(device, client) => device in hist.devices && hist.devices[device].client == client
    case _ => true
  }

  /** Names the history knows were drawn, so a fresh one is unknown to it. */
  ghost predicate Covered(s: State) {
    && s.hist.registered.Keys <= s.issued
    && s.hist.openings.Keys <= s.issued
    && s.hist.devices.Keys <= s.issued
    && s.hist.confirmed.Keys <= s.issued
    && s.hist.scopes.Keys <= s.issued
  }

  ghost predicate Traced(cfg: Config, s: State) {
    && Covered(s)
    && (forall k :: k in s.db ==> RecordOk(cfg, s.hist, k, s.db[k].value))
    && (forall h :: h in s.handlers ==> HandlerOk(cfg, s.hist, s.handlers[h]))
    && (forall u :: u in s.hist.uses ==> UseOk(cfg, s.hist, u))
  }

  lemma LoginGrows(cfg: Config, a: History, b: History, request: Name, user: string, client: Name)
    requires Grows(a, b)
    ensures LoggedInAtAuthorize(cfg, a, request, user, client) ==> LoggedInAtAuthorize(cfg, b, request, user, client)
    ensures LoggedInForDevice(a, request, user, client) ==> LoggedInForDevice(b, request, user, client)
  {
    if LoggedInForDevice(a, request, user, client) {
      var id :| ApprovedBy(a, request, user, id);
      assert ApprovedBy(b, request, user, id);
    }
  }

  lemma RecordGrows(cfg: Config, a: History, b: History, k: Key, r: Record)
    requires Grows(a, b) && RecordOk(cfg, a, k, r)
    ensures RecordOk(cfg, b, k, r)
  {
    match r
    case Refresh(request, user, client, _) => LoginGrows(cfg, a, b, request, user, client);
    case Device(client, _, _, sub) =>
      if sub.Some? {
        LoginGrows(cfg, a, b, k.name, sub.value, client);
      }
    case _ =>
  }

  lemma HandlerGrows(cfg: Config, a: History, b: History, pc: Handler)
    requires Grows(a, b) && HandlerOk(cfg, a, pc)
    ensures HandlerOk(cfg, b, pc)
  {
    match pc
    case Rescoping(_, request, user, client, _) => LoginGrows(cfg, a, b, request, user, client);
    case Issuing(_, request, user, client, _) => LoginGrows(cfg, a, b, request, user, client);
    case Answering(_, request, user, client, _) => LoginGrows(cfg, a, b, request, user, client);
    case _ =>
  }

  lemma UseGrows(cfg: Config, a: History, b: History, u: Use)
    requires Grows(a, b) && UseOk(cfg, a, u)
    ensures UseOk(cfg, b, u)
  {
    LoginGrows(cfg, a, b, u.request, u.user, u.client);
  }

  /** History grows, and the names it learns were drawn. */
  ghost predicate Remembers(s: State, t: State) {
    Grows(s.hist, t.hist) && Covered(t)
  }

  /** At most one record is written and one handler moved. */
  ghost predicate OneWrite(s: State, t: State, k: Key, h: nat) {
    && (forall j :: j in t.db && j != k ==> j in s.db && s.db[j] == t.db[j])
    && (forall g :: g in t.handlers && g != h ==> g in s.handlers && s.handlers[g] == t.handlers[g])
  }

  ghost predicate Written(s: State, t: State, k: Key) {
    k in t.db && (k !in s.db || t.db[k] != s.db[k])
  }

  ghost predicate RecordSound(cfg: Config, s: State, k: Key) {
    k in s.db ==> RecordOk(cfg, s.hist, k, s.db[k].value)
  }

  ghost predicate HandlerSound(cfg: Config, s: State, h: nat) {
    HandlerOk(cfg, s.hist, Pc(s, h))
  }

  /** The record and the handler that a step touched are sound. */
  ghost predicate LocallySound(cfg: Config, s: State, t: State, k: Key, h: nat) {
    (Written(s, t, k) ==> RecordOk(cfg, t.hist, k, t.db[k].value)) && HandlerSound(cfg, t, h)
  }

  /** What a step wrote being sound is enough. */
  lemma Frame(cfg: Config, s: State, t: State, k: Key, h: nat)
    requires Traced(cfg, s) && Remembers(s, t) && OneWrite(s, t, k, h)
    requires LocallySound(cfg, s, t, k, h)
    requires forall u :: u in t.hist.uses ==> u in s.hist.uses || UseOk(cfg, t.hist, u)
    ensures Traced(cfg, t)
  {
    forall j | j in t.db ensures RecordOk(cfg, t.hist, j, t.db[j].value) {
      if j in s.db && s.db[j] == t.db[j] {
        RecordGrows(cfg, s.hist, t.hist, j, s.db[j].value);
      }
    }
    forall g | g in t.handlers ensures HandlerOk(cfg, t.hist, t.handlers[g]) {
      if g != h {
        HandlerGrows(cfg, s.hist, t.hist, s.handlers[g]);
      }
    }
    forall u | u in t.hist.uses ensures UseOk(cfg, t.hist, u) {
      if u in s.hist.uses {
        UseGrows(cfg, s.hist, t.hist, u);
      }
    }
  }

  lemma RegisterKeepsTraced(cfg: Config, s: State, l: Label)
    requires l.Register? && Traced(cfg, s)
    ensures Traced(cfg, Next(cfg, s, l))
  {
    var t := Next(cfg, s, l);
    if t != s {
      HandlerGrows(cfg, s.hist, t.hist, Pc(s, 0));
      Frame(cfg, s, t, Key(ClientKind, l.client), 0);
    }
  }

  // ---------------------------------------------------------------- authorize

  function AuthorizeKey(s: State, l: AuthorizeStep): Key {
    match l
    case Authorize(_, client, _, _, _, _) => Key(ClientKind, client)
    case KeepClient(h) => Key(ClientKind, if Pc(s, h).ClientSeen? then Pc(s, h).client else 0)
    case Open(_, id) => Key(PendingKind, id)
  }

  lemma AuthorizeRemembers(cfg: Config, s: State, l: AuthorizeStep)
    requires Covered(s)
    ensures Remembers(s, NextAuthorize(cfg, s, l))
  {
  }

  lemma AuthorizeWritesOnce(cfg: Config, s: State, l: AuthorizeStep)
    ensures var t := NextAuthorize(cfg, s, l); t.hist.uses == s.hist.uses && OneWrite(s, t, AuthorizeKey(s, l), l.h)
  {
  }

  lemma AuthorizeLocal(cfg: Config, s: State, l: AuthorizeStep)
    requires Covered(s) && RecordSound(cfg, s, AuthorizeKey(s, l)) && HandlerSound(cfg, s, l.h)
    ensures LocallySound(cfg, s, NextAuthorize(cfg, s, l), AuthorizeKey(s, l), l.h)
  {
    match l
    case Authorize(_, _, _, scope, _, _) => SplitYieldsWords(if scope.None? || scope.value == "" then cfg.audience else scope.value);
    case KeepClient(_) =>
    case Open(_, _) =>
  }

  // ---------------------------------------------------------------- callback

  function CallbackKey(s: State, l: CallbackStep): Key {
    match l
    case Callback(_, id) => Key(PendingKind, id)
    case Deny(h) => Key(DeviceKind, if Pc(s, h).LoginFailed? then Pc(s, h).device else 0)
    case Approve(h) => Key(DeviceKind, if Pc(s, h).Approving? then Pc(s, h).device else 0)
    case DexAnswers(_, _) => Key(PendingKind, 0)
    case Provision(_, _) => Key(PendingKind, 0)
  }

  lemma SettlingRemembers(s: State, l: CallbackStep)
    requires (l.Deny? || l.Approve?) && Covered(s)
    ensures Remembers(s, NextCallback(s, l))
  {
  }

  lemma CallbackRemembers(s: State, l: CallbackStep)
    requires Covered(s)
    ensures Remembers(s, NextCallback(s, l))
  {
    if l.Deny? || l.Approve? {
      SettlingRemembers(s, l);
    }
  }

  lemma SettleWritesOnce(s: State, device: Name, status: Status, sub: Option<string>)
    requires Settle(s, device, status, sub).Some?
    ensures var t := Settle(s, device, status, sub).value;
            t.hist == s.hist && t.handlers == s.handlers
            && (forall j :: j in t.db && j != Key(DeviceKind, device) ==> j in s.db && s.db[j] == t.db[j])
  {
  }

  lemma CallbackWritesOnce(s: State, l: CallbackStep)
    ensures var t := NextCallback(s, l); t.hist.uses == s.hist.uses && OneWrite(s, t, CallbackKey(s, l), l.h)
  {
    match l
    case Deny(h) =>
      if Pc(s, h).LoginFailed? && Settle(s, Pc(s, h).device, Denied, None).Some? {
        SettleWritesOnce(s, Pc(s, h).device, Denied, None);
      }
    case Approve(h) =>
      if Pc(s, h).Approving? && Settle(s, Pc(s, h).device, Approved, Pc(s, h).req.sub).Some? {
        SettleWritesOnce(s, Pc(s, h).device, Approved, Pc(s, h).req.sub);
      }
    case _ =>
  }

  lemma ApproveLocal(cfg: Config, s: State, l: CallbackStep)
    requires l.Approve? && Covered(s) && RecordSound(cfg, s, CallbackKey(s, l)) && HandlerSound(cfg, s, l.h)
    ensures LocallySound(cfg, s, NextCallback(s, l), CallbackKey(s, l), l.h)
  {
    var pc := Pc(s, l.h);
    if pc.Approving? && Settle(s, pc.device, Approved, pc.req.sub).Some? {
      var t := NextCallback(s, l);
      assert ApprovedBy(t.hist, pc.device, pc.req.sub.value, pc.req.id);
    }
  }

  lemma DenyLocal(cfg: Config, s: State, l: CallbackStep)
    requires l.Deny? && RecordSound(cfg, s, CallbackKey(s, l)) && HandlerSound(cfg, s, l.h)
    ensures LocallySound(cfg, s, NextCallback(s, l), CallbackKey(s, l), l.h)
  {
  }

  lemma DexAnswersLocal(cfg: Config, s: State, l: CallbackStep)
    requires l.DexAnswers? && RecordSound(cfg, s, CallbackKey(s, l)) && HandlerSound(cfg, s, l.h)
    ensures LocallySound(cfg, s, NextCallback(s, l), CallbackKey(s, l), l.h)
  {
  }

  lemma CallbackLocal(cfg: Config, s: State, l: CallbackStep)
    requires Covered(s) && RecordSound(cfg, s, CallbackKey(s, l)) && HandlerSound(cfg, s, l.h)
    ensures LocallySound(cfg, s, NextCallback(s, l), CallbackKey(s, l), l.h)
  {
    match l
    case DexAnswers(_, _) => DexAnswersLocal(cfg, s, l);
    case Deny(_) => DenyLocal(cfg, s, l);
    case Approve(_) => ApproveLocal(cfg, s, l);
    case _ =>
  }

  // ---------------------------------------------------------------- consent

  function ConsentKey(l: ConsentStep): Key {
    match l
    case Park(_, chain) => Key(ChainKind, chain)
    case BrokerCallback(_, chain) => Key(ChainKind, chain)
    case IssueCode(_, code) => Key(CodeKind, code)
    case _ => Key(ChainKind, 0)
  }

  lemma VisitingRemembers(cfg: Config, s: State, l: ConsentStep)
    requires (l.ListServices? || l.Park?) && Covered(s)
    ensures Remembers(s, NextConsent(cfg, s, l))
  {
  }

  lemma HoppingLeavesHistory(cfg: Config, s: State, l: ConsentStep)
    requires l.TryBroker? || l.BrokerCallback? || l.Filter?
    ensures NextConsent(cfg, s, l).hist == s.hist && NextConsent(cfg, s, l).issued == s.issued
  {
  }

  lemma ConsentRemembers(cfg: Config, s: State, l: ConsentStep)
    requires Covered(s)
    ensures Remembers(s, NextConsent(cfg, s, l))
  {
    if l.ListServices? || l.Park? {
      VisitingRemembers(cfg, s, l);
    } else if !l.IssueCode? {
      HoppingLeavesHistory(cfg, s, l);
    }
  }

  lemma ConsentWritesOnce(cfg: Config, s: State, l: ConsentStep)
    ensures var t := NextConsent(cfg, s, l); t.hist.uses == s.hist.uses && OneWrite(s, t, ConsentKey(l), l.h)
  {
  }

  lemma FilterLocal(cfg: Config, s: State, l: ConsentStep)
    requires l.Filter? && HandlerSound(cfg, s, l.h) && IsWord(cfg.audience)
    ensures HandlerSound(cfg, NextConsent(cfg, s, l), l.h)
  {
    var pc := Pc(s, l.h);
    if pc.Finishing? && |l.projections| == |pc.req.scopes| {
      IssuedScopesAreWellFormed(cfg.services, pc.req.scopes, cfg.audience, l.projections);
      SplitOfJoin([cfg.audience] + Kept(cfg.services, pc.req.scopes, cfg.audience, l.projections));
    }
  }

  lemma ParkingLocal(cfg: Config, s: State, l: ConsentStep)
    requires (l.Park? || l.BrokerCallback? || l.IssueCode?) && Covered(s)
    requires RecordSound(cfg, s, ConsentKey(l)) && HandlerSound(cfg, s, l.h)
    ensures LocallySound(cfg, s, NextConsent(cfg, s, l), ConsentKey(l), l.h)
  {
  }

  lemma HopLocal(cfg: Config, s: State, l: ConsentStep)
    requires (l.ListServices? || l.TryBroker?) && HandlerSound(cfg, s, l.h)
    ensures LocallySound(cfg, s, NextConsent(cfg, s, l), ConsentKey(l), l.h)
  {
  }

  lemma ConsentLocal(cfg: Config, s: State, l: ConsentStep)
    requires Covered(s) && RecordSound(cfg, s, ConsentKey(l)) && HandlerSound(cfg, s, l.h) && IsWord(cfg.audience)
    ensures LocallySound(cfg, s, NextConsent(cfg, s, l), ConsentKey(l), l.h)
  {
    if l.Filter? {
      FilterLocal(cfg, s, l);
    } else if l.Park? || l.BrokerCallback? || l.IssueCode? {
      ParkingLocal(cfg, s, l);
    } else {
      HopLocal(cfg, s, l);
    }
  }

  // ---------------------------------------------------------------- token

  function TokenKey(s: State, l: TokenStep): Key {
    match l
    case Redeem(_, code, _, _, _) => Key(CodeKind, code)
    case DropRefused(h) => Key(RefreshKind, if Pc(s, h).Refused? then Pc(s, h).presented else 0)
    case TakeRefresh(h) => Key(RefreshKind, if Pc(s, h).UserLookedUp? then Pc(s, h).presented else 0)
    case StoreRefresh(_, refresh) => Key(RefreshKind, refresh)
    case _ => Key(RefreshKind, 0)
  }

  lemma IssuingRemembers(cfg: Config, s: State, l: TokenStep)
    requires (l.StoreRefresh? || l.Answer? || l.Redeem?) && Covered(s)
    ensures Remembers(s, NextToken(cfg, s, l))
  {
  }

  lemma TokenRemembers(cfg: Config, s: State, l: TokenStep)
    requires Covered(s)
    ensures Remembers(s, NextToken(cfg, s, l))
  {
    if l.StoreRefresh? || l.Answer? || l.Redeem? {
      IssuingRemembers(cfg, s, l);
    }
  }

  lemma TokenWritesOnce(cfg: Config, s: State, l: TokenStep)
    ensures var t := NextToken(cfg, s, l); OneWrite(s, t, TokenKey(s, l), l.h)
  {
  }

  lemma RescopeLocal(cfg: Config, s: State, l: TokenStep)
    requires l.Rescope? && HandlerSound(cfg, s, l.h) && IsWord(cfg.audience)
    ensures HandlerSound(cfg, NextToken(cfg, s, l), l.h)
  {
    var pc := Pc(s, l.h);
    if pc.Rescoping? && |l.projections| == |Split(pc.scope)| {
      SplitYieldsWords(pc.scope);
      var next := Rescoped(cfg.services, pc.scope, cfg.audience, l.projections);
      RescopingNarrows(cfg.services, Split(pc.scope), cfg.audience, l.projections);
      SplitOfJoin(next);
      SubsequenceMembers(next, Split(pc.scope));
    }
  }

  lemma StoreRefreshLocal(cfg: Config, s: State, l: TokenStep)
    requires l.StoreRefresh? && Covered(s) && HandlerSound(cfg, s, l.h) && RecordSound(cfg, s, TokenKey(s, l))
    ensures LocallySound(cfg, s, NextToken(cfg, s, l), TokenKey(s, l), l.h)
  {
    var pc := Pc(s, l.h);
    if pc.Issuing? && l.refresh !in s.issued {
      var t := NextToken(cfg, s, l);
      LoginGrows(cfg, s.hist, t.hist, pc.request, pc.user, pc.client);
    }
  }

  lemma RedeemLocal(cfg: Config, s: State, l: TokenStep)
    requires l.Redeem? && RecordSound(cfg, s, TokenKey(s, l)) && HandlerSound(cfg, s, l.h)
    ensures LocallySound(cfg, s, NextToken(cfg, s, l), TokenKey(s, l), l.h)
  {
  }

  lemma TakeRefreshLocal(cfg: Config, s: State, l: TokenStep)
    requires l.TakeRefresh? && RecordSound(cfg, s, TokenKey(s, l)) && HandlerSound(cfg, s, l.h)
    ensures LocallySound(cfg, s, NextToken(cfg, s, l), TokenKey(s, l), l.h)
  {
  }

  lemma RefreshMovesLocal(cfg: Config, s: State, l: TokenStep)
    requires l.AskRefresh? || l.Revalidate? || l.DropRefused? || l.LookUpUser? || l.Answer?
    requires RecordSound(cfg, s, TokenKey(s, l)) && HandlerSound(cfg, s, l.h)
    ensures LocallySound(cfg, s, NextToken(cfg, s, l), TokenKey(s, l), l.h)
  {
  }

  lemma TokenLocal(cfg: Config, s: State, l: TokenStep)
    requires Covered(s) && RecordSound(cfg, s, TokenKey(s, l)) && HandlerSound(cfg, s, l.h) && IsWord(cfg.audience)
    ensures LocallySound(cfg, s, NextToken(cfg, s, l), TokenKey(s, l), l.h)
  {
    match l
    case Redeem(_, _, _, _, _) => RedeemLocal(cfg, s, l);
    case TakeRefresh(_) => TakeRefreshLocal(cfg, s, l);
    case Rescope(_, _) => RescopeLocal(cfg, s, l);
    case StoreRefresh(_, _) => StoreRefreshLocal(cfg, s, l);
    case _ => RefreshMovesLocal(cfg, s, l);
  }

  lemma AnswerLocal(cfg: Config, s: State, l: TokenStep)
    requires HandlerSound(cfg, s, l.h) && Covered(s)
    ensures var t := NextToken(cfg, s, l);
            forall u :: u in t.hist.uses ==> u in s.hist.uses || UseOk(cfg, t.hist, u)
  {
    var pc := Pc(s, l.h);
    if l.Answer? && pc.Answering? {
      TokenRemembers(cfg, s, l);
      UseGrows(cfg, s.hist, NextToken(cfg, s, l).hist, Use(l.h, pc.via, pc.request, pc.user, pc.client, pc.refresh));
    }
  }

  // ---------------------------------------------------------------- device

  function DeviceKey(s: State, l: DeviceStep): Key {
    match l
    case ParkDevice(_, device, _) => Key(DeviceKind, device)
    case IndexDevice(h) => Key(UserCodeKind, if Pc(s, h).DeviceParked? then Pc(s, h).userCode else 0)
    case Confirm(_, userCode) => Key(UserCodeKind, userCode)
    case OpenForDevice(_, id) => Key(PendingKind, id)
    case PollDevice(_, device, _) => Key(DeviceKind, device)
    case TakeDevice(h) =>
      Key(DeviceKind, if Pc(s, h).DevicePolled? || Pc(s, h).DeviceRefused? then Pc(s, h).device else 0)
    case AskDevice(_, _) => Key(DeviceKind, 0)
  }

  lemma OpeningRemembers(cfg: Config, s: State, l: DeviceStep)
    requires (l.ParkDevice? || l.OpenForDevice? || l.IndexDevice?) && Covered(s)
    ensures Remembers(s, NextDevice(cfg, s, l))
  {
  }

  lemma PollingLeavesHistory(cfg: Config, s: State, l: DeviceStep)
    requires l.AskDevice? || l.Confirm? || l.PollDevice? || l.TakeDevice?
    ensures NextDevice(cfg, s, l).hist == s.hist && NextDevice(cfg, s, l).issued == s.issued
  {
  }

  lemma DeviceRemembers(cfg: Config, s: State, l: DeviceStep)
    requires Covered(s)
    ensures Remembers(s, NextDevice(cfg, s, l))
  {
    if l.ParkDevice? || l.OpenForDevice? || l.IndexDevice? {
      OpeningRemembers(cfg, s, l);
    } else {
      PollingLeavesHistory(cfg, s, l);
    }
  }

  lemma DeviceWritesOnce(cfg: Config, s: State, l: DeviceStep)
    ensures var t := NextDevice(cfg, s, l); t.hist.uses == s.hist.uses && OneWrite(s, t, DeviceKey(s, l), l.h)
  {
  }

  lemma TakeDeviceLocal(cfg: Config, s: State, l: DeviceStep)
    requires l.TakeDevice? && RecordSound(cfg, s, DeviceKey(s, l)) && HandlerSound(cfg, s, l.h) && IsWord(cfg.audience)
    ensures LocallySound(cfg, s, NextDevice(cfg, s, l), DeviceKey(s, l), l.h)
  {
    SplitOfJoin([cfg.audience]);
  }

  lemma OpenForDeviceLocal(cfg: Config, s: State, l: DeviceStep)
    requires (l.OpenForDevice? || l.ParkDevice?) && Covered(s) && HandlerSound(cfg, s, l.h)
    ensures LocallySound(cfg, s, NextDevice(cfg, s, l), DeviceKey(s, l), l.h)
  {
  }

  lemma PollDeviceLocal(cfg: Config, s: State, l: DeviceStep)
    requires l.PollDevice? && RecordSound(cfg, s, DeviceKey(s, l)) && HandlerSound(cfg, s, l.h)
    ensures LocallySound(cfg, s, NextDevice(cfg, s, l), DeviceKey(s, l), l.h)
  {
  }

  lemma DeviceLocal(cfg: Config, s: State, l: DeviceStep)
    requires Covered(s) && RecordSound(cfg, s, DeviceKey(s, l)) && HandlerSound(cfg, s, l.h) && IsWord(cfg.audience)
    ensures LocallySound(cfg, s, NextDevice(cfg, s, l), DeviceKey(s, l), l.h)
  {
    match l
    case TakeDevice(_) => TakeDeviceLocal(cfg, s, l);
    case ParkDevice(_, _, _) => OpenForDeviceLocal(cfg, s, l);
    case OpenForDevice(_, _) => OpenForDeviceLocal(cfg, s, l);
    case PollDevice(_, _, _) => PollDeviceLocal(cfg, s, l);
    case _ =>
  }

  // ---------------------------------------------------------------- all steps

  lemma AuthorizeKeepsTraced(cfg: Config, s: State, l: AuthorizeStep)
    requires Traced(cfg, s) && IsWord(cfg.audience)
    ensures Traced(cfg, NextAuthorize(cfg, s, l))
  {
    AuthorizeRemembers(cfg, s, l);
    AuthorizeWritesOnce(cfg, s, l);
    AuthorizeLocal(cfg, s, l);
    Frame(cfg, s, NextAuthorize(cfg, s, l), AuthorizeKey(s, l), l.h);
  }

  lemma CallbackKeepsTraced(cfg: Config, s: State, l: CallbackStep)
    requires Traced(cfg, s) && IsWord(cfg.audience)
    ensures Traced(cfg, NextCallback(s, l))
  {
    CallbackRemembers(s, l);
    CallbackWritesOnce(s, l);
    CallbackLocal(cfg, s, l);
    Frame(cfg, s, NextCallback(s, l), CallbackKey(s, l), l.h);
  }

  lemma ConsentKeepsTraced(cfg: Config, s: State, l: ConsentStep)
    requires Traced(cfg, s) && IsWord(cfg.audience)
    ensures Traced(cfg, NextConsent(cfg, s, l))
  {
    ConsentRemembers(cfg, s, l);
    ConsentWritesOnce(cfg, s, l);
    ConsentLocal(cfg, s, l);
    Frame(cfg, s, NextConsent(cfg, s, l), ConsentKey(l), l.h);
  }

  lemma TokenKeepsTraced(cfg: Config, s: State, l: TokenStep)
    requires Traced(cfg, s) && IsWord(cfg.audience)
    ensures Traced(cfg, NextToken(cfg, s, l))
  {
    TokenRemembers(cfg, s, l);
    TokenWritesOnce(cfg, s, l);
    TokenLocal(cfg, s, l);
    AnswerLocal(cfg, s, l);
    Frame(cfg, s, NextToken(cfg, s, l), TokenKey(s, l), l.h);
  }

  lemma DeviceKeepsTraced(cfg: Config, s: State, l: DeviceStep)
    requires Traced(cfg, s) && IsWord(cfg.audience)
    ensures Traced(cfg, NextDevice(cfg, s, l))
  {
    DeviceRemembers(cfg, s, l);
    DeviceWritesOnce(cfg, s, l);
    DeviceLocal(cfg, s, l);
    Frame(cfg, s, NextDevice(cfg, s, l), DeviceKey(s, l), l.h);
  }

  lemma StepKeepsTraced(cfg: Config, s: State, l: Label)
    requires Traced(cfg, s) && IsWord(cfg.audience)
    ensures Traced(cfg, Next(cfg, s, l))
  {
    match l {
      case Tick(_) =>
      case Register(_, _) => RegisterKeepsTraced(cfg, s, l);
      case OnAuthorize(step) => AuthorizeKeepsTraced(cfg, s, step);
      case OnCallback(step) => CallbackKeepsTraced(cfg, s, step);
      case OnConsent(step) => ConsentKeepsTraced(cfg, s, step);
      case OnToken(step) => TokenKeepsTraced(cfg, s, step);
      case OnDevice(step) => DeviceKeepsTraced(cfg, s, step);
    }
  }

  lemma {:induction false} RunKeepsTraced(cfg: Config, s: State, run: seq<Label>)
    requires Traced(cfg, s) && IsWord(cfg.audience)
    ensures Traced(cfg, Exec(cfg, s, run))
    decreases |run|
  {
    if run != [] {
      StepKeepsTraced(cfg, s, run[0]);
      RunKeepsTraced(cfg, Next(cfg, s, run[0]), run[1..]);
    }
  }

  /** The characters of a verifier: letters, digits, hyphen, period, underscore and tilde. */
  predicate UnreservedChar(c: char) {
    'a' <= c <= 'z' || 'A' <= c <= 'Z' || '0' <= c <= '9' || c in "-._~"
  }

  /** In every reachable state: every stored code, refresh token and approved device names a user who logged in
      for a request of that record's client; and every answered token pair was asked for with a redirect URI that
      matches a registered one, a verifier for the challenge, and, on refresh, no scope its predecessor lacked. */
  lemma EveryCredentialIsTraced(cfg: Config, now: Time, run: seq<Label>)
    requires IsWord(cfg.audience)
    ensures var s := Exec(cfg, Init(now), run);
            && Traced(cfg, s)
            && (forall u :: u in s.hist.uses && u.via.ByCode? ==>
                  && u.request in s.hist.openings
                  && var o := s.hist.openings[u.request];
                  && u.client in s.hist.registered
                  && o.challenge == cfg.digest(u.via.verifier)
                  && 43 <= |u.via.verifier| <= 128
                  && (forall j :: 0 <= j < |u.via.verifier| ==> UnreservedChar(u.via.verifier[j]))
                  && exists i :: 0 <= i < |s.hist.registered[u.client]|
                                 && RedirectMatches(cfg.parse, s.hist.registered[u.client][i], u.via.redirect))
  {
    var s := Exec(cfg, Init(now), run);
    RunKeepsTraced(cfg, Init(now), run);
    forall u | u in s.hist.uses && u.via.ByCode?
      ensures && u.request in s.hist.openings
              && u.client in s.hist.registered
              && PkceOk(cfg.digest, s.hist.openings[u.request].challenge, u.via.verifier)
              && exists i :: 0 <= i < |s.hist.registered[u.client]|
                             && RedirectMatches(cfg.parse, s.hist.registered[u.client][i], u.via.redirect)
    {
      assert UseOk(cfg, s.hist, u);
    }
  }
}
