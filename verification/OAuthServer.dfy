/** The authorization server as a transition system. Every request is a handler that performs one store
    verb or one call to Dex, LiteLLM or a broker per step; any number of handlers interleave over one
    store with deadlines. What the network answers, which names are drawn and how far the clock moves
    are inputs of the steps. */
module OAuthServer {
  import opened Prelude
  import opened DeadlineMap
  import opened Scopes
  import opened Redirects
  import Consent

  /** Random names: a draw never repeats an earlier one. */
  type Name = nat

  const CLIENT_TTL: nat := 7776000
  const PENDING_TTL: nat := 600
  const CODE_TTL: nat := 120
  const CHAIN_TTL: nat := 600
  const DEVICE_TTL: nat := 600

  datatype Config = Config(
    parse: Parser,
    digest: string -> string,
    audience: string,
    services: set<string>,
    refreshTtl: nat)

  // ---------------------------------------------------------------- stored records

  datatype Kind = ClientKind | PendingKind | ChainKind | CodeKind | RefreshKind | DeviceKind | UserCodeKind

  datatype Key = Key(kind: Kind, name: Name)

  datatype Origin =
    | FromClient(client: Name, redirect: string, challenge: string)
    | FromDevice(device: Name)

  /** What travels from `pending` to `code`; `id` is the name of the pending record it was born under. */
  datatype Request = Request(id: Name, origin: Origin, scopes: seq<string>, sub: Option<string>)

  datatype Status = Waiting | Approved | Denied

  datatype Record =
    | Client(redirects: seq<string>)
    | Pending(req: Request)
    | Chained(req: Request, visited: seq<string>, todo: seq<string>)
    | Code(req: Request, scope: string)
    | Refresh(request: Name, user: string, client: Name, scope: string)
    | Device(client: Name, userCode: Name, status: Status, sub: Option<string>)
    | UserCode(device: Name)

  // ---------------------------------------------------------------- handlers

  /** The credential a token pair is issued against. */
  datatype Via =
    | ByCode(code: Name, redirect: string, verifier: string)
    | ByRefresh(previous: Name)
    | ByDevice(device: Name)

  datatype Handler =
    | Idle
    // GET /oauth/authorize
    | ClientSeen(client: Name, redirects: seq<string>, origin: Origin, scopes: seq<string>)
    | ClientKept(client: Name, redirects: seq<string>, origin: Origin, scopes: seq<string>)
    // GET /oauth/as-callback and /oauth/broker-callback
    | AtDex(req: Request)
    | LoginFailed(device: Name, req: Request)
    | Provisioning(req: Request)
    | Approving(device: Name, req: Request)
    | ListingServices(req: Request)
    | Hop(req: Request, visited: seq<string>, todo: seq<string>)
    | ParkingAtBroker(req: Request, visited: seq<string>, todo: seq<string>)
    | Finishing(req: Request)
    | CodeReady(req: Request, scope: string)
    // POST /oauth/token
    | Revalidating(presented: Name, client: Name)
    | Refused(presented: Name)
    | Honoured(presented: Name, client: Name)
    | UserLookedUp(presented: Name, client: Name, alive: bool)
    | Rescoping(via: Via, request: Name, user: string, client: Name, scope: string)
    | Issuing(via: Via, request: Name, user: string, client: Name, scope: string)
    | Answering(via: Via, request: Name, user: string, client: Name, refresh: Name)
    | DevicePolled(device: Name, client: Name)
    | DeviceRefused(device: Name)
    // device authorization and its verification page
    | DeviceClientSeen(client: Name)
    | DeviceParked(device: Name, userCode: Name)
    | DeviceConfirmed(device: Name)

  // ---------------------------------------------------------------- history

  datatype Opening = Opening(client: Name, redirects: seq<string>, redirect: string, challenge: string, scopes: seq<string>)

  datatype DeviceOpening = DeviceOpening(client: Name, at: Time)

  /** A token pair answered to a client, and the handler that answered. */
  datatype Use = Use(handler: nat, via: Via, request: Name, user: string, client: Name, refresh: Name)

  /** What the grant lookups of one issue answered, scope by scope. */
  datatype Lookups = Lookups(requested: seq<string>, answers: seq<Option<bool>>)

  const NO_LOOKUPS := Lookups([], [])

  /** What has happened so far; no step of the server reads it. */
  datatype History = History(
    registered: map<Name, seq<string>>,
    openings: map<Name, Opening>,
    logins: set<(Name, string)>,
    devices: map<Name, DeviceOpening>,
    confirmed: map<Name, Name>,
    approvals: set<(Name, Name)>,
    denials: set<Name>,
    todos: map<Name, seq<string>>,
    visits: map<Name, seq<string>>,
    codes: set<(Name, Name)>,
    scopes: map<Name, string>,
    uses: set<Use>)

  /** What the network has answered so far; no step of the server reads it either. */
  datatype Notes = Notes(
    provisioned: set<Name>,              // requests whose user LiteLLM provisioned
    asked: map<Name, seq<Option<bool>>>, // per request, the grants found when its services were listed
    skips: map<Name, seq<string>>,       // per request, the services whose broker could not be reached
    looked: map<nat, Lookups>,           // per handler, the grants it last looked up to issue scopes
    issues: map<Name, Lookups>,          // per code and refresh token, the lookups behind its scopes
    honoured: set<(nat, Name)>,          // handlers told by Dex that the user of their refresh token is honoured
    alive: set<(nat, Name)>)             // handlers told by LiteLLM that the user exists

  datatype State = State(
    now: Time,
    db: map<Key, Cell<Record>>,
    handlers: map<nat, Handler>,
    issued: set<Name>,
    hist: History,
    notes: Notes)

  const NOTHING_YET := History(map[], map[], {}, map[], map[], {}, {}, map[], map[], {}, map[], {})

  const NO_NOTES := Notes({}, map[], map[], map[], map[], {}, {})

  function Init(now: Time): State {
    State(now, map[], map[], {}, NOTHING_YET, NO_NOTES)
  }

  // ---------------------------------------------------------------- store verbs and handler moves

  function Pc(s: State, h: nat): Handler {
    if h in s.handlers then s.handlers[h] else Idle
  }

  function Goto(s: State, h: nat, pc: Handler): State {
    s.(handlers := s.handlers[h := pc])
  }

  function Read(s: State, k: Key): Option<Record> {
    Lookup(s.db, k, s.now)
  }

  function Put(s: State, k: Key, r: Record, ttl: nat): State {
    s.(db := s.db[k := Cell(r, Deadline(s.now, Some(ttl)))])
  }

  function Drop(s: State, k: Key): State {
    s.(db := s.db - {k})
  }

  /** Write `r` under a freshly drawn name. */
  function PutFresh(s: State, k: Key, r: Record, ttl: nat): State {
    Put(s, k, r, ttl).(issued := s.issued + {k.name})
  }

  // ---------------------------------------------------------------- pure checks

  predicate Base64Url(c: char) {
    'A' <= c <= 'Z' || 'a' <= c <= 'z' || '0' <= c <= '9' || c == '-' || c == '_'
  }

  predicate ChallengeOk(challenge: string) {
    |challenge| == 43 && forall i :: 0 <= i < |challenge| ==> Base64Url(challenge[i])
  }

  predicate VerifierChar(c: char) {
    Base64Url(c) || c == '.' || c == '~'
  }

  predicate PkceOk(digest: string -> string, challenge: string, verifier: string) {
    && 43 <= |verifier| <= 128
    && (forall i :: 0 <= i < |verifier| ==> VerifierChar(verifier[i]))
    && challenge == digest(verifier)
  }

  /** The scopes an authorize request asks for; an absent or empty parameter means the audience. */
  function Requested(cfg: Config, scope: Option<string>): seq<string> {
    Split(if scope.None? || scope.value == "" then cfg.audience else scope.value)
  }

  predicate ScopesKnown(cfg: Config, requested: seq<string>) {
    forall i :: 0 <= i < |requested| ==> requested[i] == cfg.audience || requested[i] in cfg.services
  }

  // ---------------------------------------------------------------- steps

  datatype DexAnswer = DexFailed | NoEmail | NoRefreshToken | Identity(email: string)
  datatype Standing = StillHonoured | NoLongerHonoured | DexUnreachable
  datatype Presence = Exists | Gone | LookupFailed

  datatype AuthorizeStep =
    | Authorize(h: nat, client: Name, redirect: string, scope: Option<string>, challenge: string, asksForCode: bool)
    | KeepClient(h: nat)
    | Open(h: nat, id: Name)

  datatype CallbackStep =
    | Callback(h: nat, id: Name)
    | DexAnswers(h: nat, answer: DexAnswer)
    | Deny(h: nat)
    | Provision(h: nat, ok: bool)
    | Approve(h: nat)

  datatype ConsentStep =
    | ListServices(h: nat, projections: seq<Option<bool>>)
    | TryBroker(h: nat, up: bool)
    | Park(h: nat, chain: Name)
    | BrokerCallback(h: nat, chain: Name)
    | Filter(h: nat, projections: seq<Option<bool>>)
    | IssueCode(h: nat, code: Name)

  datatype TokenStep =
    | Redeem(h: nat, code: Name, client: Name, redirect: string, verifier: string)
    | AskRefresh(h: nat, presented: Name, client: Name)
    | Revalidate(h: nat, standing: Standing)
    | DropRefused(h: nat)
    | LookUpUser(h: nat, presence: Presence)
    | TakeRefresh(h: nat)
    | Rescope(h: nat, projections: seq<Option<bool>>)
    | StoreRefresh(h: nat, refresh: Name)
    | Answer(h: nat)

  datatype DeviceStep =
    | AskDevice(h: nat, client: Name)
    | ParkDevice(h: nat, device: Name, userCode: Name)
    | IndexDevice(h: nat)
    | Confirm(h: nat, userCode: Name)
    | OpenForDevice(h: nat, id: Name)
    | PollDevice(h: nat, device: Name, client: Name)
    | TakeDevice(h: nat)

  datatype Label =
    | Tick(to: Time)
    | Register(client: Name, redirects: seq<string>)
    | OnAuthorize(authorize: AuthorizeStep)
    | OnCallback(callback: CallbackStep)
    | OnConsent(consent: ConsentStep)
    | OnToken(token: TokenStep)
    | OnDevice(device: DeviceStep)

  function Next(cfg: Config, s: State, l: Label): State {
    match l
    case Tick(to) => if s.now <= to then s.(now := to) else s
    case Register(client, redirects) =>
      if client !in s.issued && redirects != [] && (forall i :: 0 <= i < |redirects| ==> RedirectAllowed(cfg.parse, redirects[i])) then
        PutFresh(s, Key(ClientKind, client), Client(redirects), CLIENT_TTL)
        .(hist := s.hist.(registered := s.hist.registered[client := redirects]))
      else s
    case OnAuthorize(step) => NextAuthorize(cfg, s, step)
    case OnCallback(step) => NextCallback(s, step)
    case OnConsent(step) => NextConsent(cfg, s, step)
    case OnToken(step) => NextToken(cfg, s, step)
    case OnDevice(step) => NextDevice(cfg, s, step)
  }

  /** `authorize`: read the client, check the request, keep the client alive, open the request. */
  function NextAuthorize(cfg: Config, s: State, l: AuthorizeStep): State {
    match l
    case Authorize(h, client, redirect, scope, challenge, asksForCode) =>
      if h in s.handlers then s
      else (
        match Read(s, Key(ClientKind, client))
        case Some(Client(redirects)) =>
          var requested := Requested(cfg, scope);
          if && (exists i :: 0 <= i < |redirects| && RedirectMatches(cfg.parse, redirects[i], redirect))
             && ScopesKnown(cfg, requested) && asksForCode && ChallengeOk(challenge)
          then Goto(s, h, ClientSeen(client, redirects, FromClient(client, redirect, challenge), requested))
          else Goto(s, h, Idle)
        case _ => Goto(s, h, Idle))
    case KeepClient(h) => (
      match Pc(s, h)
      case ClientSeen(client, redirects, origin, scopes) =>
        Goto(Put(s, Key(ClientKind, client), Client(redirects), CLIENT_TTL), h, ClientKept(client, redirects, origin, scopes))
      case _ => s)
    case Open(h, id) => (
      match Pc(s, h)
      case ClientKept(client, redirects, FromClient(_, redirect, challenge), scopes) =>
        if id in s.issued then s
        else
          var req := Request(id, FromClient(client, redirect, challenge), scopes, None);
          Goto(PutFresh(s, Key(PendingKind, id), Pending(req), PENDING_TTL), h, Idle)
          .(hist := s.hist.(openings := s.hist.openings[id := Opening(client, redirects, redirect, challenge, scopes)]))
      case _ => s)
  }

  /** `_device_settle`, one step: flip a waiting record and drop its user-code index. `None` when it is gone or settled. */
  function Settle(s: State, device: Name, status: Status, sub: Option<string>): Option<State> {
    match Read(s, Key(DeviceKind, device))
    case Some(Device(client, userCode, Waiting, earlier)) =>
      var settled := Device(client, userCode, status, if sub.Some? then sub else earlier);
      Some(Drop(Put(s, Key(DeviceKind, device), settled, DEVICE_TTL), Key(UserCodeKind, userCode)))
    case _ => None
  }

  /** `as_callback` up to the fork between a device login and an authorize request. */
  function NextCallback(s: State, l: CallbackStep): State {
    match l
    case Callback(h, id) =>
      if h in s.handlers then s
      else (
        match Read(s, Key(PendingKind, id))
        case Some(Pending(req)) => Goto(Drop(s, Key(PendingKind, id)), h, AtDex(req))
        case _ => Goto(Drop(s, Key(PendingKind, id)), h, Idle))
    case DexAnswers(h, answer) => (
      match Pc(s, h)
      case AtDex(req) => (
        match answer
        case DexFailed =>
          if req.origin.FromDevice? then Goto(s, h, LoginFailed(req.origin.device, req)) else Goto(s, h, Idle)
        case NoEmail => Goto(s, h, Idle)
        case NoRefreshToken => Goto(s, h, Idle)
        case Identity(email) =>
          if email == "" then Goto(s, h, Idle)
          else Goto(s, h, Provisioning(req.(sub := Some(email))))
               .(hist := s.hist.(logins := s.hist.logins + {(req.id, email)})))
      case _ => s)
    case Deny(h) => (
      match Pc(s, h)
      case LoginFailed(device, _) => (
        match Settle(s, device, Denied, None)
        case Some(t) => Goto(t, h, Idle).(hist := s.hist.(denials := s.hist.denials + {device}))
        case None => Goto(s, h, Idle))
      case _ => s)
    case Provision(h, ok) => (
      match Pc(s, h)
      case Provisioning(req) =>
        var t := s.(notes := s.notes.(provisioned := if ok then s.notes.provisioned + {req.id} else s.notes.provisioned));
        if !ok then Goto(t, h, Idle)
        else if req.origin.FromDevice? then Goto(t, h, Approving(req.origin.device, req))
        else Goto(t, h, ListingServices(req))
      case _ => s)
    case Approve(h) => (
      match Pc(s, h)
      case Approving(device, req) => (
        match Settle(s, device, Approved, req.sub)
        case Some(t) => Goto(t, h, Idle).(hist := s.hist.(approvals := s.hist.approvals + {(device, req.id)}))
        case None => Goto(s, h, Idle))
      case _ => s)
  }

  /** The handler after the service at the head of `todo` is done with. */
  function AfterService(req: Request, visited: seq<string>, todo: seq<string>): Handler
    requires todo != []
  {
    if todo[1..] != [] then Hop(req, visited + [todo[0]], todo[1..]) else Finishing(req)
  }

  function VisitsOf(hist: History, id: Name): seq<string> {
    if id in hist.visits then hist.visits[id] else []
  }

  /** The services of a request whose broker could not be reached. */
  function SkipsOf(notes: Notes, id: Name): seq<string> {
    if id in notes.skips then notes.skips[id] else []
  }

  function LookedBy(notes: Notes, h: nat): Lookups {
    if h in notes.looked then notes.looked[h] else NO_LOOKUPS
  }

  /** The lookups behind the scopes of a code or refresh token. */
  function IssueOf(notes: Notes, name: Name): Lookups {
    if name in notes.issues then notes.issues[name] else NO_LOOKUPS
  }

  /** The lookups behind the scopes that handler `h` issues for a credential: a code's, its own, or, for a device, none. */
  function LookupsVia(notes: Notes, h: nat, via: Via): Lookups {
    match via
    case ByCode(code, _, _) => IssueOf(notes, code)
    case ByRefresh(_) => LookedBy(notes, h)
    case ByDevice(_) => NO_LOOKUPS
  }

  /** The consent chain and the authorization code it ends in. */
  function NextConsent(cfg: Config, s: State, l: ConsentStep): State {
    match l
    case ListServices(h, projections) => (
      match Pc(s, h)
      case ListingServices(req) =>
        if |projections| != |req.scopes| then s
        else
          var todo := Consent.Ungranted(cfg.services, req.scopes, projections);
          Goto(s, h, if todo != [] then Hop(req, [], todo) else Finishing(req))
          .(hist := s.hist.(todos := s.hist.todos[req.id := todo], visits := s.hist.visits[req.id := []]),
            notes := s.notes.(asked := s.notes.asked[req.id := projections], skips := s.notes.skips[req.id := []]))
      case _ => s)
    case TryBroker(h, up) => (
      match Pc(s, h)
      case Hop(req, visited, todo) =>
        if todo == [] then s
        else if up then Goto(s, h, ParkingAtBroker(req, visited, todo))
        else
          Goto(s, h, AfterService(req, visited, todo))
          .(notes := s.notes.(skips := s.notes.skips[req.id := SkipsOf(s.notes, req.id) + [todo[0]]]))
      case _ => s)
    case Park(h, chain) => (
      match Pc(s, h)
      case ParkingAtBroker(req, visited, todo) =>
        if chain in s.issued || todo == [] then s
        else
          Goto(PutFresh(s, Key(ChainKind, chain), Chained(req, visited, todo), CHAIN_TTL), h, Idle)
          .(hist := s.hist.(visits := s.hist.visits[req.id := VisitsOf(s.hist, req.id) + [todo[0]]]))
      case _ => s)
    case BrokerCallback(h, chain) =>
      if h in s.handlers then s
      else (
        match Read(s, Key(ChainKind, chain))
        case Some(Chained(req, visited, todo)) =>
          if todo == [] then s else Goto(Drop(s, Key(ChainKind, chain)), h, AfterService(req, visited, todo))
        case _ => Goto(Drop(s, Key(ChainKind, chain)), h, Idle))
    case Filter(h, projections) => (
      match Pc(s, h)
      case Finishing(req) =>
        if |projections| != |req.scopes| then s
        else
          Goto(s, h, CodeReady(req, Join([cfg.audience] + Kept(cfg.services, req.scopes, cfg.audience, projections))))
          .(notes := s.notes.(looked := s.notes.looked[h := Lookups(req.scopes, projections)]))
      case _ => s)
    case IssueCode(h, code) => (
      match Pc(s, h)
      case CodeReady(req, scope) =>
        if code in s.issued then s
        else
          Goto(PutFresh(s, Key(CodeKind, code), Code(req, scope), CODE_TTL), h, Idle)
          .(hist := s.hist.(codes := s.hist.codes + {(req.id, code)}),
            notes := s.notes.(issues := s.notes.issues[code := LookedBy(s.notes, h)]))
      case _ => s)
  }

  /** The token endpoint: redeeming a code, refreshing, and the answer both end in. */
  function NextToken(cfg: Config, s: State, l: TokenStep): State {
    match l
    case Redeem(h, code, client, redirect, verifier) =>
      if h in s.handlers then s
      else
        var k := Key(CodeKind, code);
        var burned := Drop(s, k);
        (match Read(s, k)
         case Some(Code(req, scope)) =>
           if && req.origin.FromClient? && req.sub.Some?
              && req.origin.client == client
              && RedirectMatches(cfg.parse, req.origin.redirect, redirect)
              && PkceOk(cfg.digest, req.origin.challenge, verifier)
           then Goto(burned, h, Issuing(ByCode(code, redirect, verifier), req.id, req.sub.value, client, scope))
           else Goto(burned, h, Idle)
         case _ => Goto(burned, h, Idle))
    case AskRefresh(h, presented, client) =>
      if h in s.handlers then s
      else (
        match Read(s, Key(RefreshKind, presented))
        case Some(Refresh(_, _, owner, _)) =>
          if owner == client then Goto(s, h, Revalidating(presented, client)) else Goto(s, h, Idle)
        case _ => Goto(s, h, Idle))
    case Revalidate(h, standing) => (
      match Pc(s, h)
      case Revalidating(presented, client) => (
        var heard := if standing.StillHonoured? then s.notes.honoured + {(h, presented)} else s.notes.honoured;
        var t := s.(notes := s.notes.(honoured := heard));
        match standing
        case StillHonoured => Goto(t, h, Honoured(presented, client))
        case NoLongerHonoured => Goto(t, h, Refused(presented))
        case DexUnreachable => Goto(t, h, Idle))
      case _ => s)
    case DropRefused(h) => (
      match Pc(s, h)
      case Refused(presented) => Goto(Drop(s, Key(RefreshKind, presented)), h, Idle)
      case _ => s)
    case LookUpUser(h, presence) => (
      match Pc(s, h)
      case Honoured(presented, client) =>
        var found := if presence.Exists? then s.notes.alive + {(h, presented)} else s.notes.alive;
        var t := s.(notes := s.notes.(alive := found));
        if presence.LookupFailed? then Goto(t, h, Idle) else Goto(t, h, UserLookedUp(presented, client, presence.Exists?))
      case _ => s)
    case TakeRefresh(h) => (
      match Pc(s, h)
      case UserLookedUp(presented, client, alive) => (
        var k := Key(RefreshKind, presented);
        match Read(s, k)
        case Some(Refresh(request, user, owner, scope)) =>
          if owner == client && alive then Goto(Drop(s, k), h, Rescoping(ByRefresh(presented), request, user, client, scope))
          else Goto(Drop(s, k), h, Idle)
        case _ => Goto(Drop(s, k), h, Idle))
      case _ => s)
    case Rescope(h, projections) => (
      match Pc(s, h)
      case Rescoping(via, request, user, client, scope) =>
        if |projections| != |Split(scope)| then s
        else
          Goto(s, h, Issuing(via, request, user, client, Join(Rescoped(cfg.services, scope, cfg.audience, projections))))
          .(notes := s.notes.(looked := s.notes.looked[h := Lookups(Split(scope), projections)]))
      case _ => s)
    case StoreRefresh(h, refresh) => (
      match Pc(s, h)
      case Issuing(via, request, user, client, scope) =>
        if refresh in s.issued then s
        else
          Goto(PutFresh(s, Key(RefreshKind, refresh), Refresh(request, user, client, scope), cfg.refreshTtl),
               h, Answering(via, request, user, client, refresh))
          .(hist := s.hist.(scopes := s.hist.scopes[refresh := scope]),
            notes := s.notes.(issues := s.notes.issues[refresh := LookupsVia(s.notes, h, via)]))
      case _ => s)
    case Answer(h) => (
      match Pc(s, h)
      case Answering(via, request, user, client, refresh) =>
        Goto(s, h, Idle).(hist := s.hist.(uses := s.hist.uses + {Use(h, via, request, user, client, refresh)}))
      case _ => s)
  }

  /** The device grant outside `as_callback`. */
  function NextDevice(cfg: Config, s: State, l: DeviceStep): State {
    match l
    case AskDevice(h, client) =>
      if h in s.handlers then s
      else (
        match Read(s, Key(ClientKind, client))
        case Some(Client(_)) => Goto(s, h, DeviceClientSeen(client))
        case _ => Goto(s, h, Idle))
    case ParkDevice(h, device, userCode) => (
      match Pc(s, h)
      case DeviceClientSeen(client) =>
        if device in s.issued then s
        else
          Goto(PutFresh(s, Key(DeviceKind, device), Device(client, userCode, Waiting, None), DEVICE_TTL), h, DeviceParked(device, userCode))
          .(hist := s.hist.(devices := s.hist.devices[device := DeviceOpening(client, s.now)]))
      case _ => s)
    case IndexDevice(h) => (
      match Pc(s, h)
      case DeviceParked(device, userCode) => Goto(Put(s, Key(UserCodeKind, userCode), UserCode(device), DEVICE_TTL), h, Idle)
      case _ => s)
    case Confirm(h, userCode) =>
      if h in s.handlers then s
      else (
        match Read(s, Key(UserCodeKind, userCode))
        case Some(UserCode(device)) => Goto(s, h, DeviceConfirmed(device))
        case _ => Goto(s, h, Idle))
    case OpenForDevice(h, id) => (
      match Pc(s, h)
      case DeviceConfirmed(device) =>
        if id in s.issued then s
        else
          Goto(PutFresh(s, Key(PendingKind, id), Pending(Request(id, FromDevice(device), [cfg.audience], None)), PENDING_TTL), h, Idle)
          .(hist := s.hist.(confirmed := s.hist.confirmed[id := device]))
      case _ => s)
    case PollDevice(h, device, client) =>
      if h in s.handlers then s
      else (
        match Read(s, Key(DeviceKind, device))
        case Some(Device(owner, _, status, _)) =>
          if owner != client || status == Waiting then Goto(s, h, Idle)
          else if status == Denied then Goto(s, h, DeviceRefused(device))
          else Goto(s, h, DevicePolled(device, client))
        case _ => Goto(s, h, Idle))
    case TakeDevice(h) => (
      match Pc(s, h)
      case DeviceRefused(device) => Goto(Drop(s, Key(DeviceKind, device)), h, Idle)
      case DevicePolled(device, client) => (
        var k := Key(DeviceKind, device);
        match Read(s, k)
        case Some(Device(_, _, _, Some(user))) =>
          Goto(Drop(s, k), h, Issuing(ByDevice(device), device, user, client, cfg.audience))
        case _ => Goto(Drop(s, k), h, Idle))
      case _ => s)
  }

  /** The state after a run. */
  function Exec(cfg: Config, s: State, run: seq<Label>): State
    decreases |run|
  {
    if run == [] then s else Exec(cfg, Next(cfg, s, run[0]), run[1..])
  }
}
