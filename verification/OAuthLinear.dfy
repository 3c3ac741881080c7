/** Credentials are linear: in every interleaving each request, code, refresh token and device code is in
    one place at a time, so each is turned into a token pair at most once. */
module OAuthLinear {
  import opened Prelude
  import opened DeadlineMap
  import opened OAuthServer

  /** A right that must never be duplicated: carrying a request on, presenting a credential, getting the request's code. */
  datatype Token =
    | Ownership(request: Name)
    | Credential(key: Key)
    | CodeRight(request: Name)

  /** Where a right can be: in the store, with a handler that popped it, or used up. */
  datatype Place =
    | InStore(key: Key)
    | InHand(h: nat)
    | UsedUp(use: Use)
    | CodeIssued(issue: (Name, Name))

  function TokenName(t: Token): Name {
    match t
    case Ownership(n) => n
    case Credential(k) => k.name
    case CodeRight(n) => n
  }

  function ViaKey(via: Via): Key {
    match via
    case ByCode(code, _, _) => Key(CodeKind, code)
    case ByRefresh(previous) => Key(RefreshKind, previous)
    case ByDevice(device) => Key(DeviceKind, device)
  }

  function RecordTokens(k: Key, r: Record): set<Token> {
    match r
    case Client(_) => {}
    case UserCode(_) => {}
    case Pending(req) => {Ownership(req.id), CodeRight(req.id)}
    case Chained(req, _, _) => {Ownership(req.id), CodeRight(req.id)}
    case Code(req, _) => {Ownership(req.id), Credential(k)}
    case Refresh(request, _, _, _) => {Ownership(request), Credential(k)}
    case Device(_, _, _, _) => {Ownership(k.name), Credential(k)}
  }

  function Carrying(req: Request): set<Token> {
    {Ownership(req.id), CodeRight(req.id)}
  }

  function HandlerTokens(pc: Handler): set<Token> {
    match pc
    case AtDex(req) => Carrying(req)
    case LoginFailed(_, req) => Carrying(req)
    case Provisioning(req) => Carrying(req)
    case Approving(_, req) => Carrying(req)
    case ListingServices(req) => Carrying(req)
    case Hop(req, _, _) => Carrying(req)
    case ParkingAtBroker(req, _, _) => Carrying(req)
    case Finishing(req) => Carrying(req)
    case CodeReady(req, _) => Carrying(req)
    case Rescoping(via, request, _, _, _) => {Ownership(request), Credential(ViaKey(via))}
    case Issuing(via, request, _, _, _) => {Ownership(request), Credential(ViaKey(via))}
    case Answering(via, _, _, _, _) => {Credential(ViaKey(via))}
    case _ => {}
  }

  function TokensAt(s: State, p: Place): set<Token> {
    match p
    case InStore(k) => if k in s.db then RecordTokens(k, s.db[k].value) else {}
    case InHand(h) => HandlerTokens(Pc(s, h))
    case UsedUp(use) => if use in s.hist.uses then {Credential(ViaKey(use.via))} else {}
    case CodeIssued(issue) => if issue in s.hist.codes then {CodeRight(issue.0)} else {}
  }

  ghost predicate Linear(s: State) {
    forall p, q, t :: t in TokensAt(s, p) && t in TokensAt(s, q) ==> p == q
  }

  /** No right carries a name that was never drawn. */
  ghost predicate Known(s: State) {
    forall p, t :: t in TokensAt(s, p) ==> TokenName(t) in s.issued
  }

  ghost predicate OnePlaceEach(f: Place -> set<Token>) {
    forall p, q, x :: x in f(p) && x in f(q) ==> p == q
  }

  /** Rights move from `src` to `a` and `b`, each to one of them, together with fresh ones. */
  lemma MovesKeepOnePlaceEach(f: Place -> set<Token>, g: Place -> set<Token>, drawn: set<Name>, src: Place, a: Place, b: Place)
    requires OnePlaceEach(f)
    requires forall p, x :: x in f(p) ==> TokenName(x) in drawn
    requires forall p :: p != a && p != b ==> g(p) <= f(p)
    requires forall x :: x in g(a) || x in g(b) ==> x in f(src) || TokenName(x) !in drawn
    requires a != b ==> g(a) !! g(b)
    requires src != a && src != b ==> g(src) == {}
    ensures OnePlaceEach(g)
  {
    forall p, q, x | x in g(p) && x in g(q) ensures p == q {
      if p != a && p != b {
        assert x in f(p);
      }
      if q != a && q != b {
        assert x in f(q);
      }
    }
  }

  lemma Transfer(s: State, t: State, src: Place, a: Place, b: Place)
    requires Linear(s) && Known(s) && s.issued <= t.issued
    requires forall p :: p != a && p != b ==> TokensAt(t, p) <= TokensAt(s, p)
    requires forall x :: x in TokensAt(t, a) || x in TokensAt(t, b) ==>
                           x in TokensAt(s, src) || (TokenName(x) !in s.issued && TokenName(x) in t.issued)
    requires a != b ==> TokensAt(t, a) !! TokensAt(t, b)
    requires src != a && src != b ==> TokensAt(t, src) == {}
    ensures Linear(t) && Known(t)
  {
    var f := p => TokensAt(s, p);
    var g := p => TokensAt(t, p);
    MovesKeepOnePlaceEach(f, g, s.issued, src, a, b);
    forall p, q, x | x in TokensAt(t, p) && x in TokensAt(t, q) ensures p == q {
      assert x in g(p) && x in g(q);
    }
    forall p, x | x in TokensAt(t, p) ensures TokenName(x) in t.issued {
      if p != a && p != b {
        assert x in TokensAt(s, p);
      }
    }
  }

  /** Rights only leave places. */
  lemma Shrink(s: State, t: State)
    requires Linear(s) && Known(s) && s.issued <= t.issued
    requires forall p :: TokensAt(t, p) <= TokensAt(s, p)
    ensures Linear(t) && Known(t)
  {
    forall p, q, x | x in TokensAt(t, p) && x in TokensAt(t, q) ensures p == q {
      assert x in TokensAt(s, p) && x in TokensAt(s, q);
    }
    forall p, x | x in TokensAt(t, p) ensures TokenName(x) in t.issued {
      assert x in TokensAt(s, p);
    }
  }

  lemma AuthorizeKeepsLinear(cfg: Config, s: State, l: AuthorizeStep)
    requires Linear(s) && Known(s)
    ensures var t := NextAuthorize(cfg, s, l); Linear(t) && Known(t)
  {
    var t := NextAuthorize(cfg, s, l);
    match l {
      case Open(h, id) =>
        if t == s { return; }
        Transfer(s, t, InHand(h), InStore(Key(PendingKind, id)), InStore(Key(PendingKind, id)));
      case _ => Shrink(s, t);
    }
  }

  lemma SettleKeepsLinear(s: State, device: Name, status: Status, sub: Option<string>, h: nat, hist: History)
    requires Linear(s) && Known(s) && Settle(s, device, status, sub).Some?
    requires hist.uses == s.hist.uses && hist.codes == s.hist.codes
    ensures var t := Goto(Settle(s, device, status, sub).value, h, Idle).(hist := hist); Linear(t) && Known(t)
  {
    Shrink(s, Goto(Settle(s, device, status, sub).value, h, Idle).(hist := hist));
  }

  lemma CallbackKeepsLinear(s: State, l: CallbackStep)
    requires Linear(s) && Known(s)
    ensures var t := NextCallback(s, l); Linear(t) && Known(t)
  {
    var t := NextCallback(s, l);
    match l {
      case Callback(h, id) =>
        if h in s.handlers { return; }
        Transfer(s, t, InStore(Key(PendingKind, id)), InHand(h), InHand(h));
      case Deny(h) =>
        if Pc(s, h).LoginFailed? && Settle(s, Pc(s, h).device, Denied, None).Some? {
          SettleKeepsLinear(s, Pc(s, h).device, Denied, None, h, t.hist);
        } else {
          Shrink(s, t);
        }
      case Approve(h) =>
        if Pc(s, h).Approving? && Settle(s, Pc(s, h).device, Approved, Pc(s, h).req.sub).Some? {
          SettleKeepsLinear(s, Pc(s, h).device, Approved, Pc(s, h).req.sub, h, t.hist);
        } else {
          Shrink(s, t);
        }
      case DexAnswers(_, _) => Shrink(s, t);
      case Provision(_, _) => Shrink(s, t);
    }
  }

  lemma ParkKeepsLinear(cfg: Config, s: State, l: ConsentStep)
    requires Linear(s) && Known(s) && (l.Park? || l.BrokerCallback?)
    ensures var t := NextConsent(cfg, s, l); Linear(t) && Known(t)
  {
    var t := NextConsent(cfg, s, l);
    var parked := InStore(Key(ChainKind, l.chain));
    if t == s {
    } else if l.Park? {
      Transfer(s, t, InHand(l.h), parked, parked);
    } else {
      Transfer(s, t, parked, InHand(l.h), InHand(l.h));
    }
  }

  lemma ConsentKeepsLinear(cfg: Config, s: State, l: ConsentStep)
    requires Linear(s) && Known(s)
    ensures var t := NextConsent(cfg, s, l); Linear(t) && Known(t)
  {
    var t := NextConsent(cfg, s, l);
    match l {
      case Park(_, _) => ParkKeepsLinear(cfg, s, l);
      case BrokerCallback(_, _) => ParkKeepsLinear(cfg, s, l);
      case IssueCode(h, code) =>
        if t == s { return; }
        Transfer(s, t, InHand(h), InStore(Key(CodeKind, code)), CodeIssued((Pc(s, h).req.id, code)));
      case _ => Shrink(s, t);
    }
  }

  lemma RedeemKeepsLinear(cfg: Config, s: State, l: TokenStep)
    requires Linear(s) && Known(s) && l.Redeem?
    ensures var t := NextToken(cfg, s, l); Linear(t) && Known(t)
  {
    if l.h !in s.handlers {
      Transfer(s, NextToken(cfg, s, l), InStore(Key(CodeKind, l.code)), InHand(l.h), InHand(l.h));
    }
  }

  lemma TakeRefreshKeepsLinear(cfg: Config, s: State, l: TokenStep)
    requires Linear(s) && Known(s) && l.TakeRefresh?
    ensures var t := NextToken(cfg, s, l); Linear(t) && Known(t)
  {
    var pc := Pc(s, l.h);
    if pc.UserLookedUp? {
      Transfer(s, NextToken(cfg, s, l), InStore(Key(RefreshKind, pc.presented)), InHand(l.h), InHand(l.h));
    }
  }

  lemma StoreRefreshKeepsLinear(cfg: Config, s: State, l: TokenStep)
    requires Linear(s) && Known(s) && l.StoreRefresh?
    ensures var t := NextToken(cfg, s, l); Linear(t) && Known(t)
  {
    if Pc(s, l.h).Issuing? && l.refresh !in s.issued {
      var t := NextToken(cfg, s, l);
      var via := Pc(s, l.h).via;
      var k := Key(RefreshKind, l.refresh);
      assert Credential(ViaKey(via)) in TokensAt(s, InHand(l.h));
      assert TokenName(Credential(ViaKey(via))) in s.issued;
      assert TokensAt(t, InHand(l.h)) == {Credential(ViaKey(via))};
      assert TokensAt(t, InStore(k)) == {Ownership(Pc(s, l.h).request), Credential(k)};
      Transfer(s, t, InHand(l.h), InHand(l.h), InStore(k));
    }
  }

  lemma AnswerKeepsLinear(cfg: Config, s: State, l: TokenStep)
    requires Linear(s) && Known(s) && l.Answer?
    ensures var t := NextToken(cfg, s, l); Linear(t) && Known(t)
  {
    var pc := Pc(s, l.h);
    if pc.Answering? {
      var used := UsedUp(Use(l.h, pc.via, pc.request, pc.user, pc.client, pc.refresh));
      Transfer(s, NextToken(cfg, s, l), InHand(l.h), used, used);
    }
  }

  lemma TokenKeepsLinear(cfg: Config, s: State, l: TokenStep)
    requires Linear(s) && Known(s)
    ensures var t := NextToken(cfg, s, l); Linear(t) && Known(t)
  {
    match l {
      case Redeem(_, _, _, _, _) => RedeemKeepsLinear(cfg, s, l);
      case TakeRefresh(_) => TakeRefreshKeepsLinear(cfg, s, l);
      case StoreRefresh(_, _) => StoreRefreshKeepsLinear(cfg, s, l);
      case Answer(_) => AnswerKeepsLinear(cfg, s, l);
      case _ => Shrink(s, NextToken(cfg, s, l));
    }
  }

  lemma TakeDeviceKeepsLinear(cfg: Config, s: State, l: DeviceStep)
    requires Linear(s) && Known(s) && l.TakeDevice?
    ensures var t := NextDevice(cfg, s, l); Linear(t) && Known(t)
  {
    var pc := Pc(s, l.h);
    if pc.DevicePolled? {
      Transfer(s, NextDevice(cfg, s, l), InStore(Key(DeviceKind, pc.device)), InHand(l.h), InHand(l.h));
    } else {
      Shrink(s, NextDevice(cfg, s, l));
    }
  }

  lemma OpenForDeviceKeepsLinear(cfg: Config, s: State, l: DeviceStep)
    requires Linear(s) && Known(s) && l.OpenForDevice?
    ensures var t := NextDevice(cfg, s, l); Linear(t) && Known(t)
  {
    var t := NextDevice(cfg, s, l);
    if t != s {
      Transfer(s, t, InHand(l.h), InStore(Key(PendingKind, l.id)), InStore(Key(PendingKind, l.id)));
    }
  }

  lemma DeviceKeepsLinear(cfg: Config, s: State, l: DeviceStep)
    requires Linear(s) && Known(s)
    ensures var t := NextDevice(cfg, s, l); Linear(t) && Known(t)
  {
    var t := NextDevice(cfg, s, l);
    match l {
      case ParkDevice(h, device, _) =>
        if t == s { return; }
        Transfer(s, t, InHand(h), InStore(Key(DeviceKind, device)), InStore(Key(DeviceKind, device)));
      case OpenForDevice(_, _) => OpenForDeviceKeepsLinear(cfg, s, l);
      case TakeDevice(_) => TakeDeviceKeepsLinear(cfg, s, l);
      case _ => Shrink(s, t);
    }
  }

  lemma StepKeepsLinear(cfg: Config, s: State, l: Label)
    requires Linear(s) && Known(s)
    ensures var t := Next(cfg, s, l); Linear(t) && Known(t)
  {
    match l {
      case Tick(_) => Shrink(s, Next(cfg, s, l));
      case Register(_, _) => Shrink(s, Next(cfg, s, l));
      case OnAuthorize(step) => AuthorizeKeepsLinear(cfg, s, step);
      case OnCallback(step) => CallbackKeepsLinear(s, step);
      case OnConsent(step) => ConsentKeepsLinear(cfg, s, step);
      case OnToken(step) => TokenKeepsLinear(cfg, s, step);
      case OnDevice(step) => DeviceKeepsLinear(cfg, s, step);
    }
  }

  lemma {:induction false} RunKeepsLinear(cfg: Config, s: State, run: seq<Label>)
    requires Linear(s) && Known(s)
    ensures Linear(Exec(cfg, s, run)) && Known(Exec(cfg, s, run))
    decreases |run|
  {
    if run != [] {
      StepKeepsLinear(cfg, s, run[0]);
      RunKeepsLinear(cfg, Next(cfg, s, run[0]), run[1..]);
    }
  }

  /** In every interleaving from the empty store: no right is in two places, a credential is answered with at
      most one token pair, and a request gets at most one code. */
  lemma CredentialsAreLinear(cfg: Config, now: Time, run: seq<Label>)
    ensures var s := Exec(cfg, Init(now), run);
            && Linear(s)
            && (forall u, v :: u in s.hist.uses && v in s.hist.uses && ViaKey(u.via) == ViaKey(v.via) ==> u == v)
            && (forall u :: u in s.hist.uses ==> TokensAt(s, InStore(ViaKey(u.via))) !! {Credential(ViaKey(u.via))})
            && (forall a, b :: a in s.hist.codes && b in s.hist.codes && a.0 == b.0 ==> a == b)
  {
    var s := Exec(cfg, Init(now), run);
    RunKeepsLinear(cfg, Init(now), run);
    forall u, v | u in s.hist.uses && v in s.hist.uses && ViaKey(u.via) == ViaKey(v.via) ensures u == v {
      var x := Credential(ViaKey(u.via));
      assert x in TokensAt(s, UsedUp(u)) && x in TokensAt(s, UsedUp(v));
    }
    forall u | u in s.hist.uses ensures TokensAt(s, InStore(ViaKey(u.via))) !! {Credential(ViaKey(u.via))} {
      assert Credential(ViaKey(u.via)) in TokensAt(s, UsedUp(u));
    }
    forall a, b | a in s.hist.codes && b in s.hist.codes && a.0 == b.0 ensures a == b {
      assert CodeRight(a.0) in TokensAt(s, CodeIssued(a)) && CodeRight(b.0) in TokensAt(s, CodeIssued(b));
    }
  }
}
