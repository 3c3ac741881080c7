/** The consent chain inside the interleaved server: at every hop the services already dealt with and those
    still to come make up the original list, so a service named once is visited at most once. */
module OAuthConsent {
  import opened Prelude
  import opened DeadlineMap
  import opened Scopes
  import opened OAuthServer
  import opened OAuthLinear
  import opened OAuthProvenance
  import Consent

  /** Before the services are listed the request has no list yet. */
  ghost predicate Unlisted(hist: History, req: Request) {
    req.id !in hist.todos
  }

  /** Between listing and code: what was dealt with, then what is left. */
  ghost predicate Midway(hist: History, req: Request, visited: seq<string>, todo: seq<string>, sent: seq<string>) {
    && todo != []
    && req.id in hist.todos
    && visited + todo == hist.todos[req.id]
    && Subsequence(VisitsOf(hist, req.id), visited + sent)
  }

  ghost predicate RecordOnChain(hist: History, r: Record) {
    match r
    case Pending(req) => Unlisted(hist, req)
    case Chained(req, visited, todo) => todo != [] && Midway(hist, req, visited, todo, [todo[0]])
    case _ => true
  }

  ghost predicate HandlerOnChain(hist: History, pc: Handler) {
    match pc
    case AtDex(req) => Unlisted(hist, req)
    case LoginFailed(_, req) => Unlisted(hist, req)
    case Provisioning(req) => Unlisted(hist, req)
    case Approving(_, req) => Unlisted(hist, req)
    case ListingServices(req) => Unlisted(hist, req)
    case Hop(req, visited, todo) => Midway(hist, req, visited, todo, [])
    case ParkingAtBroker(req, visited, todo) => Midway(hist, req, visited, todo, [])
    case _ => true
  }

  /** No service is visited out of the order, or more often, than the list says; the list selects from the request. */
  ghost predicate VisitsFollowTheList(hist: History, id: Name) {
    id in hist.todos ==>
      && Subsequence(VisitsOf(hist, id), hist.todos[id])
      && id in hist.openings
      && Subsequence(hist.todos[id], hist.openings[id].scopes)
  }

  ghost predicate OnChain(s: State) {
    && (forall k :: k in s.db ==> RecordOnChain(s.hist, s.db[k].value))
    && (forall h :: h in s.handlers ==> HandlerOnChain(s.hist, s.handlers[h]))
    && (forall id :: VisitsFollowTheList(s.hist, id))
    && s.hist.todos.Keys <= s.issued
    && s.hist.visits.Keys <= s.hist.todos.Keys
  }

  /** What a step reads is where it should be on its chain. */
  ghost predicate LocallyOnChain(s: State, k: Key, h: nat) {
    && s.hist.todos.Keys <= s.issued
    && HandlerOnChain(s.hist, Pc(s, h))
    && (k in s.db ==> RecordOnChain(s.hist, s.db[k].value))
  }

  /** A step off the chain: lists and visits do not change, and what it writes is not on a chain it should not be on. */
  ghost predicate StaysOffChain(s: State, t: State, k: Key, h: nat) {
    && t.hist.todos == s.hist.todos && t.hist.visits == s.hist.visits && s.issued <= t.issued
    && (Written(s, t, k) ==> RecordOnChain(t.hist, t.db[k].value))
    && HandlerOnChain(t.hist, Pc(t, h))
  }

  lemma OffChain(s: State, t: State, k: Key, h: nat)
    requires OnChain(s) && OneWrite(s, t, k, h) && StaysOffChain(s, t, k, h)
    requires SubMap(s.hist.openings, t.hist.openings)
    ensures OnChain(t)
  {
    forall j | j in t.db ensures RecordOnChain(t.hist, t.db[j].value) {
      if j in s.db && s.db[j] == t.db[j] {
        assert RecordOnChain(s.hist, s.db[j].value);
      }
    }
    forall g | g in t.handlers ensures HandlerOnChain(t.hist, t.handlers[g]) {
      if g != h {
        assert HandlerOnChain(s.hist, s.handlers[g]);
      }
    }
    forall id ensures VisitsFollowTheList(t.hist, id) {
      assert VisitsFollowTheList(s.hist, id);
    }
  }

  /** A request in a handler's hands is met nowhere else. */
  lemma HeldAlone(s: State, h: nat, id: Name)
    requires Linear(s) && Ownership(id) in TokensAt(s, InHand(h))
    ensures forall k :: k in s.db ==> Ownership(id) !in RecordTokens(k, s.db[k].value)
    ensures forall g :: g in s.handlers && g != h ==> Ownership(id) !in HandlerTokens(s.handlers[g])
  {
    forall k | k in s.db ensures Ownership(id) !in RecordTokens(k, s.db[k].value) {
      assert Ownership(id) in TokensAt(s, InStore(k)) ==> InStore(k) == InHand(h);
    }
    forall g | g in s.handlers && g != h ensures Ownership(id) !in HandlerTokens(s.handlers[g]) {
      assert Ownership(id) in TokensAt(s, InHand(g)) ==> InHand(g) == InHand(h);
    }
  }

  /** A change to the list and visits of one request leaves every other request on its chain. */
  lemma OtherRecordKept(a: History, b: History, id: Name, k: Key, r: Record)
    requires RecordOnChain(a, r) && Ownership(id) !in RecordTokens(k, r)
    requires forall i :: i != id ==> (i in b.todos <==> i in a.todos) && VisitsOf(b, i) == VisitsOf(a, i)
    requires forall i :: i != id && i in a.todos ==> b.todos[i] == a.todos[i]
    ensures RecordOnChain(b, r)
  {
  }

  lemma OtherHandlerKept(a: History, b: History, id: Name, pc: Handler)
    requires HandlerOnChain(a, pc) && Ownership(id) !in HandlerTokens(pc)
    requires forall i :: i != id ==> (i in b.todos <==> i in a.todos) && VisitsOf(b, i) == VisitsOf(a, i)
    requires forall i :: i != id && i in a.todos ==> b.todos[i] == a.todos[i]
    ensures HandlerOnChain(b, pc)
  {
  }

  lemma ListServicesKeepsChain(cfg: Config, s: State, l: ConsentStep)
    requires l.ListServices? && OnChain(s) && Linear(s) && Known(s) && Traced(cfg, s)
    ensures OnChain(NextConsent(cfg, s, l))
  {
    var pc := Pc(s, l.h);
    if pc.ListingServices? && |l.projections| == |pc.req.scopes| {
      var todo := Consent.Ungranted(cfg.services, pc.req.scopes, l.projections);
      assert Ownership(pc.req.id) in TokensAt(s, InHand(l.h));
      assert HandlerOk(cfg, s.hist, pc);
      assert TokenName(Ownership(pc.req.id)) in s.issued;
      Consent.UngrantedSelects(cfg.services, pc.req.scopes, l.projections);
      ListingKeepsChain(s, NextConsent(cfg, s, l), l.h, pc.req, todo);
    }
  }

  lemma ListingKeepsChain(s: State, t: State, h: nat, req: Request, todo: seq<string>)
    requires OnChain(s) && Linear(s) && Ownership(req.id) in TokensAt(s, InHand(h)) && req.id in s.issued
    requires req.id in s.hist.openings && Subsequence(todo, s.hist.openings[req.id].scopes)
    requires t.db == s.db && t.issued == s.issued
    requires t.handlers == s.handlers[h := if todo != [] then Hop(req, [], todo) else Finishing(req)]
    requires t.hist == s.hist.(todos := s.hist.todos[req.id := todo], visits := s.hist.visits[req.id := []])
    ensures OnChain(t)
  {
    HeldAlone(s, h, req.id);
    forall k | k in t.db ensures RecordOnChain(t.hist, t.db[k].value) {
      OtherRecordKept(s.hist, t.hist, req.id, k, s.db[k].value);
    }
    forall g | g in t.handlers ensures HandlerOnChain(t.hist, t.handlers[g]) {
      if g == h {
        assert [] + todo == todo;
      } else {
        OtherHandlerKept(s.hist, t.hist, req.id, s.handlers[g]);
      }
    }
    forall i ensures VisitsFollowTheList(t.hist, i) {
      assert VisitsFollowTheList(s.hist, i);
    }
  }

  lemma ParkKeepsChain(cfg: Config, s: State, l: ConsentStep)
    requires l.Park? && OnChain(s) && Linear(s) && Known(s)
    ensures OnChain(NextConsent(cfg, s, l))
  {
    var t := NextConsent(cfg, s, l);
    var pc := Pc(s, l.h);
    if pc.ParkingAtBroker? && l.chain !in s.issued && pc.todo != [] {
      var id := pc.req.id;
      var sent := VisitsOf(s.hist, id);
      assert Ownership(id) in TokensAt(s, InHand(l.h));
      HeldAlone(s, l.h, id);
      assert pc.visited + [] == pc.visited;
      SubsequenceSnoc(sent, pc.visited, pc.todo[0]);
      assert VisitsOf(t.hist, id) == sent + [pc.todo[0]];
      PrefixIsSelection(pc.visited + [pc.todo[0]], pc.todo[1..]);
      assert pc.visited + [pc.todo[0]] + pc.todo[1..] == pc.visited + pc.todo;
      SubsequenceTransitive(VisitsOf(t.hist, id), pc.visited + [pc.todo[0]], s.hist.todos[id]);
      forall k | k in t.db ensures RecordOnChain(t.hist, t.db[k].value) {
        if k != Key(ChainKind, l.chain) {
          OtherRecordKept(s.hist, t.hist, id, k, s.db[k].value);
        }
      }
      forall g | g in t.handlers ensures HandlerOnChain(t.hist, t.handlers[g]) {
        if g != l.h {
          OtherHandlerKept(s.hist, t.hist, id, s.handlers[g]);
        }
      }
      forall i ensures VisitsFollowTheList(t.hist, i) {
        assert VisitsFollowTheList(s.hist, i);
      }
    }
  }

  lemma {:induction false} PrefixIsSelection<T>(a: seq<T>, b: seq<T>)
    ensures Subsequence(a, a + b)
  {
    if a != [] {
      PrefixIsSelection(a[1..], b);
      assert (a + b)[1..] == a[1..] + b;
    }
  }

  /** Dealing with the head of the list, whether the user was sent there or not. */
  lemma AfterServiceOnChain(hist: History, req: Request, visited: seq<string>, todo: seq<string>, sent: seq<string>)
    requires Midway(hist, req, visited, todo, sent) && (sent == [] || sent == [todo[0]])
    ensures HandlerOnChain(hist, AfterService(req, visited, todo))
  {
    assert visited + [todo[0]] + todo[1..] == visited + todo;
    assert visited + [] == visited && visited + [todo[0]] + [] == visited + [todo[0]];
    if sent == [] {
      PrefixIsSelection(visited, [todo[0]]);
      SubsequenceTransitive(VisitsOf(hist, req.id), visited, visited + [todo[0]]);
    }
  }

  lemma TryBrokerKeepsChain(cfg: Config, s: State, l: ConsentStep)
    requires l.TryBroker? && OnChain(s) && Covered(s)
    ensures OnChain(NextConsent(cfg, s, l))
  {
    var pc := Pc(s, l.h);
    if pc.Hop? && pc.todo != [] {
      AfterServiceOnChain(s.hist, pc.req, pc.visited, pc.todo, []);
    }
    ConsentWritesOnce(cfg, s, l);
    OffChain(s, NextConsent(cfg, s, l), ConsentKey(l), l.h);
  }

  lemma BrokerCallbackKeepsChain(cfg: Config, s: State, l: ConsentStep)
    requires l.BrokerCallback? && OnChain(s) && Covered(s)
    ensures OnChain(NextConsent(cfg, s, l))
  {
    var r := Read(s, Key(ChainKind, l.chain));
    if r.Some? && r.value.Chained? && r.value.todo != [] {
      AfterServiceOnChain(s.hist, r.value.req, r.value.visited, r.value.todo, [r.value.todo[0]]);
    }
    ConsentWritesOnce(cfg, s, l);
    OffChain(s, NextConsent(cfg, s, l), ConsentKey(l), l.h);
  }

  lemma ConsentKeepsChain(cfg: Config, s: State, l: ConsentStep)
    requires OnChain(s) && Linear(s) && Known(s) && Traced(cfg, s)
    ensures OnChain(NextConsent(cfg, s, l))
  {
    match l {
      case ListServices(_, _) => ListServicesKeepsChain(cfg, s, l);
      case Park(_, _) => ParkKeepsChain(cfg, s, l);
      case TryBroker(_, _) => TryBrokerKeepsChain(cfg, s, l);
      case BrokerCallback(_, _) => BrokerCallbackKeepsChain(cfg, s, l);
      case Filter(_, _) => FilterKeepsChain(cfg, s, l);
      case IssueCode(_, _) => IssueCodeKeepsChain(cfg, s, l);
    }
  }

  lemma FilterKeepsChain(cfg: Config, s: State, l: ConsentStep)
    requires l.Filter? && OnChain(s)
    ensures OnChain(NextConsent(cfg, s, l))
  {
    ConsentWritesOnce(cfg, s, l);
    var t := NextConsent(cfg, s, l);
    assert t.hist == s.hist && t.db == s.db && t.issued == s.issued;
    OffChain(s, t, ConsentKey(l), l.h);
  }

  lemma IssueCodeKeepsChain(cfg: Config, s: State, l: ConsentStep)
    requires l.IssueCode? && OnChain(s)
    ensures OnChain(NextConsent(cfg, s, l))
  {
    ConsentWritesOnce(cfg, s, l);
    var t := NextConsent(cfg, s, l);
    assert t.hist.openings == s.hist.openings;
    OffChain(s, t, ConsentKey(l), l.h);
  }

  lemma AuthorizeKeepsChain(cfg: Config, s: State, l: AuthorizeStep)
    requires OnChain(s) && Covered(s)
    ensures OnChain(NextAuthorize(cfg, s, l))
  {
    AuthorizeRemembers(cfg, s, l);
    AuthorizeWritesOnce(cfg, s, l);
    OffChain(s, NextAuthorize(cfg, s, l), AuthorizeKey(s, l), l.h);
  }

  lemma SettlingStaysOffChain(s: State, l: CallbackStep)
    requires (l.Deny? || l.Approve?) && LocallyOnChain(s, CallbackKey(s, l), l.h)
    ensures StaysOffChain(s, NextCallback(s, l), CallbackKey(s, l), l.h)
  {
  }

  lemma CallbackWritesOffChain(s: State, l: CallbackStep)
    requires LocallyOnChain(s, CallbackKey(s, l), l.h)
    ensures StaysOffChain(s, NextCallback(s, l), CallbackKey(s, l), l.h)
  {
    if l.Deny? || l.Approve? {
      SettlingStaysOffChain(s, l);
    }
  }

  lemma CallbackKeepsChain(cfg: Config, s: State, l: CallbackStep)
    requires OnChain(s) && Covered(s)
    ensures OnChain(NextCallback(s, l))
  {
    CallbackRemembers(s, l);
    CallbackWritesOnce(s, l);
    CallbackWritesOffChain(s, l);
    OffChain(s, NextCallback(s, l), CallbackKey(s, l), l.h);
  }

  lemma TokenStoresOffChain(cfg: Config, s: State, l: TokenStep)
    requires l.Redeem? || l.TakeRefresh? || l.StoreRefresh?
    requires LocallyOnChain(s, TokenKey(s, l), l.h)
    ensures StaysOffChain(s, NextToken(cfg, s, l), TokenKey(s, l), l.h)
  {
  }

  lemma TokenMovesOffChain(cfg: Config, s: State, l: TokenStep)
    requires !(l.Redeem? || l.TakeRefresh? || l.StoreRefresh?)
    requires LocallyOnChain(s, TokenKey(s, l), l.h)
    ensures StaysOffChain(s, NextToken(cfg, s, l), TokenKey(s, l), l.h)
  {
  }

  lemma TokenWritesOffChain(cfg: Config, s: State, l: TokenStep)
    requires LocallyOnChain(s, TokenKey(s, l), l.h)
    ensures StaysOffChain(s, NextToken(cfg, s, l), TokenKey(s, l), l.h)
  {
    if l.Redeem? || l.TakeRefresh? || l.StoreRefresh? {
      TokenStoresOffChain(cfg, s, l);
    } else {
      TokenMovesOffChain(cfg, s, l);
    }
  }

  lemma TokenKeepsChain(cfg: Config, s: State, l: TokenStep)
    requires OnChain(s) && Covered(s)
    ensures OnChain(NextToken(cfg, s, l))
  {
    TokenRemembers(cfg, s, l);
    TokenWritesOnce(cfg, s, l);
    TokenWritesOffChain(cfg, s, l);
    OffChain(s, NextToken(cfg, s, l), TokenKey(s, l), l.h);
  }

  lemma DeviceStoresOffChain(cfg: Config, s: State, l: DeviceStep)
    requires l.ParkDevice? || l.OpenForDevice? || l.IndexDevice?
    requires LocallyOnChain(s, DeviceKey(s, l), l.h)
    ensures StaysOffChain(s, NextDevice(cfg, s, l), DeviceKey(s, l), l.h)
  {
  }

  lemma DeviceTakesOffChain(cfg: Config, s: State, l: DeviceStep)
    requires l.PollDevice? || l.TakeDevice?
    requires LocallyOnChain(s, DeviceKey(s, l), l.h)
    ensures StaysOffChain(s, NextDevice(cfg, s, l), DeviceKey(s, l), l.h)
  {
  }

  lemma DeviceMovesOffChain(cfg: Config, s: State, l: DeviceStep)
    requires l.AskDevice? || l.Confirm?
    requires LocallyOnChain(s, DeviceKey(s, l), l.h)
    ensures StaysOffChain(s, NextDevice(cfg, s, l), DeviceKey(s, l), l.h)
  {
  }

  lemma DeviceWritesOffChain(cfg: Config, s: State, l: DeviceStep)
    requires LocallyOnChain(s, DeviceKey(s, l), l.h)
    ensures StaysOffChain(s, NextDevice(cfg, s, l), DeviceKey(s, l), l.h)
  {
    if l.ParkDevice? || l.OpenForDevice? || l.IndexDevice? {
      DeviceStoresOffChain(cfg, s, l);
    } else if l.PollDevice? || l.TakeDevice? {
      DeviceTakesOffChain(cfg, s, l);
    } else {
      DeviceMovesOffChain(cfg, s, l);
    }
  }

  lemma DeviceKeepsChain(cfg: Config, s: State, l: DeviceStep)
    requires OnChain(s) && Covered(s)
    ensures OnChain(NextDevice(cfg, s, l))
  {
    DeviceRemembers(cfg, s, l);
    DeviceWritesOnce(cfg, s, l);
    DeviceWritesOffChain(cfg, s, l);
    OffChain(s, NextDevice(cfg, s, l), DeviceKey(s, l), l.h);
  }

  lemma RegisterKeepsChain(cfg: Config, s: State, l: Label)
    requires l.Register? && OnChain(s)
    ensures OnChain(Next(cfg, s, l))
  {
    OffChain(s, Next(cfg, s, l), Key(ClientKind, l.client), 0);
  }

  lemma StepKeepsChain(cfg: Config, s: State, l: Label)
    requires OnChain(s) && Linear(s) && Known(s) && Traced(cfg, s)
    ensures OnChain(Next(cfg, s, l))
  {
    match l {
      case Tick(_) => OffChain(s, Next(cfg, s, l), Key(ClientKind, 0), 0);
      case Register(_, _) => RegisterKeepsChain(cfg, s, l);
      case OnAuthorize(step) => AuthorizeKeepsChain(cfg, s, step);
      case OnCallback(step) => CallbackKeepsChain(cfg, s, step);
      case OnConsent(step) => ConsentKeepsChain(cfg, s, step);
      case OnToken(step) => TokenKeepsChain(cfg, s, step);
      case OnDevice(step) => DeviceKeepsChain(cfg, s, step);
    }
  }

  lemma {:induction false} RunKeepsChain(cfg: Config, s: State, run: seq<Label>)
    requires OnChain(s) && Linear(s) && Known(s) && Traced(cfg, s) && IsWord(cfg.audience)
    ensures OnChain(Exec(cfg, s, run))
    decreases |run|
  {
    if run != [] {
      StepKeepsChain(cfg, s, run[0]);
      StepKeepsLinear(cfg, s, run[0]);
      StepKeepsTraced(cfg, s, run[0]);
      RunKeepsChain(cfg, Next(cfg, s, run[0]), run[1..]);
    }
  }

  /** In every interleaving the brokers a request was sent to are a selection, in order, of the scopes it asked
      for; asked for without repetition, none is visited twice. */
  lemma EachServiceIsVisitedInOrder(cfg: Config, now: Time, run: seq<Label>, id: Name)
    requires IsWord(cfg.audience)
    ensures var s := Exec(cfg, Init(now), run);
            id in s.hist.visits ==>
              && id in s.hist.openings
              && Subsequence(s.hist.visits[id], s.hist.openings[id].scopes)
              && (Distinct(s.hist.openings[id].scopes) ==> Distinct(s.hist.visits[id]))
  {
    var s := Exec(cfg, Init(now), run);
    RunKeepsChain(cfg, Init(now), run);
    assert VisitsFollowTheList(s.hist, id);
    if id in s.hist.visits {
      SubsequenceTransitive(s.hist.visits[id], s.hist.todos[id], s.hist.openings[id].scopes);
      if Distinct(s.hist.openings[id].scopes) {
        Consent.SelectionsStayDistinct(s.hist.visits[id], s.hist.openings[id].scopes);
      }
    }
  }
}
