/** The consent chain leaves nothing out: before a code is issued, every service that was asked for without a grant has been
    visited, unless its broker could not be reached. */
module OAuthVisits {
  import opened Prelude
  import opened DeadlineMap
  import opened Scopes
  import opened OAuthServer
  import opened OAuthLinear
  import opened OAuthProvenance
  import OAuthConsent
  import Consent

  /** Each of the services was visited, or its broker was tried and could not be reached. */
  ghost predicate DealtWith(hist: History, notes: Notes, id: Name, services: seq<string>) {
    forall x :: x in services ==> x in VisitsOf(hist, id) || x in SkipsOf(notes, id)
  }

  ghost predicate OnTheWay(hist: History, notes: Notes, id: Name, visited: seq<string>, todo: seq<string>) {
    id in hist.todos && visited + todo == hist.todos[id] && DealtWith(hist, notes, id, visited)
  }

  ghost predicate Through(hist: History, notes: Notes, id: Name) {
    id in hist.todos && DealtWith(hist, notes, id, hist.todos[id])
  }

  ghost predicate HandlerDealt(hist: History, notes: Notes, pc: Handler) {
    match pc
    case Hop(req, visited, todo) => OnTheWay(hist, notes, req.id, visited, todo)
    case ParkingAtBroker(req, visited, todo) => OnTheWay(hist, notes, req.id, visited, todo)
    case Finishing(req) => Through(hist, notes, req.id)
    case CodeReady(req, _) => Through(hist, notes, req.id)
    case _ => true
  }

  ghost predicate RecordDealt(hist: History, notes: Notes, r: Record) {
    match r
    case Chained(req, visited, todo) =>
      todo != [] && OnTheWay(hist, notes, req.id, visited, todo) && todo[0] in VisitsOf(hist, req.id)
    case _ => true
  }

  /** The list of a request holds what was found ungranted among the scopes it asked for. */
  ghost predicate ListIsWhatWasFound(cfg: Config, hist: History, notes: Notes, id: Name) {
    id in hist.todos ==>
      && id in notes.asked && id in hist.openings
      && |notes.asked[id]| == |hist.openings[id].scopes|
      && hist.todos[id] == Consent.Ungranted(cfg.services, hist.openings[id].scopes, notes.asked[id])
  }

  ghost predicate NothingLeftOut(cfg: Config, s: State) {
    && (forall k :: k in s.db ==> RecordDealt(s.hist, s.notes, s.db[k].value))
    && (forall h :: h in s.handlers ==> HandlerDealt(s.hist, s.notes, s.handlers[h]))
    && (forall c :: c in s.hist.codes ==> Through(s.hist, s.notes, c.0))
    && (forall id :: ListIsWhatWasFound(cfg, s.hist, s.notes, id))
  }

  /** Lists stay as they are; visits and skips are only added to. */
  ghost predicate GoesOn(s: State, t: State) {
    && t.hist.todos == s.hist.todos && t.notes.asked == s.notes.asked && SubMap(s.hist.openings, t.hist.openings)
    && (forall id, x :: x in VisitsOf(s.hist, id) ==> x in VisitsOf(t.hist, id))
    && (forall id, x :: x in SkipsOf(s.notes, id) ==> x in SkipsOf(t.notes, id))
  }

  ghost predicate LocallyDealt(s: State, k: Key, h: nat) {
    HandlerDealt(s.hist, s.notes, Pc(s, h)) && (k in s.db ==> RecordDealt(s.hist, s.notes, s.db[k].value))
  }

  ghost predicate StaysDealt(s: State, t: State, k: Key, h: nat) {
    && GoesOn(s, t)
    && HandlerDealt(t.hist, t.notes, Pc(t, h))
    && (Written(s, t, k) ==> RecordDealt(t.hist, t.notes, t.db[k].value))
    && (forall c :: c in t.hist.codes ==> c in s.hist.codes || Through(t.hist, t.notes, c.0))
  }

  lemma Frame(cfg: Config, s: State, t: State, k: Key, h: nat)
    requires NothingLeftOut(cfg, s) && OneWrite(s, t, k, h) && StaysDealt(s, t, k, h)
    ensures NothingLeftOut(cfg, t)
  {
    forall j | j in t.db ensures RecordDealt(t.hist, t.notes, t.db[j].value) {
      if j in s.db && s.db[j] == t.db[j] {
        assert RecordDealt(s.hist, s.notes, s.db[j].value);
      }
    }
    forall g | g in t.handlers ensures HandlerDealt(t.hist, t.notes, t.handlers[g]) {
      if g != h {
        assert HandlerDealt(s.hist, s.notes, s.handlers[g]);
      }
    }
    forall c | c in t.hist.codes ensures Through(t.hist, t.notes, c.0) {
      if c in s.hist.codes {
        assert Through(s.hist, s.notes, c.0);
      }
    }
    forall id ensures ListIsWhatWasFound(cfg, t.hist, t.notes, id) {
      assert ListIsWhatWasFound(cfg, s.hist, s.notes, id);
    }
  }

  // ---------------------------------------------------------------- steps off the chain

  predicate OnChain(pc: Handler) { pc.Hop? || pc.ParkingAtBroker? || pc.Finishing? || pc.CodeReady? }

  ghost predicate Aside(s: State, t: State, k: Key, h: nat) {
    && t.hist.todos == s.hist.todos && t.hist.visits == s.hist.visits && t.hist.codes == s.hist.codes
    && t.notes.asked == s.notes.asked && t.notes.skips == s.notes.skips && SubMap(s.hist.openings, t.hist.openings)
    && (Written(s, t, k) ==> !t.db[k].value.Chained?)
    && (Pc(t, h) == Pc(s, h) || !OnChain(Pc(t, h)))
  }

  lemma AsideKeepsDealt(cfg: Config, s: State, t: State, k: Key, h: nat)
    requires NothingLeftOut(cfg, s) && OneWrite(s, t, k, h) && Aside(s, t, k, h)
    ensures NothingLeftOut(cfg, t)
  {
    Frame(cfg, s, t, k, h);
  }

  lemma AuthorizeIsAside(cfg: Config, s: State, l: AuthorizeStep)
    requires Covered(s)
    ensures Aside(s, NextAuthorize(cfg, s, l), AuthorizeKey(s, l), l.h)
  {
  }

  lemma SettlingIsAside(s: State, l: CallbackStep)
    requires l.Deny? || l.Approve?
    ensures Aside(s, NextCallback(s, l), CallbackKey(s, l), l.h)
  {
  }

  lemma ProvisionIsAside(s: State, l: CallbackStep)
    requires l.Provision?
    ensures Aside(s, NextCallback(s, l), CallbackKey(s, l), l.h)
  {
  }

  lemma AnswersAreAside(s: State, l: CallbackStep)
    requires l.DexAnswers?
    ensures Aside(s, NextCallback(s, l), CallbackKey(s, l), l.h)
  {
  }

  lemma LoginIsAside(s: State, l: CallbackStep)
    requires l.Callback?
    ensures Aside(s, NextCallback(s, l), CallbackKey(s, l), l.h)
  {
  }

  lemma TakingIsAside(cfg: Config, s: State, l: TokenStep)
    requires l.Redeem? || l.TakeRefresh?
    ensures Aside(s, NextToken(cfg, s, l), TokenKey(s, l), l.h)
  {
  }

  lemma IssuingIsAside(cfg: Config, s: State, l: TokenStep)
    requires l.StoreRefresh? || l.Answer? || l.Rescope?
    ensures Aside(s, NextToken(cfg, s, l), TokenKey(s, l), l.h)
  {
  }

  lemma RefreshingIsAside(cfg: Config, s: State, l: TokenStep)
    requires l.AskRefresh? || l.Revalidate?
    ensures Aside(s, NextToken(cfg, s, l), TokenKey(s, l), l.h)
  {
  }

  lemma DecidingIsAside(cfg: Config, s: State, l: TokenStep)
    requires l.DropRefused? || l.LookUpUser?
    ensures Aside(s, NextToken(cfg, s, l), TokenKey(s, l), l.h)
  {
  }

  lemma OpeningIsAside(cfg: Config, s: State, l: DeviceStep)
    requires l.ParkDevice? || l.IndexDevice? || l.OpenForDevice?
    ensures Aside(s, NextDevice(cfg, s, l), DeviceKey(s, l), l.h)
  {
  }

  lemma PollingIsAside(cfg: Config, s: State, l: DeviceStep)
    requires l.AskDevice? || l.Confirm? || l.PollDevice? || l.TakeDevice?
    ensures Aside(s, NextDevice(cfg, s, l), DeviceKey(s, l), l.h)
  {
  }

  // ---------------------------------------------------------------- steps on the chain

  /** The list of the request is drawn up once: nothing else carries the request then. */
  lemma ListServicesKeepsDealt(cfg: Config, s: State, l: ConsentStep)
    requires l.ListServices? && NothingLeftOut(cfg, s) && Linear(s) && Traced(cfg, s)
    ensures NothingLeftOut(cfg, NextConsent(cfg, s, l))
  {
    var t, pc := NextConsent(cfg, s, l), Pc(s, l.h);
    if pc.ListingServices? && |l.projections| == |pc.req.scopes| {
      var id := pc.req.id;
      assert Ownership(id) in TokensAt(s, InHand(l.h));
      OAuthConsent.HeldAlone(s, l.h, id);
      assert HandlerOk(cfg, s.hist, pc);
      forall k | k in t.db ensures RecordDealt(t.hist, t.notes, t.db[k].value) {
        OtherRecordDealt(s, t, id, k);
      }
      forall g | g in t.handlers ensures HandlerDealt(t.hist, t.notes, t.handlers[g]) {
        if g == l.h {
          assert [] + t.hist.todos[id] == t.hist.todos[id];
        } else {
          OtherHandlerDealt(s, t, id, s.handlers[g]);
        }
      }
      forall c | c in t.hist.codes ensures Through(t.hist, t.notes, c.0) {
        OtherCodeDealt(s, t, id, l.h, c);
      }
      forall i ensures ListIsWhatWasFound(cfg, t.hist, t.notes, i) {
        assert ListIsWhatWasFound(cfg, s.hist, s.notes, i);
      }
    }
  }

  /** Lists, visits and skips of every request but one are the same. */
  ghost predicate SameBut(s: State, t: State, id: Name) {
    forall i :: i != id ==>
      && (i in t.hist.todos <==> i in s.hist.todos) && (i in s.hist.todos ==> t.hist.todos[i] == s.hist.todos[i])
      && VisitsOf(t.hist, i) == VisitsOf(s.hist, i) && SkipsOf(t.notes, i) == SkipsOf(s.notes, i)
  }

  lemma OtherRecordDealt(s: State, t: State, id: Name, k: Key)
    requires SameBut(s, t, id) && k in s.db && k in t.db && t.db[k] == s.db[k]
    requires RecordDealt(s.hist, s.notes, s.db[k].value) && Ownership(id) !in RecordTokens(k, s.db[k].value)
    ensures RecordDealt(t.hist, t.notes, t.db[k].value)
  {
  }

  lemma OtherHandlerDealt(s: State, t: State, id: Name, pc: Handler)
    requires SameBut(s, t, id) && HandlerDealt(s.hist, s.notes, pc) && Ownership(id) !in HandlerTokens(pc)
    ensures HandlerDealt(t.hist, t.notes, pc)
  {
  }

  lemma OtherCodeDealt(s: State, t: State, id: Name, h: nat, c: (Name, Name))
    requires SameBut(s, t, id) && Linear(s) && c in s.hist.codes && Through(s.hist, s.notes, c.0)
    requires CodeRight(id) in TokensAt(s, InHand(h))
    ensures Through(t.hist, t.notes, c.0)
  {
    assert CodeRight(c.0) in TokensAt(s, CodeIssued(c));
  }

  lemma HopStaysDealt(cfg: Config, s: State, l: ConsentStep)
    requires l.TryBroker? && LocallyDealt(s, ConsentKey(l), l.h)
    ensures StaysDealt(s, NextConsent(cfg, s, l), ConsentKey(l), l.h)
  {
    var t, pc := NextConsent(cfg, s, l), Pc(s, l.h);
    if pc.Hop? && pc.todo != [] {
      var id := pc.req.id;
      assert pc.visited + [pc.todo[0]] + pc.todo[1..] == pc.visited + pc.todo;
      assert pc.todo[1..] == [] ==> pc.visited + [pc.todo[0]] == pc.visited + pc.todo;
      if !l.up {
        assert SkipsOf(t.notes, id) == SkipsOf(s.notes, id) + [pc.todo[0]];
      }
    }
  }

  lemma ParkStaysDealt(cfg: Config, s: State, l: ConsentStep)
    requires l.Park? && LocallyDealt(s, ConsentKey(l), l.h)
    ensures StaysDealt(s, NextConsent(cfg, s, l), ConsentKey(l), l.h)
  {
    var t, pc := NextConsent(cfg, s, l), Pc(s, l.h);
    if pc.ParkingAtBroker? && l.chain !in s.issued && pc.todo != [] {
      assert VisitsOf(t.hist, pc.req.id) == VisitsOf(s.hist, pc.req.id) + [pc.todo[0]];
    }
  }

  lemma ReturnStaysDealt(cfg: Config, s: State, l: ConsentStep)
    requires l.BrokerCallback? && LocallyDealt(s, ConsentKey(l), l.h)
    ensures StaysDealt(s, NextConsent(cfg, s, l), ConsentKey(l), l.h)
  {
    var r := Read(s, Key(ChainKind, l.chain));
    if r.Some? && r.value.Chained? && r.value.todo != [] {
      var visited, todo := r.value.visited, r.value.todo;
      assert visited + [todo[0]] + todo[1..] == visited + todo;
      assert todo[1..] == [] ==> visited + [todo[0]] == visited + todo;
    }
  }

  lemma FinishStaysDealt(cfg: Config, s: State, l: ConsentStep)
    requires (l.Filter? || l.IssueCode?) && LocallyDealt(s, ConsentKey(l), l.h)
    ensures StaysDealt(s, NextConsent(cfg, s, l), ConsentKey(l), l.h)
  {
  }

  lemma ConsentKeepsDealt(cfg: Config, s: State, l: ConsentStep)
    requires NothingLeftOut(cfg, s) && Linear(s) && Traced(cfg, s)
    ensures NothingLeftOut(cfg, NextConsent(cfg, s, l))
  {
    if l.ListServices? {
      ListServicesKeepsDealt(cfg, s, l);
    } else {
      ConsentWritesOnce(cfg, s, l);
      match l {
        case TryBroker(_, _) => HopStaysDealt(cfg, s, l);
        case Park(_, _) => ParkStaysDealt(cfg, s, l);
        case BrokerCallback(_, _) => ReturnStaysDealt(cfg, s, l);
        case _ => FinishStaysDealt(cfg, s, l);
      }
      Frame(cfg, s, NextConsent(cfg, s, l), ConsentKey(l), l.h);
    }
  }

  lemma TokenKeepsDealt(cfg: Config, s: State, l: TokenStep)
    requires NothingLeftOut(cfg, s)
    ensures NothingLeftOut(cfg, NextToken(cfg, s, l))
  {
    TokenWritesOnce(cfg, s, l);
    if l.AskRefresh? || l.Revalidate? {
      RefreshingIsAside(cfg, s, l);
    } else if l.DropRefused? || l.LookUpUser? {
      DecidingIsAside(cfg, s, l);
    } else if l.Redeem? || l.TakeRefresh? {
      TakingIsAside(cfg, s, l);
    } else {
      IssuingIsAside(cfg, s, l);
    }
    AsideKeepsDealt(cfg, s, NextToken(cfg, s, l), TokenKey(s, l), l.h);
  }

  lemma DeviceKeepsDealt(cfg: Config, s: State, l: DeviceStep)
    requires NothingLeftOut(cfg, s)
    ensures NothingLeftOut(cfg, NextDevice(cfg, s, l))
  {
    DeviceWritesOnce(cfg, s, l);
    if l.ParkDevice? || l.IndexDevice? || l.OpenForDevice? {
      OpeningIsAside(cfg, s, l);
    } else {
      PollingIsAside(cfg, s, l);
    }
    AsideKeepsDealt(cfg, s, NextDevice(cfg, s, l), DeviceKey(s, l), l.h);
  }

  lemma CallbackKeepsDealt(cfg: Config, s: State, l: CallbackStep)
    requires NothingLeftOut(cfg, s)
    ensures NothingLeftOut(cfg, NextCallback(s, l))
  {
    CallbackWritesOnce(s, l);
    match l {
      case Callback(_, _) => LoginIsAside(s, l);
      case DexAnswers(_, _) => AnswersAreAside(s, l);
      case Provision(_, _) => ProvisionIsAside(s, l);
      case _ => SettlingIsAside(s, l);
    }
    AsideKeepsDealt(cfg, s, NextCallback(s, l), CallbackKey(s, l), l.h);
  }

  lemma RegisterKeepsDealt(cfg: Config, s: State, l: Label)
    requires l.Register? && NothingLeftOut(cfg, s)
    ensures NothingLeftOut(cfg, Next(cfg, s, l))
  {
    AsideKeepsDealt(cfg, s, Next(cfg, s, l), Key(ClientKind, l.client), 0);
  }

  lemma StepKeepsDealt(cfg: Config, s: State, l: Label)
    requires NothingLeftOut(cfg, s) && Linear(s) && Traced(cfg, s)
    ensures NothingLeftOut(cfg, Next(cfg, s, l))
  {
    match l {
      case Tick(_) =>
      case Register(_, _) => RegisterKeepsDealt(cfg, s, l);
      case OnAuthorize(step) =>
        AuthorizeWritesOnce(cfg, s, step);
        AuthorizeIsAside(cfg, s, step);
        AsideKeepsDealt(cfg, s, Next(cfg, s, l), AuthorizeKey(s, step), step.h);
      case OnCallback(step) => CallbackKeepsDealt(cfg, s, step);
      case OnConsent(step) => ConsentKeepsDealt(cfg, s, step);
      case OnToken(step) => TokenKeepsDealt(cfg, s, step);
      case OnDevice(step) => DeviceKeepsDealt(cfg, s, step);
    }
  }

  lemma {:induction false} RunKeepsDealt(cfg: Config, s: State, run: seq<Label>)
    requires NothingLeftOut(cfg, s) && Linear(s) && Known(s) && Traced(cfg, s) && IsWord(cfg.audience)
    ensures NothingLeftOut(cfg, Exec(cfg, s, run))
    decreases |run|
  {
    if run != [] {
      StepKeepsDealt(cfg, s, run[0]);
      StepKeepsLinear(cfg, s, run[0]);
      StepKeepsTraced(cfg, s, run[0]);
      RunKeepsDealt(cfg, Next(cfg, s, run[0]), run[1..]);
    }
  }

  /** In every interleaving, when a request gets its code: each known service it asked for that was not found granted after
      the login has been visited, or its broker could not be reached. */
  lemma EveryUngrantedServiceWasTried(cfg: Config, now: Time, run: seq<Label>, id: Name, code: Name, i: nat)
    requires IsWord(cfg.audience)
    ensures var s := Exec(cfg, Init(now), run);
            (id, code) in s.hist.codes ==>
              && id in s.hist.openings && id in s.notes.asked
              && |s.notes.asked[id]| == |s.hist.openings[id].scopes|
              && (i < |s.hist.openings[id].scopes| && s.hist.openings[id].scopes[i] in cfg.services && s.notes.asked[id][i] != Some(true) ==>
                    || s.hist.openings[id].scopes[i] in VisitsOf(s.hist, id)
                    || s.hist.openings[id].scopes[i] in SkipsOf(s.notes, id))
  {
    RunKeepsDealt(cfg, Init(now), run);
    var s := Exec(cfg, Init(now), run);
    if (id, code) in s.hist.codes {
      assert Through(s.hist, s.notes, (id, code).0);
      assert ListIsWhatWasFound(cfg, s.hist, s.notes, id);
      Consent.UngrantedExactly(cfg.services, s.hist.openings[id].scopes, s.notes.asked[id]);
    }
  }
}
