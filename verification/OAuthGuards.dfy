/** Guards: what the network must have answered before the server issues anything. */
module OAuthGuards {
  import opened Prelude
  import opened DeadlineMap
  import opened Redirects
  import opened OAuthServer
  import opened OAuthProvenance

  /** For a refresh token, the same handler was told that Dex honours its user and that LiteLLM has the user. */
  predicate Vetted(notes: Notes, h: nat, via: Via) {
    via.ByRefresh? ==> (h, via.previous) in notes.honoured && (h, via.previous) in notes.alive
  }

  predicate HandlerGuarded(notes: Notes, h: nat, pc: Handler) {
    match pc
    case Honoured(presented, _) => (h, presented) in notes.honoured
    case UserLookedUp(presented, _, alive) =>
      (h, presented) in notes.honoured && (alive ==> (h, presented) in notes.alive)
    case Rescoping(via, _, _, _, _) => Vetted(notes, h, via)
    case Issuing(via, _, _, _, _) => Vetted(notes, h, via)
    case Answering(via, _, _, _, _) => Vetted(notes, h, via)
    case Approving(_, req) => req.id in notes.provisioned
    case ListingServices(req) => req.id in notes.provisioned
    case Hop(req, _, _) => req.id in notes.provisioned
    case ParkingAtBroker(req, _, _) => req.id in notes.provisioned
    case Finishing(req) => req.id in notes.provisioned
    case CodeReady(req, _) => req.id in notes.provisioned
    case _ => true
  }

  predicate RecordGuarded(notes: Notes, r: Record) {
    match r
    case Chained(req, _, _) => req.id in notes.provisioned
    case Code(req, _) => req.id in notes.provisioned
    case _ => true
  }

  ghost predicate HistoryGuarded(cfg: Config, hist: History, notes: Notes) {
    && (forall c :: c in hist.codes ==> c.0 in notes.provisioned)
    && (forall a :: a in hist.approvals ==> a.1 in notes.provisioned)
    && (forall u :: u in hist.uses ==> Vetted(notes, u.handler, u.via))
    && (forall c :: c in hist.registered ==> AllAllowed(cfg, hist.registered[c]))
  }

  ghost predicate AllAllowed(cfg: Config, redirects: seq<string>) {
    redirects != [] && forall i :: 0 <= i < |redirects| ==> RedirectAllowed(cfg.parse, redirects[i])
  }

  ghost predicate Guarded(cfg: Config, s: State) {
    && HistoryGuarded(cfg, s.hist, s.notes)
    && (forall k :: k in s.db ==> RecordGuarded(s.notes, s.db[k].value))
    && (forall h :: h in s.handlers ==> HandlerGuarded(s.notes, h, s.handlers[h]))
  }

  predicate NotesGrow(a: Notes, b: Notes) {
    a.provisioned <= b.provisioned && a.honoured <= b.honoured && a.alive <= b.alive
  }

  /** What a step reads is guarded. */
  ghost predicate LocallyGuarded(s: State, k: Key, h: nat) {
    HandlerGuarded(s.notes, h, Pc(s, h)) && (k in s.db ==> RecordGuarded(s.notes, s.db[k].value))
  }

  /** What a step writes is guarded, in the store, at its handler and in the history. */
  ghost predicate StaysGuarded(s: State, t: State, k: Key, h: nat) {
    && NotesGrow(s.notes, t.notes)
    && HandlerGuarded(t.notes, h, Pc(t, h))
    && (Written(s, t, k) ==> RecordGuarded(t.notes, t.db[k].value))
    && t.hist.registered == s.hist.registered
    && (forall c :: c in t.hist.codes ==> c in s.hist.codes || c.0 in t.notes.provisioned)
    && (forall a :: a in t.hist.approvals ==> a in s.hist.approvals || a.1 in t.notes.provisioned)
    && (forall u :: u in t.hist.uses ==> u in s.hist.uses || Vetted(t.notes, u.handler, u.via))
  }

  lemma Frame(cfg: Config, s: State, t: State, k: Key, h: nat)
    requires Guarded(cfg, s) && OneWrite(s, t, k, h) && StaysGuarded(s, t, k, h)
    ensures Guarded(cfg, t)
  {
    forall j | j in t.db ensures RecordGuarded(t.notes, t.db[j].value) {
      if j in s.db && s.db[j] == t.db[j] {
        assert RecordGuarded(s.notes, s.db[j].value);
      }
    }
    forall g | g in t.handlers ensures HandlerGuarded(t.notes, g, t.handlers[g]) {
      if g != h {
        assert HandlerGuarded(s.notes, g, s.handlers[g]);
      }
    }
  }

  // ---------------------------------------------------------------- each step

  lemma RegisterStaysGuarded(cfg: Config, s: State, l: Label)
    requires l.Register? && Guarded(cfg, s)
    ensures Guarded(cfg, Next(cfg, s, l))
  {
  }

  lemma AuthorizeStaysGuarded(cfg: Config, s: State, l: AuthorizeStep)
    requires LocallyGuarded(s, AuthorizeKey(s, l), l.h)
    ensures StaysGuarded(s, NextAuthorize(cfg, s, l), AuthorizeKey(s, l), l.h)
  {
  }

  lemma SettlingStaysGuarded(s: State, l: CallbackStep)
    requires (l.Deny? || l.Approve?) && LocallyGuarded(s, CallbackKey(s, l), l.h)
    ensures StaysGuarded(s, NextCallback(s, l), CallbackKey(s, l), l.h)
  {
  }

  lemma ProvisioningStaysGuarded(s: State, l: CallbackStep)
    requires (l.Provision?) && LocallyGuarded(s, CallbackKey(s, l), l.h)
    ensures StaysGuarded(s, NextCallback(s, l), CallbackKey(s, l), l.h)
  {
  }

  lemma LoginStaysGuarded(s: State, l: CallbackStep)
    requires (l.Callback? || l.DexAnswers?) && LocallyGuarded(s, CallbackKey(s, l), l.h)
    ensures StaysGuarded(s, NextCallback(s, l), CallbackKey(s, l), l.h)
  {
  }

  lemma CallbackStaysGuarded(s: State, l: CallbackStep)
    requires LocallyGuarded(s, CallbackKey(s, l), l.h)
    ensures StaysGuarded(s, NextCallback(s, l), CallbackKey(s, l), l.h)
  {
    if l.Deny? || l.Approve? {
      SettlingStaysGuarded(s, l);
    } else if l.Provision? {
      ProvisioningStaysGuarded(s, l);
    } else {
      LoginStaysGuarded(s, l);
    }
  }

  lemma ParkingStaysGuarded(cfg: Config, s: State, l: ConsentStep)
    requires (l.Park? || l.IssueCode?) && LocallyGuarded(s, ConsentKey(l), l.h)
    ensures StaysGuarded(s, NextConsent(cfg, s, l), ConsentKey(l), l.h)
  {
  }

  lemma HoppingStaysGuarded(cfg: Config, s: State, l: ConsentStep)
    requires (l.TryBroker? || l.BrokerCallback?) && LocallyGuarded(s, ConsentKey(l), l.h)
    ensures StaysGuarded(s, NextConsent(cfg, s, l), ConsentKey(l), l.h)
  {
  }

  lemma LookingStaysGuarded(cfg: Config, s: State, l: ConsentStep)
    requires (l.ListServices? || l.Filter?) && LocallyGuarded(s, ConsentKey(l), l.h)
    ensures StaysGuarded(s, NextConsent(cfg, s, l), ConsentKey(l), l.h)
  {
  }

  lemma ConsentStaysGuarded(cfg: Config, s: State, l: ConsentStep)
    requires LocallyGuarded(s, ConsentKey(l), l.h)
    ensures StaysGuarded(s, NextConsent(cfg, s, l), ConsentKey(l), l.h)
  {
    if l.Park? || l.IssueCode? {
      ParkingStaysGuarded(cfg, s, l);
    } else if l.TryBroker? || l.BrokerCallback? {
      HoppingStaysGuarded(cfg, s, l);
    } else {
      LookingStaysGuarded(cfg, s, l);
    }
  }

  lemma VettingStaysGuarded(cfg: Config, s: State, l: TokenStep)
    requires (l.Revalidate? || l.LookUpUser?) && LocallyGuarded(s, TokenKey(s, l), l.h)
    ensures StaysGuarded(s, NextToken(cfg, s, l), TokenKey(s, l), l.h)
  {
  }

  lemma TakingStaysGuarded(cfg: Config, s: State, l: TokenStep)
    requires (l.TakeRefresh? || l.Redeem?) && LocallyGuarded(s, TokenKey(s, l), l.h)
    ensures StaysGuarded(s, NextToken(cfg, s, l), TokenKey(s, l), l.h)
  {
  }

  lemma PresentingStaysGuarded(cfg: Config, s: State, l: TokenStep)
    requires (l.AskRefresh? || l.DropRefused?) && LocallyGuarded(s, TokenKey(s, l), l.h)
    ensures StaysGuarded(s, NextToken(cfg, s, l), TokenKey(s, l), l.h)
  {
  }

  lemma AnsweringStaysGuarded(cfg: Config, s: State, l: TokenStep)
    requires (l.Rescope? || l.StoreRefresh? || l.Answer?) && LocallyGuarded(s, TokenKey(s, l), l.h)
    ensures StaysGuarded(s, NextToken(cfg, s, l), TokenKey(s, l), l.h)
  {
  }

  lemma TokenStaysGuarded(cfg: Config, s: State, l: TokenStep)
    requires LocallyGuarded(s, TokenKey(s, l), l.h)
    ensures StaysGuarded(s, NextToken(cfg, s, l), TokenKey(s, l), l.h)
  {
    if l.Revalidate? || l.LookUpUser? {
      VettingStaysGuarded(cfg, s, l);
    } else if l.TakeRefresh? || l.Redeem? {
      TakingStaysGuarded(cfg, s, l);
    } else if l.AskRefresh? || l.DropRefused? {
      PresentingStaysGuarded(cfg, s, l);
    } else {
      AnsweringStaysGuarded(cfg, s, l);
    }
  }

  lemma OpeningStaysGuarded(cfg: Config, s: State, l: DeviceStep)
    requires (l.ParkDevice? || l.OpenForDevice? || l.IndexDevice?) && LocallyGuarded(s, DeviceKey(s, l), l.h)
    ensures StaysGuarded(s, NextDevice(cfg, s, l), DeviceKey(s, l), l.h)
  {
  }

  lemma PollingStaysGuarded(cfg: Config, s: State, l: DeviceStep)
    requires (l.PollDevice? || l.TakeDevice?) && LocallyGuarded(s, DeviceKey(s, l), l.h)
    ensures StaysGuarded(s, NextDevice(cfg, s, l), DeviceKey(s, l), l.h)
  {
  }

  lemma AskingStaysGuarded(cfg: Config, s: State, l: DeviceStep)
    requires (l.AskDevice? || l.Confirm?) && LocallyGuarded(s, DeviceKey(s, l), l.h)
    ensures StaysGuarded(s, NextDevice(cfg, s, l), DeviceKey(s, l), l.h)
  {
  }

  lemma DeviceStaysGuarded(cfg: Config, s: State, l: DeviceStep)
    requires LocallyGuarded(s, DeviceKey(s, l), l.h)
    ensures StaysGuarded(s, NextDevice(cfg, s, l), DeviceKey(s, l), l.h)
  {
    if l.ParkDevice? || l.OpenForDevice? || l.IndexDevice? {
      OpeningStaysGuarded(cfg, s, l);
    } else if l.PollDevice? || l.TakeDevice? {
      PollingStaysGuarded(cfg, s, l);
    } else {
      AskingStaysGuarded(cfg, s, l);
    }
  }

  lemma StepKeepsGuarded(cfg: Config, s: State, l: Label)
    requires Guarded(cfg, s)
    ensures Guarded(cfg, Next(cfg, s, l))
  {
    var t := Next(cfg, s, l);
    match l {
      case Tick(_) =>
      case Register(_, _) => RegisterStaysGuarded(cfg, s, l);
      case OnAuthorize(step) =>
        AuthorizeWritesOnce(cfg, s, step);
        AuthorizeStaysGuarded(cfg, s, step);
        Frame(cfg, s, t, AuthorizeKey(s, step), step.h);
      case OnCallback(step) =>
        CallbackWritesOnce(s, step);
        CallbackStaysGuarded(s, step);
        Frame(cfg, s, t, CallbackKey(s, step), step.h);
      case OnConsent(step) =>
        ConsentWritesOnce(cfg, s, step);
        ConsentStaysGuarded(cfg, s, step);
        Frame(cfg, s, t, ConsentKey(step), step.h);
      case OnToken(step) =>
        TokenWritesOnce(cfg, s, step);
        TokenStaysGuarded(cfg, s, step);
        Frame(cfg, s, t, TokenKey(s, step), step.h);
      case OnDevice(step) =>
        DeviceWritesOnce(cfg, s, step);
        DeviceStaysGuarded(cfg, s, step);
        Frame(cfg, s, t, DeviceKey(s, step), step.h);
    }
  }

  lemma {:induction false} RunKeepsGuarded(cfg: Config, s: State, run: seq<Label>)
    requires Guarded(cfg, s)
    ensures Guarded(cfg, Exec(cfg, s, run))
    decreases |run|
  {
    if run != [] {
      StepKeepsGuarded(cfg, s, run[0]);
      RunKeepsGuarded(cfg, Next(cfg, s, run[0]), run[1..]);
    }
  }

  /** In every reachable state: a pair answered for a refresh token was answered by a handler that Dex had told the user is
      honoured and LiteLLM that the user exists; a code exists, and a device is approved, only for a request whose user was
      provisioned; and every registered redirect URI parses, has a good port, carries no fragment and no credentials, and
      is https with a host or plain http on a loopback host. */
  lemma NothingIsIssuedUnvetted(cfg: Config, now: Time, run: seq<Label>)
    ensures var s := Exec(cfg, Init(now), run);
            && (forall u :: u in s.hist.uses && u.via.ByRefresh? ==>
                  (u.handler, u.via.previous) in s.notes.honoured && (u.handler, u.via.previous) in s.notes.alive)
            && (forall c :: c in s.hist.codes ==> c.0 in s.notes.provisioned)
            && (forall a :: a in s.hist.approvals ==> a.1 in s.notes.provisioned)
            && (forall c, uri :: c in s.hist.registered && uri in s.hist.registered[c] ==>
                  && '#' !in uri && cfg.parse(uri).Some?
                  && var u := cfg.parse(uri).value;
                  && !u.port.BadPort? && u.fragment == "" && u.username.None? && u.password.None?
                  && u.hostname.Some?
                  && ((u.scheme == "https" && u.hostname.value != "")
                      || (u.scheme == "http" && u.hostname.value in ["127.0.0.1", "localhost", "::1"])))
  {
    RunKeepsGuarded(cfg, Init(now), run);
    var s := Exec(cfg, Init(now), run);
    forall u | u in s.hist.uses && u.via.ByRefresh?
      ensures (u.handler, u.via.previous) in s.notes.honoured && (u.handler, u.via.previous) in s.notes.alive
    {
      assert Vetted(s.notes, u.handler, u.via);
    }
    forall c, uri | c in s.hist.registered && uri in s.hist.registered[c] ensures RedirectAllowed(cfg.parse, uri) {
      assert AllAllowed(cfg, s.hist.registered[c]);
    }
  }
}
