/** Presenting a credential spends it, whether or not the request that presents it succeeds. */
module OAuthSpent {
  import opened Prelude
  import opened DeadlineMap
  import opened OAuthServer

  /** Records written under a freshly drawn name only; a client is written again to keep it alive, and user codes are
      typed by hand. */
  predicate Single(kind: Kind) {
    kind == PendingKind || kind == ChainKind || kind == CodeKind || kind == RefreshKind || kind == DeviceKind
  }

  /** The name was drawn once and its record has left the store. */
  predicate Spent(s: State, k: Key) {
    Single(k.kind) && k.name in s.issued && k !in s.db
  }

  lemma CallbackKeepsSpent(s: State, l: CallbackStep, k: Key)
    requires Spent(s, k)
    ensures Spent(NextCallback(s, l), k)
  {
  }

  lemma ConsentKeepsSpent(cfg: Config, s: State, l: ConsentStep, k: Key)
    requires Spent(s, k)
    ensures Spent(NextConsent(cfg, s, l), k)
  {
  }

  lemma TokenKeepsSpent(cfg: Config, s: State, l: TokenStep, k: Key)
    requires Spent(s, k)
    ensures Spent(NextToken(cfg, s, l), k)
  {
  }

  lemma DeviceKeepsSpent(cfg: Config, s: State, l: DeviceStep, k: Key)
    requires Spent(s, k)
    ensures Spent(NextDevice(cfg, s, l), k)
  {
  }

  lemma StepKeepsSpent(cfg: Config, s: State, l: Label, k: Key)
    requires Spent(s, k)
    ensures Spent(Next(cfg, s, l), k)
  {
    match l
    case OnCallback(step) => CallbackKeepsSpent(s, step, k);
    case OnConsent(step) => ConsentKeepsSpent(cfg, s, step, k);
    case OnToken(step) => TokenKeepsSpent(cfg, s, step, k);
    case OnDevice(step) => DeviceKeepsSpent(cfg, s, step, k);
    case _ =>
  }

  lemma {:induction false} RunKeepsSpent(cfg: Config, s: State, run: seq<Label>, k: Key)
    requires Spent(s, k)
    ensures Spent(Exec(cfg, s, run), k)
    decreases |run|
  {
    if run != [] {
      StepKeepsSpent(cfg, s, run[0], k);
      RunKeepsSpent(cfg, Next(cfg, s, run[0]), run[1..], k);
    }
  }

  /** The credential that a step presents for consumption: the state of a login callback, the state of a broker's
      callback, a code, a refresh token that was refused or is about to be exchanged, a settled device code. */
  function Presented(s: State, l: Label): Option<Key> {
    match l
    case OnCallback(Callback(h, id)) => if h in s.handlers then None else Some(Key(PendingKind, id))
    case OnConsent(BrokerCallback(h, chain)) => if h in s.handlers then None else Some(Key(ChainKind, chain))
    case OnToken(Redeem(h, code, _, _, _)) => if h in s.handlers then None else Some(Key(CodeKind, code))
    case OnToken(DropRefused(h)) => if Pc(s, h).Refused? then Some(Key(RefreshKind, Pc(s, h).presented)) else None
    case OnToken(TakeRefresh(h)) => if Pc(s, h).UserLookedUp? then Some(Key(RefreshKind, Pc(s, h).presented)) else None
    case OnDevice(TakeDevice(h)) =>
      if Pc(s, h).DevicePolled? || Pc(s, h).DeviceRefused? then Some(Key(DeviceKind, Pc(s, h).device)) else None
    case _ => None
  }

  /** The chain records of the server always name a service still to visit. */
  ghost predicate ChainsGoOn(s: State) {
    forall k :: k in s.db && s.db[k].value.Chained? ==> s.db[k].value.todo != []
  }

  lemma PresentingDrops(cfg: Config, s: State, l: Label)
    requires Presented(s, l).Some? && ChainsGoOn(s)
    ensures Presented(s, l).value !in Next(cfg, s, l).db && s.issued <= Next(cfg, s, l).issued
  {
  }

  lemma ConsentKeepsChainsGoing(cfg: Config, s: State, l: ConsentStep)
    requires ChainsGoOn(s)
    ensures ChainsGoOn(NextConsent(cfg, s, l))
  {
  }

  lemma TokenKeepsChainsGoing(cfg: Config, s: State, l: TokenStep)
    requires ChainsGoOn(s)
    ensures ChainsGoOn(NextToken(cfg, s, l))
  {
  }

  lemma DeviceKeepsChainsGoing(cfg: Config, s: State, l: DeviceStep)
    requires ChainsGoOn(s)
    ensures ChainsGoOn(NextDevice(cfg, s, l))
  {
  }

  lemma CallbackKeepsChainsGoing(s: State, l: CallbackStep)
    requires ChainsGoOn(s)
    ensures ChainsGoOn(NextCallback(s, l))
  {
  }

  lemma {:induction false} RunKeepsChainsGoing(cfg: Config, s: State, run: seq<Label>)
    requires ChainsGoOn(s)
    ensures ChainsGoOn(Exec(cfg, s, run))
    decreases |run|
  {
    if run != [] {
      match run[0] {
        case OnCallback(step) => CallbackKeepsChainsGoing(s, step);
        case OnConsent(step) => ConsentKeepsChainsGoing(cfg, s, step);
        case OnToken(step) => TokenKeepsChainsGoing(cfg, s, step);
        case OnDevice(step) => DeviceKeepsChainsGoing(cfg, s, step);
        case _ =>
      }
      RunKeepsChainsGoing(cfg, Next(cfg, s, run[0]), run[1..]);
    }
  }

  /** After any run: a credential once presented is out of the store in every continuation, even if the request that
      presented it was refused for a wrong verifier, client or redirect URI. */
  lemma PresentingSpends(cfg: Config, now: Time, run: seq<Label>, l: Label, more: seq<Label>)
    ensures var s := Exec(cfg, Init(now), run);
            var k := Presented(s, l);
            k.Some? && k.value.name in s.issued ==> k.value !in Exec(cfg, Next(cfg, s, l), more).db
  {
    var s := Exec(cfg, Init(now), run);
    RunKeepsChainsGoing(cfg, Init(now), run);
    var k := Presented(s, l);
    if k.Some? && k.value.name in s.issued {
      PresentingDrops(cfg, s, l);
      RunKeepsSpent(cfg, Next(cfg, s, l), more, k.value);
    }
  }
}
