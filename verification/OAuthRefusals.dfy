/** What a refusal by Dex ends: the refresh token is gone for good, and nothing more is answered for it but what a sibling
    request had already taken. */
module OAuthRefusals {
  import opened Prelude
  import opened DeadlineMap
  import opened Scopes
  import opened OAuthServer
  import opened OAuthLinear
  import opened OAuthProvenance
  import opened OAuthSpent

  function RefreshKey(presented: Name): Key { Key(RefreshKind, presented) }

  /** The handler has taken the refresh token and not answered yet. */
  predicate Holds(s: State, g: nat, presented: Name) {
    match Pc(s, g)
    case Rescoping(via, _, _, _, _) => via == ByRefresh(presented)
    case Issuing(via, _, _, _, _) => via == ByRefresh(presented)
    case Answering(via, _, _, _, _) => via == ByRefresh(presented)
    case _ => false
  }

  /** A handler that deals with a refresh token has seen its record, so its name was drawn. */
  ghost predicate PresentedKnown(s: State) {
    forall h :: h in s.handlers ==>
      match s.handlers[h]
      case Revalidating(presented, _) => presented in s.issued
      case Refused(presented) => presented in s.issued
      case Honoured(presented, _) => presented in s.issued
      case UserLookedUp(presented, _, _) => presented in s.issued
      case _ => true
  }

  predicate Presents(pc: Handler) { pc.Revalidating? || pc.Refused? || pc.Honoured? || pc.UserLookedUp? }

  lemma OtherStepsPresentNothing(cfg: Config, s: State, l: Label, h: nat)
    requires !l.OnToken?
    ensures Presents(Pc(Next(cfg, s, l), h)) ==> Pc(Next(cfg, s, l), h) == Pc(s, h)
    ensures s.issued <= Next(cfg, s, l).issued
  {
    match l
    case OnAuthorize(step) => AuthorizePresentsNothing(cfg, s, step, h);
    case OnCallback(step) => CallbackPresentsNothing(s, step, h);
    case OnConsent(step) => ConsentPresentsNothing(cfg, s, step, h);
    case OnDevice(step) => DevicePresentsNothing(cfg, s, step, h);
    case _ =>
  }

  lemma AuthorizePresentsNothing(cfg: Config, s: State, l: AuthorizeStep, h: nat)
    ensures var t := NextAuthorize(cfg, s, l); (Presents(Pc(t, h)) ==> Pc(t, h) == Pc(s, h)) && s.issued <= t.issued
  {
  }

  lemma CallbackPresentsNothing(s: State, l: CallbackStep, h: nat)
    ensures var t := NextCallback(s, l); (Presents(Pc(t, h)) ==> Pc(t, h) == Pc(s, h)) && s.issued <= t.issued
  {
  }

  lemma ConsentPresentsNothing(cfg: Config, s: State, l: ConsentStep, h: nat)
    ensures var t := NextConsent(cfg, s, l); (Presents(Pc(t, h)) ==> Pc(t, h) == Pc(s, h)) && s.issued <= t.issued
  {
  }

  lemma DevicePresentsNothing(cfg: Config, s: State, l: DeviceStep, h: nat)
    ensures var t := NextDevice(cfg, s, l); (Presents(Pc(t, h)) ==> Pc(t, h) == Pc(s, h)) && s.issued <= t.issued
  {
  }

  lemma TokenKeepsPresentedKnown(cfg: Config, s: State, l: TokenStep)
    requires PresentedKnown(s) && Known(s)
    ensures PresentedKnown(NextToken(cfg, s, l))
  {
    if l.AskRefresh? && RefreshKey(l.presented) in s.db && s.db[RefreshKey(l.presented)].value.Refresh? {
      assert Credential(RefreshKey(l.presented)) in TokensAt(s, InStore(RefreshKey(l.presented)));
      assert TokenName(Credential(RefreshKey(l.presented))) in s.issued;
    }
  }

  lemma StepKeepsPresentedKnown(cfg: Config, s: State, l: Label)
    requires PresentedKnown(s) && Known(s)
    ensures PresentedKnown(Next(cfg, s, l))
  {
    if l.OnToken? {
      TokenKeepsPresentedKnown(cfg, s, l.token);
    } else {
      var t := Next(cfg, s, l);
      forall h | h in t.handlers && Presents(t.handlers[h]) ensures h in s.handlers && t.handlers[h] == s.handlers[h] && s.issued <= t.issued {
        OtherStepsPresentNothing(cfg, s, l, h);
      }
    }
  }

  lemma {:induction false} RunKeepsPresentedKnown(cfg: Config, s: State, run: seq<Label>)
    requires PresentedKnown(s) && Linear(s) && Known(s)
    ensures PresentedKnown(Exec(cfg, s, run)) && Linear(Exec(cfg, s, run)) && Known(Exec(cfg, s, run))
    decreases |run|
  {
    if run != [] {
      StepKeepsPresentedKnown(cfg, s, run[0]);
      StepKeepsLinear(cfg, s, run[0]);
      RunKeepsPresentedKnown(cfg, Next(cfg, s, run[0]), run[1..]);
    }
  }

  // ---------------------------------------------------------------- after the token has left the store

  /** Compared with `s`, nothing new holds or has used the token. */
  ghost predicate NothingNew(s: State, t: State, presented: Name) {
    && (forall g :: Holds(t, g, presented) ==> Holds(s, g, presented))
    && (forall u :: u in t.hist.uses && u.via == ByRefresh(presented) ==> u in s.hist.uses || Holds(s, u.handler, presented))
  }

  lemma OtherStepsTakeNothing(cfg: Config, s: State, l: Label, presented: Name)
    requires !l.OnToken?
    ensures NothingNew(s, Next(cfg, s, l), presented)
  {
    match l
    case OnAuthorize(step) => AuthorizeTakesNothing(cfg, s, step, presented);
    case OnCallback(step) => CallbackTakesNothing(s, step, presented);
    case OnConsent(step) => ConsentTakesNothing(cfg, s, step, presented);
    case OnDevice(step) => DeviceTakesNothing(cfg, s, step, presented);
    case _ =>
  }

  lemma AuthorizeTakesNothing(cfg: Config, s: State, l: AuthorizeStep, presented: Name)
    ensures NothingNew(s, NextAuthorize(cfg, s, l), presented)
  {
  }

  lemma CallbackTakesNothing(s: State, l: CallbackStep, presented: Name)
    ensures NothingNew(s, NextCallback(s, l), presented)
  {
  }

  lemma ConsentTakesNothing(cfg: Config, s: State, l: ConsentStep, presented: Name)
    ensures NothingNew(s, NextConsent(cfg, s, l), presented)
  {
  }

  lemma DeviceTakesNothing(cfg: Config, s: State, l: DeviceStep, presented: Name)
    ensures NothingNew(s, NextDevice(cfg, s, l), presented)
  {
  }

  lemma TokenTakesNothing(cfg: Config, s: State, l: TokenStep, presented: Name)
    requires RefreshKey(presented) !in s.db
    ensures NothingNew(s, NextToken(cfg, s, l), presented)
  {
  }

  lemma {:induction false} RunTakesNothing(cfg: Config, s: State, run: seq<Label>, presented: Name)
    requires Spent(s, RefreshKey(presented))
    ensures NothingNew(s, Exec(cfg, s, run), presented) && RefreshKey(presented) !in Exec(cfg, s, run).db
    decreases |run|
  {
    if run != [] {
      var t := Next(cfg, s, run[0]);
      if run[0].OnToken? {
        TokenTakesNothing(cfg, s, run[0].token, presented);
      } else {
        OtherStepsTakeNothing(cfg, s, run[0], presented);
      }
      StepKeepsSpent(cfg, s, run[0], RefreshKey(presented));
      RunTakesNothing(cfg, t, run[1..], presented);
    }
  }

  /** After any run: a refusal drops the refresh token for good. Whatever is still answered for it in any continuation had
      been answered before, or a sibling request had taken the token; if the token was still in the store, nothing is. */
  lemma RefusalEndsTheToken(cfg: Config, now: Time, run: seq<Label>, h: nat, more: seq<Label>)
    requires Pc(Exec(cfg, Init(now), run), h).Refused?
    ensures var s := Exec(cfg, Init(now), run);
            var p := Pc(s, h).presented;
            var t := Exec(cfg, Next(cfg, s, OnToken(DropRefused(h))), more);
            && RefreshKey(p) !in t.db
            && (forall u :: u in t.hist.uses && u.via == ByRefresh(p) ==> u in s.hist.uses || Holds(s, u.handler, p))
            && (RefreshKey(p) in s.db && s.db[RefreshKey(p)].value.Refresh? ==> forall u :: u in t.hist.uses ==> u.via != ByRefresh(p))
  {
    RunKeepsPresentedKnown(cfg, Init(now), run);
    var s := Exec(cfg, Init(now), run);
    var p := Pc(s, h).presented;
    var dropped := Next(cfg, s, OnToken(DropRefused(h)));
    assert Spent(dropped, RefreshKey(p));
    assert NothingNew(s, dropped, p);
    RunTakesNothing(cfg, dropped, more, p);
    if RefreshKey(p) in s.db && s.db[RefreshKey(p)].value.Refresh? {
      StoredTokensAreUnused(s, p);
    }
  }

  /** A refresh token that is still in the store is in nobody's hands and has not been used. */
  lemma StoredTokensAreUnused(s: State, presented: Name)
    requires Linear(s) && RefreshKey(presented) in s.db && s.db[RefreshKey(presented)].value.Refresh?
    ensures forall g :: !Holds(s, g, presented)
    ensures forall u :: u in s.hist.uses ==> u.via != ByRefresh(presented)
  {
    var c := Credential(RefreshKey(presented));
    assert c in TokensAt(s, InStore(RefreshKey(presented)));
    forall g ensures !Holds(s, g, presented) {
      assert Holds(s, g, presented) ==> c in TokensAt(s, InHand(g));
    }
    forall u | u in s.hist.uses ensures u.via != ByRefresh(presented) {
      assert u.via == ByRefresh(presented) ==> c in TokensAt(s, UsedUp(u));
    }
  }

  /** The exception is real: a sibling that has taken the token can still answer for it after the refusal. */
  lemma AHeldTokenIsStillAnswered(cfg: Config, s: State, g: nat, presented: Name, projections: seq<Option<bool>>, refresh: Name)
    requires Holds(s, g, presented) && refresh !in s.issued
    requires Pc(s, g).Rescoping? ==> |projections| == |Split(Pc(s, g).scope)|
    ensures var t := NextToken(cfg, NextToken(cfg, NextToken(cfg, s, Rescope(g, projections)), StoreRefresh(g, refresh)), Answer(g));
            exists u :: u in t.hist.uses && u.handler == g && u.via == ByRefresh(presented)
  {
    var s1 := NextToken(cfg, s, Rescope(g, projections));
    assert Holds(s1, g, presented) && !Pc(s1, g).Rescoping? && s1.issued == s.issued;
    var s2 := NextToken(cfg, s1, StoreRefresh(g, refresh));
    assert Pc(s2, g).Answering? && Pc(s2, g).via == ByRefresh(presented);
    var pc := Pc(s2, g);
    assert Use(g, pc.via, pc.request, pc.user, pc.client, pc.refresh) in NextToken(cfg, s2, Answer(g)).hist.uses;
  }
}
