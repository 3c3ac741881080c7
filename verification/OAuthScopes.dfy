/** Scopes at issue: what a token may do is what the grant lookups of its own issue said. */
module OAuthScopes {
  import opened Prelude
  import opened DeadlineMap
  import opened Scopes
  import opened OAuthServer
  import opened OAuthProvenance

  /** Scope `x` was asked for and looked up as granted. */
  predicate Found(cfg: Config, lookups: Lookups, x: string)
    requires |lookups.answers| == |lookups.requested|
  {
    exists i :: 0 <= i < |lookups.requested| && lookups.requested[i] == x && x in cfg.services && lookups.answers[i] == Some(true)
  }

  /** The scopes are the audience and exactly those that the lookups found, in the order in which they were asked for. */
  ghost predicate Backed(cfg: Config, scopes: seq<string>, lookups: Lookups) {
    && |lookups.answers| == |lookups.requested|
    && AudienceFirst(scopes, cfg.audience)
    && Subsequence(scopes[1..], lookups.requested)
    && (forall x :: x in scopes <==> x == cfg.audience || Found(cfg, lookups, x))
  }

  /** The lookups behind a pair: those of the code it was issued for, or lookups of its predecessor's scopes, or none. */
  ghost predicate Linked(hist: History, via: Via, issues: map<Name, Lookups>, lookups: Lookups) {
    match via
    case ByCode(code, _, _) => code in issues && lookups == issues[code]
    case ByRefresh(previous) => previous in hist.scopes && lookups.requested == Split(hist.scopes[previous])
    case ByDevice(_) => lookups == NO_LOOKUPS
  }

  ghost predicate HandlerBacked(cfg: Config, hist: History, notes: Notes, h: nat, pc: Handler) {
    match pc
    case CodeReady(req, scope) =>
      h in notes.looked && notes.looked[h].requested == req.scopes && Backed(cfg, Split(scope), notes.looked[h])
    case Issuing(via, _, _, _, scope) =>
      && (via.ByRefresh? ==> h in notes.looked)
      && Linked(hist, via, notes.issues, LookupsVia(notes, h, via))
      && Backed(cfg, Split(scope), LookupsVia(notes, h, via))
    case Answering(via, _, _, _, refresh) =>
      refresh in notes.issues && Linked(hist, via, notes.issues, notes.issues[refresh])
    case _ => true
  }

  ghost predicate RecordBacked(cfg: Config, notes: Notes, k: Key, r: Record) {
    match r
    case Code(req, scope) =>
      k.name in notes.issues && notes.issues[k.name].requested == req.scopes && Backed(cfg, Split(scope), notes.issues[k.name])
    case _ => true
  }

  ghost predicate HistoryBacked(cfg: Config, hist: History, notes: Notes) {
    && (forall r :: r in hist.scopes ==> r in notes.issues && Backed(cfg, Split(hist.scopes[r]), notes.issues[r]))
    && (forall u :: u in hist.uses ==> u.refresh in notes.issues && Linked(hist, u.via, notes.issues, notes.issues[u.refresh]))
  }

  ghost predicate AllBacked(cfg: Config, s: State) {
    && s.notes.issues.Keys <= s.issued
    && HistoryBacked(cfg, s.hist, s.notes)
    && (forall k :: k in s.db ==> RecordBacked(cfg, s.notes, k, s.db[k].value))
    && (forall h :: h in s.handlers ==> HandlerBacked(cfg, s.hist, s.notes, h, s.handlers[h]))
  }

  /** Issues and issued scopes are only added to, and no other handler's lookups change. */
  ghost predicate Adds(s: State, t: State, h: nat) {
    && SubMap(s.notes.issues, t.notes.issues) && t.notes.issues.Keys <= t.issued
    && SubMap(s.hist.scopes, t.hist.scopes)
    && (forall g :: g != h && g in s.notes.looked ==> g in t.notes.looked && t.notes.looked[g] == s.notes.looked[g])
  }

  ghost predicate LocallyBacked(cfg: Config, s: State, k: Key, h: nat) {
    HandlerBacked(cfg, s.hist, s.notes, h, Pc(s, h)) && (k in s.db ==> RecordBacked(cfg, s.notes, k, s.db[k].value))
  }

  /** What a step writes is backed. */
  ghost predicate StaysBacked(cfg: Config, s: State, t: State, k: Key, h: nat) {
    && Adds(s, t, h)
    && HandlerBacked(cfg, t.hist, t.notes, h, Pc(t, h))
    && (Written(s, t, k) ==> RecordBacked(cfg, t.notes, k, t.db[k].value))
    && (forall r :: r in t.hist.scopes && r !in s.hist.scopes ==>
          r in t.notes.issues && Backed(cfg, Split(t.hist.scopes[r]), t.notes.issues[r]))
    && (forall u :: u in t.hist.uses && u !in s.hist.uses ==>
          u.refresh in t.notes.issues && Linked(t.hist, u.via, t.notes.issues, t.notes.issues[u.refresh]))
  }

  lemma OtherHandlerBacked(cfg: Config, s: State, t: State, h: nat, g: nat, pc: Handler)
    requires Adds(s, t, h) && g != h && HandlerBacked(cfg, s.hist, s.notes, g, pc)
    ensures HandlerBacked(cfg, t.hist, t.notes, g, pc)
  {
  }

  lemma Frame(cfg: Config, s: State, t: State, k: Key, h: nat)
    requires AllBacked(cfg, s) && OneWrite(s, t, k, h) && StaysBacked(cfg, s, t, k, h)
    ensures AllBacked(cfg, t)
  {
    forall j | j in t.db ensures RecordBacked(cfg, t.notes, j, t.db[j].value) {
      if j in s.db && s.db[j] == t.db[j] {
        assert RecordBacked(cfg, s.notes, j, s.db[j].value);
      }
    }
    forall g | g in t.handlers ensures HandlerBacked(cfg, t.hist, t.notes, g, t.handlers[g]) {
      if g != h {
        OtherHandlerBacked(cfg, s, t, h, g, s.handlers[g]);
      }
    }
  }

  predicate CarriesScopes(pc: Handler) { pc.CodeReady? || pc.Issuing? || pc.Answering? }

  /** A step that neither looks grants up nor hands scopes on. */
  ghost predicate Quiet(s: State, t: State, k: Key, h: nat) {
    && t.hist.scopes == s.hist.scopes && t.hist.uses == s.hist.uses
    && t.notes.issues == s.notes.issues && t.notes.looked == s.notes.looked && s.issued <= t.issued
    && (Written(s, t, k) ==> !t.db[k].value.Code?)
    && (Pc(t, h) == Pc(s, h) || !CarriesScopes(Pc(t, h)))
  }

  lemma QuietIsBacked(cfg: Config, s: State, t: State, k: Key, h: nat)
    requires LocallyBacked(cfg, s, k, h) && s.notes.issues.Keys <= s.issued && Quiet(s, t, k, h)
    ensures StaysBacked(cfg, s, t, k, h)
  {
  }

  // ---------------------------------------------------------------- the two places that look grants up

  lemma FilterIsBacked(cfg: Config, s: State, l: ConsentStep)
    requires l.Filter? && LocallyBacked(cfg, s, ConsentKey(l), l.h) && s.notes.issues.Keys <= s.issued
    requires HandlerSound(cfg, s, l.h) && IsWord(cfg.audience)
    ensures StaysBacked(cfg, s, NextConsent(cfg, s, l), ConsentKey(l), l.h)
  {
    var pc := Pc(s, l.h);
    if pc.Finishing? && |l.projections| == |pc.req.scopes| {
      KeptIsBacked(cfg, pc.req.scopes, l.projections);
    }
  }

  lemma KeptIsBacked(cfg: Config, requested: seq<string>, answers: seq<Option<bool>>)
    requires |answers| == |requested| && AllWords(requested) && IsWord(cfg.audience)
    ensures var scopes := [cfg.audience] + Kept(cfg.services, requested, cfg.audience, answers);
            Split(Join(scopes)) == scopes && Backed(cfg, scopes, Lookups(requested, answers))
  {
    var lookups := Lookups(requested, answers);
    var kept := Kept(cfg.services, requested, cfg.audience, answers);
    var scopes := [cfg.audience] + kept;
    IssuedScopesAreWellFormed(cfg.services, requested, cfg.audience, answers);
    SplitOfJoin(scopes);
    KeptIsTheGrantedSelection(cfg.services, requested, cfg.audience, answers);
    assert scopes[1..] == kept;
    forall x ensures x in scopes <==> x == cfg.audience || Found(cfg, lookups, x) {
      assert x in scopes <==> x == cfg.audience || x in kept;
      if Found(cfg, lookups, x) {
        var i :| 0 <= i < |requested| && requested[i] == x && x in cfg.services && answers[i] == Some(true);
        assert Granted(cfg.services, x, answers[i]);
      }
    }
  }

  lemma RescopeWrites(cfg: Config, s: State, l: TokenStep)
    requires l.Rescope?
    ensures var t, pc := NextToken(cfg, s, l), Pc(s, l.h);
            if pc.Rescoping? && |l.projections| == |Split(pc.scope)| then
              && t.hist == s.hist && t.db == s.db && t.issued == s.issued
              && t.notes == s.notes.(looked := s.notes.looked[l.h := Lookups(Split(pc.scope), l.projections)])
              && Pc(t, l.h) == Issuing(pc.via, pc.request, pc.user, pc.client,
                                       Join([cfg.audience] + Kept(cfg.services, Split(pc.scope), cfg.audience, l.projections)))
            else t == s
  {
  }

  lemma RescopeIsBacked(cfg: Config, s: State, l: TokenStep)
    requires l.Rescope? && LocallyBacked(cfg, s, TokenKey(s, l), l.h) && s.notes.issues.Keys <= s.issued
    requires HandlerSound(cfg, s, l.h) && IsWord(cfg.audience)
    ensures StaysBacked(cfg, s, NextToken(cfg, s, l), TokenKey(s, l), l.h)
  {
    RescopeWrites(cfg, s, l);
    var t, pc := NextToken(cfg, s, l), Pc(s, l.h);
    if t != s {
      SplitYieldsWords(pc.scope);
      KeptIsBacked(cfg, Split(pc.scope), l.projections);
      assert pc.via.ByRefresh? && s.hist.scopes[pc.via.previous] == pc.scope;
    }
  }

  lemma AudienceIsBacked(cfg: Config)
    requires IsWord(cfg.audience)
    ensures Split(cfg.audience) == [cfg.audience] && Backed(cfg, Split(cfg.audience), NO_LOOKUPS)
  {
    SplitOfJoin([cfg.audience]);
    assert Join([cfg.audience]) == cfg.audience;
  }

  // ---------------------------------------------------------------- each step

  lemma AuthorizeIsQuiet(cfg: Config, s: State, l: AuthorizeStep)
    ensures Quiet(s, NextAuthorize(cfg, s, l), AuthorizeKey(s, l), l.h)
  {
  }

  lemma SettlingIsQuiet(s: State, l: CallbackStep)
    requires l.Deny? || l.Approve?
    ensures Quiet(s, NextCallback(s, l), CallbackKey(s, l), l.h)
  {
  }

  lemma ProvisionIsQuiet(s: State, l: CallbackStep)
    requires l.Provision?
    ensures Quiet(s, NextCallback(s, l), CallbackKey(s, l), l.h)
  {
  }

  lemma LoginIsQuiet(s: State, l: CallbackStep)
    requires l.Callback? || l.DexAnswers? || l.Provision?
    ensures Quiet(s, NextCallback(s, l), CallbackKey(s, l), l.h)
  {
    if l.Provision? {
      ProvisionIsQuiet(s, l);
    }
  }

  lemma IssueCodeIsBacked(cfg: Config, s: State, l: ConsentStep)
    requires l.IssueCode?
    requires LocallyBacked(cfg, s, ConsentKey(l), l.h) && s.notes.issues.Keys <= s.issued
    ensures StaysBacked(cfg, s, NextConsent(cfg, s, l), ConsentKey(l), l.h)
  {
  }

  lemma ChainIsQuiet(cfg: Config, s: State, l: ConsentStep)
    requires !l.Filter? && !l.IssueCode?
    ensures Quiet(s, NextConsent(cfg, s, l), ConsentKey(l), l.h)
  {
  }

  lemma RedeemIsBacked(cfg: Config, s: State, l: TokenStep)
    requires l.Redeem?
    requires LocallyBacked(cfg, s, TokenKey(s, l), l.h) && s.notes.issues.Keys <= s.issued
    ensures StaysBacked(cfg, s, NextToken(cfg, s, l), TokenKey(s, l), l.h)
  {
  }

  lemma StoreRefreshWrites(cfg: Config, s: State, l: TokenStep)
    requires l.StoreRefresh?
    ensures var t, pc := NextToken(cfg, s, l), Pc(s, l.h);
            if pc.Issuing? && l.refresh !in s.issued then
              && t.hist.scopes == s.hist.scopes[l.refresh := pc.scope] && t.hist.uses == s.hist.uses
              && t.notes == s.notes.(issues := s.notes.issues[l.refresh := LookupsVia(s.notes, l.h, pc.via)])
              && t.issued == s.issued + {l.refresh}
              && Pc(t, l.h) == Answering(pc.via, pc.request, pc.user, pc.client, l.refresh)
              && TokenKey(s, l) in t.db && t.db[TokenKey(s, l)].value.Refresh?
            else t == s
  {
  }

  lemma StoreRefreshIsBacked(cfg: Config, s: State, l: TokenStep)
    requires l.StoreRefresh? && s.hist.scopes.Keys <= s.issued
    requires LocallyBacked(cfg, s, TokenKey(s, l), l.h) && s.notes.issues.Keys <= s.issued
    ensures StaysBacked(cfg, s, NextToken(cfg, s, l), TokenKey(s, l), l.h)
  {
    StoreRefreshWrites(cfg, s, l);
    var t, pc := NextToken(cfg, s, l), Pc(s, l.h);
    if t != s {
      IssueIsBacked(cfg, s, t, l.h, pc.via, pc.request, pc.user, pc.client, pc.scope, l.refresh);
    }
  }

  lemma IssueIsBacked(cfg: Config, s: State, t: State, h: nat, via: Via, request: Name, user: string, client: Name,
                      scope: string, refresh: Name)
    requires refresh !in s.issued && s.hist.scopes.Keys <= s.issued && s.notes.issues.Keys <= s.issued
    requires HandlerBacked(cfg, s.hist, s.notes, h, Issuing(via, request, user, client, scope))
    requires t.hist.scopes == s.hist.scopes[refresh := scope] && t.hist.uses == s.hist.uses
    requires t.notes == s.notes.(issues := s.notes.issues[refresh := LookupsVia(s.notes, h, via)])
    requires t.issued == s.issued + {refresh}
    ensures Adds(s, t, h)
    ensures HandlerBacked(cfg, t.hist, t.notes, h, Answering(via, request, user, client, refresh))
    ensures Backed(cfg, Split(t.hist.scopes[refresh]), t.notes.issues[refresh])
  {
  }

  lemma AnswerIsBacked(cfg: Config, s: State, l: TokenStep)
    requires l.Answer?
    requires LocallyBacked(cfg, s, TokenKey(s, l), l.h) && s.notes.issues.Keys <= s.issued
    ensures StaysBacked(cfg, s, NextToken(cfg, s, l), TokenKey(s, l), l.h)
  {
  }

  lemma VettingIsQuiet(cfg: Config, s: State, l: TokenStep)
    requires l.Revalidate? || l.LookUpUser?
    ensures Quiet(s, NextToken(cfg, s, l), TokenKey(s, l), l.h)
  {
  }

  lemma RefreshIsQuiet(cfg: Config, s: State, l: TokenStep)
    requires l.AskRefresh? || l.Revalidate? || l.DropRefused? || l.LookUpUser? || l.TakeRefresh?
    ensures Quiet(s, NextToken(cfg, s, l), TokenKey(s, l), l.h)
  {
    if l.Revalidate? || l.LookUpUser? {
      VettingIsQuiet(cfg, s, l);
    }
  }

  lemma TakeDeviceIsBacked(cfg: Config, s: State, l: DeviceStep)
    requires l.TakeDevice? && IsWord(cfg.audience)
    requires LocallyBacked(cfg, s, DeviceKey(s, l), l.h) && s.notes.issues.Keys <= s.issued
    ensures StaysBacked(cfg, s, NextDevice(cfg, s, l), DeviceKey(s, l), l.h)
  {
    AudienceIsBacked(cfg);
  }

  lemma DeviceIsQuiet(cfg: Config, s: State, l: DeviceStep)
    requires l.AskDevice? || l.Confirm? || l.PollDevice?
    ensures Quiet(s, NextDevice(cfg, s, l), DeviceKey(s, l), l.h)
  {
  }

  lemma OpenDeviceIsQuiet(cfg: Config, s: State, l: DeviceStep)
    requires l.ParkDevice? || l.IndexDevice? || l.OpenForDevice?
    ensures Quiet(s, NextDevice(cfg, s, l), DeviceKey(s, l), l.h)
  {
  }

  lemma CallbackKeepsBacked(cfg: Config, s: State, l: CallbackStep)
    requires AllBacked(cfg, s)
    ensures AllBacked(cfg, NextCallback(s, l))
  {
    CallbackWritesOnce(s, l);
    if l.Deny? || l.Approve? {
      SettlingIsQuiet(s, l);
    } else {
      LoginIsQuiet(s, l);
    }
    QuietIsBacked(cfg, s, NextCallback(s, l), CallbackKey(s, l), l.h);
    Frame(cfg, s, NextCallback(s, l), CallbackKey(s, l), l.h);
  }

  lemma ConsentKeepsBacked(cfg: Config, s: State, l: ConsentStep)
    requires AllBacked(cfg, s) && Traced(cfg, s) && IsWord(cfg.audience)
    ensures AllBacked(cfg, NextConsent(cfg, s, l))
  {
    ConsentWritesOnce(cfg, s, l);
    match l {
      case Filter(_, _) => FilterIsBacked(cfg, s, l);
      case IssueCode(_, _) => IssueCodeIsBacked(cfg, s, l);
      case _ =>
        ChainIsQuiet(cfg, s, l);
        QuietIsBacked(cfg, s, NextConsent(cfg, s, l), ConsentKey(l), l.h);
    }
    Frame(cfg, s, NextConsent(cfg, s, l), ConsentKey(l), l.h);
  }

  lemma TokenKeepsBacked(cfg: Config, s: State, l: TokenStep)
    requires AllBacked(cfg, s) && Traced(cfg, s) && IsWord(cfg.audience)
    ensures AllBacked(cfg, NextToken(cfg, s, l))
  {
    TokenWritesOnce(cfg, s, l);
    match l {
      case Redeem(_, _, _, _, _) => RedeemIsBacked(cfg, s, l);
      case Rescope(_, _) => RescopeIsBacked(cfg, s, l);
      case StoreRefresh(_, _) => StoreRefreshIsBacked(cfg, s, l);
      case Answer(_) => AnswerIsBacked(cfg, s, l);
      case _ =>
        RefreshIsQuiet(cfg, s, l);
        QuietIsBacked(cfg, s, NextToken(cfg, s, l), TokenKey(s, l), l.h);
    }
    Frame(cfg, s, NextToken(cfg, s, l), TokenKey(s, l), l.h);
  }

  lemma DeviceKeepsBacked(cfg: Config, s: State, l: DeviceStep)
    requires AllBacked(cfg, s) && IsWord(cfg.audience)
    ensures AllBacked(cfg, NextDevice(cfg, s, l))
  {
    DeviceWritesOnce(cfg, s, l);
    if l.TakeDevice? {
      TakeDeviceIsBacked(cfg, s, l);
    } else if l.ParkDevice? || l.IndexDevice? || l.OpenForDevice? {
      OpenDeviceIsQuiet(cfg, s, l);
      QuietIsBacked(cfg, s, NextDevice(cfg, s, l), DeviceKey(s, l), l.h);
    } else {
      DeviceIsQuiet(cfg, s, l);
      QuietIsBacked(cfg, s, NextDevice(cfg, s, l), DeviceKey(s, l), l.h);
    }
    Frame(cfg, s, NextDevice(cfg, s, l), DeviceKey(s, l), l.h);
  }

  lemma RegisterKeepsBacked(cfg: Config, s: State, l: Label)
    requires l.Register? && AllBacked(cfg, s)
    ensures AllBacked(cfg, Next(cfg, s, l))
  {
  }

  lemma StepKeepsBacked(cfg: Config, s: State, l: Label)
    requires AllBacked(cfg, s) && Traced(cfg, s) && IsWord(cfg.audience)
    ensures AllBacked(cfg, Next(cfg, s, l))
  {
    match l {
      case Tick(_) =>
      case Register(_, _) => RegisterKeepsBacked(cfg, s, l);
      case OnAuthorize(step) =>
        AuthorizeWritesOnce(cfg, s, step);
        AuthorizeIsQuiet(cfg, s, step);
        QuietIsBacked(cfg, s, Next(cfg, s, l), AuthorizeKey(s, step), step.h);
        Frame(cfg, s, Next(cfg, s, l), AuthorizeKey(s, step), step.h);
      case OnCallback(step) => CallbackKeepsBacked(cfg, s, step);
      case OnConsent(step) => ConsentKeepsBacked(cfg, s, step);
      case OnToken(step) => TokenKeepsBacked(cfg, s, step);
      case OnDevice(step) => DeviceKeepsBacked(cfg, s, step);
    }
  }

  lemma {:induction false} RunKeepsBacked(cfg: Config, s: State, run: seq<Label>)
    requires AllBacked(cfg, s) && Traced(cfg, s) && IsWord(cfg.audience)
    ensures AllBacked(cfg, Exec(cfg, s, run)) && Traced(cfg, Exec(cfg, s, run))
    decreases |run|
  {
    if run != [] {
      StepKeepsBacked(cfg, s, run[0]);
      StepKeepsTraced(cfg, s, run[0]);
      RunKeepsBacked(cfg, Next(cfg, s, run[0]), run[1..]);
    }
  }

  /** Besides the audience, `scopes` holds exactly the known services that the lookups answered to be granted. */
  ghost predicate WhatTheLookupsSaid(cfg: Config, scopes: seq<string>, lookups: Lookups) {
    && |lookups.answers| == |lookups.requested|
    && Subsequence(scopes, [cfg.audience] + lookups.requested)
    && forall x :: x in scopes <==>
         || x == cfg.audience
         || exists i :: 0 <= i < |lookups.requested| && lookups.requested[i] == x && x in cfg.services && lookups.answers[i] == Some(true)
  }

  lemma BackedIsWhatTheLookupsSaid(cfg: Config, scopes: seq<string>, lookups: Lookups)
    requires Backed(cfg, scopes, lookups)
    ensures WhatTheLookupsSaid(cfg, scopes, lookups)
  {
    assert scopes == [cfg.audience] + scopes[1..];
    assert ([cfg.audience] + lookups.requested)[1..] == lookups.requested;
    forall x ensures x in scopes <==> (x == cfg.audience || exists i :: 0 <= i < |lookups.requested| && lookups.requested[i] == x && x in cfg.services && lookups.answers[i] == Some(true)) {
      assert x in scopes <==> x == cfg.audience || Found(cfg, lookups, x);
    }
  }

  /** A finished ceremony goes on with the scopes that these very lookups answered to be granted, and so does a refresh. */
  lemma LookupsDecide(cfg: Config, s: State, h: nat, answers: seq<Option<bool>>)
    requires IsWord(cfg.audience)
    ensures var pc, t := Pc(s, h), NextConsent(cfg, s, Filter(h, answers));
            pc.Finishing? && AllWords(pc.req.scopes) && |answers| == |pc.req.scopes| ==>
              && Pc(t, h).CodeReady? && Pc(t, h).req == pc.req
              && WhatTheLookupsSaid(cfg, Split(Pc(t, h).scope), Lookups(pc.req.scopes, answers))
    ensures var pc, t := Pc(s, h), NextToken(cfg, s, Rescope(h, answers));
            pc.Rescoping? && |answers| == |Split(pc.scope)| ==>
              && Pc(t, h) == Issuing(pc.via, pc.request, pc.user, pc.client, Pc(t, h).scope)
              && WhatTheLookupsSaid(cfg, Split(Pc(t, h).scope), Lookups(Split(pc.scope), answers))
  {
    var pc := Pc(s, h);
    if pc.Finishing? && AllWords(pc.req.scopes) && |answers| == |pc.req.scopes| {
      WordsDecide(cfg, pc.req.scopes, answers);
    }
    if pc.Rescoping? && |answers| == |Split(pc.scope)| {
      SplitYieldsWords(pc.scope);
      WordsDecide(cfg, Split(pc.scope), answers);
      RescopeWrites(cfg, s, Rescope(h, answers));
    }
  }

  lemma WordsDecide(cfg: Config, requested: seq<string>, answers: seq<Option<bool>>)
    requires |answers| == |requested| && AllWords(requested) && IsWord(cfg.audience)
    ensures WhatTheLookupsSaid(cfg, Split(Join([cfg.audience] + Kept(cfg.services, requested, cfg.audience, answers))),
                               Lookups(requested, answers))
  {
    KeptIsBacked(cfg, requested, answers);
    BackedIsWhatTheLookupsSaid(cfg, [cfg.audience] + Kept(cfg.services, requested, cfg.audience, answers), Lookups(requested, answers));
  }

  /** In every reachable state the scopes of a code, of a refresh token and of an answered pair are what the grant lookups
      of its own issue said: a code's lookups were over the scopes its request asked for, a refreshed pair's over the
      scopes of its predecessor, and a pair issued for a code has the code's. */
  lemma EveryScopeWasLookedUp(cfg: Config, now: Time, run: seq<Label>)
    requires IsWord(cfg.audience)
    ensures var s := Exec(cfg, Init(now), run);
            && (forall k :: k in s.db && s.db[k].value.Code? ==>
                  && k.name in s.notes.issues && s.notes.issues[k.name].requested == s.db[k].value.req.scopes
                  && WhatTheLookupsSaid(cfg, Split(s.db[k].value.scope), s.notes.issues[k.name]))
            && (forall k :: k in s.db && s.db[k].value.Refresh? ==>
                  k.name in s.notes.issues && WhatTheLookupsSaid(cfg, Split(s.db[k].value.scope), s.notes.issues[k.name]))
            && (forall u :: u in s.hist.uses ==>
                  && u.refresh in s.hist.scopes && u.refresh in s.notes.issues
                  && WhatTheLookupsSaid(cfg, Split(s.hist.scopes[u.refresh]), s.notes.issues[u.refresh])
                  && (u.via.ByCode? ==> u.via.code in s.notes.issues && s.notes.issues[u.refresh] == s.notes.issues[u.via.code])
                  && (u.via.ByRefresh? ==> u.via.previous in s.hist.scopes
                                           && s.notes.issues[u.refresh].requested == Split(s.hist.scopes[u.via.previous]))
                  && (u.via.ByDevice? ==> Split(s.hist.scopes[u.refresh]) == [cfg.audience]))
  {
    RunKeepsBacked(cfg, Init(now), run);
    var s := Exec(cfg, Init(now), run);
    forall k | k in s.db && s.db[k].value.Code?
      ensures k.name in s.notes.issues && s.notes.issues[k.name].requested == s.db[k].value.req.scopes
      ensures WhatTheLookupsSaid(cfg, Split(s.db[k].value.scope), s.notes.issues[k.name])
    {
      assert RecordBacked(cfg, s.notes, k, s.db[k].value);
      BackedIsWhatTheLookupsSaid(cfg, Split(s.db[k].value.scope), s.notes.issues[k.name]);
    }
    forall k | k in s.db && s.db[k].value.Refresh?
      ensures k.name in s.notes.issues && WhatTheLookupsSaid(cfg, Split(s.db[k].value.scope), s.notes.issues[k.name])
    {
      assert RecordOk(cfg, s.hist, k, s.db[k].value);
      BackedIsWhatTheLookupsSaid(cfg, Split(s.db[k].value.scope), s.notes.issues[k.name]);
    }
    forall u | u in s.hist.uses
      ensures u.refresh in s.hist.scopes && u.refresh in s.notes.issues
      ensures WhatTheLookupsSaid(cfg, Split(s.hist.scopes[u.refresh]), s.notes.issues[u.refresh])
      ensures Linked(s.hist, u.via, s.notes.issues, s.notes.issues[u.refresh])
      ensures u.via.ByDevice? ==> Split(s.hist.scopes[u.refresh]) == [cfg.audience]
    {
      assert UseOk(cfg, s.hist, u);
      BackedIsWhatTheLookupsSaid(cfg, Split(s.hist.scopes[u.refresh]), s.notes.issues[u.refresh]);
      if u.via.ByDevice? {
        assert ViaOk(cfg, s.hist, u.via, u.request, u.user, u.client, s.hist.scopes[u.refresh]);
        AudienceIsBacked(cfg);
      }
    }
  }
}
