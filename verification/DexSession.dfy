/** Revalidation at Dex. The server keeps one Dex refresh token per user and replays it on every refresh; Dex
    honours one token per user and replaces it at a login or a rotation. This machine is one user's record: other
    users' records and tokens are other keys. A call can be lost on its way to Dex, or its answer on the way back. */
module DexSession {
  import opened Prelude
  import opened DeadlineMap

  type Token = nat

  datatype Cause = NoRecord | RefusedByDex
  datatype Answer = Honoured(token: Token) | Ended(cause: Cause) | Unreachable

  /** Where a login or a revalidation is. */
  datatype Op =
    | SavingLogin(token: Token)
    | Reading
    | Asking(token: Token, retried: bool)
    | Rechecking(token: Token, retried: bool)
    | Saving(token: Token)
    | Dropping
    | Finished(answer: Answer)

  datatype State = State(
    now: Time,
    ttl: nat,
    stored: Option<Cell<Token>>,
    dex: Option<Token>,
    ops: map<nat, Op>,
    issued: set<Token>,
    refused: bool,   // history: Dex refused the user and no login has happened since
    lost: bool)      // history: Dex replaced the token and the server never learned it; nothing was saved since

  /** What Dex does with a token it honours: keep it or rotate it; or no answer comes, either because nothing happened or
      because the answer that carried the rotated token is lost or cannot be read. */
  datatype Reply = Keep | Rotate(token: Token) | NoReply | RotationLost(token: Token)

  datatype Label =
    | Tick(to: Time)
    | Disable
    | Login(op: nat, token: Token)
    | SaveLogin(op: nat)
    | AbandonLogin(op: nat)
    | Start(op: nat)
    | ReadRecord(op: nat)
    | Ask(op: nat, reply: Reply)
    | Recheck(op: nat)
    | Save(op: nat)
    | Drop(op: nat)

  function Init(now: Time, ttl: nat): State {
    State(now, ttl, None, None, map[], {}, false, false)
  }

  function At(s: State, op: nat): Op {
    if op in s.ops then s.ops[op] else Finished(Unreachable)
  }

  function Goto(s: State, op: nat, pc: Op): State {
    s.(ops := s.ops[op := pc])
  }

  function Current(s: State): Option<Token> {
    match s.stored
    case None => None
    case Some(c) => if Live(c, s.now) then Some(c.value) else None
  }

  function Put(s: State, token: Token): State {
    s.(stored := Some(Cell(token, Deadline(s.now, Some(s.ttl)))), lost := false)
  }

  function Next(s: State, l: Label): State {
    match l
    case Tick(to) => if s.now <= to then s.(now := to) else s
    case Disable => s.(dex := None)
    case Login(op, token) =>
      if op in s.ops || token in s.issued then s
      else Goto(s, op, SavingLogin(token)).(dex := Some(token), issued := s.issued + {token}, refused := false)
    case SaveLogin(op) => (
      match At(s, op)
      case SavingLogin(token) => Goto(Put(s, token), op, Finished(Honoured(token)))
      case _ => s)
    case AbandonLogin(op) => (
      // Dex has issued the token, but its answer is lost or names no user.
      match At(s, op)
      case SavingLogin(token) => Goto(s, op, Finished(Unreachable)).(lost := true)
      case _ => s)
    case Start(op) => if op in s.ops then s else Goto(s, op, Reading)
    case ReadRecord(op) => (
      match At(s, op)
      case Reading => (
        match Current(s)
        case Some(token) => Goto(s, op, Asking(token, false))
        case None => Goto(s, op, Finished(Ended(NoRecord))))
      case _ => s)
    case Ask(op, reply) => (
      match At(s, op)
      case Asking(token, retried) =>
        if reply.NoReply? then Goto(s, op, Finished(Unreachable))
        else if s.dex != Some(token) then
          if reply.RotationLost? then Goto(s, op, Finished(Unreachable)) else Goto(s, op, Rechecking(token, retried))
        else (
          match reply
          case Rotate(rotated) =>
            if rotated in s.issued then s
            else Goto(s, op, Saving(rotated)).(dex := Some(rotated), issued := s.issued + {rotated})
          case RotationLost(rotated) =>
            if rotated in s.issued then s
            else Goto(s, op, Finished(Unreachable)).(dex := Some(rotated), issued := s.issued + {rotated}, lost := true)
          case _ => Goto(s, op, Saving(token)))
      case _ => s)
    case Recheck(op) => (
      match At(s, op)
      case Rechecking(token, retried) => (
        match Current(s)
        case Some(c) => if c != token && !retried then Goto(s, op, Asking(c, true)) else Goto(s, op, Dropping)
        case None => Goto(s, op, Dropping))
      case _ => s)
    case Save(op) => (
      match At(s, op)
      case Saving(token) => Goto(Put(s, token), op, Finished(Honoured(token)))
      case _ => s)
    case Drop(op) => (
      match At(s, op)
      case Dropping => Goto(s.(stored := None, refused := true), op, Finished(Ended(RefusedByDex)))
      case _ => s)
  }

  function Exec(s: State, run: seq<Label>): State
    decreases |run|
  {
    if run == [] then s else Exec(Next(s, run[0]), run[1..])
  }

  // ---------------------------------------------------------------- without overlap

  /** At most one login or revalidation of the user is under way. */
  ghost predicate Alone(s: State) {
    forall a, b :: a in s.ops && b in s.ops && !s.ops[a].Finished? && !s.ops[b].Finished? ==> a == b
  }

  ghost predicate AlwaysAlone(s: State, run: seq<Label>)
    decreases |run|
  {
    Alone(s) && (run == [] || AlwaysAlone(Next(s, run[0]), run[1..]))
  }

  /** A token that is the one Dex honours, unless Dex honours none. */
  predicate UpToDate(s: State, token: Token) {
    s.dex.None? || s.dex == Some(token)
  }

  predicate Idle(s: State) {
    forall op :: op in s.ops ==> s.ops[op].Finished?
  }

  predicate StoredIs(s: State, token: Token) { s.stored.Some? && s.stored.value.value == token }

  ghost predicate OpOk(s: State, pc: Op) {
    match pc
    case SavingLogin(token) => UpToDate(s, token) && token in s.issued && !StoredIs(s, token)
    case Reading => true
    case Asking(token, retried) => !retried && StoredIs(s, token)
    case Rechecking(token, retried) => StoredIs(s, token) && s.dex != Some(token) && (!s.lost ==> s.dex.None?)
    case Saving(token) => UpToDate(s, token) && token in s.issued
    case Dropping => !s.lost ==> s.dex.None?
    case Finished(_) => true
  }

  predicate Reads(pc: Op) { pc.Reading? || pc.Asking? || pc.Rechecking? || pc.Finished? }

  /** Nothing is being saved, so the record is all the server knows. */
  predicate Settled(s: State) { forall op :: op in s.ops ==> Reads(s.ops[op]) }

  ghost predicate Inv(s: State) {
    && (s.dex.Some? ==> s.dex.value in s.issued)
    && (s.stored.Some? ==> s.stored.value.value in s.issued)
    && (Settled(s) && s.stored.Some? && s.dex.Some? ==> (StoredIs(s, s.dex.value) <==> !s.lost))
    && (forall op :: op in s.ops ==> OpOk(s, s.ops[op]))
    && (s.refused ==> s.stored.None? && (!s.lost ==> s.dex.None?)
                      && forall op :: op in s.ops ==> s.ops[op].Reading? || s.ops[op].Finished?)
  }

  /** The step leaves every other operation where it was: finished. */
  lemma OthersFinished(s: State, t: State, op: nat)
    requires Alone(s) && op in s.ops && !s.ops[op].Finished? && t.ops == s.ops[op := At(t, op)]
    ensures forall o :: o in t.ops && o != op ==> t.ops[o].Finished?
  {
    forall o | o in t.ops && o != op ensures t.ops[o].Finished? {
      assert t.ops[o] == s.ops[o];
    }
  }

  lemma BeginKeepsInv(s: State, l: Label)
    requires Inv(s) && Alone(s) && Alone(Next(s, l)) && (l.Start? || l.Login? || l.Tick? || l.Disable?)
    ensures Inv(Next(s, l))
  {
    var t := Next(s, l);
    if (l.Start? || l.Login?) && t != s {
      assert !t.ops[l.op].Finished?;
      forall o | o in s.ops ensures s.ops[o].Finished? {
        assert t.ops[o] == s.ops[o];
      }
    }
  }

  lemma SaveKeepsInv(s: State, l: Label)
    requires Inv(s) && Alone(s) && (l.SaveLogin? || l.AbandonLogin? || l.Save? || l.Drop?)
    ensures Inv(Next(s, l))
  {
    var t := Next(s, l);
    if t != s {
      assert OpOk(s, s.ops[l.op]);
      OthersFinished(s, t, l.op);
    }
  }

  lemma AskKeepsInv(s: State, l: Label)
    requires Inv(s) && Alone(s) && (l.ReadRecord? || l.Ask? || l.Recheck?)
    ensures Inv(Next(s, l))
  {
    var t := Next(s, l);
    if t != s {
      assert OpOk(s, s.ops[l.op]);
      OthersFinished(s, t, l.op);
      assert Settled(s) by {
        forall o | o in s.ops ensures Reads(s.ops[o]) {
          assert o != l.op ==> t.ops[o] == s.ops[o];
        }
      }
    }
  }

  lemma StepKeepsInv(s: State, l: Label)
    requires Inv(s) && Alone(s) && Alone(Next(s, l))
    ensures Inv(Next(s, l))
  {
    if l.ReadRecord? || l.Ask? || l.Recheck? {
      AskKeepsInv(s, l);
    } else if l.SaveLogin? || l.AbandonLogin? || l.Save? || l.Drop? {
      SaveKeepsInv(s, l);
    } else {
      BeginKeepsInv(s, l);
    }
  }

  lemma {:induction false} RunKeepsInv(s: State, run: seq<Label>)
    requires Inv(s) && AlwaysAlone(s, run)
    ensures Inv(Exec(s, run))
    decreases |run|
  {
    if run != [] {
      StepKeepsInv(s, run[0]);
      RunKeepsInv(Next(s, run[0]), run[1..]);
    }
  }

  /** When logins and revalidations of a user do not overlap: whenever none is under way, the stored token is the one Dex
      honours exactly if no rotation was lost since the last save. As long as none was, Dex is seen to refuse only a
      user it honours no more. After a refusal every revalidation ends without a record until the next login. */
  lemma SequentialSessionsAreSound(now: Time, ttl: nat, run: seq<Label>)
    requires AlwaysAlone(Init(now, ttl), run)
    ensures var s := Exec(Init(now, ttl), run);
            && (Idle(s) && s.stored.Some? && s.dex.Some? ==> (s.stored.value.value == s.dex.value <==> !s.lost))
            && (!s.lost ==> forall op :: op in s.ops && (s.ops[op].Rechecking? || s.ops[op].Dropping?) ==> s.dex.None?)
            && (s.refused ==> forall op :: op in s.ops && s.ops[op].Reading? ==>
                  Next(s, ReadRecord(op)).ops[op] == Finished(Ended(NoRecord)))
  {
    RunKeepsInv(Init(now, ttl), run);
    var s := Exec(Init(now, ttl), run);
    forall op | op in s.ops && (s.ops[op].Rechecking? || s.ops[op].Dropping?) ensures !s.lost ==> s.dex.None? {
      assert OpOk(s, s.ops[op]);
    }
  }

  /** Dex answers, and a rotated token is a new one. */
  predicate Answers(s: State, r: Reply) {
    r.Keep? || (r.Rotate? && r.token !in s.issued)
  }

  /** An undisturbed revalidation that Dex answers honours the user exactly when a live record holds the token Dex
      honours. */
  lemma UndisturbedRevalidation(s: State, op: nat, reply: Reply)
    requires op !in s.ops && Answers(s, reply)
    ensures var t := Next(Next(Next(s, Start(op)), ReadRecord(op)), Ask(op, reply));
            && (At(t, op).Saving? <==> Current(s).Some? && Current(s) == s.dex)
            && (At(t, op) == Finished(Ended(NoRecord)) <==> Current(s).None?)
            && (At(t, op).Saving? ==> var u := Next(t, Save(op)); u.stored.Some? && Some(u.stored.value.value) == u.dex && !u.lost)
  {
  }

  /** So after any run without overlap, a revalidation of a user whom Dex honours succeeds exactly if the record is live and
      no rotation was lost since it was saved. */
  lemma HonouredUsersAreHonouredExactly(now: Time, ttl: nat, run: seq<Label>, op: nat, reply: Reply)
    requires AlwaysAlone(Init(now, ttl), run)
    ensures var s := Exec(Init(now, ttl), run);
            Idle(s) && s.dex.Some? && op !in s.ops && Answers(s, reply) ==>
              (At(Next(Next(Next(s, Start(op)), ReadRecord(op)), Ask(op, reply)), op).Saving? <==> Current(s).Some? && !s.lost)
  {
    SequentialSessionsAreSound(now, ttl, run);
    var s := Exec(Init(now, ttl), run);
    if op !in s.ops && Answers(s, reply) {
      UndisturbedRevalidation(s, op, reply);
    }
  }

  /** The retry after a refusal: it succeeds exactly when a sibling has by then stored the token Dex honours now. */
  lemma RetrySucceedsIffASiblingSaved(s: State, op: nat, reply: Reply)
    requires At(s, op).Rechecking? && !At(s, op).retried && s.dex != Some(At(s, op).token)
    requires Answers(s, reply)
    ensures var t := Next(Next(s, Recheck(op)), Ask(op, reply));
            && (At(t, op).Saving? <==> Current(s).Some? && Current(s) == s.dex)
            && (At(t, op).Saving? ==> var u := Next(t, Save(op));
                                      At(u, op).answer.Honoured? && u.stored.Some? && Some(u.stored.value.value) == u.dex)
  {
  }

  /** A second refusal is final, whatever a sibling stored meanwhile. */
  lemma NoSecondRetry(s: State, op: nat)
    requires At(s, op).Rechecking? && At(s, op).retried
    ensures var t := Next(Next(s, Recheck(op)), Drop(op)); At(t, op) == Finished(Ended(RefusedByDex)) && t.stored.None?
  {
  }

  /** This step is a call of `op` to Dex. */
  predicate AsksDex(s: State, l: Label, op: nat) {
    l.Ask? && l.op == op && At(s, op).Asking? && Next(s, l) != s
  }

  function Asks(s: State, run: seq<Label>, op: nat): nat
    decreases |run|
  {
    if run == [] then 0 else (if AsksDex(s, run[0], op) then 1 else 0) + Asks(Next(s, run[0]), run[1..], op)
  }

  /** How often a revalidation can still ask. */
  function AsksLeft(s: State, op: nat): nat {
    if op !in s.ops then 2
    else match s.ops[op]
      case Reading => 2
      case Asking(_, retried) => if retried then 1 else 2
      case Rechecking(_, retried) => if retried then 0 else 1
      case _ => 0
  }

  lemma StepUsesAsks(s: State, l: Label, op: nat)
    ensures AsksLeft(Next(s, l), op) + (if AsksDex(s, l, op) then 1 else 0) <= AsksLeft(s, op)
  {
  }

  /** Whatever else happens meanwhile, a revalidation asks Dex at most twice. */
  lemma {:induction false} ARevalidationAsksTwiceAtMost(s: State, run: seq<Label>, op: nat)
    ensures Asks(s, run, op) <= AsksLeft(s, op) <= 2
    decreases |run|
  {
    if run != [] {
      StepUsesAsks(s, run[0], op);
      ARevalidationAsksTwiceAtMost(Next(s, run[0]), run[1..], op);
    }
  }

  /** A call that gets no answer ends the revalidation and changes nothing else. */
  lemma NoReplyChangesNothing(s: State, op: nat)
    requires At(s, op).Asking?
    ensures var t := Next(s, Ask(op, NoReply));
            && At(t, op) == Finished(Unreachable)
            && t.stored == s.stored && t.dex == s.dex && t.refused == s.refused && t.lost == s.lost
            && forall other :: other != op ==> At(t, other) == At(s, other)
  {
  }

  /** A token saved at a login or a revalidation is read back for its lifetime from then on. */
  lemma SavedTokensLastTheirLifetime(s: State, op: nat, later: Time)
    requires (At(s, op).SavingLogin? || At(s, op).Saving?) && s.now <= later
    ensures var t := Next(s, if At(s, op).Saving? then Save(op) else SaveLogin(op));
            Current(Next(t, Tick(later))) == if later < s.now + s.ttl as Time then Some(At(s, op).token) else None
  {
  }

  // ---------------------------------------------------------------- where an honoured user is refused

  /** A login that has replaced Dex's token but not yet saved it overlaps a revalidation: the user Dex honours is
      refused and the record dropped. So the sequential result needs logins, too, not to overlap. */
  lemma AnOverlappingLoginGetsAnHonouredUserRefused(s: State, login: nat, op: nat, token: Token, reply: Reply)
    requires Current(s).Some? && Current(s) == s.dex
    requires login !in s.ops && op !in s.ops && login != op
    requires token !in s.issued && Current(s) != Some(token) && Answers(s, reply)
    ensures var s1 := Next(Next(Next(s, Login(login, token)), Start(op)), ReadRecord(op));
            var s2 := Next(Next(Next(s1, Ask(op, reply)), Recheck(op)), Drop(op));
            s2.dex == Some(token) && At(s2, op) == Finished(Ended(RefusedByDex)) && s2.stored.None?
  {
    var s1 := Next(Next(Next(s, Login(login, token)), Start(op)), ReadRecord(op));
    assert At(s1, op) == Asking(Current(s).value, false);
    var s2 := Next(s1, Ask(op, reply));
    assert At(s2, op) == Rechecking(Current(s).value, false);
  }

  function LoseRotation(s: State, op: nat, token: Token): State {
    Next(Next(Next(s, Start(op)), ReadRecord(op)), Ask(op, RotationLost(token)))
  }

  lemma TheRecordStaysOnFile(s: State, op: nat, token: Token)
    requires Current(s).Some? && Current(s) == s.dex && token !in s.issued && op !in s.ops
    ensures LoseRotation(s, op, token) ==
            Goto(s, op, Finished(Unreachable)).(dex := Some(token), issued := s.issued + {token}, lost := true)
  {
    var s1 := Next(s, Start(op));
    var s2 := Next(s1, ReadRecord(op));
    assert At(s2, op) == Asking(Current(s).value, false);
    assert s2.ops[op := Finished(Unreachable)] == s.ops[op := Finished(Unreachable)];
  }

  function Revalidate(s: State, op: nat, reply: Reply): State {
    Next(Next(Next(Next(Next(s, Start(op)), ReadRecord(op)), Ask(op, reply)), Recheck(op)), Drop(op))
  }

  /** A record that does not hold the token Dex honours is refused and dropped. */
  lemma AStaleRecordIsRefused(s: State, op: nat, reply: Reply)
    requires Current(s).Some? && Current(s) != s.dex && op !in s.ops && (reply.Keep? || reply.Rotate?)
    ensures var t := Revalidate(s, op, reply);
            t.dex == s.dex && At(t, op) == Finished(Ended(RefusedByDex)) && t.stored.None?
  {
    var s2 := Next(Next(s, Start(op)), ReadRecord(op));
    assert At(s2, op) == Asking(Current(s).value, false);
    var s3 := Next(s2, Ask(op, reply));
    assert At(s3, op) == Rechecking(Current(s).value, false);
    assert At(Next(s3, Recheck(op)), op) == Dropping;
  }

  /** Dex rotates and its answer is lost: the caller is told to try again later, the old token stays on file, and the next
      revalidation, undisturbed and answered, refuses a user whom Dex honours and drops the record. */
  lemma ALostRotationGetsAnHonouredUserRefused(s: State, first: nat, op: nat, token: Token, reply: Reply)
    requires Current(s).Some? && Current(s) == s.dex && token !in s.issued && Current(s) != Some(token)
    requires first !in s.ops && op !in s.ops && first != op && (reply.Keep? || reply.Rotate?)
    ensures var s1 := LoseRotation(s, first, token);
            var s2 := Revalidate(s1, op, reply);
            && At(s1, first) == Finished(Unreachable) && s1.stored == s.stored
            && s2.dex == Some(token) && At(s2, op) == Finished(Ended(RefusedByDex)) && s2.stored.None?
  {
    TheRecordStaysOnFile(s, first, token);
    AStaleRecordIsRefused(LoseRotation(s, first, token), op, reply);
  }

  /** The Dex token is stored at login, before the refresh token is issued, both for the same time: a user who never
      refreshed still holds a live refresh token when the Dex token has expired, and is then refused although Dex
      would honour him. */
  lemma ARefreshTokenOutlivesItsDexToken(s: State, op: nat, issued: Time)
    requires s.stored.Some? && s.stored.value.deadline.Some? && op !in s.ops
    requires s.now == s.stored.value.deadline.value < issued + s.ttl as Time
    ensures Live(Cell((), Deadline(issued, Some(s.ttl))), s.now)
    ensures At(Next(Next(s, Start(op)), ReadRecord(op)), op) == Finished(Ended(NoRecord))
  {
  }
}
