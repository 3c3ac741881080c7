/** The proxy's key cache: fresh entries are served, stale ones served and refreshed once in the background, cold
    ones fetched in the foreground. */
module KeyCache {
  import opened Prelude

  type Time = real

  datatype Entry = Entry(key: string, exp: Time)

  /** What the mutex guards. */
  datatype Shared = Shared(cache: map<string, Entry>, inflight: set<string>)

  /** What the first critical section of `KeyFor` decides. */
  datatype Look = Hit(key: string) | Stale(key: string, refresh: bool) | Cold

  function LookUp(m: Shared, sub: string, now: Time): Look {
    if sub !in m.cache then Cold
    else if now < m.cache[sub].exp then Hit(m.cache[sub].key)
    else Stale(m.cache[sub].key, sub !in m.inflight)
  }

  function AfterLook(m: Shared, sub: string, look: Look): Shared {
    if look.Stale? && look.refresh then m.(inflight := m.inflight + {sub}) else m
  }

  function Filled(m: Shared, sub: string, key: string, now: Time, ttl: Time): Shared {
    m.(cache := m.cache[sub := Entry(key, now + ttl)])
  }

  function Cleared(m: Shared, sub: string): Shared {
    m.(inflight := m.inflight - {sub})
  }

  /** The resolver object; each method is one stretch of code run under its mutex. */
  class CachedResolver {
    const ttl: Time
    var cache: map<string, Entry>
    var inflight: set<string>

    constructor (ttl: Time)
      ensures this.ttl == ttl && View() == Shared(map[], {})
    {
      this.ttl := ttl;
      cache := map[];
      inflight := {};
    }

    function View(): Shared
      reads this
    {
      Shared(cache, inflight)
    }

    method Look(sub: string, now: Time) returns (look: Look)
      modifies this
      ensures look == LookUp(old(View()), sub, now)
      ensures View() == AfterLook(old(View()), sub, look)
      ensures cache == old(cache)
      ensures look.Cold? <==> sub !in cache
      ensures look.Hit? <==> sub in cache && now < cache[sub].exp
      ensures sub in cache && now < cache[sub].exp ==> look.key == cache[sub].key && inflight == old(inflight)
      ensures sub in cache && now >= cache[sub].exp ==>
                look == Stale(cache[sub].key, sub !in old(inflight)) && inflight == old(inflight) + {sub}
      ensures sub !in cache ==> inflight == old(inflight)
    {
      if sub in cache {
        var e := cache[sub];
        if now < e.exp {
          return Hit(e.key);
        }
        var busy := sub in inflight;
        if !busy {
          inflight := inflight + {sub};
        }
        return Stale(e.key, !busy);
      }
      return Cold;
    }

    method Fill(sub: string, key: string, now: Time)
      modifies this
      ensures View() == Filled(old(View()), sub, key, now, ttl)
      ensures cache == old(cache)[sub := Entry(key, now + ttl)] && inflight == old(inflight)
    {
      cache := cache[sub := Entry(key, now + ttl)];
    }

    method Clear(sub: string)
      modifies this
      ensures View() == Cleared(old(View()), sub)
      ensures cache == old(cache) && inflight == old(inflight) - {sub}
    {
      inflight := inflight - {sub};
    }
  }

  // ---------------------------------------------------------------- interleaved calls and goroutines

  /** A caller or a goroutine. */
  datatype Task =
    | Calling(sub: string)
    | Fetching(sub: string, background: bool)
    | Filling(sub: string, key: string, background: bool)
    | Clearing(sub: string)
    | Answered(sub: string, key: string)
    | Failed(sub: string)
    | Gone

  datatype State = State(
    now: Time,
    ttl: Time,
    shared: Shared,
    tasks: map<nat, Task>,
    replies: set<(string, string)>)   // history: keys the resolver endpoint returned, per sub

  datatype Label =
    | Tick(to: Time)
    | Call(t: nat, sub: string)
    | Inspect(t: nat, goroutine: nat)
    | Reply(t: nat, key: Option<string>)
    | Fill(t: nat)
    | Clear(t: nat)

  function Init(now: Time, ttl: Time): State {
    State(now, ttl, Shared(map[], {}), map[], {})
  }

  function At(s: State, t: nat): Task {
    if t in s.tasks then s.tasks[t] else Gone
  }

  function Goto(s: State, t: nat, task: Task): State {
    s.(tasks := s.tasks[t := task])
  }

  function Next(s: State, l: Label): State {
    match l
    case Tick(to) => if s.now <= to then s.(now := to) else s
    case Call(t, sub) => if t in s.tasks then s else Goto(s, t, Calling(sub))
    case Inspect(t, goroutine) => (
      match At(s, t)
      case Calling(sub) =>
        if goroutine in s.tasks then s
        else
          var look := LookUp(s.shared, sub, s.now);
          var m := s.(shared := AfterLook(s.shared, sub, look));
          (match look
           case Hit(key) => Goto(m, t, Answered(sub, key))
           case Stale(key, refresh) =>
             if refresh then Goto(Goto(m, t, Answered(sub, key)), goroutine, Fetching(sub, true))
             else Goto(m, t, Answered(sub, key))
           case Cold => Goto(m, t, Fetching(sub, false)))
      case _ => s)
    case Reply(t, key) => (
      match At(s, t)
      case Fetching(sub, background) =>
        if key.Some? && key.value != "" then
          Goto(s, t, Filling(sub, key.value, background)).(replies := s.replies + {(sub, key.value)})
        else if background then Goto(s, t, Clearing(sub))
        else Goto(s, t, Failed(sub))
      case _ => s)
    case Fill(t) => (
      match At(s, t)
      case Filling(sub, key, background) =>
        Goto(s, t, if background then Clearing(sub) else Answered(sub, key))
        .(shared := Filled(s.shared, sub, key, s.now, s.ttl))
      case _ => s)
    case Clear(t) => (
      match At(s, t)
      case Clearing(sub) => Goto(s, t, Gone).(shared := Cleared(s.shared, sub))
      case _ => s)
  }

  function Exec(s: State, run: seq<Label>): State
    decreases |run|
  {
    if run == [] then s else Exec(Next(s, run[0]), run[1..])
  }

  /** Task `t` is a background refresh of `sub`. */
  predicate Refreshes(task: Task, sub: string) {
    match task
    case Fetching(u, background) => background && u == sub
    case Filling(u, _, background) => background && u == sub
    case Clearing(u) => u == sub
    case _ => false
  }

  /** A sub is in flight exactly when a background refresh of it runs, and then exactly one does. */
  ghost predicate OneRefreshEach(s: State) {
    && (forall sub :: sub in s.shared.inflight <==> exists t :: t in s.tasks && Refreshes(s.tasks[t], sub))
    && (forall sub, t, u :: t in s.tasks && u in s.tasks && Refreshes(s.tasks[t], sub) && Refreshes(s.tasks[u], sub) ==> t == u)
  }

  /** Every key cached, under way or answered is one the resolver returned for that very sub. */
  ghost predicate Genuine(s: State) {
    && (forall sub :: sub in s.shared.cache ==>
          (sub, s.shared.cache[sub].key) in s.replies && s.shared.cache[sub].exp <= s.now + s.ttl)
    && (forall t :: t in s.tasks ==>
          match s.tasks[t]
          case Filling(sub, key, _) => (sub, key) in s.replies
          case Answered(sub, key) => (sub, key) in s.replies
          case _ => true)
    && (forall sub :: sub in s.shared.inflight ==> sub in s.shared.cache)
  }

  /** Whether the look of call `t` starts a refresh. */
  predicate Starts(s: State, t: nat) {
    At(s, t).Calling? && var look := LookUp(s.shared, At(s, t).sub, s.now); look.Stale? && look.refresh
  }

  lemma StartKeepsOneRefresh(s: State, t: nat, goroutine: nat)
    requires OneRefreshEach(s) && Starts(s, t) && goroutine !in s.tasks
    ensures OneRefreshEach(Next(s, Inspect(t, goroutine)))
  {
    var n := Next(s, Inspect(t, goroutine));
    var sub := At(s, t).sub;
    assert forall u :: u in s.tasks && u != t ==> n.tasks[u] == s.tasks[u];
    assert sub !in s.shared.inflight && n.shared.inflight == s.shared.inflight + {sub};
    forall x ensures x in n.shared.inflight <==> exists u :: u in n.tasks && Refreshes(n.tasks[u], x) {
      if x == sub {
        assert Refreshes(n.tasks[goroutine], x);
      } else {
        SameRefreshes(s, n, x);
      }
    }
  }

  lemma LookKeepsOneRefresh(s: State, t: nat, goroutine: nat)
    requires OneRefreshEach(s) && At(s, t).Calling? && !Starts(s, t) && goroutine !in s.tasks
    ensures OneRefreshEach(Next(s, Inspect(t, goroutine)))
  {
    var n := Next(s, Inspect(t, goroutine));
    assert n.tasks == s.tasks[t := n.tasks[t]] && n.shared.inflight == s.shared.inflight;
    assert forall x :: !Refreshes(n.tasks[t], x) && !Refreshes(s.tasks[t], x);
    forall x ensures x in n.shared.inflight <==> exists u :: u in n.tasks && Refreshes(n.tasks[u], x) {
      SameRefreshes(s, n, x);
    }
  }

  lemma InspectKeepsOneRefresh(s: State, t: nat, goroutine: nat)
    requires OneRefreshEach(s)
    ensures OneRefreshEach(Next(s, Inspect(t, goroutine)))
  {
    if !At(s, t).Calling? || goroutine in s.tasks {
      assert Next(s, Inspect(t, goroutine)) == s;
    } else if Starts(s, t) {
      StartKeepsOneRefresh(s, t, goroutine);
    } else {
      LookKeepsOneRefresh(s, t, goroutine);
    }
  }

  /** If the refreshes of `x` are the same tasks before and after, so is there being one. */
  lemma SameRefreshes(s: State, n: State, x: string)
    requires forall u :: u in s.tasks && Refreshes(s.tasks[u], x) ==> u in n.tasks && Refreshes(n.tasks[u], x)
    requires forall u :: u in n.tasks && Refreshes(n.tasks[u], x) ==> u in s.tasks && Refreshes(s.tasks[u], x)
    ensures (exists u :: u in s.tasks && Refreshes(s.tasks[u], x)) <==> (exists u :: u in n.tasks && Refreshes(n.tasks[u], x))
  {
  }

  lemma ClearKeepsOneRefresh(s: State, t: nat)
    requires OneRefreshEach(s)
    ensures OneRefreshEach(Next(s, Clear(t)))
  {
    var n := Next(s, Clear(t));
    if n == s { return; }
    var sub := At(s, t).sub;
    assert forall u :: u in s.tasks && u != t ==> n.tasks[u] == s.tasks[u];
    assert Refreshes(s.tasks[t], sub);
    forall x ensures x in n.shared.inflight <==> exists u :: u in n.tasks && Refreshes(n.tasks[u], x) {
      if x != sub {
        SameRefreshes(s, n, x);
      }
    }
  }

  lemma FetchKeepsOneRefresh(s: State, l: Label)
    requires (l.Reply? || l.Fill?) && OneRefreshEach(s)
    ensures OneRefreshEach(Next(s, l))
  {
    var n := Next(s, l);
    if n == s { return; }
    assert forall u :: u in s.tasks && u != l.t ==> n.tasks[u] == s.tasks[u];
    assert forall x :: Refreshes(n.tasks[l.t], x) <==> Refreshes(s.tasks[l.t], x);
    forall x ensures x in n.shared.inflight <==> exists u :: u in n.tasks && Refreshes(n.tasks[u], x) {
      SameRefreshes(s, n, x);
    }
  }

  lemma CallKeepsOneRefresh(s: State, l: Label)
    requires (l.Tick? || l.Call?) && OneRefreshEach(s)
    ensures OneRefreshEach(Next(s, l))
  {
    var n := Next(s, l);
    forall x ensures x in n.shared.inflight <==> exists u :: u in n.tasks && Refreshes(n.tasks[u], x) {
      SameRefreshes(s, n, x);
    }
  }

  lemma StepKeepsOneRefresh(s: State, l: Label)
    requires OneRefreshEach(s)
    ensures OneRefreshEach(Next(s, l))
  {
    match l
    case Inspect(t, goroutine) => InspectKeepsOneRefresh(s, t, goroutine);
    case Clear(t) => ClearKeepsOneRefresh(s, t);
    case Reply(_, _) => FetchKeepsOneRefresh(s, l);
    case Fill(_) => FetchKeepsOneRefresh(s, l);
    case _ => CallKeepsOneRefresh(s, l);
  }

  lemma StepKeepsGenuine(s: State, l: Label)
    requires Genuine(s)
    ensures Genuine(Next(s, l))
  {
  }

  /** No step drops an entry or moves its expiry back; the clock never moves back. */
  lemma StepExtendsTheCache(s: State, l: Label)
    requires Genuine(s)
    ensures var n := Next(s, l);
            forall sub :: sub in s.shared.cache ==> sub in n.shared.cache && s.shared.cache[sub].exp <= n.shared.cache[sub].exp
  {
  }

  lemma {:induction false} RunKeepsInvariants(s: State, run: seq<Label>)
    requires OneRefreshEach(s) && Genuine(s)
    ensures OneRefreshEach(Exec(s, run)) && Genuine(Exec(s, run))
    ensures forall sub :: sub in s.shared.cache ==>
              sub in Exec(s, run).shared.cache && s.shared.cache[sub].exp <= Exec(s, run).shared.cache[sub].exp
    decreases |run|
  {
    if run != [] {
      StepKeepsOneRefresh(s, run[0]);
      StepKeepsGenuine(s, run[0]);
      StepExtendsTheCache(s, run[0]);
      RunKeepsInvariants(Next(s, run[0]), run[1..]);
    }
  }

  /** In every interleaving of calls and goroutines: one refresh per sub in flight and none otherwise; every key
      answered is the resolver's answer for that sub; an entry, once there, stays, and its expiry never moves back. */
  lemma TheCacheIsSound(now: Time, ttl: Time, run: seq<Label>, more: seq<Label>)
    ensures var s := Exec(Init(now, ttl), run);
            var t := Exec(s, more);
            && OneRefreshEach(s)
            && (forall c :: c in s.tasks && s.tasks[c].Answered? ==> (s.tasks[c].sub, s.tasks[c].key) in s.replies)
            && (forall sub :: sub in s.shared.cache ==>
                  sub in t.shared.cache && s.shared.cache[sub].exp <= t.shared.cache[sub].exp)
  {
    RunKeepsInvariants(Init(now, ttl), run);
    RunKeepsInvariants(Exec(Init(now, ttl), run), more);
  }

  /** What a call does, by the cache alone: a sub that is not cached is fetched in the foreground; a cached one is answered at
      once, before its expiry without more ado, from then on with one refresh in flight, which is a new one exactly if none
      was. */
  lemma TheCacheDecides(s: State, t: nat, goroutine: nat)
    requires At(s, t).Calling? && goroutine !in s.tasks
    ensures var n := Next(s, Inspect(t, goroutine));
            var sub, cache := At(s, t).sub, s.shared.cache;
            && n.shared.cache == cache
            && (sub !in cache ==> n == Goto(s, t, Fetching(sub, false)))
            && (sub in cache && s.now < cache[sub].exp ==> n == Goto(s, t, Answered(sub, cache[sub].key)))
            && (sub in cache && s.now >= cache[sub].exp ==>
                  && n.tasks[t] == Answered(sub, cache[sub].key)
                  && n.shared.inflight == s.shared.inflight + {sub}
                  && (sub in s.shared.inflight ==> goroutine !in n.tasks)
                  && (sub !in s.shared.inflight ==> goroutine in n.tasks && n.tasks[goroutine] == Fetching(sub, true)))
  {
  }

  /** In every reachable state: after a call finds its entry expired, a background refresh of that sub is running. */
  lemma ExpiredEntriesAreRefreshed(now: Time, ttl: Time, run: seq<Label>, t: nat, goroutine: nat)
    ensures var s := Exec(Init(now, ttl), run);
            var n := Next(s, Inspect(t, goroutine));
            At(s, t).Calling? && goroutine !in s.tasks && At(s, t).sub in s.shared.cache && s.now >= s.shared.cache[At(s, t).sub].exp ==>
              exists u :: u in n.tasks && RefreshRuns(n.tasks[u], At(s, t).sub)
  {
    var s := Exec(Init(now, ttl), run);
    RunKeepsInvariants(Init(now, ttl), run);
    StepKeepsOneRefresh(s, Inspect(t, goroutine));
    var n := Next(s, Inspect(t, goroutine));
    if At(s, t).Calling? && goroutine !in s.tasks && At(s, t).sub in s.shared.cache && s.now >= s.shared.cache[At(s, t).sub].exp {
      TheCacheDecides(s, t, goroutine);
      var sub := At(s, t).sub;
      assert sub in n.shared.inflight;
      var u :| u in n.tasks && Refreshes(n.tasks[u], sub);
      assert RefreshRuns(n.tasks[u], sub);
    }
  }

  /** The task fetches, stores or has just finished fetching the sub's key off the request path. */
  predicate RefreshRuns(task: Task, sub: string) {
    task == Fetching(sub, true) || task == Clearing(sub) || (task.Filling? && task == Filling(sub, task.key, true))
  }

  /** What a fetch does with its reply: a key is cached from that moment on for the lifetime and, in the foreground, answered;
      no key leaves the cache as it was, and is an error in the foreground only. A background refresh then ends. */
  lemma RepliesDecide(s: State, t: nat, reply: Option<string>)
    requires At(s, t).Fetching?
    ensures var sub, background := At(s, t).sub, At(s, t).background;
            var replied := Next(s, Reply(t, reply));
            var n := Next(replied, Fill(t));
            var keyed := reply.Some? && reply.value != "";
            && (keyed ==> n.shared.cache == s.shared.cache[sub := Entry(reply.value, s.now + s.ttl)]
                          && n.tasks[t] == if background then Clearing(sub) else Answered(sub, reply.value))
            && (!keyed ==> n.shared.cache == s.shared.cache
                           && n.tasks[t] == if background then Clearing(sub) else Failed(sub))
            && (background ==> Next(n, Clear(t)).shared.inflight == s.shared.inflight - {sub} && Next(n, Clear(t)).tasks[t] == Gone)
  {
    var replied := Next(s, Reply(t, reply));
    assert replied.now == s.now && replied.ttl == s.ttl && replied.shared == s.shared;
  }

  /** An error goes to a call that was cold when it looked, even if another call has cached the sub meanwhile. */
  lemma AColdCallMayFailOnACachedSub(s: State, slow: nat, quick: nat, key: string)
    requires slow != quick && key != ""
    requires At(s, slow).Fetching? && !At(s, slow).background && At(s, quick) == At(s, slow)
    ensures var n := Next(Next(Next(s, Reply(quick, Some(key))), Fill(quick)), Reply(slow, None));
            At(n, slow) == Failed(At(s, slow).sub) && At(s, slow).sub in n.shared.cache
  {
    var n1 := Next(s, Reply(quick, Some(key)));
    var n2 := Next(n1, Fill(quick));
    assert At(n2, slow) == At(s, slow);
  }
}
