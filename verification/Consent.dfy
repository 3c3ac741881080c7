/** The consent chain: after login the user is sent, one after another, to the broker of every
    requested service for which no grant exists yet. */
module Consent {
  import opened Prelude
  import opened Scopes

  /** Where a callback leaves the request: parked at a broker with the services still to visit, or ready for its code. */
  datatype Outcome = Parked(todo: seq<string>) | Finished

  /** The requested services without a grant, in request order. */
  function Ungranted(services: set<string>, scopes: seq<string>, projections: seq<Option<bool>>): seq<string>
    requires |projections| == |scopes|
  {
    if scopes == [] then []
    else
      var rest := Ungranted(services, scopes[1..], projections[1..]);
      if scopes[0] in services && !Granted(services, scopes[0], projections[0]) then [scopes[0]] + rest else rest
  }

  /** `up[i]` says whether the broker of `todo[i]` can be reached. The measure of the mutual recursion is |todo|. */
  function ChainNext(todo: seq<string>, up: seq<bool>): (r: Outcome)
    requires todo != [] && |up| == |todo|
    ensures r.Parked? ==> 0 < |r.todo| <= |todo| && r.todo == todo[|todo| - |r.todo|..]
    decreases |todo|, 0
  {
    if up[0] then Parked(todo) else SkipAndContinue(todo, up)
  }

  function SkipAndContinue(todo: seq<string>, up: seq<bool>): (r: Outcome)
    requires todo != [] && |up| == |todo|
    ensures r.Parked? ==> 0 < |r.todo| < |todo| && r.todo == todo[|todo| - |r.todo|..]
    decreases |todo| - 1, 1
  {
    var rest := todo[1..];
    if rest != [] then ChainNext(rest, up[1..]) else Finished
  }

  /** A step stops at the first reachable broker and passes over unreachable ones only. */
  lemma {:induction false} ChainNextStopsAtTheFirstReachableBroker(todo: seq<string>, up: seq<bool>)
    requires todo != [] && |up| == |todo|
    ensures var r := ChainNext(todo, up);
            && (r.Finished? <==> forall i :: 0 <= i < |up| ==> !up[i])
            && (r.Parked? ==> var k := |todo| - |r.todo|; up[k] && forall i :: 0 <= i < k ==> !up[i])
    decreases |todo|
  {
    var rest, later := todo[1..], up[1..];
    if !up[0] && rest != [] {
      ChainNextStopsAtTheFirstReachableBroker(rest, later);
      var r := ChainNext(rest, later);
      assert ChainNext(todo, up) == r;
      assert forall i :: 0 < i < |up| ==> up[i] == later[i - 1];
      if r.Parked? {
        assert up[|todo| - |r.todo|] == later[|rest| - |r.todo|];
      } else {
        assert forall i :: 0 < i < |up| ==> !up[i];
      }
    }
  }

  /** The services whose brokers a returning user is sent to, in order, until the code is issued;
      a user who declines comes back just like one who consents. */
  function Visits(todo: seq<string>, up: seq<bool>): seq<string>
    requires |up| == |todo|
    decreases |todo|
  {
    if todo == [] then []
    else match ChainNext(todo, up)
      case Finished => []
      case Parked(t) => [t[0]] + Visits(t[1..], up[|up| - |t| + 1..])
  }

  function Reachable(todo: seq<string>, up: seq<bool>): seq<string>
    requires |up| == |todo|
  {
    if todo == [] then []
    else if up[0] then [todo[0]] + Reachable(todo[1..], up[1..])
    else Reachable(todo[1..], up[1..])
  }

  /** Whichever brokers fail, the ceremony visits exactly the reachable services of the list, in order. */
  lemma {:induction false} VisitsAreTheReachableServices(todo: seq<string>, up: seq<bool>)
    requires |up| == |todo|
    ensures Visits(todo, up) == Reachable(todo, up)
    ensures Subsequence(Visits(todo, up), todo)
    decreases |todo|
  {
    if todo != [] {
      var rest := todo[1..];
      VisitsAreTheReachableServices(rest, up[1..]);
      assert todo == [todo[0]] + rest;
      if up[0] {
        assert Visits(todo, up) == [todo[0]] + Visits(rest, up[1..]);
      } else {
        SkippingTheFirst(todo, up);
        SubsequenceCons(Visits(rest, up[1..]), todo[0], rest);
      }
    }
  }

  lemma SkippingTheFirst(todo: seq<string>, up: seq<bool>)
    requires |up| == |todo| && todo != [] && !up[0]
    ensures Visits(todo, up) == Visits(todo[1..], up[1..])
  {
    if |todo| > 1 {
      match ChainNext(todo[1..], up[1..])
      case Finished =>
      case Parked(t) =>
        assert ChainNext(todo, up) == Parked(t);
        assert up[1..][|up[1..]| - |t| + 1..] == up[|up| - |t| + 1..];
    }
  }

  lemma {:induction false} SelectionsStayDistinct<T(!new)>(a: seq<T>, b: seq<T>)
    requires Subsequence(a, b) && Distinct(b)
    ensures Distinct(a)
    decreases |b|
  {
    if a != [] {
      assert a == [a[0]] + a[1..];
      assert forall i, j :: 0 <= i < j < |b[1..]| ==> b[1..][i] == b[i + 1] && b[1..][j] == b[j + 1];
      if a[0] == b[0] {
        SelectionsStayDistinct(a[1..], b[1..]);
        SubsequenceMembers(a[1..], b[1..]);
        forall i, j | 0 <= i < j < |a| ensures a[i] != a[j] {
          assert a[j] == a[1..][j - 1] && a[j] in b[1..];
          if i > 0 {
            assert a[i] == a[1..][i - 1];
          }
        }
      } else {
        SelectionsStayDistinct(a, b[1..]);
      }
    }
  }

  /** Each service is visited at most once, whatever the brokers do, exactly when the list names none twice. */
  lemma AtMostOneVisitEachIffNoRepeats(todo: seq<string>)
    ensures (forall up: seq<bool> :: |up| == |todo| ==> Distinct(Visits(todo, up))) <==> Distinct(todo)
  {
    if Distinct(todo) {
      forall up: seq<bool> | |up| == |todo| ensures Distinct(Visits(todo, up)) {
        VisitsAreTheReachableServices(todo, up);
        SelectionsStayDistinct(Visits(todo, up), todo);
      }
    } else {
      var up := seq(|todo|, _ => true);
      AllUpVisitsAll(todo, up);
      assert |up| == |todo| && !Distinct(Visits(todo, up));
    }
  }

  lemma {:induction false} AllUpVisitsAll(todo: seq<string>, up: seq<bool>)
    requires |up| == |todo| && forall i :: 0 <= i < |up| ==> up[i]
    ensures Visits(todo, up) == todo
  {
    VisitsAreTheReachableServices(todo, up);
    AllUpReachesAll(todo, up);
  }

  lemma {:induction false} AllUpReachesAll(todo: seq<string>, up: seq<bool>)
    requires |up| == |todo| && forall i :: 0 <= i < |up| ==> up[i]
    ensures Reachable(todo, up) == todo
  {
    if todo != [] {
      AllUpReachesAll(todo[1..], up[1..]);
      assert todo == [todo[0]] + todo[1..];
    }
  }

  /** A client that repeats an ungranted service in `scope` makes the user visit its broker twice. */
  lemma ARepeatedScopeIsVisitedTwice(service: string)
    ensures var todo := Ungranted({service}, [service, service], [None, None]);
            todo == [service, service] && Visits(todo, [true, true]) == [service, service]
  {
    var todo := [service, service];
    assert todo[1..] == [service];
    assert [service, service][1..] == [service];
    var none: seq<Option<bool>> := [None, None];
    assert none[1..] == [None];
    assert Ungranted({service}, [service], [None]) == [service];
    assert Visits([service], [true]) == [service];
    assert [true, true][1..] == [true];
  }

  lemma {:induction false} UngrantedSelects(services: set<string>, scopes: seq<string>, projections: seq<Option<bool>>)
    requires |projections| == |scopes|
    ensures Subsequence(Ungranted(services, scopes, projections), scopes)
    ensures forall s :: s in Ungranted(services, scopes, projections) ==> s in services
    ensures Distinct(scopes) ==> Distinct(Ungranted(services, scopes, projections))
  {
    if scopes != [] {
      UngrantedSelects(services, scopes[1..], projections[1..]);
      assert scopes == [scopes[0]] + scopes[1..];
      var rest := Ungranted(services, scopes[1..], projections[1..]);
      SubsequenceCons(rest, scopes[0], scopes[1..]);
      if Distinct(scopes) {
        SelectionsStayDistinct(Ungranted(services, scopes, projections), scopes);
      }
    }
  }

  /** A service is on the list exactly if it is asked for, known, and some lookup of it did not come back granted. */
  lemma {:induction false} UngrantedExactly(services: set<string>, scopes: seq<string>, projections: seq<Option<bool>>)
    requires |projections| == |scopes|
    ensures forall x :: x in Ungranted(services, scopes, projections) <==>
                    exists i :: 0 <= i < |scopes| && scopes[i] == x && x in services && projections[i] != Some(true)
  {
    if scopes != [] {
      var rest := Ungranted(services, scopes[1..], projections[1..]);
      UngrantedExactly(services, scopes[1..], projections[1..]);
      forall x
        ensures x in Ungranted(services, scopes, projections) <==>
                exists i :: 0 <= i < |scopes| && scopes[i] == x && x in services && projections[i] != Some(true)
      {
        if x in rest {
          var i :| 0 <= i < |scopes| - 1 && scopes[1..][i] == x && x in services && projections[1..][i] != Some(true);
          assert scopes[i + 1] == x && projections[i + 1] != Some(true);
        }
        if i :| 0 < i < |scopes| && scopes[i] == x && x in services && projections[i] != Some(true) {
          assert scopes[1..][i - 1] == x && projections[1..][i - 1] != Some(true);
        }
      }
    }
  }
}
