/** The device grant: a device code is settled once, and its record never outlives twice its lifetime. */
module OAuthDevice {
  import opened Prelude
  import opened DeadlineMap
  import opened OAuthServer

  ghost predicate WasApproved(hist: History, device: Name) {
    exists id :: (device, id) in hist.approvals
  }

  ghost predicate Settled(hist: History, device: Name) {
    WasApproved(hist, device) || device in hist.denials
  }

  /** The status of a stored device record is what the history of settlements says, and its deadline is bounded
      by the instant it was opened. */
  ghost predicate DeviceRecordOk(s: State, k: Key) {
    k in s.db && s.db[k].value.Device? ==>
      && k.kind == DeviceKind
      && k.name in s.hist.devices
      && s.db[k].deadline.Some?
      && var r := s.db[k].value;
      && var opening := s.hist.devices[k.name];
      && opening.client == r.client
      && (r.status == Waiting <==> !Settled(s.hist, k.name))
      && (r.status == Approved ==> WasApproved(s.hist, k.name))
      && (r.status == Denied ==> k.name in s.hist.denials)
      && s.db[k].deadline.value <= opening.at + (if r.status == Waiting then DEVICE_TTL else 2 * DEVICE_TTL) as Time
  }

  /** A device is approved by one login at most, and never both approved and denied. */
  ghost predicate SettledOnce(hist: History) {
    && (forall a, b :: a in hist.approvals && b in hist.approvals && a.0 == b.0 ==> a == b)
    && (forall a :: a in hist.approvals ==> a.0 !in hist.denials)
  }

  ghost predicate SettlementsKnown(s: State) {
    && (forall a :: a in s.hist.approvals ==> a.0 in s.hist.devices)
    && (forall d :: d in s.hist.denials ==> d in s.hist.devices)
    && s.hist.devices.Keys <= s.issued
  }

  ghost predicate DeviceInv(s: State) {
    && (forall k :: DeviceRecordOk(s, k))
    && SettledOnce(s.hist)
    && SettlementsKnown(s)
  }

  /** Steps that neither write a device record nor settle or open a device. */
  lemma Untouched(s: State, t: State)
    requires DeviceInv(s)
    requires forall k :: k in t.db && t.db[k].value.Device? ==> k in s.db && s.db[k] == t.db[k]
    requires t.hist.approvals == s.hist.approvals && t.hist.denials == s.hist.denials && t.hist.devices == s.hist.devices
    requires s.issued <= t.issued
    ensures DeviceInv(t)
  {
    forall k ensures DeviceRecordOk(t, k) {
      assert DeviceRecordOk(s, k);
    }
  }

  lemma SettleKeepsDevices(s: State, device: Name, status: Status, sub: Option<string>, hist: History, h: nat)
    requires DeviceInv(s) && status != Waiting
    requires Settle(s, device, status, sub).Some?
    requires hist.devices == s.hist.devices
    requires status == Denied ==> hist.approvals == s.hist.approvals && hist.denials == s.hist.denials + {device}
    requires status == Approved ==> hist.denials == s.hist.denials && exists id: Name :: hist.approvals == s.hist.approvals + {(device, id)}
    ensures DeviceInv(Goto(Settle(s, device, status, sub).value, h, Idle).(hist := hist))
  {
    var t := Goto(Settle(s, device, status, sub).value, h, Idle).(hist := hist);
    var k := Key(DeviceKind, device);
    assert DeviceRecordOk(s, k);
    assert !Settled(s.hist, device);
    forall j ensures DeviceRecordOk(t, j) {
      assert DeviceRecordOk(s, j);
      if j in t.db && t.db[j].value.Device? && j != k {
        assert j.name != device;
        assert WasApproved(t.hist, j.name) ==> WasApproved(s.hist, j.name);
      }
    }
    if status == Approved {
      var id: Name :| hist.approvals == s.hist.approvals + {(device, id)};
      assert (device, id) in hist.approvals;
      forall a | a in hist.approvals ensures a.0 !in hist.denials && (a.0 == device ==> a == (device, id)) {
        if a in s.hist.approvals {
          assert a == (a.0, a.1);
        }
      }
    } else {
      forall a | a in hist.approvals ensures a.0 !in hist.denials {
        assert a == (a.0, a.1);
      }
    }
  }

  lemma DenyKeepsDevices(s: State, l: CallbackStep)
    requires l.Deny? && DeviceInv(s)
    ensures DeviceInv(NextCallback(s, l))
  {
    var t, pc := NextCallback(s, l), Pc(s, l.h);
    if pc.LoginFailed? && Settle(s, pc.device, Denied, None).Some? {
      SettleKeepsDevices(s, pc.device, Denied, None, t.hist, l.h);
    } else {
      Untouched(s, t);
    }
  }

  lemma ApproveKeepsDevices(s: State, l: CallbackStep)
    requires l.Approve? && DeviceInv(s)
    ensures DeviceInv(NextCallback(s, l))
  {
    var t, pc := NextCallback(s, l), Pc(s, l.h);
    if pc.Approving? && Settle(s, pc.device, Approved, pc.req.sub).Some? {
      SettleKeepsDevices(s, pc.device, Approved, pc.req.sub, t.hist, l.h);
    } else {
      Untouched(s, t);
    }
  }

  lemma LoginKeepsDevices(s: State, l: CallbackStep)
    requires !l.Deny? && !l.Approve? && DeviceInv(s)
    ensures DeviceInv(NextCallback(s, l))
  {
    Untouched(s, NextCallback(s, l));
  }

  lemma CallbackKeepsDevices(s: State, l: CallbackStep)
    requires DeviceInv(s)
    ensures DeviceInv(NextCallback(s, l))
  {
    match l
    case Deny(_) => DenyKeepsDevices(s, l);
    case Approve(_) => ApproveKeepsDevices(s, l);
    case _ => LoginKeepsDevices(s, l);
  }

  lemma ParkDeviceKeepsDevices(cfg: Config, s: State, l: DeviceStep)
    requires DeviceInv(s) && l.ParkDevice?
    ensures DeviceInv(NextDevice(cfg, s, l))
  {
    var t := NextDevice(cfg, s, l);
    if t == s { return; }
    var k := Key(DeviceKind, l.device);
    forall j ensures DeviceRecordOk(t, j) {
      assert DeviceRecordOk(s, j);
    }
  }

  lemma OtherDeviceStepsKeepDevices(cfg: Config, s: State, l: DeviceStep)
    requires DeviceInv(s) && !l.ParkDevice?
    ensures DeviceInv(NextDevice(cfg, s, l))
  {
    Untouched(s, NextDevice(cfg, s, l));
  }

  lemma TokenKeepsDevices(cfg: Config, s: State, l: TokenStep)
    requires DeviceInv(s)
    ensures DeviceInv(NextToken(cfg, s, l))
  {
    Untouched(s, NextToken(cfg, s, l));
  }

  lemma ConsentKeepsDevices(cfg: Config, s: State, l: ConsentStep)
    requires DeviceInv(s)
    ensures DeviceInv(NextConsent(cfg, s, l))
  {
    Untouched(s, NextConsent(cfg, s, l));
  }

  lemma AuthorizeKeepsDevices(cfg: Config, s: State, l: AuthorizeStep)
    requires DeviceInv(s)
    ensures DeviceInv(NextAuthorize(cfg, s, l))
  {
    Untouched(s, NextAuthorize(cfg, s, l));
  }

  lemma StepKeepsDevices(cfg: Config, s: State, l: Label)
    requires DeviceInv(s)
    ensures DeviceInv(Next(cfg, s, l))
  {
    match l {
      case Tick(_) => Untouched(s, Next(cfg, s, l));
      case Register(_, _) => Untouched(s, Next(cfg, s, l));
      case OnAuthorize(step) => AuthorizeKeepsDevices(cfg, s, step);
      case OnCallback(step) => CallbackKeepsDevices(s, step);
      case OnConsent(step) => ConsentKeepsDevices(cfg, s, step);
      case OnToken(step) => TokenKeepsDevices(cfg, s, step);
      case OnDevice(step) =>
        if step.ParkDevice? {
          ParkDeviceKeepsDevices(cfg, s, step);
        } else {
          OtherDeviceStepsKeepDevices(cfg, s, step);
        }
    }
  }

  lemma {:induction false} RunKeepsDevices(cfg: Config, s: State, run: seq<Label>)
    requires DeviceInv(s)
    ensures DeviceInv(Exec(cfg, s, run))
    decreases |run|
  {
    if run != [] {
      StepKeepsDevices(cfg, s, run[0]);
      RunKeepsDevices(cfg, Next(cfg, s, run[0]), run[1..]);
    }
  }

  /** A settlement, once made, is never unmade by any step. */
  lemma SettlementsOnlyGrow(cfg: Config, s: State, l: Label)
    ensures s.hist.approvals <= Next(cfg, s, l).hist.approvals
    ensures s.hist.denials <= Next(cfg, s, l).hist.denials
  {
    match l
    case OnToken(step) => TokenSettlesNothing(cfg, s, step);
    case OnDevice(step) => DeviceSettlesNothing(cfg, s, step);
    case OnConsent(step) => ConsentSettlesNothing(cfg, s, step);
    case OnCallback(step) => CallbackSettles(s, step);
    case _ =>
  }

  lemma CallbackSettles(s: State, l: CallbackStep)
    ensures var t := NextCallback(s, l); s.hist.approvals <= t.hist.approvals && s.hist.denials <= t.hist.denials
  {
  }

  lemma TokenSettlesNothing(cfg: Config, s: State, l: TokenStep)
    ensures var t := NextToken(cfg, s, l); t.hist.approvals == s.hist.approvals && t.hist.denials == s.hist.denials
  {
  }

  lemma DeviceSettlesNothing(cfg: Config, s: State, l: DeviceStep)
    ensures var t := NextDevice(cfg, s, l); t.hist.approvals == s.hist.approvals && t.hist.denials == s.hist.denials
  {
  }

  lemma ConsentSettlesNothing(cfg: Config, s: State, l: ConsentStep)
    ensures var t := NextConsent(cfg, s, l); t.hist.approvals == s.hist.approvals && t.hist.denials == s.hist.denials
  {
  }

  lemma {:induction false} SettlementsOutliveRuns(cfg: Config, s: State, run: seq<Label>)
    ensures s.hist.approvals <= Exec(cfg, s, run).hist.approvals
    ensures s.hist.denials <= Exec(cfg, s, run).hist.denials
    decreases |run|
  {
    if run != [] {
      SettlementsOnlyGrow(cfg, s, run[0]);
      SettlementsOutliveRuns(cfg, Next(cfg, s, run[0]), run[1..]);
    }
  }

  /** A record still visible was opened less than 2 * DEVICE_TTL ago. */
  lemma DeviceRecordsAreShortLived(cfg: Config, now: Time, run: seq<Label>, device: Name)
    ensures var s := Exec(cfg, Init(now), run);
            var r := Read(s, Key(DeviceKind, device));
            r.Some? && r.value.Device? ==>
              && device in s.hist.devices
              && s.hist.devices[device].client == r.value.client
              && s.now < s.hist.devices[device].at + (2 * DEVICE_TTL) as Time
              && (r.value.status == Waiting ==> s.now < s.hist.devices[device].at + DEVICE_TTL as Time)
  {
    RunKeepsDevices(cfg, Init(now), run);
    assert DeviceRecordOk(Exec(cfg, Init(now), run), Key(DeviceKind, device));
  }

  /** Whatever runs in between, a device code seen approved is never seen waiting or denied later, nor the other way round. */
  lemma StatusLeavesPendingOnce(cfg: Config, now: Time, run: seq<Label>, more: seq<Label>, device: Name)
    ensures var s := Exec(cfg, Init(now), run);
            var t := Exec(cfg, s, more);
            var k := Key(DeviceKind, device);
            k in s.db && s.db[k].value.Device? && s.db[k].value.status != Waiting && k in t.db && t.db[k].value.Device? ==>
              t.db[k].value.status == s.db[k].value.status
    ensures SettledOnce(Exec(cfg, Init(now), run).hist)
  {
    var s := Exec(cfg, Init(now), run);
    var t := Exec(cfg, s, more);
    var k := Key(DeviceKind, device);
    RunKeepsDevices(cfg, Init(now), run);
    RunKeepsDevices(cfg, s, more);
    SettlementsOutliveRuns(cfg, s, more);
    assert DeviceRecordOk(s, k) && DeviceRecordOk(t, k);
    if k in s.db && s.db[k].value.Device? && s.db[k].value.status == Approved {
      var id :| (device, id) in s.hist.approvals;
      assert (device, id) in t.hist.approvals;
    }
    if WasApproved(t.hist, device) {
      var id :| (device, id) in t.hist.approvals;
    }
  }
}
