/** The Wi-Fi station attempt machine (examples/components/wlan/wifi_scan.c):
    SCPI commands, driver events and a periodic deadline check, all under one
    mutex. What the driver calls return is the environment's choice. */
module WifiStation {
  import opened Common

  datatype Phase = Offline | Switching | Connecting | Dhcp | Online | Draining

  datatype Shown = IDLE | RUNNING | DONE | FAILED

  datatype Result =
    | NONE | CONNECTED | AUTH_FAILED | AP_NOT_FOUND | TIMEOUT | DHCP_TIMEOUT | DISCONNECTED | STOPPED | ERROR

  /** What a driver call returned, and the reason codes the code tells apart. */
  datatype Err = OK | WifiPassword | Code(n: int)

  datatype Reason =
    | NoReason | NoApFound | AuthExpire | AssocExpire | ReasonTimeout | AuthFail | FourWayTimeout
    | HandshakeTimeout | Driver(err: Err) | Other(n: int)

  /** The time, and what each driver call will return if it is made. */
  datatype Env = Env(now: nat, setConfig: Err, connect: Err, stop: Err, start: Err)

  const ATTEMPT_US: nat := 15_000_000

  datatype Sta = Sta(
    phase: Phase, shown: Shown, result: Result, reason: Reason, ip: string,
    deadline: nat,             // 0 is none
    after: Result,             // what draining ends as
    scanning: bool,
    config: (string, string))

  const BOOT := Sta(Offline, IDLE, NONE, NoReason, "", 0, NONE, false, ("", ""))

  function Finished(s: Sta, result: Result): Sta {
    s.(phase := Offline, shown := if result == STOPPED then IDLE else FAILED, result := result, ip := "",
       deadline := 0, reason := if result == STOPPED then NoReason else s.reason)
  }

  function Begun(s: Sta, env: Env): Sta {
    var t := s.(phase := Connecting, shown := RUNNING, result := NONE, reason := NoReason, ip := "",
                deadline := env.now + ATTEMPT_US);
    var err := if env.setConfig == OK then env.connect else env.setConfig;
    if err == OK then t
    else Finished(t.(reason := Driver(err)), if err == WifiPassword then AUTH_FAILED else ERROR)
  }

  function Drained(s: Sta, result: Result, env: Env): Sta {
    var t := s.(after := result, phase := Draining, shown := RUNNING, ip := "", deadline := 0);
    if env.stop == OK then t else Finished(t.(reason := Driver(env.stop)), ERROR)
  }

  function Ticked(s: Sta, env: Env): Sta {
    if s.deadline != 0 && env.now >= s.deadline then
      Drained(s, if s.phase == Dhcp then DHCP_TIMEOUT else if s.reason == NoApFound then AP_NOT_FOUND else TIMEOUT, env)
    else s
  }

  function StopEvent(s: Sta, env: Env): Sta {
    if s.phase != Switching && s.phase != Draining then s
    else if env.start != OK then Finished(s.(reason := Driver(env.start)), ERROR)
    else if s.phase == Switching then Begun(s, env)
    else Finished(s, s.after)
  }

  function ConnectedEvent(s: Sta, env: Env): Sta {
    if s.phase == Connecting then s.(phase := Dhcp, deadline := env.now + ATTEMPT_US) else s
  }

  function Outcome(reason: Reason): Result {
    match reason
    case NoApFound => AP_NOT_FOUND
    case AuthExpire => TIMEOUT
    case AssocExpire => TIMEOUT
    case ReasonTimeout => TIMEOUT
    case AuthFail => AUTH_FAILED
    case FourWayTimeout => AUTH_FAILED
    case HandshakeTimeout => AUTH_FAILED
    case _ => DISCONNECTED
  }

  predicate Retries(s: Sta, reason: Reason, env: Env) {
    s.phase == Connecting && reason == NoApFound && env.now < s.deadline
  }

  function DisconnectedEvent(s: Sta, reason: Reason, env: Env): Sta {
    var t := s.(ip := "");
    if s.phase == Online then Begun(t, env)
    else if s.phase == Connecting || s.phase == Dhcp then
      var u := t.(reason := reason);
      if Retries(s, reason, env) then
        if env.connect == OK then u else Finished(u.(reason := Driver(env.connect)), ERROR)
      else Finished(u, Outcome(reason))
    else t
  }

  function GotIpEvent(s: Sta, ip: string): Sta {
    if s.phase == Dhcp then
      s.(ip := ip, phase := Online, shown := DONE, result := CONNECTED, reason := NoReason, deadline := 0)
    else s
  }

  function LostIpEvent(s: Sta, env: Env): Sta {
    if s.phase == Online then
      s.(phase := Dhcp, shown := RUNNING, result := NONE, ip := "", deadline := env.now + ATTEMPT_US)
    else s
  }

  predicate Accepts(s: Sta, ssid: string, password: string) {
    0 < |ssid| <= 32 && |password| <= 63 && !s.scanning && (s.phase == Offline || s.phase == Online)
  }

  function ConnectCommand(s: Sta, ssid: string, password: string, env: Env): Sta {
    if !Accepts(s, ssid, password) then s
    else
      var t := s.(config := (ssid, password), shown := RUNNING, result := NONE, reason := NoReason, ip := "");
      if s.phase == Online then
        var u := t.(phase := Switching);
        if env.stop == OK then u else Finished(u.(reason := Driver(env.stop)), ERROR)
      else Begun(t, env)
  }

  function StopCommand(s: Sta, env: Env): Sta {
    match s.phase
    case Offline => Finished(s, STOPPED)
    case Draining => s.(after := STOPPED)
    case Switching => s.(phase := Draining, after := STOPPED)
    case _ => Drained(s, STOPPED, env)
  }

  function ClearCommand(s: Sta): Sta {
    if s.phase == Offline then s.(shown := IDLE, result := NONE, reason := NoReason, ip := "") else s
  }

  function ScanCommand(s: Sta, started: bool): Sta {
    if !s.scanning && (s.phase == Offline || s.phase == Online) && started then s.(scanning := true) else s
  }

  class Station {
    var phase: Phase
    var shown: Shown
    var result: Result
    var reason: Reason
    var ip: string
    var deadline: nat
    var after: Result
    var scanning: bool
    var config: (string, string)

    ghost function Now(): Sta
      reads this
    {
      Sta(phase, shown, result, reason, ip, deadline, after, scanning, config)
    }

    constructor ()
      ensures Now() == BOOT
    {
      phase, shown, result, reason, ip := Offline, IDLE, NONE, NoReason, "";
      deadline, after, scanning, config := 0, NONE, false, ("", "");
    }

    method Finish(r: Result)
      modifies this
      ensures Now() == Finished(old(Now()), r)
    {
      phase := Offline;
      shown := if r == STOPPED then IDLE else FAILED;
      result := r;
      ip := "";
      deadline := 0;
      if r == STOPPED { reason := NoReason; }
    }

    method BeginConnect(env: Env)
      modifies this
      ensures Now() == Begun(old(Now()), env)
    {
      phase := Connecting;
      shown := RUNNING;
      result := NONE;
      reason := NoReason;
      ip := "";
      deadline := env.now + ATTEMPT_US;
      var err := env.setConfig;
      if err == OK { err := env.connect; }
      if err != OK {
        reason := Driver(err);
        Finish(if err == WifiPassword then AUTH_FAILED else ERROR);
      }
    }

    method DisconnectFor(r: Result, env: Env) returns (ok: bool)
      modifies this
      ensures Now() == Drained(old(Now()), r, env) && ok == (env.stop == OK)
    {
      after := r;
      phase := Draining;
      shown := RUNNING;
      ip := "";
      deadline := 0;
      if env.stop != OK {
        reason := Driver(env.stop);
        Finish(ERROR);
        return false;
      }
      ok := true;
    }

    method OnDeadlineTimer(env: Env)
      modifies this
      ensures Now() == Ticked(old(Now()), env)
    {
      if deadline != 0 && env.now >= deadline {
        var r := TIMEOUT;
        if phase == Dhcp { r := DHCP_TIMEOUT; }
        else if reason == NoApFound { r := AP_NOT_FOUND; }
        var ok := DisconnectFor(r, env);
      }
    }

    method OnStaStop(env: Env)
      modifies this
      ensures Now() == StopEvent(old(Now()), env)
    {
      if phase == Switching || phase == Draining {
        if env.start != OK {
          reason := Driver(env.start);
          Finish(ERROR);
        } else if phase == Switching {
          BeginConnect(env);
        } else {
          Finish(after);
        }
      }
    }

    method OnStaConnected(env: Env)
      modifies this
      ensures Now() == ConnectedEvent(old(Now()), env)
    {
      if phase == Connecting {
        phase := Dhcp;
        deadline := env.now + ATTEMPT_US;
      }
    }

    static method Classify(why: Reason) returns (r: Result)
      ensures r == Outcome(why)
    {
      r := DISCONNECTED;
      if why == NoApFound { r := AP_NOT_FOUND; }
      else if why == AuthExpire || why == AssocExpire || why == ReasonTimeout { r := TIMEOUT; }
      else if why == AuthFail || why == FourWayTimeout || why == HandshakeTimeout { r := AUTH_FAILED; }
    }

    method OnStaDisconnected(why: Reason, env: Env)
      modifies this
      ensures Now() == DisconnectedEvent(old(Now()), why, env)
    {
      hide Finished, Begun, Outcome;
      ip := "";
      if phase == Online {
        BeginConnect(env);
      } else if phase == Connecting || phase == Dhcp {
        reason := why;
        if phase == Connecting && why == NoApFound && env.now < deadline {
          if env.connect != OK {
            reason := Driver(env.connect);
            Finish(ERROR);
          }
          return;
        }
        var r := Classify(why);
        Finish(r);
      }
    }

    method OnGotIp(addr: string)
      modifies this
      ensures Now() == GotIpEvent(old(Now()), addr)
    {
      if phase == Dhcp {
        ip := addr;
        phase := Online;
        shown := DONE;
        result := CONNECTED;
        reason := NoReason;
        deadline := 0;
      }
    }

    method OnLostIp(env: Env)
      modifies this
      ensures Now() == LostIpEvent(old(Now()), env)
    {
      if phase == Online {
        phase := Dhcp;
        shown := RUNNING;
        result := NONE;
        ip := "";
        deadline := env.now + ATTEMPT_US;
      }
    }

    method Connect(ssid: string, password: string, env: Env) returns (rc: int)
      modifies this
      ensures Now() == ConnectCommand(old(Now()), ssid, password, env)
      ensures rc == 0 <==> Accepts(old(Now()), ssid, password)
      ensures rc == -1 <==> ssid == "" || |ssid| > 32 || |password| > 63
      ensures rc in {0, -1, -2}
    {
      if |ssid| == 0 || |ssid| > 32 || |password| > 63 { return -1; }
      if scanning || (phase != Offline && phase != Online) { return -2; }
      config := (ssid, password);
      shown := RUNNING;
      result := NONE;
      reason := NoReason;
      ip := "";
      if phase == Online {
        phase := Switching;
        if env.stop != OK {
          reason := Driver(env.stop);
          Finish(ERROR);
        }
      } else {
        BeginConnect(env);
      }
      rc := 0;
    }

    method Stop(env: Env) returns (rc: int)
      modifies this
      ensures Now() == StopCommand(old(Now()), env)
      ensures rc == if old(phase) in {Connecting, Dhcp, Online} && env.stop != OK then -1 else 0
    {
      rc := 0;
      if phase == Offline {
        Finish(STOPPED);
      } else if phase == Draining {
        after := STOPPED;
      } else if phase == Switching {
        phase := Draining;
        after := STOPPED;
      } else {
        var ok := DisconnectFor(STOPPED, env);
        rc := if ok then 0 else -1;
      }
    }

    method Clear() returns (rc: int)
      modifies this
      ensures Now() == ClearCommand(old(Now())) && (rc == 0 <==> old(phase) == Offline)
    {
      rc := if phase == Offline then 0 else -2;
      if rc == 0 {
        shown := IDLE;
        result := NONE;
        reason := NoReason;
        ip := "";
      }
    }
  }

  // Every sequence of commands and events

  datatype Event =
    | Tick | StaStop | StaConnected | StaDisconnected(why: Reason) | GotIp(ip: string) | LostIp
    | ConnectCmd(ssid: string, password: string) | StopCmd | ClearCmd | ScanCmd(started: bool) | ScanDone

  function Step(s: Sta, e: Event, env: Env): Sta {
    match e
    case Tick => Ticked(s, env)
    case StaStop => StopEvent(s, env)
    case StaConnected => ConnectedEvent(s, env)
    case StaDisconnected(why) => DisconnectedEvent(s, why, env)
    case GotIp(ip) => if ip == "" then s else GotIpEvent(s, ip)   // a lease is never the empty text
    case LostIp => LostIpEvent(s, env)
    case ConnectCmd(ssid, password) => ConnectCommand(s, ssid, password, env)
    case StopCmd => StopCommand(s, env)
    case ClearCmd => ClearCommand(s)
    case ScanCmd(started) => ScanCommand(s, started)
    case ScanDone => s.(scanning := false)
  }

  function Run(s: Sta, events: seq<(Event, Env)>): Sta
    decreases |events|
  {
    if events == [] then s else Run(Step(s, events[0].0, events[0].1), events[1..])
  }

  predicate Inv(s: Sta) {
    && (s.deadline != 0 <==> s.phase == Connecting || s.phase == Dhcp)
    && (s.ip != "" <==> s.phase == Online)
    && (s.shown == RUNNING <==> s.phase != Offline && s.phase != Online)
    && (s.shown == DONE <==> s.phase == Online)
    && (s.phase == Online ==> s.result == CONNECTED)
    && (s.phase == Connecting || s.phase == Dhcp || s.phase == Switching ==> s.result == NONE)
  }

  lemma {:induction false} RunKeepsInv(s: Sta, events: seq<(Event, Env)>)
    requires Inv(s)
    ensures Inv(Run(s, events))
    decreases |events|
  {
    hide Inv, Step;
    if events != [] {
      StepKeepsInv(s, events[0].0, events[0].1);
      RunKeepsInv(Step(s, events[0].0, events[0].1), events[1..]);
    }
  }

  /** In every state reachable from reset a deadline is set exactly while
      connecting or waiting for DHCP, an address is held exactly while online,
      RUNNING is shown exactly while the station is neither offline nor online, and
      DONE exactly while it is online. */
  lemma ReachableStates(events: seq<(Event, Env)>)
    ensures var s := Run(BOOT, events);
      && (s.deadline != 0 <==> s.phase == Connecting || s.phase == Dhcp)
      && (s.ip != "" <==> s.phase == Online)
      && (s.shown == RUNNING <==> s.phase != Offline && s.phase != Online)
      && (s.shown == DONE <==> s.phase == Online)
  {
    hide Run, Step;
    RunKeepsInv(BOOT, events);
  }

  lemma StepKeepsInv(s: Sta, e: Event, env: Env)
    requires Inv(s)
    ensures Inv(Step(s, e, env))
  {
  }

  // One attempt: from a begin_connect on

  /** Whether the step begins an association attempt that gets under way. */
  predicate Begins(s: Sta, e: Event, env: Env) {
    && env.setConfig == OK && env.connect == OK
    && ((e.StaStop? && s.phase == Switching && env.start == OK)
        || (e.StaDisconnected? && s.phase == Online)
        || (e.ConnectCmd? && Accepts(s, e.ssid, e.password) && s.phase == Offline))
  }

  /** The bookkeeping of the current attempt. */
  datatype Attempt = Attempt(s: Sta, began: nat, dhcpEntries: nat)

  function Track(a: Attempt, e: Event, env: Env): Attempt {
    var t := Step(a.s, e, env);
    if Begins(a.s, e, env) then Attempt(t, env.now, 0)
    else if a.s.phase == Connecting && t.phase == Dhcp then Attempt(t, a.began, a.dhcpEntries + 1)
    else a.(s := t)
  }

  function TrackAll(a: Attempt, events: seq<(Event, Env)>): Attempt
    decreases |events|
  {
    if events == [] then a else TrackAll(Track(a, events[0].0, events[0].1), events[1..])
  }

  predicate AttemptOk(a: Attempt) {
    && Inv(a.s) && a.dhcpEntries <= 1
    && (a.s.phase == Connecting ==> a.dhcpEntries == 0 && a.s.deadline == a.began + ATTEMPT_US)
  }

  lemma TrackKeepsOk(a: Attempt, e: Event, env: Env)
    requires AttemptOk(a)
    ensures AttemptOk(Track(a, e, env))
  {
    StepKeepsInv(a.s, e, env);
  }

  lemma {:induction false} TrackingKeepsOk(a: Attempt, events: seq<(Event, Env)>)
    requires AttemptOk(a)
    ensures AttemptOk(TrackAll(a, events))
    decreases |events|
  {
    hide AttemptOk, Track;
    if events != [] {
      TrackKeepsOk(a, events[0].0, events[0].1);
      TrackingKeepsOk(Track(a, events[0].0, events[0].1), events[1..]);
    }
  }

  /** However often an association is retried, its deadline stays where the
      attempt put it, and an attempt enters DHCP from it at most once: on every run
      from reset. */
  lemma RetriesKeepTheDeadline(events: seq<(Event, Env)>)
    ensures var a := TrackAll(Attempt(BOOT, 0, 0), events);
      && a.s == Run(BOOT, events)
      && a.dhcpEntries <= 1
      && (a.s.phase == Connecting ==> a.dhcpEntries == 0 && a.s.deadline == a.began + ATTEMPT_US)
  {
    hide Run, TrackAll, Step;
    TrackIsRun(Attempt(BOOT, 0, 0), events);
    TrackingKeepsOk(Attempt(BOOT, 0, 0), events);
  }

  /** Tracking watches the machine without changing it. */
  lemma {:induction false} TrackIsRun(a: Attempt, events: seq<(Event, Env)>)
    ensures TrackAll(a, events).s == Run(a.s, events)
    decreases |events|
  {
    if events != [] {
      hide Step;
      TrackIsRun(Track(a, events[0].0, events[0].1), events[1..]);
    }
  }

  /** The timer ends any attempt it finds past its deadline, with the cause. */
  lemma DeadlineEnds(events: seq<(Event, Env)>, env: Env)
    requires var s := Run(BOOT, events); (s.phase == Connecting || s.phase == Dhcp) && env.now >= s.deadline
    ensures var s := Run(BOOT, events);
      var t := Step(s, Tick, env);
      if env.stop == OK then
        t.phase == Draining
        && t.after == (if s.phase == Dhcp then DHCP_TIMEOUT else if s.reason == NoApFound then AP_NOT_FOUND else TIMEOUT)
      else t.phase == Offline && t.result == ERROR
  {
    RunKeepsInv(BOOT, events);
  }

  // How attempts go

  /** An environment in which no driver call fails. */
  predicate Good(env: Env) {
    env.setConfig == OK && env.connect == OK && env.stop == OK && env.start == OK
  }

  predicate ConnectedWith(s: Sta, ssid: string, password: string, ip: string) {
    && s.phase == Online && s.shown == DONE && s.result == CONNECTED && s.reason == NoReason
    && s.ip == ip && s.deadline == 0 && s.config == (ssid, password)
  }

  lemma RunOne(s: Sta, e: Event, env: Env, more: seq<(Event, Env)>)
    ensures Run(s, [(e, env)] + more) == Run(Step(s, e, env), more)
  {
    hide Step;
    assert ([(e, env)] + more)[1..] == more;
  }

  /** From every reachable state in which the station is idle, a connect with
      acceptable credentials, an association and an address lead online with them;
      from one in which it is online, with the driver's stop in between. */
  lemma AttemptSucceeds(events: seq<(Event, Env)>, ssid: string, password: string, ip: string, env: Env)
    requires 0 < |ssid| <= 32 && |password| <= 63 && ip != "" && Good(env) && !Run(BOOT, events).scanning
    ensures var s := Run(BOOT, events);
      s.phase == Offline ==>
        ConnectedWith(Run(s, [(ConnectCmd(ssid, password), env)] + ([(StaConnected, env)] + ([(GotIp(ip), env)] + []))),
                      ssid, password, ip)
    ensures var s := Run(BOOT, events);
      s.phase == Online ==>
        ConnectedWith(Run(s, [(ConnectCmd(ssid, password), env)] + ([(StaStop, env)] +
                             ([(StaConnected, env)] + ([(GotIp(ip), env)] + [])))), ssid, password, ip)
  {
    var s := Run(BOOT, events);
    var s1 := Step(s, ConnectCmd(ssid, password), env);
    var s2 := if s.phase == Online then Step(s1, StaStop, env) else s1;
    var s3 := Step(s2, StaConnected, env);
    var s4 := Step(s3, GotIp(ip), env);
    assert s.phase == Offline || s.phase == Online ==> ConnectedWith(s4, ssid, password, ip);
    assert Run(s4, []) == s4;
    hide Run, Step, ConnectedWith;
    var tail := [(StaConnected, env)] + ([(GotIp(ip), env)] + []);
    RunOne(s3, GotIp(ip), env, []);
    RunOne(s2, StaConnected, env, [(GotIp(ip), env)] + []);
    RunOne(s1, StaStop, env, tail);
    RunOne(s, ConnectCmd(ssid, password), env, tail);
    RunOne(s, ConnectCmd(ssid, password), env, [(StaStop, env)] + tail);
  }

  /** What refuses to start ends the attempt there and then: as wrong credentials if
      the driver says so, as an error otherwise, with the driver's code as the reason. */
  predicate FailedWith(s: Sta, err: Err) {
    && s.phase == Offline && s.shown == FAILED && s.reason == Driver(err) && s.ip == "" && s.deadline == 0
    && s.result == if err == WifiPassword then AUTH_FAILED else ERROR
  }

  predicate Underway(s: Sta, now: nat) {
    && s.phase == Connecting && s.shown == RUNNING && s.result == NONE && s.reason == NoReason
    && s.ip == "" && s.deadline == now + 15_000_000
  }

  /** There are three ways into an attempt: a connect while idle, the driver's stop
      while switching, and a link lost while online; each sets the credentials and asks
      the driver to connect. */
  lemma AttemptBegins(s: Sta, e: Event, env: Env)
    requires (e.ConnectCmd? && Accepts(s, e.ssid, e.password) && s.phase == Offline)
          || (e.StaStop? && s.phase == Switching && env.start == OK) || (e.StaDisconnected? && s.phase == Online)
    ensures var t := Step(s, e, env);
      && (if env.setConfig != OK then FailedWith(t, env.setConfig)
          else if env.connect != OK then FailedWith(t, env.connect)
          else Underway(t, env.now))
      && t.config == if e.ConnectCmd? then (e.ssid, e.password) else s.config
  {
  }

  /** A missing access point is tried again, under the same deadline, as long as that
      lasts and the driver takes the request. */
  lemma RetryExact(s: Sta, env: Env)
    requires s.phase == Connecting && env.now < s.deadline
    ensures var t := Step(s, StaDisconnected(NoApFound), env);
      if env.connect == OK then t == s.(ip := "", reason := NoApFound)
      else t.phase == Offline && t.shown == FAILED && t.result == ERROR && t.reason == Driver(env.connect)
  {
  }

  /** A driver that does not stop, or not start again, ends it all as an error. */
  lemma StopFails(s: Sta, e: Event, env: Env)
    requires (e.ConnectCmd? && Accepts(s, e.ssid, e.password) && s.phase == Online && env.stop != OK)
          || (e.StopCmd? && s.phase in {Connecting, Dhcp, Online} && env.stop != OK)
          || (e.Tick? && s.deadline != 0 && env.now >= s.deadline && env.stop != OK)
          || (e.StaStop? && s.phase in {Switching, Draining} && env.start != OK)
    ensures var t := Step(s, e, env);
      && t.phase == Offline && t.shown == FAILED && t.result == ERROR && t.ip == "" && t.deadline == 0
      && t.reason == Driver(if e.StaStop? then env.start else env.stop)
  {
  }

  /** An address that was lost is waited for again, with a new deadline. */
  lemma AddressLost(s: Sta, ip: string, env: Env)
    requires s.phase == Online && ip != ""
    ensures var t := Step(s, LostIp, env);
      && t.phase == Dhcp && t.shown == RUNNING && t.result == NONE && t.ip == "" && t.deadline == env.now + 15_000_000
      && ConnectedWith(Step(t, GotIp(ip), env), s.config.0, s.config.1, ip)
  {
  }

  /** Commands that are refused change nothing; a scan keeps connects out until it is
      done, and starts only when idle or online; a stop while idle shows as such. */
  lemma CommandsExact(s: Sta, ssid: string, password: string, started: bool, env: Env)
    ensures ssid == "" || |ssid| > 32 || |password| > 63 || s.scanning || s.phase !in {Offline, Online} ==>
      Step(s, ConnectCmd(ssid, password), env) == s
    ensures Step(s, ScanCmd(started), env) ==
      s.(scanning := s.scanning || (started && s.phase in {Offline, Online}))
    ensures Step(s, ScanDone, env) == s.(scanning := false)
    ensures s.phase == Offline ==>
      Step(s, StopCmd, env) == s.(shown := IDLE, result := STOPPED, reason := NoReason, ip := "", deadline := 0)
    ensures Step(s, ClearCmd, env) ==
      if s.phase == Offline then s.(shown := IDLE, result := NONE, reason := NoReason, ip := "") else s
  {
  }

  /** In every reachable state, what a lost link ends an attempt as, cause by cause; a
      missing access point only once the deadline is over or an address is awaited. */
  lemma LossEndsAs(events: seq<(Event, Env)>, why: Reason, env: Env)
    requires var s := Run(BOOT, events);
      s.phase == Dhcp || (s.phase == Connecting && !(why == NoApFound && env.now < s.deadline))
    ensures var t := Step(Run(BOOT, events), StaDisconnected(why), env);
      && t.phase == Offline && t.shown == FAILED && t.reason == why && t.ip == "" && t.deadline == 0
      && (t.result == AP_NOT_FOUND <==> why == NoApFound)
      && (t.result == TIMEOUT <==> why in {AuthExpire, AssocExpire, ReasonTimeout})
      && (t.result == AUTH_FAILED <==> why in {AuthFail, FourWayTimeout, HandshakeTimeout})
      && (t.result == DISCONNECTED <==> why !in {NoApFound, AuthExpire, AssocExpire, ReasonTimeout,
                                                 AuthFail, FourWayTimeout, HandshakeTimeout})
  {
    hide Run;
  }

  /** Stopped, or on the way there. */
  predicate Stopping(s: Sta) {
    || (s.phase == Draining && s.after == STOPPED)
    || (s.phase == Offline && (s.result == STOPPED || s.result == ERROR))
  }

  /** After a stop the attempt can only end as STOPPED or ERROR, whatever
      events arrive and whatever the driver returns, until the host connects
      again or clears the result. */
  lemma StopIsFinal(before: seq<(Event, Env)>, env: Env, events: seq<(Event, Env)>)
    requires forall i :: 0 <= i < |events| ==> !events[i].0.ConnectCmd? && !events[i].0.ClearCmd?
    ensures var t := Run(Step(Run(BOOT, before), StopCmd, env), events);
      && Stopping(t)
      && (t.phase == Offline ==> t.result == STOPPED || t.result == ERROR)
  {
    hide Run;
    var s := Run(BOOT, before);
    RunKeepsInv(BOOT, before);
    StopStarts(s, env);
    StepKeepsInv(s, StopCmd, env);
    hide Step;
    StoppingStays(Step(s, StopCmd, env), events);
  }

  lemma StopStarts(s: Sta, env: Env)
    requires Inv(s)
    ensures Stopping(Step(s, StopCmd, env))
  {
  }

  lemma {:induction false} StoppingStays(s: Sta, events: seq<(Event, Env)>)
    requires Stopping(s) && Inv(s)
    requires forall i :: 0 <= i < |events| ==> !events[i].0.ConnectCmd? && !events[i].0.ClearCmd?
    ensures Stopping(Run(s, events))
    decreases |events|
  {
    if events != [] {
      assert Stopping(Step(s, events[0].0, events[0].1));
      StepKeepsInv(s, events[0].0, events[0].1);
      hide Stopping, Step, Inv;
      StoppingStays(Step(s, events[0].0, events[0].1), events[1..]);
    }
  }

  // What draining ends as

  /** The result an event asks the station to end with: a passed deadline its
      cause, a stop STOPPED, unless there is nothing to end. */
  function Asks(s: Sta, e: Event, env: Env): Option<Result> {
    match e
    case Tick =>
      if (s.phase == Connecting || s.phase == Dhcp) && env.now >= s.deadline then
        Some(if s.phase == Dhcp then DHCP_TIMEOUT else if s.reason == NoApFound then AP_NOT_FOUND else TIMEOUT)
      else None
    case StopCmd => if s.phase != Offline then Some(STOPPED) else None
    case _ => None
  }

  /** The last such request in a series of events. */
  function LastAsked(s: Sta, events: seq<(Event, Env)>, before: Option<Result>): Option<Result>
    decreases |events|
  {
    if events == [] then before
    else
      var (e, env) := events[0];
      LastAsked(Step(s, e, env), events[1..], if Asks(s, e, env).Some? then Asks(s, e, env) else before)
  }

  lemma AskedIsKept(s: Sta, e: Event, env: Env)
    requires Inv(s)
    ensures var t := Step(s, e, env);
      t.phase == Draining ==>
        if Asks(s, e, env).Some? then t.after == Asks(s, e, env).value else s.phase == Draining && t.after == s.after
  {
  }

  lemma {:induction false} DrainingForLastAsked(s: Sta, events: seq<(Event, Env)>, before: Option<Result>)
    requires Inv(s) && (s.phase == Draining ==> before == Some(s.after))
    ensures var t := Run(s, events); t.phase == Draining ==> LastAsked(s, events, before) == Some(t.after)
    decreases |events|
  {
    hide Inv, Step, Asks;
    if events != [] {
      var (e, env) := events[0];
      AskedIsKept(s, e, env);
      StepKeepsInv(s, e, env);
      DrainingForLastAsked(Step(s, e, env), events[1..], if Asks(s, e, env).Some? then Asks(s, e, env) else before);
    }
  }

  /** On every run from reset, when the driver reports its stop while the station is
      draining, the station ends with what the last stop or passed deadline asked
      for, or with an error if the driver does not start again. */
  lemma DrainEndsAsTold(events: seq<(Event, Env)>, env: Env)
    requires Run(BOOT, events).phase == Draining
    ensures var told := LastAsked(BOOT, events, None);
      var t := Step(Run(BOOT, events), StaStop, env);
      && told.Some? && t.phase == Offline
      && t.result == if env.start == OK then told.value else ERROR
  {
    hide Run, LastAsked;
    DrainingForLastAsked(BOOT, events, None);
  }
}
