/** The MQTT connection machine of mqtt_client.c: a poll-driven state, an 8-bit tick, and DNS,
    broker and subscribe callbacks that may come at any time between polls. */
module MqttClient {
  import opened Words

  datatype MqttState = Disconnected | ResolveHostname | Connecting | Connected

  /** What the machine did, in order. */
  datatype Deed =
    | PollRan
    | LeftDisconnected
    | DnsAsked
    | DnsResolved
    | ConnectCalled
    | Accepted
    | SubscribeSent
    | HeartBeatSent

  /** m_mqtt_state and the statics of the poll function, with what the machine did and the true
      times of its last executed poll and its last heartbeat. */
  datatype Mqtt = Mqtt(
    state: MqttState, tick: nat, dnsResolved: bool, processNow: bool, allow: bool,
    lastPoll: Word, lastSubscribe: Word, lastHeartBeat: Word, subscribeErrors: nat,
    deeds: seq<Deed>, polledAt: nat, beatAt: nat)

  datatype DnsReply = DnsOk | DnsInProgress | DnsFailed

  /** What one poll meets: the true time, the PPP link, the two answers the client may give to
      "are you connected", the answers of DNS and of connect, and the configured period. */
  datatype PollEnv = PollEnv(now: nat, pppUp: bool, connectedFirst: bool, connectedThen: bool,
                             dns: DnsReply, connectOk: bool, period: Word)

  function Did(m: Mqtt, deed: Deed): Mqtt {
    m.(deeds := m.deeds + [deed])
  }

  function Initial(): Mqtt {
    Mqtt(Disconnected, 0, false, false, false, 0, 0, 0, 0, [], 0, 0)
  }

  /** Whether the tick comparison of the periodic subscribe lets a request out. */
  predicate SubscribeDue(last: Word, tick: Word, period: Word) {
    tick >= Add32(last, period * 1000 % TICKS)
  }

  predicate BeatDue(m: Mqtt, now: nat) {
    Sub32(Tick(now), m.lastHeartBeat) >= 30000
  }

  predicate PollDue(m: Mqtt, now: nat) {
    Sub32(Tick(now), m.lastPoll) >= 1000 || m.processNow
  }

  /** The CONNECTED branch of the poll function. */
  function KeepAlive(m: Mqtt, env: PollEnv): Mqtt {
    var tick := Tick(env.now);
    var last := if m.lastSubscribe == 0 || m.lastSubscribe > tick then tick else m.lastSubscribe;
    var based := m.(lastSubscribe := last);
    if !env.connectedThen then based.(state := Disconnected) else
    var subscribed := if SubscribeDue(last, tick, env.period)
                      then Did(based.(lastSubscribe := tick), SubscribeSent) else based;
    if BeatDue(m, env.now)
    then Did(subscribed.(lastHeartBeat := tick, beatAt := env.now), HeartBeatSent) else subscribed
  }

  /** The switch of the poll function, the tick already counted. */
  function Drive(m: Mqtt, env: PollEnv): Mqtt {
    match m.state
    case Disconnected => Did(m.(dnsResolved := false, state := ResolveHostname, tick := 4), LeftDisconnected)
    case ResolveHostname =>
      if m.dnsResolved then m.(tick := 9, state := Connecting)
      else if m.tick < 5 then m
      else
        var asked := Did(m.(tick := 0), DnsAsked);
        if env.dns.DnsOk? then Did(asked.(dnsResolved := true), DnsResolved) else asked
    case Connecting =>
      if m.tick >= 10 then Did(m.(tick := if env.connectOk then 5 else 0), ConnectCalled) else m
    case Connected => KeepAlive(m, env)
  }

  /** The PPP link lets the client run or stops it. */
  function Gate(m: Mqtt, env: PollEnv): Mqtt {
    if !env.pppUp then m.(allow := false)
    else if !m.allow && env.connectedFirst then m.(allow := true, state := Disconnected)
    else m.(allow := true)
  }

  /** mqtt_client_polling_task. */
  function Poll(m: Mqtt, env: PollEnv): Mqtt {
    if !PollDue(m, env.now) then m else
    var gated := Gate(m.(processNow := false, lastPoll := Tick(env.now), polledAt := env.now), env);
    if gated.allow then Drive(Did(gated.(tick := (gated.tick + 1) % 256), PollRan), env)
    else gated.(tick := 4)
  }

  /** mqtt_client_connection_callback. */
  function ConnectionCallback(m: Mqtt, accepted: bool): Mqtt {
    if accepted then
      var left := if m.state.Disconnected? then Did(m, LeftDisconnected) else m;
      Did(left.(processNow := true, state := Connected), Accepted)
    else m.(state := Disconnected)
  }

  /** mqtt_dns_found. */
  function DnsCallback(m: Mqtt, found: bool): Mqtt {
    if found then Did(m.(dnsResolved := true, processNow := true), DnsResolved)
    else m.(dnsResolved := false)
  }

  /** mqtt_sub_request_cb. */
  function SubscribeCallback(m: Mqtt, ok: bool): Mqtt {
    if ok then m.(subscribeErrors := 0, processNow := true)
    else if m.subscribeErrors + 1 >= 5 then m.(subscribeErrors := 0, state := Disconnected)
    else m.(subscribeErrors := m.subscribeErrors + 1)
  }

  datatype Step =
    | PollStep(env: PollEnv)
    | BrokerStep(accepted: bool)
    | DnsStep(found: bool)
    | SubscribeStep(ok: bool)

  function Next(m: Mqtt, step: Step): Mqtt {
    match step
    case PollStep(env) => Poll(m, env)
    case BrokerStep(accepted) => ConnectionCallback(m, accepted)
    case DnsStep(found) => DnsCallback(m, found)
    case SubscribeStep(ok) => SubscribeCallback(m, ok)
  }

  function Run(steps: seq<Step>): Mqtt {
    if steps == [] then Initial() else Next(Run(steps[..|steps| - 1]), steps[|steps| - 1])
  }

  /** A DNS success after the last time DISCONNECTED was left. */
  predicate ResolvedSinceLeft(deeds: seq<Deed>) {
    if deeds == [] then false else
    match deeds[|deeds| - 1]
    case DnsResolved => true
    case LeftDisconnected => false
    case _ => ResolvedSinceLeft(deeds[..|deeds| - 1])
  }

  /** Executed polls since the last connect call, or 3 before the first. */
  function PollsSinceConnect(deeds: seq<Deed>): nat {
    if deeds == [] then 3 else
    match deeds[|deeds| - 1]
    case PollRan => PollsSinceConnect(deeds[..|deeds| - 1]) + 1
    case ConnectCalled => 0
    case _ => PollsSinceConnect(deeds[..|deeds| - 1])
  }

  /** Executed polls since the last DNS query; 4 when DISCONNECTED was left after it, because the
      next poll queries at once. */
  function PollsSinceAsked(deeds: seq<Deed>): nat {
    if deeds == [] then 0 else
    match deeds[|deeds| - 1]
    case PollRan => PollsSinceAsked(deeds[..|deeds| - 1]) + 1
    case DnsAsked => 0
    case LeftDisconnected => 4
    case _ => PollsSinceAsked(deeds[..|deeds| - 1])
  }

  /** Every connect call was made at least 3 polls after the one before, after a DNS success. */
  predicate ConnectsJustified(deeds: seq<Deed>) {
    forall i | 0 <= i < |deeds| && deeds[i] == ConnectCalled ::
      ResolvedSinceLeft(deeds[..i]) && PollsSinceConnect(deeds[..i]) >= 3
  }

  /** What that means for the history itself. */
  lemma {:induction false} ResolvedMeans(deeds: seq<Deed>)
    requires ResolvedSinceLeft(deeds)
    ensures exists j :: 0 <= j < |deeds| && deeds[j] == DnsResolved
              && forall k | j < k < |deeds| :: deeds[k] != LeftDisconnected
    decreases |deeds|
  {
    var last := |deeds| - 1;
    if deeds[last] != DnsResolved {
      ResolvedMeans(deeds[..last]);
      var j :| 0 <= j < last && deeds[..last][j] == DnsResolved
               && forall k | j < k < last :: deeds[..last][k] != LeftDisconnected;
      assert deeds[j] == DnsResolved;
      forall k | j < k < |deeds| ensures deeds[k] != LeftDisconnected {
        if k < last {
          assert deeds[..last][k] != LeftDisconnected;
        }
      }
    }
  }

  predicate Safe(m: Mqtt) {
    && m.tick < 256 && m.subscribeErrors <= 4
    && (m.state.ResolveHostname? ==> m.tick <= 4)
    && (m.state.Connecting? ==> m.tick <= 9)
    && (m.state.Connecting? || (m.state.ResolveHostname? && m.dnsResolved) ==> ResolvedSinceLeft(m.deeds))
    && (m.state.ResolveHostname? ==> PollsSinceConnect(m.deeds) >= 1 && PollsSinceAsked(m.deeds) <= m.tick)
    && (m.state.Connecting? ==> PollsSinceConnect(m.deeds) + 7 >= m.tick)
    && (m.state.Connected? ==> Accepted in m.deeds)
    && ConnectsJustified(m.deeds)
  }

  lemma DidSafe(deeds: seq<Deed>, deed: Deed)
    requires ConnectsJustified(deeds)
    requires deed == ConnectCalled ==> ResolvedSinceLeft(deeds) && PollsSinceConnect(deeds) >= 3
    ensures (deeds + [deed])[..|deeds|] == deeds
    ensures ConnectsJustified(deeds + [deed])
  {
    forall i | 0 <= i < |deeds + [deed]| && (deeds + [deed])[i] == ConnectCalled
      ensures ResolvedSinceLeft((deeds + [deed])[..i]) && PollsSinceConnect((deeds + [deed])[..i]) >= 3
    {
      assert (deeds + [deed])[..i] == deeds[..i] || i == |deeds|;
      assert (deeds + [deed])[..|deeds|] == deeds;
    }
  }

  lemma KeepAliveSafe(m: Mqtt, env: PollEnv)
    requires Safe(m) && m.state.Connected?
    ensures Safe(KeepAlive(m, env))
  {
    hide ConnectsJustified, ResolvedSinceLeft, PollsSinceConnect, PollsSinceAsked, SubscribeDue, BeatDue, Tick;
    var sent := m.deeds + [SubscribeSent];
    DidSafe(m.deeds, SubscribeSent);
    DidSafe(m.deeds, HeartBeatSent);
    DidSafe(sent, HeartBeatSent);
  }

  lemma LeaveSafe(m: Mqtt, env: PollEnv)
    requires m.state.Disconnected? && m.subscribeErrors <= 4
    requires ConnectsJustified(m.deeds) && PollsSinceConnect(m.deeds) >= 1
    ensures Safe(Drive(m, env))
  {
    hide ConnectsJustified, KeepAlive, ResolvedSinceLeft, PollsSinceConnect, PollsSinceAsked;
    LeftSafe(m.deeds);
  }

  /** A DNS success keeps what is known of the connect calls. */
  lemma ResolvedSafe(deeds: seq<Deed>)
    requires ConnectsJustified(deeds)
    ensures ConnectsJustified(deeds + [DnsResolved]) && ResolvedSinceLeft(deeds + [DnsResolved])
    ensures PollsSinceConnect(deeds + [DnsResolved]) == PollsSinceConnect(deeds)
    ensures PollsSinceAsked(deeds + [DnsResolved]) == PollsSinceAsked(deeds)
  {
    hide ConnectsJustified;
    DidSafe(deeds, DnsResolved);
  }

  /** So does a DNS query. */
  lemma AskedSafe(deeds: seq<Deed>)
    requires ConnectsJustified(deeds)
    ensures ConnectsJustified(deeds + [DnsAsked])
    ensures PollsSinceConnect(deeds + [DnsAsked]) == PollsSinceConnect(deeds)
    ensures PollsSinceAsked(deeds + [DnsAsked]) == 0
    ensures ResolvedSinceLeft(deeds + [DnsAsked]) == ResolvedSinceLeft(deeds)
  {
    hide ConnectsJustified;
    DidSafe(deeds, DnsAsked);
  }

  /** Leaving DISCONNECTED keeps them too. */
  lemma LeftSafe(deeds: seq<Deed>)
    requires ConnectsJustified(deeds)
    ensures ConnectsJustified(deeds + [LeftDisconnected])
    ensures PollsSinceConnect(deeds + [LeftDisconnected]) == PollsSinceConnect(deeds)
    ensures PollsSinceAsked(deeds + [LeftDisconnected]) == 4
  {
    hide ConnectsJustified;
    DidSafe(deeds, LeftDisconnected);
  }

  /** So does a connect call that is justified itself. */
  lemma CalledSafe(deeds: seq<Deed>)
    requires ConnectsJustified(deeds) && ResolvedSinceLeft(deeds) && PollsSinceConnect(deeds) >= 3
    ensures ConnectsJustified(deeds + [ConnectCalled]) && ResolvedSinceLeft(deeds + [ConnectCalled])
  {
    hide ConnectsJustified;
    DidSafe(deeds, ConnectCalled);
  }

  lemma ResolveSafe(m: Mqtt, env: PollEnv)
    requires m.state.ResolveHostname? && m.tick <= 5 && m.subscribeErrors <= 4
    requires ConnectsJustified(m.deeds) && PollsSinceConnect(m.deeds) >= 2
    requires m.dnsResolved ==> ResolvedSinceLeft(m.deeds)
    requires PollsSinceAsked(m.deeds) <= m.tick
    ensures Safe(Drive(m, env))
  {
    hide ConnectsJustified, KeepAlive, ResolvedSinceLeft, PollsSinceConnect, PollsSinceAsked;
    AskedSafe(m.deeds);
    ResolvedSafe(m.deeds + [DnsAsked]);
  }

  lemma ConnectSafe(m: Mqtt, env: PollEnv)
    requires m.state.Connecting? && m.tick <= 10 && m.subscribeErrors <= 4
    requires ConnectsJustified(m.deeds) && PollsSinceConnect(m.deeds) + 7 >= m.tick
    requires ResolvedSinceLeft(m.deeds)
    ensures Safe(Drive(m, env))
  {
    hide ConnectsJustified, KeepAlive, ResolvedSinceLeft, PollsSinceConnect, PollsSinceAsked;
    if m.tick >= 10 {
      CalledSafe(m.deeds);
    }
  }

  lemma DriveSafe(m: Mqtt, env: PollEnv)
    requires m.tick < 256 && m.subscribeErrors <= 4 && ConnectsJustified(m.deeds)
    requires m.state.ResolveHostname? ==>
               m.tick <= 5 && PollsSinceConnect(m.deeds) >= 2 && PollsSinceAsked(m.deeds) <= m.tick
    requires m.state.Connecting? ==> m.tick <= 10 && PollsSinceConnect(m.deeds) + 7 >= m.tick
    requires m.state.Connecting? || (m.state.ResolveHostname? && m.dnsResolved) ==> ResolvedSinceLeft(m.deeds)
    requires m.state.Disconnected? ==> PollsSinceConnect(m.deeds) >= 1
    requires m.state.Connected? ==> Accepted in m.deeds
    ensures Safe(Drive(m, env))
  {
    hide ConnectsJustified, KeepAlive, ResolvedSinceLeft, PollsSinceConnect, PollsSinceAsked;
    match m.state
    case Disconnected => LeaveSafe(m, env);
    case ResolveHostname => ResolveSafe(m, env);
    case Connecting => ConnectSafe(m, env);
    case Connected => KeepAliveSafe(m, env);
  }

  /** An executed poll counts as one, and changes nothing else about the history. */
  lemma RanSafe(deeds: seq<Deed>)
    requires ConnectsJustified(deeds)
    ensures ConnectsJustified(deeds + [PollRan])
    ensures ResolvedSinceLeft(deeds + [PollRan]) <==> ResolvedSinceLeft(deeds)
    ensures PollsSinceConnect(deeds + [PollRan]) == PollsSinceConnect(deeds) + 1
    ensures PollsSinceAsked(deeds + [PollRan]) == PollsSinceAsked(deeds) + 1
  {
    hide ConnectsJustified;
    DidSafe(deeds, PollRan);
  }

  lemma PollSafe(m: Mqtt, env: PollEnv)
    requires Safe(m)
    ensures Safe(Poll(m, env))
  {
    hide Drive, ConnectsJustified, ResolvedSinceLeft, PollsSinceConnect, PollsSinceAsked, Tick, Sub32;
    RanSafe(m.deeds);
    var gated := Gate(m.(processNow := false, lastPoll := Tick(env.now), polledAt := env.now), env);
    if PollDue(m, env.now) && gated.allow {
      DriveSafe(Did(gated.(tick := (gated.tick + 1) % 256), PollRan), env);
    }
  }

  lemma BrokerSafe(m: Mqtt, accepted: bool)
    requires Safe(m)
    ensures Safe(ConnectionCallback(m, accepted))
  {
    hide ConnectsJustified, ResolvedSinceLeft, PollsSinceConnect, PollsSinceAsked;
    if accepted {
      DidSafe(m.deeds, LeftDisconnected);
      DidSafe(m.deeds, Accepted);
      DidSafe(m.deeds + [LeftDisconnected], Accepted);
      var deeds := ConnectionCallback(m, true).deeds;
      assert deeds[|deeds| - 1] == Accepted;
    }
  }

  lemma DnsSafe(m: Mqtt, found: bool)
    requires Safe(m)
    ensures Safe(DnsCallback(m, found))
  {
    hide ConnectsJustified;
    DidSafe(m.deeds, DnsResolved);
  }

  lemma NextSafe(m: Mqtt, step: Step)
    requires Safe(m)
    ensures Safe(Next(m, step))
  {
    hide Poll, ConnectionCallback, DnsCallback, ConnectsJustified, ResolvedSinceLeft;
    hide PollsSinceConnect, PollsSinceAsked;
    match step
    case PollStep(env) => PollSafe(m, env);
    case BrokerStep(accepted) => BrokerSafe(m, accepted);
    case DnsStep(found) => DnsSafe(m, found);
    case SubscribeStep(_) =>
  }

  /** Connection safety over every run with arbitrary callbacks: the tick bounds of the two
      waiting states, and every connect call at least 3 executed polls after the one before
      and after a DNS success later than the last exit from DISCONNECTED. */
  lemma {:induction false} ConnectionSafety(steps: seq<Step>)
    ensures Safe(Run(steps))
    decreases |steps|
  {
    hide Next, Safe;
    if steps != [] {
      ConnectionSafety(steps[..|steps| - 1]);
      NextSafe(Run(steps[..|steps| - 1]), steps[|steps| - 1]);
    } else {
      InitialSafe();
    }
  }

  lemma InitialSafe()
    ensures Safe(Initial())
  {
  }

  predicate TimesFit(m: Mqtt, now: nat) {
    && m.lastPoll == Tick(m.polledAt) && m.polledAt <= now
    && m.lastHeartBeat == Tick(m.beatAt) && m.beatAt <= now
  }

  predicate SameTimes(m: Mqtt, r: Mqtt) {
    && r.lastPoll == m.lastPoll && r.polledAt == m.polledAt
    && r.lastHeartBeat == m.lastHeartBeat && r.beatAt == m.beatAt
  }

  lemma DriveTimes(m: Mqtt, env: PollEnv)
    ensures var r := Drive(m, env);
            SameTimes(m, r) || SameTimes(m.(lastHeartBeat := Tick(env.now), beatAt := env.now), r)
  {
    hide KeepAlive;
    if m.state.Connected? {
      KeepAliveTimes(m, env);
    }
  }

  lemma KeepAliveTimes(m: Mqtt, env: PollEnv)
    ensures var r := KeepAlive(m, env);
            SameTimes(m, r) || SameTimes(m.(lastHeartBeat := Tick(env.now), beatAt := env.now), r)
  {
    hide Tick, SubscribeDue, BeatDue;
  }

  lemma PollKeepsTimes(m: Mqtt, env: PollEnv, now: nat)
    requires TimesFit(m, now) && env.now <= now
    ensures TimesFit(Poll(m, env), now)
  {
    hide Tick, Sub32, Drive;
    if PollDue(m, env.now) {
      var gated := Gate(m.(processNow := false, lastPoll := Tick(env.now), polledAt := env.now), env);
      DriveTimes(Did(gated.(tick := (gated.tick + 1) % 256), PollRan), env);
    }
  }

  lemma NextTimes(m: Mqtt, step: Step, now: nat)
    requires TimesFit(m, now) && (step.PollStep? ==> step.env.now <= now)
    ensures TimesFit(Next(m, step), now)
  {
    hide Poll, Tick;
    match step
    case PollStep(env) => PollKeepsTimes(m, env, now);
    case BrokerStep(_) =>
    case DnsStep(_) =>
    case SubscribeStep(_) =>
  }

  lemma {:induction false} TimesInRun(steps: seq<Step>, now: nat)
    requires forall i | 0 <= i < |steps| && steps[i].PollStep? :: steps[i].env.now <= now
    ensures TimesFit(Run(steps), now)
    decreases |steps|
  {
    hide Next;
    if steps != [] {
      var front := steps[..|steps| - 1];
      assert forall i | 0 <= i < |front| :: front[i] == steps[i];
      TimesInRun(front, now);
      NextTimes(Run(front), steps[|steps| - 1], now);
    }
  }

  /** After any run the one-second poll gate and the 30-second heartbeat gate are open exactly
      when the true time since the last executed poll and the last heartbeat says so, across
      any number of tick wraps, while that time is below 2^32 ms. */
  lemma MqttGatesAreExact(steps: seq<Step>, now: nat)
    requires forall i | 0 <= i < |steps| && steps[i].PollStep? :: steps[i].env.now <= now
    ensures var m := Run(steps);
            && (now - m.polledAt < TICKS ==> (PollDue(m, now) <==> m.processNow || now - m.polledAt >= 1000))
            && (now - m.beatAt < TICKS ==> (BeatDue(m, now) <==> now - m.beatAt >= 30000))
  {
    hide Run;
    TimesInRun(steps, now);
    var m := Run(steps);
    GateExact(m.polledAt, now, 1000);
    GateExact(m.beatAt, now, 30000);
  }

  /** CONNECTED is entered only by an accepted broker callback. */
  lemma OnlyAcceptedConnects(m: Mqtt, step: Step)
    requires !m.state.Connected? && Next(m, step).state.Connected?
    ensures step == BrokerStep(true)
  {
  }

  /** A poll that is let through both gates. */
  predicate Executes(m: Mqtt, env: PollEnv) {
    PollDue(m, env.now) && env.pppUp
  }

  /** The link is back and finds the client still connected: the session is dropped. */
  predicate Restarts(m: Mqtt, env: PollEnv) {
    Executes(m, env) && !m.allow && env.connectedFirst
  }

  /** CONNECTED is left exactly by an executed poll that finds the client not connected, by the
      link coming back under a connected client, by a refusal, or by the fifth failed subscribe. */
  lemma ConnectedLeftIff(m: Mqtt, step: Step)
    requires m.state.Connected?
    ensures !Next(m, step).state.Connected? <==>
              match step
              case PollStep(env) => Executes(m, env) && (Restarts(m, env) || !env.connectedThen)
              case BrokerStep(accepted) => !accepted
              case DnsStep(_) => false
              case SubscribeStep(ok) => !ok && m.subscribeErrors >= 4
    ensures !Next(m, step).state.Connected? && !(step.PollStep? && Restarts(m, step.env)) ==>
              Next(m, step).state.Disconnected?
  {
    hide SubscribeDue, BeatDue;
  }

  /** After an executed poll CONNECTED means that the client said so at that very poll. */
  lemma ConnectedIsAnswered(m: Mqtt, env: PollEnv)
    requires Executes(m, env) && Next(m, PollStep(env)).state.Connected?
    ensures env.connectedThen && !Restarts(m, env) && m.state.Connected?
  {
    hide SubscribeDue, BeatDue;
    if !m.state.Connected? {
      OnlyAcceptedConnects(m, PollStep(env));
    } else {
      ConnectedLeftIff(m, PollStep(env));
    }
  }

  /** The base of the periodic subscribe as a poll finds it. */
  function SubscribeBase(m: Mqtt, tick: Word): Word {
    if m.lastSubscribe == 0 || m.lastSubscribe > tick then tick else m.lastSubscribe
  }

  /** What an executed poll of a connected client sends: the periodic subscribe and the heartbeat
      exactly when they are due, each restarting its own period. */
  lemma ConnectedPoll(m: Mqtt, env: PollEnv)
    requires Executes(m, env) && !Restarts(m, env) && m.state.Connected? && env.connectedThen
    ensures var r, tick := Next(m, PollStep(env)), Tick(env.now);
            var subscribe, beat := SubscribeDue(SubscribeBase(m, tick), tick, env.period), BeatDue(m, env.now);
            && r.deeds == m.deeds + [PollRan] + (if subscribe then [SubscribeSent] else [])
                          + (if beat then [HeartBeatSent] else [])
            && r.lastSubscribe == (if subscribe then tick else SubscribeBase(m, tick))
            && r.lastHeartBeat == (if beat then tick else m.lastHeartBeat)
            && r.beatAt == (if beat then env.now else m.beatAt)
  {
    hide SubscribeDue, Tick, Sub32;
  }

  /** In every run: the heartbeat goes out at an executed poll of a connected client exactly when
      30 seconds of true time have passed since the last one. */
  lemma HeartBeatIff(steps: seq<Step>, env: PollEnv)
    requires forall i | 0 <= i < |steps| && steps[i].PollStep? :: steps[i].env.now <= env.now
    requires var m := Run(steps);
             && Executes(m, env) && !Restarts(m, env) && m.state.Connected? && env.connectedThen
             && env.now - m.beatAt < TICKS
    ensures var m, r := Run(steps), Next(Run(steps), PollStep(env));
            && |r.deeds| > |m.deeds|
            && (r.deeds[|r.deeds| - 1] == HeartBeatSent <==> env.now - m.beatAt >= 30000)
            && (r.deeds[|r.deeds| - 1] == HeartBeatSent ==> r.beatAt == env.now)
  {
    hide Run, Next, SubscribeDue;
    MqttGatesAreExact(steps, env.now);
    ConnectedPoll(Run(steps), env);
  }

  /** The other states, poll by poll: a query at every fifth poll of RESOLVE, the address taken up
      at once, a connect call when ten polls are counted, and half of them counted again if the
      client took the call. */
  lemma WaitingPoll(m: Mqtt, env: PollEnv)
    requires Safe(m) && Executes(m, env) && !Restarts(m, env) && !m.state.Connected?
    ensures var r := Next(m, PollStep(env));
            match m.state
            case Disconnected =>
              r.state.ResolveHostname? && !r.dnsResolved && r.tick == 4
              && r.deeds == m.deeds + [PollRan, LeftDisconnected]
            case ResolveHostname =>
              if m.dnsResolved then r.state.Connecting? && r.tick == 9 && r.deeds == m.deeds + [PollRan]
              else
                && r.state.ResolveHostname? && r.tick == (if m.tick == 4 then 0 else m.tick + 1)
                && r.dnsResolved == (m.tick == 4 && env.dns.DnsOk?)
                && r.deeds == m.deeds + [PollRan] + (if m.tick == 4 then [DnsAsked] else [])
                              + (if m.tick == 4 && env.dns.DnsOk? then [DnsResolved] else [])
            case Connecting =>
              && r.state.Connecting?
              && r.tick == (if m.tick < 9 then m.tick + 1 else if env.connectOk then 5 else 0)
              && r.deeds == m.deeds + [PollRan] + (if m.tick == 9 then [ConnectCalled] else [])
            case Connected => true
  {
    hide ConnectsJustified, ResolvedSinceLeft, PollsSinceConnect, PollsSinceAsked, Tick, Sub32, KeepAlive;
  }

  /** A restart goes straight on to the name query, whatever was going on. */
  lemma RestartPoll(m: Mqtt, env: PollEnv)
    requires Restarts(m, env)
    ensures var r := Next(m, PollStep(env));
            && r.state.ResolveHostname? && !r.dnsResolved && r.tick == 4 && r.allow
            && r.deeds == m.deeds + [PollRan, LeftDisconnected]
  {
    hide Sub32, Tick, KeepAlive;
  }

  /** A due poll uses up the call to process at once and restarts the second; one that is not due
      does nothing. */
  lemma PollTakesNews(m: Mqtt, env: PollEnv)
    ensures var r := Next(m, PollStep(env));
            if PollDue(m, env.now)
            then !r.processNow && r.lastPoll == Tick(env.now) && r.polledAt == env.now && r.allow == env.pppUp
            else r == m
  {
    hide SubscribeDue, BeatDue, Tick, Sub32;
  }

  /** While the link is down polls do nothing but make the next query or connect call come soon. */
  lemma LinkDownPoll(m: Mqtt, env: PollEnv)
    requires PollDue(m, env.now) && !env.pppUp
    ensures var r := Next(m, PollStep(env));
            r == m.(processNow := false, lastPoll := Tick(env.now), polledAt := env.now, allow := false, tick := 4)
  {
    hide Sub32;
  }

  /** Polls one after another, each executed and none restarting the session. */
  predicate AllExecute(m: Mqtt, envs: seq<PollEnv>)
    decreases |envs|
  {
    envs == [] || (Executes(m, envs[0]) && !Restarts(m, envs[0])
                   && AllExecute(Next(m, PollStep(envs[0])), envs[1..]))
  }

  function PollAll(m: Mqtt, envs: seq<PollEnv>): Mqtt
    decreases |envs|
  {
    if envs == [] then m else PollAll(Next(m, PollStep(envs[0])), envs[1..])
  }

  function PollsOnly(n: nat): seq<Deed> {
    seq(n, _ => PollRan)
  }

  /** CONNECTING calls connect at the poll that makes the tenth tick, and not before: at the first
      poll after an address was found, then five polls after a call that the client took and ten
      after one that it did not. */
  lemma {:induction false} ConnectAfter(m: Mqtt, envs: seq<PollEnv>)
    requires Safe(m) && m.state.Connecting? && AllExecute(m, envs) && |envs| == 10 - m.tick
    ensures PollAll(m, envs).deeds == m.deeds + PollsOnly(|envs|) + [ConnectCalled]
    ensures PollAll(m, envs).tick == if envs[|envs| - 1].connectOk then 5 else 0
    decreases |envs|
  {
    hide Safe, Next;
    SafeTicks(m);
    var next := Next(m, PollStep(envs[0]));
    WaitingPoll(m, envs[0]);
    NextSafe(m, PollStep(envs[0]));
    if |envs| == 1 {
      assert PollAll(next, envs[1..]) == next;
      assert PollsOnly(1) == [PollRan];
    } else {
      ConnectAfter(next, envs[1..]);
      assert m.deeds + [PollRan] + PollsOnly(|envs| - 1) == m.deeds + PollsOnly(|envs|);
    }
  }

  lemma SafeTicks(m: Mqtt)
    requires Safe(m)
    ensures m.state.Connecting? ==> m.tick <= 9
    ensures m.state.ResolveHostname? ==> m.tick <= 4 && PollsSinceAsked(m.deeds) <= 4
  {
  }

  /** In every run RESOLVE queries the name server at the latest at every fifth executed poll. */
  lemma QueriesOften(steps: seq<Step>)
    requires Run(steps).state.ResolveHostname?
    ensures PollsSinceAsked(Run(steps).deeds) <= 4
  {
    hide Run;
    ConnectionSafety(steps);
  }

  /** An accepted connection, a resolved name and an acknowledged subscribe are followed up by the
      very next poll, whatever the tick says. */
  lemma GoodNewsIsPrompt(m: Mqtt, now: nat)
    ensures PollDue(Next(m, BrokerStep(true)), now) && Next(m, BrokerStep(true)).state.Connected?
    ensures PollDue(Next(m, DnsStep(true)), now) && Next(m, DnsStep(true)).dnsResolved
    ensures PollDue(Next(m, SubscribeStep(true)), now)
    ensures !Next(m, DnsStep(false)).dnsResolved && Next(m, BrokerStep(false)).state.Disconnected?
  {
  }

  /** Failed subscribes since the last acknowledged one. */
  function FailuresInRow(steps: seq<Step>): nat {
    if steps == [] then 0 else
    var before := FailuresInRow(steps[..|steps| - 1]);
    match steps[|steps| - 1]
    case SubscribeStep(ok) => if ok then 0 else before + 1
    case _ => before
  }

  /** In every run the error counter counts them in fives, and each fifth one disconnects. */
  lemma {:induction false} FifthFailureDisconnects(steps: seq<Step>)
    ensures Run(steps).subscribeErrors == FailuresInRow(steps) % 5
    ensures steps != [] && steps[|steps| - 1] == SubscribeStep(false) && FailuresInRow(steps) % 5 == 0 ==>
              Run(steps).state.Disconnected?
    decreases |steps|
  {
    hide Poll, ConnectionCallback, DnsCallback;
    if steps != [] {
      var front, last := steps[..|steps| - 1], steps[|steps| - 1];
      FifthFailureDisconnects(front);
      match last
      case PollStep(env) => PollKeepsErrors(Run(front), env);
      case BrokerStep(accepted) => CallbacksKeepErrors(Run(front), accepted);
      case DnsStep(found) => CallbacksKeepErrors(Run(front), found);
      case SubscribeStep(_) =>
    }
  }

  lemma PollKeepsErrors(m: Mqtt, env: PollEnv)
    ensures Poll(m, env).subscribeErrors == m.subscribeErrors
  {
    hide SubscribeDue, BeatDue, Tick, Sub32;
  }

  lemma CallbacksKeepErrors(m: Mqtt, good: bool)
    ensures ConnectionCallback(m, good).subscribeErrors == m.subscribeErrors
    ensures DnsCallback(m, good).subscribeErrors == m.subscribeErrors
  {
  }

  lemma RunSnoc(steps: seq<Step>, step: Step)
    ensures Run(steps + [step]) == Next(Run(steps), step)
  {
    assert (steps + [step])[..|steps|] == steps;
  }

  /** A due poll with the link up, DNS still busy and a connect call that is taken. */
  function PollAt(now: nat): Step {
    PollStep(PollEnv(now, true, false, false, DnsInProgress, true, 120))
  }

  /** The distance of 3 polls is reached by a run from power-up: a host name resolved at once, a
      connect call, a refusal, the name resolved at once again and the next connect call. */
  lemma ThreePollsIsTight() returns (steps: seq<Step>)
    ensures Run(steps).deeds == [PollRan, LeftDisconnected, DnsResolved, PollRan, PollRan, ConnectCalled,
                                 PollRan, LeftDisconnected, DnsResolved, PollRan, PollRan, ConnectCalled]
    ensures PollsSinceConnect(Run(steps).deeds[..11]) == 3
  {
    hide PollsSinceConnect, Next, Run;
    var first := FirstConnect();
    var refused := first + [BrokerStep(false)];
    var left := refused + [PollAt(4000)];
    var resolved := left + [DnsStep(true)];
    var waiting := resolved + [PollAt(5000)];
    steps := waiting + [PollAt(6000)];
    RunSnoc(first, BrokerStep(false));
    RunSnoc(refused, PollAt(4000));
    RunSnoc(left, DnsStep(true));
    RunSnoc(resolved, PollAt(5000));
    RunSnoc(waiting, PollAt(6000));
    SecondRound(Run(first));
    ThreePolls(Run(steps).deeds[..11]);
  }

  /** From one connect call to the next. */
  lemma SecondRound(m: Mqtt)
    requires m.state.Connecting? && m.allow && m.lastPoll == 3000 && !m.processNow && m.tick == 5
    ensures var resolved := Next(Next(Next(m, BrokerStep(false)), PollAt(4000)), DnsStep(true));
            Next(Next(resolved, PollAt(5000)), PollAt(6000)).deeds
            == m.deeds + [PollRan, LeftDisconnected, DnsResolved, PollRan, PollRan, ConnectCalled]
  {
    hide KeepAlive, Tick, Sub32;
    SmallTicks();
  }

  lemma SmallTicks()
    ensures Tick(4000) == 4000 && Tick(5000) == 5000 && Tick(6000) == 6000 && Sub32(4000, 3000) == 1000
    ensures Sub32(6000, 5000) == 1000
  {
  }

  /** Power-up to the first connect call. */
  lemma FirstConnect() returns (steps: seq<Step>)
    ensures Run(steps).deeds == [PollRan, LeftDisconnected, DnsResolved, PollRan, PollRan, ConnectCalled]
    ensures var m := Run(steps);
            m.state.Connecting? && m.allow && m.lastPoll == 3000 && !m.processNow && m.tick == 5
  {
    var a, b := [PollAt(1000)], [PollAt(1000)] + [DnsStep(true)];
    assert Run([]) == Initial() && [] + a == a;
    RunSnoc([], PollAt(1000));
    RunSnoc(a, DnsStep(true));
    var c := b + [PollAt(2000)];
    RunSnoc(b, PollAt(2000));
    RunSnoc(c, PollAt(3000));
    steps := c + [PollAt(3000)];
  }

  lemma ThreePolls(deeds: seq<Deed>)
    requires deeds == [PollRan, LeftDisconnected, DnsResolved, PollRan, PollRan, ConnectCalled,
                       PollRan, LeftDisconnected, DnsResolved, PollRan, PollRan]
    ensures PollsSinceConnect(deeds) == 3
  {
    assert PollsSinceConnect(deeds[..6]) == 0;
    assert deeds[..7][..6] == deeds[..6] && PollsSinceConnect(deeds[..7]) == 1;
    assert deeds[..8][..7] == deeds[..7] && PollsSinceConnect(deeds[..8]) == 1;
    assert deeds[..9][..8] == deeds[..8] && PollsSinceConnect(deeds[..9]) == 1;
    assert deeds[..10][..9] == deeds[..9] && PollsSinceConnect(deeds[..10]) == 2;
    assert deeds[..11][..10] == deeds[..10] && deeds[..11] == deeds;
  }

  /** The periodic subscribe is not wrap-safe. With a base from the same turn of the tick counter
      it goes out exactly at the polls where the period has passed if and only if the end of the
      32-bit period lies in that turn too and, should the period in milliseconds not fit 32 bits,
      what is left of it has not passed either. A period that ends beyond the turn is due at
      every poll. */
  lemma SubscribeGateIff(last: nat, now: nat, period: Word)
    requires last <= now < last + TICKS && Tick(last) <= Tick(now)
    ensures var l, t, whole := Tick(last), Tick(now), period * 1000;
            var p := whole % TICKS;
            && ((SubscribeDue(l, t, period) <==> now - last >= whole)
                <==> l + p < TICKS && (whole < TICKS || now - last < p))
            && (l + p >= TICKS ==> SubscribeDue(l, t, period))
  {
    var l, t := Tick(last), Tick(now);
    var p := period * 1000 % TICKS;
    SameTurn(last, now);
    PeriodEnd(l, p);
  }

  lemma SameTurn(last: nat, now: nat)
    requires last <= now < last + TICKS && Tick(last) <= Tick(now)
    ensures now - last == Tick(now) - Tick(last)
  {
    assert now / TICKS == last / TICKS;
  }

  lemma PeriodEnd(l: Word, p: Word)
    ensures Add32(l, p) == if l + p < TICKS then l + p else l + p - TICKS
  {
  }

  /** A base stored as 0 or ahead of a wrapped tick is replaced by the tick itself; then a request
      is due at once exactly for a period of 0, or a multiple of 2^32 ms, and for one that ends
      beyond the turn. */
  lemma FreshBaseIff(now: nat, period: Word)
    ensures var t, p := Tick(now), period * 1000 % TICKS;
            SubscribeDue(t, t, period) <==> p == 0 || t + p >= TICKS
  {
    PeriodEnd(Tick(now), period * 1000 % TICKS);
  }

  /** A base 64 seconds before the wrap: one second later the 120-second gate is open. */
  lemma SubscribeGateFailsAtWrap()
    ensures var last: nat, now: nat := 4294903296, 4294904296;
            SubscribeDue(Tick(last), Tick(now), 120) && now - last == 1000
  {
  }

  /** The statics of mqtt_client.c and the functions that update them. */
  class MqttTask {
    var state: MqttState
    var tick: nat
    var dnsResolved: bool
    var processNow: bool
    var allow: bool
    var lastPoll: Word
    var lastSubscribe: Word
    var lastHeartBeat: Word
    var subscribeErrors: nat

    ghost var deeds: seq<Deed>
    ghost var polledAt: nat
    ghost var beatAt: nat

    ghost function View(): Mqtt
      reads this
    {
      Mqtt(state, tick, dnsResolved, processNow, allow, lastPoll, lastSubscribe, lastHeartBeat,
           subscribeErrors, deeds, polledAt, beatAt)
    }

    constructor ()
      ensures View() == Initial()
    {
      state, tick, dnsResolved, processNow, allow := Disconnected, 0, false, false, false;
      lastPoll, lastSubscribe, lastHeartBeat, subscribeErrors, deeds := 0, 0, 0, 0, [];
      polledAt, beatAt := 0, 0;
    }

    /** mqtt_client_polling_task. */
    method PollingTask(env: PollEnv)
      modifies this
      ensures View() == Poll(old(View()), env)
    {
      hide Drive, Gate, Tick, Sub32;
      if Sub32(Tick(env.now), lastPoll) < 1000 && !processNow {
        return;
      }
      processNow := false;
      lastPoll := Tick(env.now);
      polledAt := env.now;
      LookAtLink(env);
      if allow {
        tick := (tick + 1) % 256;
        deeds := deeds + [PollRan];
        Switch(env);
      } else {
        tick := 4;
      }
    }

    /** The PPP link in front of the switch. */
    method LookAtLink(env: PollEnv)
      modifies this
      ensures View() == Gate(old(View()), env)
    {
      if env.pppUp {
        if !allow {
          allow := true;
          if env.connectedFirst {
            state := Disconnected;
          }
        }
      } else {
        allow := false;
      }
    }

    /** The switch of the poll function. */
    method Switch(env: PollEnv)
      modifies this
      ensures View() == Drive(old(View()), env)
    {
      hide KeepAlive;
      match state {
        case Disconnected =>
          dnsResolved := false;
          state := ResolveHostname;
          tick := 4;
          deeds := deeds + [LeftDisconnected];
        case ResolveHostname =>
          if !dnsResolved {
            if tick >= 5 {
              tick := 0;
              deeds := deeds + [DnsAsked];
              if env.dns.DnsOk? {
                dnsResolved := true;
                deeds := deeds + [DnsResolved];
              }
            }
          } else {
            tick := 9;
            state := Connecting;
          }
        case Connecting =>
          if tick >= 10 {
            deeds := deeds + [ConnectCalled];
            tick := if env.connectOk then 5 else 0;
          }
        case Connected => StayConnected(env);
      }
    }

    method StayConnected(env: PollEnv)
      modifies this
      ensures View() == KeepAlive(old(View()), env)
    {
      hide SubscribeDue, Tick, Sub32;
      var now := Tick(env.now);
      if lastSubscribe == 0 || lastSubscribe > now {
        lastSubscribe := now;
      }
      if env.connectedThen {
        if SubscribeDue(lastSubscribe, now, env.period) {
          lastSubscribe := now;
          deeds := deeds + [SubscribeSent];
        }
        if Sub32(now, lastHeartBeat) >= 30000 {
          lastHeartBeat := now;
          beatAt := env.now;
          deeds := deeds + [HeartBeatSent];
        }
      } else {
        state := Disconnected;
      }
    }

    /** mqtt_client_connection_callback. */
    method ConnectionResult(accepted: bool)
      modifies this
      ensures View() == ConnectionCallback(old(View()), accepted)
    {
      if accepted {
        deeds := (if state.Disconnected? then deeds + [LeftDisconnected] else deeds) + [Accepted];
        processNow := true;
        state := Connected;
      } else {
        state := Disconnected;
      }
    }

    /** mqtt_dns_found. */
    method DnsFound(found: bool)
      modifies this
      ensures View() == DnsCallback(old(View()), found)
    {
      if found {
        dnsResolved := true;
        processNow := true;
        deeds := deeds + [DnsResolved];
      } else {
        dnsResolved := false;
      }
    }

    /** mqtt_sub_request_cb. */
    method SubscribeResult(ok: bool)
      modifies this
      ensures View() == SubscribeCallback(old(View()), ok)
    {
      if !ok {
        subscribeErrors := subscribeErrors + 1;
        if subscribeErrors >= 5 {
          subscribeErrors := 0;
          state := Disconnected;
        }
      } else {
        subscribeErrors := 0;
        processNow := true;
      }
    }
  }
}
