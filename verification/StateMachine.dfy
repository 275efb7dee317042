// state/state_machine.py: the lifecycle of the bot and its cooldown states.

module Lifecycle {
  import opened Types
  import opened Rounding

  datatype BotState =
    Init | Idle | Running | CooldownFill | CooldownCancel | CooldownSelfTrade | CooldownPriceSpike
    | Emergency | Shutdown | Reconnect

  datatype SubState = Placing | Waiting | CancellingStale | Refreshing

  datatype Machine = Machine(state: BotState, sub: Option<SubState>, until: real)

  const InitialMachine := Machine(Init, None, 0.0)

  predicate IsCooldown(s: BotState) {
    s in {CooldownFill, CooldownCancel, CooldownSelfTrade, CooldownPriceSpike}
  }

  /** The table of legal transitions. */
  function Targets(s: BotState): set<BotState> {
    match s
    case Init => {Idle}
    case Idle => {Running, Emergency, Shutdown}
    case Running =>
      {Idle, CooldownFill, CooldownCancel, CooldownSelfTrade, CooldownPriceSpike, Emergency, Reconnect, Shutdown}
    case CooldownFill | CooldownCancel | CooldownSelfTrade | CooldownPriceSpike => {Idle, Running, Emergency, Shutdown}
    case Emergency => {Idle, Shutdown}
    case Shutdown => {}
    case Reconnect => {Idle, Running, Emergency, Shutdown}
  }

  /** `transition`; None stands for IllegalTransition. */
  function Moved(m: Machine, target: BotState): Option<Machine> {
    if m.state == target then Some(m)
    else if target !in Targets(m.state) then None
    else Some(Machine(target, if target == Running then m.sub else None, if IsCooldown(target) then m.until else 0.0))
  }

  /** `_enter_cooldown`, with the clock read after the transition. */
  function Cooled(m: Machine, kind: BotState, ms: int, now: real): Option<Machine> {
    if m.state in {Emergency, Shutdown} then Some(m)
    else
      match Moved(m, kind)
      case None => None
      case Some(t) => Some(t.(until := now + ms as real / 1000.0))
  }

  function WithSub(m: Machine, sub: SubState): Machine {
    if m.state == Running then m.(sub := Some(sub)) else m
  }

  function RemainingMs(m: Machine, now: real): nat {
    if m.until <= 0.0 then 0 else WholeMs(m.until - now)
  }

  predicate CanPlace(m: Machine, now: real) {
    if m.state in {Emergency, Shutdown} then false
    else if IsCooldown(m.state) then RemainingMs(m, now) <= 0
    else m.state in {Idle, Running}
  }

  // ── What the table guarantees ──

  datatype Request =
    Move(target: BotState) | Cool(kind: BotState, ms: int, now: real) | Sub(sub: SubState)

  /** Serves a request; an illegal one changes nothing. */
  function Served(m: Machine, r: Request): Machine {
    match r
    case Move(target) => (match Moved(m, target) case None => m case Some(t) => t)
    case Cool(kind, ms, now) => (match Cooled(m, kind, ms, now) case None => m case Some(t) => t)
    case Sub(sub) => WithSub(m, sub)
  }

  function ServedAll(m: Machine, rs: seq<Request>): Machine {
    if rs == [] then m else Served(ServedAll(m, rs[..|rs| - 1]), rs[|rs| - 1])
  }

  ghost predicate OnlyCooldowns(rs: seq<Request>) {
    forall i :: 0 <= i < |rs| && rs[i].Cool? ==> IsCooldown(rs[i].kind)
  }

  /** Where each state can be entered from: IDLE from all but SHUTDOWN, RUNNING from IDLE, RECONNECT and the
      cooldowns, these and RECONNECT only from RUNNING, the stops from where the bot has been started. */
  ghost predicate EnteredFrom(target: BotState, from: BotState) {
    match target
    case Init => false
    case Idle => from != Shutdown
    case Running => from in {Idle, Reconnect, CooldownFill, CooldownCancel, CooldownSelfTrade, CooldownPriceSpike}
    case Emergency => from != Init && from != Shutdown
    case Shutdown => from != Init
    case _ => from == Running
  }

  /** A move is legal exactly when it stays or enters its target from where it can be; a real one keeps the
      sub-state only into RUNNING and the deadline only into a cooldown. */
  lemma MovesAre(m: Machine, target: BotState)
    ensures Moved(m, target).Some? <==> target == m.state || EnteredFrom(target, m.state)
    ensures target == m.state ==> Moved(m, target) == Some(m)
    ensures target != m.state && Moved(m, target).Some? ==>
      var t := Moved(m, target).value;
      && t.state == target && t.sub == (if target == Running then m.sub else None)
      && t.until == if target in {CooldownFill, CooldownCancel, CooldownSelfTrade, CooldownPriceSpike}
                    then m.until else 0.0
  {
  }

  /** Only a running bot has a sub-state, and only a cooldown state has a deadline. */
  predicate Tidy(m: Machine) {
    (m.sub.Some? ==> m.state == Running) && (m.until != 0.0 ==> IsCooldown(m.state))
  }

  lemma {:induction false} StaysTidy(rs: seq<Request>)
    requires OnlyCooldowns(rs)
    ensures Tidy(ServedAll(InitialMachine, rs))
  {
    if rs != [] {
      var n := |rs| - 1;
      StaysTidy(rs[..n]);
      assert rs[n].Cool? ==> IsCooldown(rs[n].kind);
    }
  }

  /** Nothing leaves SHUTDOWN, and EMERGENCY is only left by an explicit move to IDLE or SHUTDOWN. */
  lemma {:induction false} StoppedStates(m: Machine, rs: seq<Request>)
    requires m.state in {Emergency, Shutdown} && OnlyCooldowns(rs)
    ensures m.state == Shutdown ==> ServedAll(m, rs) == m
    ensures m.state == Emergency && Move(Idle) !in rs && Move(Shutdown) !in rs ==> ServedAll(m, rs) == m
  {
    if rs != [] {
      var n := |rs| - 1;
      StoppedStates(m, rs[..n]);
      assert rs == rs[..n] + [rs[n]];
      assert rs[n].Cool? ==> IsCooldown(rs[n].kind);
    }
  }

  /** From after the first i requests on, the machine has been running. */
  ghost predicate RunningSince(rs: seq<Request>, i: nat)
    requires i <= |rs|
  {
    ServedAll(InitialMachine, rs).state == Running && (i < |rs| ==> RunningSince(rs[..|rs| - 1], i))
  }

  /** Request i set sub-state x while running, and since then the machine has stayed running and no other
      sub-state was set. */
  ghost predicate LatestWhileRunning(rs: seq<Request>, i: nat, x: SubState) {
    && i < |rs| && rs[i] == Sub(x)
    && RunningSince(rs, i)
    && forall j :: i < j < |rs| ==> !rs[j].Sub?
  }

  /** In every run the sub-state is the one last set since RUNNING was last entered; requests made in
      any other state leave no trace. */
  lemma {:induction false} SubStateMeans(rs: seq<Request>, x: SubState)
    requires OnlyCooldowns(rs)
    ensures ServedAll(InitialMachine, rs).sub == Some(x) <==> exists i: nat :: LatestWhileRunning(rs, i, x)
  {
    if rs != [] {
      var n := |rs| - 1;
      SubStateMeans(rs[..n], x);
      StaysTidy(rs[..n]);
      StaysTidy(rs);
      assert rs[n].Cool? ==> IsCooldown(rs[n].kind);
      forall i: nat | i < n
        ensures LatestWhileRunning(rs, i, x) <==>
                LatestWhileRunning(rs[..n], i, x) && !rs[n].Sub? && ServedAll(InitialMachine, rs).state == Running
      {
        assert forall j :: 0 <= j < n ==> rs[..n][j] == rs[j];
      }
      var was, m := ServedAll(InitialMachine, rs[..n]), ServedAll(InitialMachine, rs);
      SubStep(was, rs[n], x);
      hide Served, ServedAll;
      assert RunningSince(rs[..n], n) <==> was.state == Running;
      assert LatestWhileRunning(rs, n, x) <==> rs[n] == Sub(x) && was.state == Running && m.state == Running;
      if i: nat :| LatestWhileRunning(rs[..n], i, x) {
        assert i < n;
      }
    }
  }

  lemma SubStep(was: Machine, r: Request, x: SubState)
    requires Tidy(was) && Tidy(Served(was, r)) && (r.Cool? ==> IsCooldown(r.kind))
    ensures var m := Served(was, r);
      m.sub == Some(x) <==>
        (r == Sub(x) && was.state == Running && m.state == Running)
        || (!r.Sub? && was.sub == Some(x) && m.state == Running)
  {
  }

  /** A cooldown can only start while running, or restart in its own state; it is ignored when
      stopped, and illegal everywhere else. */
  lemma CooldownIsLegalWhen(m: Machine, kind: BotState, ms: int, now: real)
    requires IsCooldown(kind)
    ensures Cooled(m, kind, ms, now).Some? <==> m.state in {Running, kind, Emergency, Shutdown}
    ensures m.state in {Running, kind} ==>
              Cooled(m, kind, ms, now)
              == Some(Machine(kind, if m.state == kind then m.sub else None, now + ms as real / 1000.0))
    ensures m.state in {Emergency, Shutdown} ==> Cooled(m, kind, ms, now) == Some(m)
  {
  }

  /** Outside of the cooldowns placing is for IDLE and RUNNING; a cooldown without a deadline is over. */
  lemma PlacingStates(m: Machine, now: real)
    ensures m.state !in {CooldownFill, CooldownCancel, CooldownSelfTrade, CooldownPriceSpike} ==>
      (CanPlace(m, now) <==> m.state == Idle || m.state == Running)
    ensures m.state in {CooldownFill, CooldownCancel, CooldownSelfTrade, CooldownPriceSpike} && m.until <= 0.0 ==>
      CanPlace(m, now)
  {
  }

  /** Placing resumes exactly when less than a millisecond of the cooldown is left. */
  lemma CooldownGate(m: Machine, now: real)
    requires IsCooldown(m.state) && 0.0 < m.until
    ensures CanPlace(m, now) <==> m.until < now + 0.001
  {
    var ms := WholeMs(m.until - now);
    var left := (m.until - now) * 1000.0;
    if 0.0 < m.until - now {
      assert ms as real <= left < (ms + 1) as real;
      WholeBelowOne(ms, left);
    }
  }

  lemma WholeBelowOne(ms: nat, left: real)
    requires ms as real <= left < (ms + 1) as real
    ensures ms <= 0 <==> left < 1.0
  {
  }

  lemma GateStaysOpen(m: Machine, now: real, later: real)
    requires CanPlace(m, now) && now <= later
    ensures CanPlace(m, later)
  {
    if IsCooldown(m.state) && 0.0 < m.until {
      CooldownGate(m, now);
      CooldownGate(m, later);
    }
  }

  class LiveStateMachine {
    var state: BotState
    var sub: Option<SubState>
    var until: real

    ghost function Value(): Machine
      reads this
    {
      Machine(state, sub, until)
    }

    constructor ()
      ensures Value() == InitialMachine
    {
      state, sub, until := Init, None, 0.0;
    }

    /** Whether the move is legal; an illegal one raises and changes nothing. */
    method Transition(target: BotState) returns (legal: bool)
      modifies this
      ensures legal <==> Moved(old(Value()), target).Some?
      ensures Value() == if legal then Moved(old(Value()), target).value else old(Value())
    {
      if state == target {
        return true;
      }
      if target !in Targets(state) {
        return false;
      }
      state := target;
      if target != Running {
        sub := None;
      }
      if !IsCooldown(target) {
        until := 0.0;
      }
      legal := true;
    }

    method EnterCooldown(kind: BotState, ms: int, now: real) returns (legal: bool)
      modifies this
      ensures legal <==> Cooled(old(Value()), kind, ms, now).Some?
      ensures Value() == if legal then Cooled(old(Value()), kind, ms, now).value else old(Value())
    {
      if state == Emergency || state == Shutdown {
        return true;
      }
      legal := Transition(kind);
      if legal {
        until := now + ms as real / 1000.0;
      }
    }

    method SetSubState(target: SubState)
      modifies this`sub
      ensures Value() == WithSub(old(Value()), target)
    {
      if state == Running {
        sub := Some(target);
      }
    }

    method CooldownRemainingMs(now: real) returns (ms: nat)
      ensures ms == RemainingMs(Value(), now)
    {
      if until <= 0.0 {
        return 0;
      }
      ms := WholeMs(until - now);
    }

    /** In a cooldown with a deadline placing opens when less than a millisecond is left, and then stays
        open; otherwise it is a matter of the state alone. */
    method MayPlace(now: real) returns (may: bool)
      ensures may <==> CanPlace(Value(), now)
      ensures IsCooldown(state) && 0.0 < until ==> (may <==> until < now + 0.001)
      ensures may ==> forall later: real :: now <= later ==> CanPlace(Value(), later)
      ensures !IsCooldown(state) ==> (may <==> state in {Idle, Running})
    {
      hide WholeMs;
      forall later: real | now <= later && CanPlace(Value(), now)
        ensures CanPlace(Value(), later)
      {
        GateStaysOpen(Value(), now, later);
      }
      if IsCooldown(state) && 0.0 < until {
        CooldownGate(Value(), now);
      }
      if state == Emergency || state == Shutdown {
        return false;
      }
      if IsCooldown(state) {
        var ms := CooldownRemainingMs(now);
        return ms <= 0;
      }
      may := state == Idle || state == Running;
    }
  }
}
