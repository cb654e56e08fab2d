/** Any number of callers racing on one channel cell, over channels that may die at any step. A caller
    loads the held channel and reads its status in two steps, takes the opening lock, looks again, and
    opens and stores a channel; a cancelled caller gives up wherever it waits and lets go of the lock. */
module ChannelRace {
  import opened Wrappers

  type Id = nat

  /** Where a caller of `get` stands. `second` tells the look under the lock from the one before it. */
  datatype Pc =
    | Loaded(saw: Option<Id>, second: bool)
    | AwaitsLock
    | HasLock
    | Opening
    | Opened(channel: Id)

  /** What a call ended with, and whether a channel it got from a look was the held one and live. */
  datatype Outcome =
    | Found(channel: Id, heldThen: bool, liveThen: bool)
    | Made(channel: Id)
    | Failed

  datatype State = State(
    held: Option<Id>,
    lock: Option<Id>,
    callers: map<Id, Pc>,
    created: set<Id>,
    dead: set<Id>,
    outcomes: seq<Outcome>)
  {
    predicate Live(channel: Id) {
      channel in created && channel !in dead
    }
  }

  /** A cell that starts empty, or holding the channel opened with the connection. */
  function Init(holding: Option<Id>): State {
    State(holding, None, map[], if holding.Some? then {holding.value} else {}, {}, [])
  }

  datatype Event =
    | Load(caller: Id)
    | Status(caller: Id)
    | Acquire(caller: Id)
    | LoadAgain(caller: Id)
    | OpenDone(caller: Id, result: Option<Id>)
    | Store(caller: Id)
    | Cancel(caller: Id)
    | Die(channel: Id)

  predicate At(s: State, caller: Id, pc: Pc) {
    caller in s.callers && s.callers[caller] == pc
  }

  predicate Enabled(s: State, e: Event) {
    match e
    case Load(caller) => caller !in s.callers
    case Status(caller) => caller in s.callers && s.callers[caller].Loaded?
    case Acquire(caller) => At(s, caller, AwaitsLock) && s.lock == None
    case LoadAgain(caller) => At(s, caller, HasLock)
    case OpenDone(caller, result) => At(s, caller, Opening) && (result.Some? ==> result.value !in s.created)
    case Store(caller) => caller in s.callers && s.callers[caller].Opened?
    // Nothing is awaited between the opening and the store, so no caller is cancelled there.
    case Cancel(caller) => caller in s.callers && !s.callers[caller].Opened?
    case Die(channel) => s.Live(channel)
  }

  function Goes(s: State, caller: Id, pc: Pc): State {
    s.(callers := s.callers[caller := pc])
  }

  /** The caller is done, and with it its hold on the lock. */
  function Leaves(s: State, caller: Id): State {
    s.(callers := s.callers - {caller}, lock := if s.lock == Some(caller) then None else s.lock)
  }

  function Ends(s: State, caller: Id, outcome: Outcome): State {
    Leaves(s.(outcomes := s.outcomes + [outcome]), caller)
  }

  function Apply(s: State, e: Event): State
    requires Enabled(s, e)
  {
    match e
    case Load(caller) => Goes(s, caller, Loaded(s.held, false))
    case Status(caller) =>
      var pc := s.callers[caller];
      if pc.saw.Some? && s.Live(pc.saw.value) then
        Ends(s, caller, Found(pc.saw.value, s.held == pc.saw, s.Live(pc.saw.value)))
      else Goes(s, caller, if pc.second then Opening else AwaitsLock)
    case Acquire(caller) => Goes(s.(lock := Some(caller)), caller, HasLock)
    case LoadAgain(caller) => Goes(s, caller, Loaded(s.held, true))
    case OpenDone(caller, None) => Ends(s, caller, Failed)
    case OpenDone(caller, Some(channel)) => Goes(s.(created := s.created + {channel}), caller, Opened(channel))
    case Store(caller) =>
      var channel := s.callers[caller].channel;
      Ends(s.(held := Some(channel)), caller, Made(channel))
    case Cancel(caller) => Leaves(s, caller)
    case Die(channel) => s.(dead := s.dead + {channel})
  }

  // What every step keeps.

  predicate Inside(pc: Pc) {
    !pc.AwaitsLock? && (pc.Loaded? ==> pc.second)
  }

  /** Past the look under the lock: the caller is opening a channel. */
  predicate Opens(pc: Pc) {
    pc.Opening? || pc.Opened?
  }

  predicate HeldIsLive(s: State) {
    s.held.Some? && s.Live(s.held.value)
  }

  ghost predicate Callers(s: State) {
    forall t | t in s.callers ::
      && (Inside(s.callers[t]) <==> s.lock == Some(t))
      // What a look loaded is still held, or has died since.
      && (s.callers[t].Loaded? ==>
          s.callers[t].saw == s.held || s.callers[t].saw.None? || s.callers[t].saw.value in s.dead)
      && (s.callers[t].Loaded? && s.callers[t].second ==> s.callers[t].saw == s.held)
      && (Opens(s.callers[t]) ==> !HeldIsLive(s))
      && (s.callers[t].Opened? ==> s.callers[t].channel in s.created)
  }

  ghost predicate Channels(s: State) {
    && s.dead <= s.created
    && (s.held.Some? ==> s.held.value in s.created)
    && (s.lock.Some? ==> s.lock.value in s.callers)
    && (forall c: Id | s.Live(c) :: s.held == Some(c) || exists t: Id :: At(s, t, Opened(c)))
  }

  ghost predicate Outcomes(s: State) {
    forall i | 0 <= i < |s.outcomes| :: s.outcomes[i].Found? ==> s.outcomes[i].heldThen && s.outcomes[i].liveThen
  }

  ghost predicate Inv(s: State) {
    Callers(s) && Channels(s) && Outcomes(s)
  }

  lemma CallersKept(s: State, e: Event)
    requires Inv(s) && Enabled(s, e)
    ensures Callers(Apply(s, e))
  {
  }

  lemma ChannelsKept(s: State, e: Event)
    requires Inv(s) && Enabled(s, e)
    ensures Channels(Apply(s, e))
  {
    var t := Apply(s, e);
    forall c: Id | t.Live(c) ensures t.held == Some(c) || exists k: Id :: At(t, k, Opened(c)) {
      if s.Live(c) && s.held != Some(c) {
        var k: Id :| At(s, k, Opened(c));
        assert t.held == Some(c) || At(t, k, Opened(c));
      } else if e.OpenDone? && e.result == Some(c) {
        assert At(t, e.caller, Opened(c));
      }
    }
  }

  lemma StepKeeps(s: State, e: Event)
    requires Inv(s) && Enabled(s, e)
    ensures Inv(Apply(s, e))
  {
    CallersKept(s, e);
    ChannelsKept(s, e);
  }

  // Every run.

  function Step(s: State, e: Event): State {
    if Enabled(s, e) then Apply(s, e) else s
  }

  /** The state after `events`, whatever they are: one that cannot happen where it stands does not. */
  function After(holding: Option<Id>, events: seq<Event>): State {
    if events == [] then Init(holding)
    else Step(After(holding, events[..|events| - 1]), events[|events| - 1])
  }

  lemma {:induction false} RunKeeps(holding: Option<Id>, events: seq<Event>)
    ensures Inv(After(holding, events))
  {
    if events != [] {
      RunKeeps(holding, events[..|events| - 1]);
      if Enabled(After(holding, events[..|events| - 1]), events[|events| - 1]) {
        StepKeeps(After(holding, events[..|events| - 1]), events[|events| - 1]);
      }
    }
  }

  /** At most one opening is under way, whoever races. */
  lemma OneOpener(holding: Option<Id>, events: seq<Event>, t: Id, k: Id)
    requires var s := After(holding, events);
             t in s.callers && k in s.callers && Opens(s.callers[t]) && Opens(s.callers[k])
    ensures t == k
  {
    RunKeeps(holding, events);
  }

  /** A step that replaces a live channel does not exist. */
  lemma LiveIsNeverReplaced(holding: Option<Id>, events: seq<Event>, e: Event)
    requires HeldIsLive(After(holding, events)) && !(e == Die(After(holding, events).held.value))
    ensures Step(After(holding, events), e).held == After(holding, events).held
    ensures HeldIsLive(Step(After(holding, events), e))
  {
    RunKeeps(holding, events);
  }

  /** A channel a call returns without opening it was, at that moment, live and the one the cell held:
      a load that went stale is never returned. */
  lemma FoundIsHeldAndLive(holding: Option<Id>, events: seq<Event>, i: nat)
    requires i < |After(holding, events).outcomes| && After(holding, events).outcomes[i].Found?
    ensures After(holding, events).outcomes[i].heldThen && After(holding, events).outcomes[i].liveThen
  {
    RunKeeps(holding, events);
  }

  // A caller that nobody disturbs.

  /** A caller that finds a live channel held returns it and leaves everything else as it was. */
  lemma LiveIsFound(holding: Option<Id>, events: seq<Event>, caller: Id)
    requires var s := After(holding, events); caller !in s.callers && HeldIsLive(s)
    ensures var s := After(holding, events);
            Step(Step(s, Load(caller)), Status(caller)) ==
            s.(outcomes := s.outcomes + [Found(s.held.value, true, true)])
  {
    RunKeeps(holding, events);
    var s := After(holding, events);
    assert s.callers[caller := Loaded(s.held, false)] - {caller} == s.callers;
  }

  /** Up to the opening, a caller that finds no live channel goes alone under the lock. */
  function UnderLock(s: State, caller: Id): State {
    Step(Step(Step(Step(Step(s, Load(caller)), Status(caller)), Acquire(caller)), LoadAgain(caller)), Status(caller))
  }

  lemma GoesUnderLock(s: State, caller: Id)
    requires caller !in s.callers && s.lock == None && !HeldIsLive(s)
    ensures UnderLock(s, caller) == s.(callers := s.callers[caller := Opening], lock := Some(caller))
  {
    var a := Step(s, Load(caller));
    var b := Step(a, Status(caller));
    assert b == s.(callers := s.callers[caller := AwaitsLock]);
    var c := Step(b, Acquire(caller));
    assert c == s.(callers := s.callers[caller := HasLock], lock := Some(caller));
    var d := Step(c, LoadAgain(caller));
    assert d == s.(callers := s.callers[caller := Loaded(s.held, true)], lock := Some(caller));
  }

  /** Where there is none, it opens one, stores it for everybody, returns it and lets go of the lock;
      and where the server opens none, it fails, lets go of the lock and changes nothing else. */
  lemma DeadIsReplaced(holding: Option<Id>, events: seq<Event>, caller: Id, channel: Id)
    requires var s := After(holding, events);
             caller !in s.callers && s.lock == None && !HeldIsLive(s) && channel !in s.created
    ensures var s := After(holding, events);
            var made := Step(Step(UnderLock(s, caller), OpenDone(caller, Some(channel))), Store(caller));
            && HeldIsLive(made) && made.held == Some(channel) && made.lock == None && made.callers == s.callers
            && made.outcomes == s.outcomes + [Made(channel)]
    ensures var s := After(holding, events);
            Step(UnderLock(s, caller), OpenDone(caller, None)) == s.(outcomes := s.outcomes + [Failed])
  {
    RunKeeps(holding, events);
    var s := After(holding, events);
    GoesUnderLock(s, caller);
    assert s.callers[caller := Opening] - {caller} == s.callers;
    assert s.callers[caller := Opened(channel)] - {caller} == s.callers;
    assert s.callers[caller := Opening][caller := Opened(channel)] == s.callers[caller := Opened(channel)];
  }

  /** A call fails only where the server opened no channel for it. */
  lemma {:induction false} FailsOnlyWhenRefused(holding: Option<Id>, events: seq<Event>)
    ensures Failed in After(holding, events).outcomes ==> exists t :: OpenDone(t, None) in events
  {
    if events != [] {
      var before, last := events[..|events| - 1], events[|events| - 1];
      FailsOnlyWhenRefused(holding, before);
      assert events == before + [last];
      assert Failed in After(holding, before).outcomes ==> exists t :: OpenDone(t, None) in before;
      if Failed in After(holding, events).outcomes && Failed !in After(holding, before).outcomes {
        assert last.OpenDone? && last.result.None?;
      }
    }
  }

  /** The channels opened outnumber those that died by at most one. */
  lemma OneMoreThanDied(holding: Option<Id>, events: seq<Event>)
    ensures |After(holding, events).created| <= |After(holding, events).dead| + 1
  {
    RunKeeps(holding, events);
    var s := After(holding, events);
    var alive := s.created - s.dead;
    if alive != {} {
      var c :| c in alive;
      assert s.Live(c);
      forall k | k in alive ensures k == c {
        assert s.Live(k);
      }
      assert alive == {c};
    }
    assert s.created == s.dead + alive;
  }
}
