/** What shutdown leaves running when the connection is between two lives: it waits for the
    connection to come back, so as to close it, or to be given up. */
module Cleanup {
  import opened Wrappers

  /** The connection is down, up for the `life`-th time, or gone for good. */
  datatype Status = Down | Up(life: nat) | Gone

  /** How the server answered a close. */
  datatype Answer = Accepted | AlreadyClosing | Refused

  /** Where the cleanup stands; `Done` holds the answer to the close it ended with, if it ended with one. */
  datatype Pc =
    | AskFailed
    | AskUp
    | Closing(life: nat)
    | PollWatch
    | Waiting
    | Done(last: Option<Answer>)

  /** `unannounced` says that the connection came up and the listener has yet to bump the watch. */
  datatype State = State(
    status: Status,
    lives: nat,
    unannounced: bool,
    terminal: bool,
    version: nat,
    seen: nat,
    tried: set<nat>,
    pc: Pc)

  predicate Initial(s: State) {
    && s.seen == s.version && s.pc.AskFailed? && s.tried == {}
    && (s.status.Up? ==> s.status.life < s.lives)
  }

  datatype Event =
    | Own(answer: Answer)
    | ComesUp
    | Announce
    | GoesDown
    | GoesForGood
    | GiveUp

  predicate CanOwn(s: State) {
    match s.pc
    case Waiting => s.version != s.seen
    case Done(_) => false
    case _ => true
  }

  /** The cleanup's own next step; a close is answered in whatever way. */
  function Advance(s: State, answer: Answer): State
    requires CanOwn(s)
  {
    match s.pc
    case AskFailed => s.(pc := if s.terminal || s.status.Gone? then Done(None) else AskUp)
    case AskUp => s.(pc := if s.status.Up? then Closing(s.status.life) else PollWatch)
    case Closing(life) =>
      var asked := s.(tried := s.tried + {life});
      asked.(pc := if answer.Refused? then PollWatch else Done(Some(answer)))
    case PollWatch => if s.version != s.seen then s.(seen := s.version, pc := AskFailed) else s.(pc := Waiting)
    case Waiting => s.(pc := PollWatch)
  }

  predicate Enabled(s: State, e: Event) {
    match e
    case Own(_) => CanOwn(s)
    case ComesUp => s.status.Down?
    case Announce => s.unannounced
    case GoesDown => s.status.Up?
    case GoesForGood => !s.status.Gone?
    case GiveUp => true
  }

  function Apply(s: State, e: Event): State
    requires Enabled(s, e)
  {
    match e
    case Own(answer) => Advance(s, answer)
    case ComesUp => s.(status := Up(s.lives), lives := s.lives + 1, unannounced := true)
    case Announce => s.(unannounced := false, version := s.version + 1)
    case GoesDown => s.(status := Down)
    case GoesForGood => s.(status := Gone)
    // The terminal value and its version change together.
    case GiveUp => s.(terminal := true, version := s.version + 1)
  }

  function Step(s: State, e: Event): State {
    if Enabled(s, e) then Apply(s, e) else s
  }

  function After(s: State, events: seq<Event>): State {
    if events == [] then s else Step(After(s, events[..|events| - 1]), events[|events| - 1])
  }

  /** Past its looks at the connection, with no news it has not looked at but what the watch still has. */
  ghost predicate Notified(s: State) {
    && s.seen <= s.version
    && (s.status.Up? ==> s.status.life < s.lives)
    && (s.pc.Closing? ==> s.pc.life < s.lives)
    && (s.terminal && !s.pc.AskFailed? && !s.pc.Done? ==> s.seen < s.version)
    && (s.status.Up? && (s.pc.PollWatch? || s.pc.Waiting? || s.pc.Closing?) && !s.unannounced && s.seen == s.version ==>
          s.status.life in s.tried || s.pc == Closing(s.status.life))
    && (s.pc.Done? && s.pc.last.Some? ==> s.tried != {} && s.pc.last.value in {Accepted, AlreadyClosing})
  }

  lemma NotifiedOwn(s: State, answer: Answer)
    requires Notified(s) && CanOwn(s)
    ensures Notified(Advance(s, answer))
  {
    if s.pc.Closing? {
      assert s.pc.life in Advance(s, answer).tried;
    }
  }

  lemma NotifiedStep(s: State, e: Event)
    requires Notified(s) && Enabled(s, e)
    ensures Notified(Apply(s, e))
  {
    if e.Own? {
      hide Advance;
      NotifiedOwn(s, e.answer);
    }
  }

  lemma {:induction false} AlwaysNotified(s: State, events: seq<Event>)
    requires Initial(s)
    ensures Notified(After(s, events))
  {
    if events != [] {
      AlwaysNotified(s, events[..|events| - 1]);
      hide Notified, Apply, Enabled;
      if Enabled(After(s, events[..|events| - 1]), events[|events| - 1]) {
        NotifiedStep(After(s, events[..|events| - 1]), events[|events| - 1]);
      }
    }
  }

  /** The cleanup never sleeps through what it waits for: asleep with nothing left to read, the connection
      has not been given up, and if it is up and announced, closing this very life of it was tried. */
  lemma SleepsThroughNothing(s: State, events: seq<Event>)
    requires Initial(s) && After(s, events).pc.Waiting? && !CanOwn(After(s, events))
    ensures !After(s, events).terminal
    ensures After(s, events).status.Up? && !After(s, events).unannounced ==>
              After(s, events).status.life in After(s, events).tried
  {
    AlwaysNotified(s, events);
  }

  function Advances(s: State, n: nat, answer: Answer): State
    decreases n
  {
    if n == 0 || !CanOwn(s) then s else Advances(Advance(s, answer), n - 1, answer)
  }

  /** Up with the news out, and this life of the connection not yet tried. */
  predicate Untried(s: State) {
    s.status.Up? && !s.unannounced && s.status.life !in s.tried
  }

  /** No wakeup is lost: once the connection is given up, or is up, announced and untried, a sleeping
      cleanup can move, and with nothing more from outside within four of its own steps has ended, if
      the connection is given up or gone, and is asking for the close otherwise. */
  lemma WakesToClose(s: State, events: seq<Event>, answer: Answer)
    requires Initial(s) && After(s, events).pc.Waiting? && (After(s, events).terminal || Untried(After(s, events)))
    ensures CanOwn(After(s, events))
    ensures var woken := Advances(After(s, events), 4, answer);
            woken.pc == if After(s, events).terminal then Done(None) else Closing(After(s, events).status.life)
  {
    AlwaysNotified(s, events);
    Waking(After(s, events), answer);
  }

  /** An answered close ends the cleanup where the server took it or was at it already, and otherwise
      leaves it asleep until there is news, with this life of the connection tried. */
  lemma ClosesOrWaits(s: State, life: nat, answer: Answer)
    requires s.pc == Closing(life) && s.version == s.seen
    ensures answer != Refused ==> Advances(s, 1, answer).pc == Done(Some(answer))
    ensures answer == Refused ==> Advances(s, 2, answer) == s.(pc := Waiting, tried := s.tried + {life})
  {
    hide Advances;
    Unrolls(s, 1, answer);
    Unrolls(s, 2, answer);
    var a := Advance(s, answer);
    NoStepLeft(a, answer);
    if answer == Refused {
      Unrolls(a, 1, answer);
      NoStepLeft(Advance(a, answer), answer);
    }
  }

  lemma Waking(t: State, answer: Answer)
    requires Notified(t) && t.pc.Waiting? && (t.terminal || Untried(t))
    ensures CanOwn(t)
    ensures Advances(t, 4, answer).pc == if t.terminal then Done(None) else Closing(t.status.life)
  {
    hide Advances;
    var a := Advance(t, answer);
    var b := Advance(a, answer);
    var c := Advance(b, answer);
    Unrolls(t, 4, answer);
    Unrolls(a, 3, answer);
    Unrolls(b, 2, answer);
    Unrolls(c, 1, answer);
    if !t.terminal {
      NoStepLeft(Advance(c, answer), answer);
    }
  }

  lemma Unrolls(s: State, n: nat, answer: Answer)
    requires n > 0
    ensures Advances(s, n, answer) == if CanOwn(s) then Advances(Advance(s, answer), n - 1, answer) else s
  {
  }

  lemma NoStepLeft(s: State, answer: Answer)
    ensures Advances(s, 0, answer) == s
  {
  }

  /** It ends by a close that the server accepted or that was under way already, never by one that was
      refused, or because the connection is gone. */
  lemma {:induction false} EndsForAReason(s: State, events: seq<Event>)
    requires Initial(s)
    ensures After(s, events).pc == Done(None) ==> After(s, events).terminal || After(s, events).status.Gone?
    ensures After(s, events).pc.Done? && After(s, events).pc.last.Some? ==>
              After(s, events).tried != {} && After(s, events).pc.last.value in {Accepted, AlreadyClosing}
  {
    AlwaysNotified(s, events);
    if events != [] {
      EndsForAReason(s, events[..|events| - 1]);
    }
  }
}
