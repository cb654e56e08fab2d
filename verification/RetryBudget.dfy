/** The connector's retry budget and the watch that carries the terminal notice. */
module RetryBudget {
  const WRAP: nat := 0x1_0000_0000_0000_0000

  /** How one attempt to connect ended; the runtime shutting down is an error of its own. */
  datatype Dial = Connected | Refused | RuntimeShutdown

  datatype Budget = Budget(failures: nat, terminal: bool)

  function Step(b: Budget, dial: Dial, retries: nat): Budget {
    match dial
    case Connected => b.(failures := 0)
    case RuntimeShutdown => b.(terminal := true)
    case Refused => Budget((b.failures + 1) % WRAP, b.terminal || b.failures >= retries)
  }

  function After(dials: seq<Dial>, retries: nat): Budget {
    if dials == [] then Budget(0, false) else Step(After(dials[..|dials| - 1], retries), dials[|dials| - 1], retries)
  }

  lemma OneMore(dials: seq<Dial>, dial: Dial, retries: nat)
    ensures After(dials + [dial], retries) == Step(After(dials, retries), dial, retries)
  {
    assert (dials + [dial])[..|dials|] == dials;
  }

  /** The watch: a value and how many times it was announced. */
  class Watch {
    var value: bool
    var version: nat

    constructor ()
      ensures !value && version == 0
    {
      value := false;
      version := 0;
    }

    method SendReplace(value: bool)
      modifies this
      ensures this.value == value && version == old(version) + 1
    {
      this.value := value;
      version := version + 1;
    }

    /** Wakes whoever waits, and leaves the value alone. */
    method SendModify()
      modifies `version
      ensures version == old(version) + 1
    {
      version := version + 1;
    }
  }

  class Connector {
    const retries: nat
    const terminal: Watch
    var failures: nat
    ghost var dials: seq<Dial>

    constructor (retries: nat)
      requires retries < WRAP
      ensures Valid() && dials == [] && this.retries == retries && fresh(terminal)
    {
      this.retries := retries;
      this.terminal := new Watch();
      this.failures := 0;
      this.dials := [];
    }

    /** The counter and the watch are what the attempts so far make them; others may have set the
        watch too, never cleared it. */
    ghost predicate Valid()
      reads this, terminal
    {
      && retries < WRAP
      && failures == After(dials, retries).failures
      && (After(dials, retries).terminal ==> terminal.value)
    }

    /** One attempt to connect. */
    method Dialled(dial: Dial)
      requires Valid()
      modifies this, terminal
      ensures Valid() && dials == old(dials) + [dial]
      ensures terminal.value == (old(terminal.value) || After(dials, retries).terminal)
      ensures dial.Connected? ==> unchanged(terminal) && failures == 0
      ensures dial.RuntimeShutdown? || (dial.Refused? && old(failures) >= retries) ==>
                terminal.value && terminal.version == old(terminal.version) + 1
    {
      hide After;
      OneMore(dials, dial, retries);
      dials := dials + [dial];
      match dial
      case Connected =>
        failures := 0;
      case RuntimeShutdown =>
        terminal.SendReplace(true);
      case Refused =>
        var was := failures;
        failures := (failures + 1) % WRAP;
        if was >= retries {
          terminal.SendReplace(true);
        }
    }
  }

  /** A connection event the client reports. */
  datatype Event = Up | Error | Other

  /** The listener on connection events: a failed connection becomes terminal and ends the listener,
      any other change of it wakes whoever waits; it never clears the terminal notice. */
  method OnEvent(terminal: Watch, event: Event, broken: bool) returns (listening: bool)
    modifies terminal
    ensures terminal.value == (old(terminal.value) || (!event.Other? && broken))
    ensures event.Other? ==> listening && unchanged(terminal)
    ensures !event.Other? ==> terminal.version == old(terminal.version) + 1
    ensures !event.Other? ==> (listening <==> !terminal.value)
  {
    if event.Other? {
      return true;
    }
    var failed := terminal.value || broken;
    if failed {
      terminal.SendReplace(true);
      return false;
    }
    terminal.SendModify();
    return true;
  }

  // When the notice is due.

  /** The refusals among attempts `i` to `j - 1`. */
  function Refusals(dials: seq<Dial>, i: nat, j: nat): nat
    requires i <= j <= |dials|
    decreases j
  {
    if i == j then 0 else Refusals(dials, i, j - 1) + if dials[j - 1].Refused? then 1 else 0
  }

  predicate NoSuccess(dials: seq<Dial>, i: nat, j: nat)
    requires i <= j <= |dials|
  {
    forall k | i <= k < j :: !dials[k].Connected?
  }

  /** Attempts `i` to `j - 1` spend the budget: no success among them, and one refusal too many. */
  predicate Spends(dials: seq<Dial>, retries: nat, i: nat, j: nat) {
    i <= j <= |dials| && NoSuccess(dials, i, j) && Refusals(dials, i, j) > retries
  }

  /** Some `retries + 1` refusals came with no success between them. */
  ghost predicate Exhausted(dials: seq<Dial>, retries: nat) {
    exists i: nat, j: nat :: Spends(dials, retries, i, j)
  }

  /** The refusals since the last success. */
  function Streak(dials: seq<Dial>): nat {
    if dials == [] then 0
    else match dials[|dials| - 1]
         case Connected => 0
         case Refused => Streak(dials[..|dials| - 1]) + 1
         case RuntimeShutdown => Streak(dials[..|dials| - 1])
  }

  lemma {:induction false} RefusalsOfPrefix(dials: seq<Dial>, n: nat, i: nat, j: nat)
    requires i <= j <= n <= |dials|
    ensures Refusals(dials[..n], i, j) == Refusals(dials, i, j)
    decreases j
  {
    if i < j {
      RefusalsOfPrefix(dials, n, i, j - 1);
    }
  }

  lemma SpendsInPrefix(dials: seq<Dial>, retries: nat, n: nat, i: nat, j: nat)
    requires j <= n <= |dials|
    ensures Spends(dials[..n], retries, i, j) <==> Spends(dials, retries, i, j)
  {
    if i <= j {
      RefusalsOfPrefix(dials, n, i, j);
    }
  }

  lemma {:induction false} StreakIsLongest(dials: seq<Dial>, i: nat)
    requires i <= |dials| && NoSuccess(dials, i, |dials|)
    ensures Refusals(dials, i, |dials|) <= Streak(dials)
  {
    if i < |dials| {
      StreakIsLongest(dials[..|dials| - 1], i);
      RefusalsOfPrefix(dials, |dials| - 1, i, |dials| - 1);
    }
  }

  lemma {:induction false} StreakIsThere(dials: seq<Dial>) returns (i: nat)
    ensures i <= |dials| && NoSuccess(dials, i, |dials|) && Refusals(dials, i, |dials|) == Streak(dials)
  {
    if dials == [] || dials[|dials| - 1].Connected? {
      i := |dials|;
    } else {
      i := StreakIsThere(dials[..|dials| - 1]);
      assert forall k | i <= k < |dials| - 1 :: dials[k] == dials[..|dials| - 1][k];
      RefusalsOfPrefix(dials, |dials| - 1, i, |dials| - 1);
    }
  }

  lemma SpentBy(dials: seq<Dial>, retries: nat, i: nat, j: nat)
    requires dials != [] && Spends(dials, retries, i, j)
    ensures Spends(dials[..|dials| - 1], retries, i, if j < |dials| then j else j - 1) ||
            (dials[|dials| - 1].Refused? && Streak(dials) > retries)
  {
    if j < |dials| {
      SpendsInPrefix(dials, retries, |dials| - 1, i, j);
    } else {
      StreakIsLongest(dials, i);
      if !dials[j - 1].Refused? {
        SpendsInPrefix(dials, retries, |dials| - 1, i, j - 1);
      }
    }
  }

  /** One attempt exhausts the budget if it is a refusal at the end of a long enough streak. */
  lemma ExhaustedStep(dials: seq<Dial>, retries: nat)
    requires dials != []
    ensures Exhausted(dials, retries) <==>
            Exhausted(dials[..|dials| - 1], retries) || (dials[|dials| - 1].Refused? && Streak(dials) > retries)
  {
    hide Streak, Spends;
    var before := dials[..|dials| - 1];
    if Exhausted(dials, retries) {
      var i: nat, j: nat :| Spends(dials, retries, i, j);
      SpentBy(dials, retries, i, j);
    }
    if Exhausted(before, retries) {
      var i: nat, j: nat :| Spends(before, retries, i, j);
      SpendsWithin(before, retries, i, j);
      SpendsInPrefix(dials, retries, |before|, i, j);
    }
    if Streak(dials) > retries {
      StreakSpends(dials, retries);
    }
  }

  lemma SpendsWithin(dials: seq<Dial>, retries: nat, i: nat, j: nat)
    requires Spends(dials, retries, i, j)
    ensures i <= j <= |dials|
  {
  }

  lemma StreakSpends(dials: seq<Dial>, retries: nat)
    requires Streak(dials) > retries
    ensures Exhausted(dials, retries)
  {
    var i := StreakIsThere(dials);
    assert Spends(dials, retries, i, |dials|);
  }

  lemma {:induction false} CountIsStreak(dials: seq<Dial>, retries: nat)
    ensures After(dials, retries).failures == Streak(dials) % WRAP
  {
    if dials != [] {
      CountIsStreak(dials[..|dials| - 1], retries);
    }
  }

  /** The connector gives up for good exactly when the runtime shut down or one more refusal than the
      configured retries came with no success between them, for every budget a machine word can hold,
      however often the counter wraps. */
  lemma {:induction false} GivesUpWhenSpent(dials: seq<Dial>, retries: nat)
    requires retries < WRAP
    ensures After(dials, retries).terminal <==> RuntimeShutdown in dials || Exhausted(dials, retries)
  {
    if dials == [] {
      assert forall i: nat, j: nat :: !Spends(dials, retries, i, j);
    } else {
      hide Spends, Exhausted;
      var before, last := dials[..|dials| - 1], dials[|dials| - 1];
      GivesUpWhenSpent(before, retries);
      CountIsStreak(before, retries);
      ExhaustedStep(dials, retries);
      assert dials == before + [last];
      if Streak(before) > retries {
        StreakSpends(before, retries);
      }
    }
  }
}
