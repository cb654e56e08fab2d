/** What a confirms publisher sends, told two ways: by stepping through its buffers, and by saying of
    each call which messages it sends, looking only at the calls before it. */
module TransactionLog {
  import opened Wrappers
  import opened Utf8
  import opened Convert

  /** A message a publisher was handed, and how its own settings differ from the publisher's. */
  datatype Buffered = Buffered(routingKey: string, payload: Bytes, headers: HeaderMap, options: PublishOptions)

  /** A call on the handle or on an owned transaction. `sent` is how many messages of the call went
      out before it ended, all of them when it succeeded. */
  datatype Call =
    | Publish(message: Buffered, sent: nat)
    | Begin
    | Commit(sent: nat)
    | Abort
    | Open(id: nat)
    | OwnedPublish(id: nat, message: Buffered)
    | OwnedCommit(id: nat, sent: nat)
    | OwnedAbort(id: nat)
  {
    predicate Settles() {
      Commit? || Abort?
    }

    predicate SettlesOwned(owned: nat) {
      (OwnedCommit? || OwnedAbort?) && id == owned
    }

    predicate Owned() {
      Open? || OwnedPublish? || OwnedCommit? || OwnedAbort?
    }
  }

  /** The handle's buffer, the buffers of the open owned transactions, and what has gone out. */
  datatype State = State(txn: Option<seq<Buffered>>, owned: map<nat, seq<Buffered>>, log: seq<Buffered>)

  function First(messages: seq<Buffered>, n: nat): seq<Buffered> {
    if n < |messages| then messages[..n] else messages
  }

  /** That many messages from the front, in order, and all of them when there are no more. */
  lemma FirstIs(messages: seq<Buffered>, n: nat)
    ensures n <= |messages| ==> First(messages, n) == messages[..n]
    ensures n >= |messages| ==> First(messages, n) == messages
  {
  }

  function Step(s: State, call: Call): State {
    match call
    case Publish(m, sent) =>
      if s.txn.Some? then s.(txn := Some(s.txn.value + [m])) else s.(log := s.log + First([m], sent))
    case Begin => if s.txn.Some? then s else s.(txn := Some([]))
    case Commit(sent) =>
      if s.txn.Some? then s.(txn := None, log := s.log + First(s.txn.value, sent)) else s
    case Abort => s.(txn := None)
    case Open(id) => s.(owned := s.owned[id := []])
    case OwnedPublish(id, m) => if id in s.owned then s.(owned := s.owned[id := s.owned[id] + [m]]) else s
    case OwnedCommit(id, sent) =>
      if id in s.owned then s.(owned := s.owned - {id}, log := s.log + First(s.owned[id], sent)) else s
    case OwnedAbort(id) => s.(owned := s.owned - {id})
  }

  function Run(calls: seq<Call>): State {
    if calls == [] then State(None, map[], []) else Step(Run(calls[..|calls| - 1]), calls[|calls| - 1])
  }

  // The log, said of each call from the calls before it.

  /** The handle's transaction was opened at `b` and is open after `calls`. */
  ghost predicate OpenedAt(calls: seq<Call>, b: nat) {
    && b < |calls| && calls[b].Begin?
    && (forall j | b < j < |calls| :: !calls[j].Settles())
    && (forall j | 0 <= j < b && calls[j].Begin? :: exists k | j < k < b :: calls[k].Settles())
  }

  ghost predicate OwnedAt(calls: seq<Call>, b: nat, id: nat) {
    && b < |calls| && calls[b] == Open(id)
    && (forall j | b < j < |calls| :: !calls[j].SettlesOwned(id) && calls[j] != Open(id))
  }

  /** The messages handed to the handle, in order. */
  function Handed(calls: seq<Call>): seq<Buffered> {
    if calls == [] then []
    else (if calls[0].Publish? then [calls[0].message] else []) + Handed(calls[1..])
  }

  function HandedTo(calls: seq<Call>, id: nat): seq<Buffered> {
    if calls == [] then []
    else (if calls[0].OwnedPublish? && calls[0].id == id then [calls[0].message] else []) + HandedTo(calls[1..], id)
  }

  ghost function Emitted(before: seq<Call>, call: Call): seq<Buffered> {
    match call
    case Publish(m, sent) => if sent == 0 || exists b :: OpenedAt(before, b) then [] else [m]
    case Commit(sent) =>
      if b: nat :| OpenedAt(before, b) then
        var buffer := Handed(before[b + 1..]);
        buffer[..if sent < |buffer| then sent else |buffer|]
      else []
    case OwnedCommit(id, sent) =>
      if b: nat :| OwnedAt(before, b, id) then
        var buffer := HandedTo(before[b + 1..], id);
        buffer[..if sent < |buffer| then sent else |buffer|]
      else []
    case _ => []
  }

  ghost function Log(calls: seq<Call>): seq<Buffered> {
    if calls == [] then []
    else Log(calls[..|calls| - 1]) + Emitted(calls[..|calls| - 1], calls[|calls| - 1])
  }

  // The two agree.

  lemma {:induction false} HandedOneMore(calls: seq<Call>, call: Call)
    ensures Handed(calls + [call]) == Handed(calls) + if call.Publish? then [call.message] else []
  {
    if calls != [] {
      HandedOneMore(calls[1..], call);
      assert (calls + [call])[1..] == calls[1..] + [call];
    }
  }

  lemma {:induction false} HandedToOneMore(calls: seq<Call>, call: Call, id: nat)
    ensures HandedTo(calls + [call], id) ==
            HandedTo(calls, id) + if call.OwnedPublish? && call.id == id then [call.message] else []
  {
    if calls != [] {
      HandedToOneMore(calls[1..], call, id);
      assert (calls + [call])[1..] == calls[1..] + [call];
    }
  }

  /** Every begin so far has been settled. */
  ghost predicate AllSettled(calls: seq<Call>) {
    forall j | 0 <= j < |calls| && calls[j].Begin? :: exists k | j < k < |calls| :: calls[k].Settles()
  }

  lemma OneOpening(calls: seq<Call>, b: nat, c: nat)
    requires OpenedAt(calls, b) && OpenedAt(calls, c)
    ensures b == c
  {
  }

  lemma OneOwnedOpening(calls: seq<Call>, b: nat, c: nat, id: nat)
    requires OwnedAt(calls, b, id) && OwnedAt(calls, c, id)
    ensures b == c
  {
  }

  lemma Extended(calls: seq<Call>, call: Call, b: nat)
    requires OpenedAt(calls, b) && !call.Settles()
    ensures OpenedAt(calls + [call], b)
    ensures (calls + [call])[b + 1..] == calls[b + 1..] + [call]
  {
    var after := calls + [call];
    assert forall j | 0 <= j < |calls| :: after[j] == calls[j];
    forall j | 0 <= j < b && after[j].Begin? ensures exists k | j < k < b :: after[k].Settles() {
      var k :| j < k < b && calls[k].Settles();
      assert after[k].Settles();
    }
  }

  /** The handle's buffer, or that there is none, is what the calls say. */
  ghost predicate BufferOf(calls: seq<Call>, s: State) {
    && (s.txn.None? ==> AllSettled(calls))
    && (s.txn.Some? ==> exists b: nat :: OpenedAt(calls, b) && s.txn.value == Handed(calls[b + 1..]))
  }

  /** The handle's buffer is what was handed to it since the transaction opened. */
  lemma {:induction false} BufferIs(calls: seq<Call>)
    ensures BufferOf(calls, Run(calls))
  {
    if calls != [] {
      var before, call := calls[..|calls| - 1], calls[|calls| - 1];
      BufferIs(before);
      BufferStep(before, Run(before), call);
      assert calls == before + [call];
    }
  }

  lemma BufferStepOpen(before: seq<Call>, s: State, call: Call)
    requires BufferOf(before, s) && s.txn.Some? && !call.Settles()
    ensures BufferOf(before + [call], Step(s, call))
  {
    hide Handed, First;
    var b: nat :| OpenedAt(before, b) && s.txn.value == Handed(before[b + 1..]);
    Extended(before, call, b);
    HandedOneMore(before[b + 1..], call);
    hide OpenedAt;
  }

  lemma BufferStepClosed(before: seq<Call>, s: State, call: Call)
    requires BufferOf(before, s) && s.txn.None? && !call.Settles()
    ensures BufferOf(before + [call], Step(s, call))
  {
    var after := before + [call];
    forall j | 0 <= j < |before| && after[j].Begin? ensures exists k | j < k < |before| :: after[k].Settles() {
      assert before[j].Begin?;
      var k :| j < k < |before| && before[k].Settles();
      assert after[k].Settles();
    }
    if call.Begin? {
      assert OpenedAt(after, |before|) && after[|before| + 1..] == [];
    }
  }

  lemma BufferStep(before: seq<Call>, s: State, call: Call)
    requires BufferOf(before, s)
    ensures BufferOf(before + [call], Step(s, call))
  {
    hide OpenedAt, Handed, First;
    if call.Settles() {
      assert (before + [call])[|before|].Settles();
    } else if s.txn.Some? {
      BufferStepOpen(before, s, call);
    } else {
      BufferStepClosed(before, s, call);
    }
  }

  /** An owned buffer is what was handed to that transaction since it opened. */
  ghost predicate OwnedBufferIs(calls: seq<Call>, s: State, id: nat) {
    && (id in s.owned ==> exists b: nat :: OwnedAt(calls, b, id) && s.owned[id] == HandedTo(calls[b + 1..], id))
    && (id !in s.owned ==> forall b: nat :: !OwnedAt(calls, b, id))
  }

  lemma OwnedExtended(calls: seq<Call>, call: Call, b: nat, id: nat)
    requires !call.SettlesOwned(id) && call != Open(id)
    ensures b < |calls| ==> (OwnedAt(calls, b, id) <==> OwnedAt(calls + [call], b, id))
    ensures b >= |calls| ==> !OwnedAt(calls + [call], b, id)
    ensures b < |calls| ==> (calls + [call])[b + 1..] == calls[b + 1..] + [call]
  {
    assert forall j | 0 <= j < |calls| :: (calls + [call])[j] == calls[j];
  }

  lemma OwnedStep(before: seq<Call>, call: Call, id: nat)
    requires OwnedBufferIs(before, Run(before), id)
    ensures OwnedBufferIs(before + [call], Step(Run(before), call), id)
  {
    hide Run;
    var after, s, t := before + [call], Run(before), Step(Run(before), call);
    if call == Open(id) {
      assert OwnedAt(after, |before|, id) && after[|before| + 1..] == [];
    } else if call.SettlesOwned(id) {
      assert after[|before|].SettlesOwned(id);
    } else {
      OwnedStepBy(before, call, id, s);
    }
  }

  lemma OwnedStepBy(before: seq<Call>, call: Call, id: nat, s: State)
    requires OwnedBufferIs(before, s, id)
    requires !call.SettlesOwned(id) && call != Open(id)
    ensures OwnedBufferIs(before + [call], Step(s, call), id)
  {
    hide OwnedAt, HandedTo, First;
    if id in s.owned {
      OwnedStarts(before, s, id);
      var b: nat :| b < |before| && OwnedAt(before, b, id) && s.owned[id] == HandedTo(before[b + 1..], id);
      OwnedExtended(before, call, b, id);
      HandedToOneMore(before[b + 1..], call, id);
    } else {
      forall b: nat ensures !OwnedAt(before + [call], b, id) {
        OwnedExtended(before, call, b, id);
      }
    }
  }

  lemma OwnedStarts(calls: seq<Call>, s: State, id: nat)
    requires OwnedBufferIs(calls, s, id) && id in s.owned
    ensures exists b: nat :: b < |calls| && OwnedAt(calls, b, id) && s.owned[id] == HandedTo(calls[b + 1..], id)
  {
  }

  lemma {:induction false} OwnedIs(calls: seq<Call>, id: nat)
    ensures OwnedBufferIs(calls, Run(calls), id)
  {
    if calls != [] {
      OwnedIs(calls[..|calls| - 1], id);
      OwnedStep(calls[..|calls| - 1], calls[|calls| - 1], id);
      assert calls == calls[..|calls| - 1] + [calls[|calls| - 1]];
    }
  }

  lemma EmittedByPublish(before: seq<Call>, m: Buffered, sent: nat)
    ensures Step(Run(before), Publish(m, sent)).log == Run(before).log + Emitted(before, Publish(m, sent))
  {
    hide Run, Handed, First;
    FirstIs([m], sent);
    assert [m][..0] == [];
    BufferIs(before);
    if Run(before).txn.None? {
      NothingOpen(before);
    }
  }

  lemma NothingOpen(calls: seq<Call>)
    requires AllSettled(calls)
    ensures !exists b :: OpenedAt(calls, b)
  {
  }

  lemma EmittedByCommit(before: seq<Call>, sent: nat)
    ensures Step(Run(before), Commit(sent)).log == Run(before).log + Emitted(before, Commit(sent))
  {
    hide Run, Handed, First;
    BufferIs(before);
    if Run(before).txn.None? {
      NothingOpen(before);
    } else {
      var b: nat :| OpenedAt(before, b) && Run(before).txn.value == Handed(before[b + 1..]);
      FirstIs(Run(before).txn.value, sent);
      assert Run(before).txn.value[..|Run(before).txn.value|] == Run(before).txn.value;
      forall c: nat | OpenedAt(before, c) ensures b == c {
        OneOpening(before, b, c);
      }
    }
  }

  lemma EmittedByOwned(before: seq<Call>, id: nat, sent: nat)
    ensures Step(Run(before), OwnedCommit(id, sent)).log == Run(before).log + Emitted(before, OwnedCommit(id, sent))
  {
    hide Run, HandedTo, First;
    OwnedIs(before, id);
    if id in Run(before).owned {
      var b: nat :| OwnedAt(before, b, id) && Run(before).owned[id] == HandedTo(before[b + 1..], id);
      FirstIs(Run(before).owned[id], sent);
      assert Run(before).owned[id][..|Run(before).owned[id]|] == Run(before).owned[id];
      forall c: nat | OwnedAt(before, c, id) ensures b == c {
        OneOwnedOpening(before, b, c, id);
      }
    }
  }

  lemma EmittedByStep(before: seq<Call>, call: Call)
    ensures Step(Run(before), call).log == Run(before).log + Emitted(before, call)
  {
    hide Run;
    match call {
      case Publish(m, sent) => EmittedByPublish(before, m, sent);
      case Commit(sent) => EmittedByCommit(before, sent);
      case OwnedCommit(id, sent) => EmittedByOwned(before, id, sent);
      case _ =>
    }
  }

  /** For every sequence of calls on a handle and any number of owned transactions beside it, what
      goes out is, call after call: for a direct publish its message, and for a commit the messages
      handed to that transaction since it was opened, in order, or as many as the commit managed. */
  lemma {:induction false} SendsTheLog(calls: seq<Call>)
    ensures Run(calls).log == Log(calls)
  {
    if calls != [] {
      SendsTheLog(calls[..|calls| - 1]);
      EmittedByStep(calls[..|calls| - 1], calls[|calls| - 1]);
    }
  }

  // Neither kind of transaction touches the other.

  function HandleCalls(calls: seq<Call>): seq<Call> {
    if calls == [] then []
    else HandleCalls(calls[..|calls| - 1]) + if calls[|calls| - 1].Owned() then [] else [calls[|calls| - 1]]
  }

  function CallsOf(calls: seq<Call>, id: nat): seq<Call> {
    if calls == [] then []
    else
      var last := calls[|calls| - 1];
      CallsOf(calls[..|calls| - 1], id) + if last.Owned() && last.id == id then [last] else []
  }

  lemma RunOneMore(calls: seq<Call>, call: Call)
    ensures Run(calls + [call]) == Step(Run(calls), call)
  {
    assert (calls + [call])[..|calls|] == calls;
  }

  /** The handle's buffer is the one it would have with no owned transaction anywhere. */
  lemma {:induction false} OwnedLeaveTheHandle(calls: seq<Call>)
    ensures Run(calls).txn == Run(HandleCalls(calls)).txn
  {
    hide Step;
    if calls != [] {
      var before, call := calls[..|calls| - 1], calls[|calls| - 1];
      OwnedLeaveTheHandle(before);
      if call.Owned() {
        assert HandleCalls(calls) == HandleCalls(before);
        OwnedLeaveBuffer(Run(before), call);
      } else {
        RunOneMore(HandleCalls(before), call);
        SameBuffer(Run(before), Run(HandleCalls(before)), call);
      }
    }
  }

  lemma OwnedLeaveBuffer(s: State, call: Call)
    requires call.Owned()
    ensures Step(s, call).txn == s.txn
  {
  }

  lemma SameBuffer(s: State, t: State, call: Call)
    requires s.txn == t.txn
    ensures Step(s, call).txn == Step(t, call).txn
  {
  }

  ghost predicate SameOwned(s: State, t: State, id: nat) {
    && (id in s.owned <==> id in t.owned)
    && (id in s.owned ==> s.owned[id] == t.owned[id])
  }

  lemma OthersLeaveOwned(s: State, call: Call, id: nat)
    requires !(call.Owned() && call.id == id)
    ensures SameOwned(s, Step(s, call), id)
  {
  }

  lemma SameOwnedStep(s: State, t: State, call: Call, id: nat)
    requires SameOwned(s, t, id) && call.Owned() && call.id == id
    ensures SameOwned(Step(s, call), Step(t, call), id)
  {
  }

  /** An owned buffer is the one it would have with no other transaction and no direct publish. */
  lemma {:induction false} OwnedStandAlone(calls: seq<Call>, id: nat)
    ensures SameOwned(Run(calls), Run(CallsOf(calls, id)), id)
  {
    hide Step;
    if calls != [] {
      var before, call := calls[..|calls| - 1], calls[|calls| - 1];
      OwnedStandAlone(before, id);
      if call.Owned() && call.id == id {
        RunOneMore(CallsOf(before, id), call);
        SameOwnedStep(Run(before), Run(CallsOf(before, id)), call, id);
      } else {
        assert CallsOf(calls, id) == CallsOf(before, id);
        OthersLeaveOwned(Run(before), call, id);
      }
    }
  }
}
