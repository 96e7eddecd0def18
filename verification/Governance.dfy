/**
 The local governance engine: proposals, anonymous votes and a 48-hour timelock. `Gov` is the abstract state and the
 functions over it say what each method does; `GovernanceEngine` does it in place. Clock readings are arguments, in
 seconds; whether a vote's proof verifies is an uninterpreted predicate of the vote.
 */
module Governance {
  import opened Words
  import opened Wrappers
  import Hex

  const TIMELOCK := 172800

  datatype Proposal = Proposal(
    id: u64, title: string, description: string, author: string, executionHash: string, deadline: u64)

  datatype Vote = Vote(proposalId: u64, voterHash: string, commitment: string, approve: bool, proof: seq<byte>)

  datatype Status = Pending | Active | Passed | Failed | Executed | Timelocked(release: u64)

  datatype Entry = Entry(proposal: Proposal, status: Status)

  datatype Gov = Gov(proposals: seq<Entry>, votes: seq<Vote>, nullifiers: seq<seq<byte>>)

  datatype Outcome = Done(hash: string) | NotFound | StillLocked(remaining: nat) | NotTimelocked

  // ---------------------------------------------------------------------------------------------------------------
  // What each operation does
  // ---------------------------------------------------------------------------------------------------------------

  function Zeros(n: nat): (r: seq<byte>)
    ensures |r| == n && forall i :: 0 <= i < n ==> r[i] == 0
  {
    if n == 0 then [] else [0] + Zeros(n - 1)
  }

  /** The 32 bytes a voter hash stands for; anything else counts as all zeros. */
  function NullifierOf(hash: string): seq<byte> {
    match Hex.Decode(hash)
    case Some(b) => if |b| == 32 then b else Zeros(32)
    case None => Zeros(32)
  }

  /** The first proposal with this id. */
  function FirstWith(ps: seq<Entry>, id: u64): (r: Option<nat>)
    ensures r.Some? ==> r.value < |ps| && ps[r.value].proposal.id == id
    ensures r.Some? ==> forall k :: 0 <= k < r.value ==> ps[k].proposal.id != id
    ensures r.None? ==> forall k :: 0 <= k < |ps| ==> ps[k].proposal.id != id
  {
    if ps == [] then None
    else if ps[0].proposal.id == id then Some(0)
    else match FirstWith(ps[1..], id)
      case None => None
      case Some(k) => Some(k + 1)
  }

  function Submit(g: Gov, p: Proposal): Gov {
    g.(proposals := g.proposals + [Entry(p, Active)])
  }

  function SetStatus(ps: seq<Entry>, k: nat, s: Status): seq<Entry>
    requires k < |ps|
  {
    ps[k := ps[k].(status := s)]
  }

  /** Whatever its status, the first proposal with the id is locked for 48 hours from `now`. */
  function Queue(g: Gov, id: u64, now: u64): Gov {
    match FirstWith(g.proposals, id)
    case None => g
    case Some(k) => g.(proposals := SetStatus(g.proposals, k, Timelocked((now + TIMELOCK) % U64)))
  }

  predicate SomeActive(ps: seq<Entry>, id: u64) {
    exists k | 0 <= k < |ps| :: ps[k].proposal.id == id && ps[k].status.Active?
  }

  predicate Accepts(g: Gov, v: Vote, verifies: Vote -> bool) {
    SomeActive(g.proposals, v.proposalId) && NullifierOf(v.voterHash) !in g.nullifiers && verifies(v)
  }

  function Cast(g: Gov, v: Vote, now: u64, verifies: Vote -> bool): Gov {
    if Accepts(g, v, verifies) then
      Queue(Gov(g.proposals, g.votes + [v], g.nullifiers + [NullifierOf(v.voterHash)]), v.proposalId, now)
    else g
  }

  function ExecuteOutcome(g: Gov, id: u64, now: u64): Outcome {
    match FirstWith(g.proposals, id)
    case None => NotFound
    case Some(k) =>
      match g.proposals[k].status
      case Timelocked(release) =>
        if now >= release then Done(g.proposals[k].proposal.executionHash) else StillLocked(release - now)
      case _ => NotTimelocked
  }

  function Execute(g: Gov, id: u64, now: u64): Gov {
    if ExecuteOutcome(g, id, now).Done? then
      g.(proposals := SetStatus(g.proposals, FirstWith(g.proposals, id).value, Executed))
    else g
  }

  // ---------------------------------------------------------------------------------------------------------------
  // The object
  // ---------------------------------------------------------------------------------------------------------------

  class GovernanceEngine {
    const verifies: Vote -> bool
    var proposals: seq<Entry>
    var votes: seq<Vote>
    var nullifiers: seq<seq<byte>>

    ghost function State(): Gov
      reads this
    {
      Gov(proposals, votes, nullifiers)
    }

    constructor (verifies: Vote -> bool)
      ensures State() == Gov([], [], []) && this.verifies == verifies
    {
      this.verifies := verifies;
      proposals, votes, nullifiers := [], [], [];
    }

    method SubmitProposal(p: Proposal)
      modifies this
      ensures State() == Submit(old(State()), p)
    {
      proposals := proposals + [Entry(p, Active)];
    }

    method Position(id: u64) returns (r: Option<nat>)
      ensures r == FirstWith(proposals, id)
    {
      for i := 0 to |proposals|
        invariant forall k :: 0 <= k < i ==> proposals[k].proposal.id != id
      {
        if proposals[i].proposal.id == id {
          return Some(i);
        }
      }
      return None;
    }

    method QueueExecution(id: u64, now: u64)
      modifies this`proposals
      ensures State() == Queue(old(State()), id, now)
    {
      var found := Position(id);
      if found.Some? {
        var release := (now + TIMELOCK) % U64;
        proposals := proposals[found.value := proposals[found.value].(status := Timelocked(release))];
      }
    }

    method CastVote(v: Vote, now: u64) returns (accepted: bool)
      modifies this
      ensures State() == Cast(old(State()), v, now, verifies)
      ensures accepted == Accepts(old(State()), v, verifies)
    {
      var active := false;
      for i := 0 to |proposals|
        invariant active ==
          exists k | 0 <= k < i :: proposals[k].proposal.id == v.proposalId && proposals[k].status.Active?
      {
        if proposals[i].proposal.id == v.proposalId && proposals[i].status.Active? {
          active := true;
        }
      }
      if !active {
        return false;
      }
      var nullifier := NullifierOf(v.voterHash);
      if nullifier in nullifiers {
        return false;
      }
      if !verifies(v) {
        return false;
      }
      nullifiers := nullifiers + [nullifier];
      votes := votes + [v];
      QueueExecution(v.proposalId, now);
      return true;
    }

    method ExecuteProposal(id: u64, now: u64) returns (r: Outcome)
      modifies this`proposals
      ensures State() == Execute(old(State()), id, now)
      ensures r == ExecuteOutcome(old(State()), id, now)
    {
      var found := Position(id);
      if found.None? {
        return NotFound;
      }
      var entry := proposals[found.value];
      match entry.status {
        case Timelocked(release) =>
          if now >= release {
            proposals := proposals[found.value := entry.(status := Executed)];
            return Done(entry.proposal.executionHash);
          }
          return StillLocked(release - now);
        case _ => return NotTimelocked;
      }
    }
  }

  // ---------------------------------------------------------------------------------------------------------------
  // Runs, and the log of what happened in them
  // ---------------------------------------------------------------------------------------------------------------

  /** `queue_execution` is public, so a run may call it outside a vote. */
  datatype Op =
    | SubmitOp(proposal: Proposal)
    | CastOp(vote: Vote, at: u64)
    | QueueOp(id: u64, at: u64)
    | ExecuteOp(id: u64, when: u64)

  datatype Event =
    | Submitted(id: u64)
    | Accepted(vote: Vote, at: u64)
    | Rejected
    | Queued(id: u64, at: u64)
    | Ran(id: u64, when: u64)
    | Refused

  datatype Trace = Trace(gov: Gov, log: seq<Event>)

  function Apply(g: Gov, op: Op, verifies: Vote -> bool): Gov {
    match op
    case SubmitOp(p) => Submit(g, p)
    case CastOp(v, at) => Cast(g, v, at, verifies)
    case QueueOp(id, at) => Queue(g, id, at)
    case ExecuteOp(id, t) => Execute(g, id, t)
  }

  function EventOf(g: Gov, op: Op, verifies: Vote -> bool): Event {
    match op
    case SubmitOp(p) => Submitted(p.id)
    case CastOp(v, at) => if Accepts(g, v, verifies) then Accepted(v, at) else Rejected
    case QueueOp(id, at) => if FirstWith(g.proposals, id).Some? then Queued(id, at) else Refused
    case ExecuteOp(id, t) => if ExecuteOutcome(g, id, t).Done? then Ran(id, t) else Refused
  }

  function Step(t: Trace, op: Op, verifies: Vote -> bool): Trace {
    Trace(Apply(t.gov, op, verifies), t.log + [EventOf(t.gov, op, verifies)])
  }

  function Run(ops: seq<Op>, verifies: Vote -> bool): Trace {
    if ops == [] then Trace(Gov([], [], []), [])
    else Step(Run(ops[..|ops| - 1], verifies), ops[|ops| - 1], verifies)
  }

  lemma RunMore(ops: seq<Op>, op: Op, verifies: Vote -> bool)
    ensures Run(ops + [op], verifies) == Step(Run(ops, verifies), op, verifies)
  {
    assert (ops + [op])[..|ops|] == ops;
  }

  /** One event an operation, told by the state before it. */
  lemma {:induction false} LogIsPointwise(ops: seq<Op>, verifies: Vote -> bool, j: nat)
    requires j < |ops|
    ensures var log := Run(ops, verifies).log;
      && |log| == |ops|
      && log[..j] == Run(ops[..j], verifies).log
      && log[j] == EventOf(Run(ops[..j], verifies).gov, ops[j], verifies)
  {
    hide EventOf, Apply;
    var n := |ops| - 1;
    if j < n {
      assert ops[..n][..j] == ops[..j];
      LogIsPointwise(ops[..n], verifies, j);
    } else {
      LogLength(ops[..n], verifies);
    }
  }

  lemma {:induction false} LogLength(ops: seq<Op>, verifies: Vote -> bool)
    ensures |Run(ops, verifies).log| == |ops|
  {
    if ops != [] {
      LogLength(ops[..|ops| - 1], verifies);
    }
  }

  // ---------------------------------------------------------------------------------------------------------------
  // The status of a proposal, read off the log
  // ---------------------------------------------------------------------------------------------------------------

  /** The event concerns the status of the proposal with this id. */
  predicate Touches(e: Event, id: u64) {
    match e
    case Accepted(v, _) => v.proposalId == id
    case Queued(i, _) => i == id
    case Ran(i, _) => i == id
    case _ => false
  }

  predicate Locks(e: Event, id: u64) {
    Touches(e, id) && !e.Ran?
  }

  function LastTouch(log: seq<Event>, id: u64): (r: Option<Event>)
    ensures r.Some? ==> Touches(r.value, id)
  {
    if log == [] then None
    else if Touches(log[|log| - 1], id) then Some(log[|log| - 1])
    else LastTouch(log[..|log| - 1], id)
  }

  /** Active before the first event, executed after a run, else locked for 48 hours on a clock of 64 bits. */
  function StatusAfter(touch: Option<Event>): Status
    requires touch.Some? ==> touch.value.Accepted? || touch.value.Queued? || touch.value.Ran?
  {
    if touch.None? then Active
    else if touch.value.Ran? then Executed
    else Timelocked((touch.value.at + 48 * 60 * 60) % U64)
  }

  predicate Lawful(t: Trace, id: u64) {
    match FirstWith(t.gov.proposals, id)
    case None => LastTouch(t.log, id) == None
    case Some(k) => t.gov.proposals[k].status == StatusAfter(LastTouch(t.log, id))
  }

  lemma FirstAfterStatus(ps: seq<Entry>, k: nat, s: Status, id: u64)
    requires k < |ps|
    ensures FirstWith(SetStatus(ps, k, s), id) == FirstWith(ps, id)
  {
    var qs := SetStatus(ps, k, s);
    assert forall i :: 0 <= i < |ps| ==> qs[i].proposal == ps[i].proposal;
    if FirstWith(ps, id).Some? {
      assert qs[FirstWith(ps, id).value].proposal.id == id;
    }
    if FirstWith(qs, id).Some? {
      assert ps[FirstWith(qs, id).value].proposal.id == id;
    }
  }

  lemma FirstAfterSubmit(ps: seq<Entry>, e: Entry, id: u64)
    ensures FirstWith(ps + [e], id) ==
      if FirstWith(ps, id).Some? then FirstWith(ps, id) else if e.proposal.id == id then Some(|ps|) else None
  {
    var qs := ps + [e];
    if FirstWith(ps, id).Some? {
      assert qs[FirstWith(ps, id).value].proposal.id == id;
    } else if e.proposal.id == id {
      assert qs[|ps|].proposal.id == id;
    }
    if FirstWith(qs, id).Some? && FirstWith(qs, id).value < |ps| {
      assert ps[FirstWith(qs, id).value].proposal.id == id;
    }
  }

  lemma QueueKeepsLaw(t: Trace, id: u64, at: u64, e: Event, other: u64)
    requires Lawful(t, other) && FirstWith(t.gov.proposals, id).Some?
    requires (e.Accepted? && e.vote.proposalId == id && e.at == at) || e == Queued(id, at)
    ensures Lawful(Trace(Queue(t.gov, id, at), t.log + [e]), other)
  {
    hide FirstWith;
    var k := FirstWith(t.gov.proposals, id).value;
    FirstAfterStatus(t.gov.proposals, k, Timelocked((at + TIMELOCK) % U64), other);
    assert (t.log + [e])[..|t.log|] == t.log;
  }

  lemma QueueIgnoresVotes(g: Gov, votes: seq<Vote>, nullifiers: seq<seq<byte>>, id: u64, at: u64)
    ensures Queue(Gov(g.proposals, votes, nullifiers), id, at).proposals == Queue(g, id, at).proposals
  {
  }

  lemma ActiveIsFound(ps: seq<Entry>, id: u64)
    requires SomeActive(ps, id)
    ensures FirstWith(ps, id).Some?
  {
  }

  lemma StepKeepsLaw(t: Trace, op: Op, verifies: Vote -> bool, id: u64)
    requires Lawful(t, id)
    ensures Lawful(Step(t, op, verifies), id)
  {
    hide FirstWith, NullifierOf, Queue;
    var u := Step(t, op, verifies);
    assert u.log[..|t.log|] == t.log;
    match op
    case SubmitOp(p) => FirstAfterSubmit(t.gov.proposals, Entry(p, Active), id);
    case CastOp(v, at) =>
      if Accepts(t.gov, v, verifies) {
        ActiveIsFound(t.gov.proposals, v.proposalId);
        QueueKeepsLaw(t, v.proposalId, at, Accepted(v, at), id);
        QueueIgnoresVotes(t.gov, t.gov.votes + [v], t.gov.nullifiers + [NullifierOf(v.voterHash)], v.proposalId, at);
      }
    case QueueOp(i, at) => QueueOpKeepsLaw(t, i, at, verifies, id);
    case ExecuteOp(i, now) =>
      if ExecuteOutcome(t.gov, i, now).Done? {
        FirstAfterStatus(t.gov.proposals, FirstWith(t.gov.proposals, i).value, Executed, id);
      }
  }

  lemma QueueOpKeepsLaw(t: Trace, i: u64, at: u64, verifies: Vote -> bool, id: u64)
    requires Lawful(t, id)
    ensures Lawful(Step(t, QueueOp(i, at), verifies), id)
  {
    hide FirstWith;
    assert (t.log + [Refused])[..|t.log|] == t.log;
    if FirstWith(t.gov.proposals, i).Some? {
      QueueKeepsLaw(t, i, at, Queued(i, at), id);
    }
  }

  /**
   In every run, whatever ids it repeats and whatever its clocks, the first proposal of an id has the status that the
   last vote, queueing or execution of the id in the log left it.
   */
  lemma {:induction false} StatusLaw(ops: seq<Op>, verifies: Vote -> bool, id: u64)
    ensures Lawful(Run(ops, verifies), id)
  {
    if ops != [] {
      hide Lawful, Step;
      StatusLaw(ops[..|ops| - 1], verifies, id);
      StepKeepsLaw(Run(ops[..|ops| - 1], verifies), ops[|ops| - 1], verifies, id);
    } else {
      assert FirstWith([], id) == None;
    }
  }

  /** The last event of the id locked it, and the lock has run out. */
  predicate Due(log: seq<Event>, id: u64, now: u64) {
    var touch := LastTouch(log, id);
    touch.Some? && Locks(touch.value, id) && (touch.value.at + 172800) % U64 <= now
  }

  /** After any run an execution is granted exactly when it is due by the log. */
  lemma ExecutesIffDue(ops: seq<Op>, verifies: Vote -> bool, id: u64, now: u64)
    ensures var t := Run(ops, verifies);
      ExecuteOutcome(t.gov, id, now).Done? <==> Due(t.log, id, now)
  {
    StatusLaw(ops, verifies, id);
    hide Run, FirstWith, LastTouch;
  }

  /** A refusal for the time that remains is one for a lock still running, and tells exactly what is left of it. */
  lemma RemainingCountsDown(ops: seq<Op>, verifies: Vote -> bool, id: u64, now: u64, remaining: nat)
    ensures var t := Run(ops, verifies);
      ExecuteOutcome(t.gov, id, now) == StillLocked(remaining) <==>
        && LastTouch(t.log, id).Some? && Locks(LastTouch(t.log, id).value, id)
        && remaining > 0
        && now + remaining == (LastTouch(t.log, id).value.at + 172800) % U64
  {
    StatusLaw(ops, verifies, id);
    hide Run, FirstWith, LastTouch;
  }

  // ---------------------------------------------------------------------------------------------------------------
  // The 48 hours
  // ---------------------------------------------------------------------------------------------------------------

  /** No vote or queueing is so late that its lock would wrap around. */
  ghost predicate ClocksInRange(ops: seq<Op>) {
    forall i :: 0 <= i < |ops| && (ops[i].CastOp? || ops[i].QueueOp?) ==> ops[i].at + TIMELOCK < U64
  }

  lemma {:induction false} LastTouchAt(log: seq<Event>, id: u64) returns (i: nat)
    requires LastTouch(log, id).Some?
    ensures i < |log| && log[i] == LastTouch(log, id).value && forall h :: i < h < |log| ==> !Touches(log[h], id)
  {
    var n := |log| - 1;
    if Touches(log[n], id) {
      i := n;
    } else {
      i := LastTouchAt(log[..n], id);
      assert forall h :: i < h < n ==> log[..n][h] == log[h];
    }
  }

  /** Event `i` locked the proposal that event `j` executed, 48 hours before, and it stayed locked in between. */
  predicate LockedFor(log: seq<Event>, i: nat, j: nat)
    requires i < |log| && j < |log| && log[j].Ran?
  {
    && i < j && Locks(log[i], log[j].id)
    && log[i].at + 48 * 60 * 60 <= log[j].when
    && forall h :: i < h < j ==> !Touches(log[h], log[j].id)
  }

  /**
   Every execution follows, 48 hours or more by the clock, the vote or queueing that locked its proposal, with no other
   execution in between; the lock came from an accepted vote unless the run queues the id itself. Ids may repeat.
   */
  lemma TimelockHolds(ops: seq<Op>, verifies: Vote -> bool, j: nat)
    requires ClocksInRange(ops)
    requires j < |Run(ops, verifies).log| && Run(ops, verifies).log[j].Ran?
    ensures var log := Run(ops, verifies).log;
      exists i: nat :: i < |log| && LockedFor(log, i, j)
        && (log[i].Accepted? || (i < |ops| && ops[i] == QueueOp(log[j].id, log[i].at)))
  {
    hide Run, Due, LockedFor, FirstWith, ExecuteOutcome;
    LogLength(ops, verifies);
    LogIsPointwise(ops, verifies, j);
    var log := Run(ops, verifies).log;
    ExecutesIffDue(ops[..j], verifies, ops[j].id, ops[j].when);
    var i := LockOf(log, j);
    LogIsPointwise(ops, verifies, i);
    assert ClocksInRange(ops) && (ops[i].CastOp? || ops[i].QueueOp?);
    LockedForAt(log, i, j);
  }

  lemma LockOf(log: seq<Event>, j: nat) returns (i: nat)
    requires j < |log| && log[j].Ran? && Due(log[..j], log[j].id, log[j].when)
    ensures i < j && Locks(log[i], log[j].id) && (log[i].at + 172800) % U64 <= log[j].when
    ensures forall h :: i < h < j ==> !Touches(log[h], log[j].id)
  {
    i := LastTouchAt(log[..j], log[j].id);
    assert forall h :: i <= h < j ==> log[h] == log[..j][h];
  }

  lemma LockedForAt(log: seq<Event>, i: nat, j: nat)
    requires i < j < |log| && log[j].Ran? && Locks(log[i], log[j].id) && log[i].at + TIMELOCK < U64
    requires (log[i].at + 172800) % U64 <= log[j].when
    requires forall h :: i < h < j ==> !Touches(log[h], log[j].id)
    ensures LockedFor(log, i, j)
  {
  }

  /** How often the log shows an event of this kind for the id. */
  function Locked(log: seq<Event>, id: u64): nat {
    if log == [] then 0 else Locked(log[..|log| - 1], id) + if Locks(log[|log| - 1], id) then 1 else 0
  }

  function Runs(log: seq<Event>, id: u64): nat {
    if log == [] then 0
    else Runs(log[..|log| - 1], id) + if log[|log| - 1].Ran? && log[|log| - 1].id == id then 1 else 0
  }

  function Queues(log: seq<Event>, id: u64): nat {
    if log == [] then 0
    else Queues(log[..|log| - 1], id) + if log[|log| - 1].Queued? && log[|log| - 1].id == id then 1 else 0
  }

  /** The votes a log says were accepted, in order. */
  function AcceptedVotes(log: seq<Event>): seq<Vote> {
    if log == [] then []
    else AcceptedVotes(log[..|log| - 1])
         + if log[|log| - 1].Accepted? then [log[|log| - 1].vote] else []
  }

  function VotesOn(votes: seq<Vote>, id: u64): nat {
    if votes == [] then 0
    else VotesOn(votes[..|votes| - 1], id) + if votes[|votes| - 1].proposalId == id then 1 else 0
  }

  lemma VotesAfter(log: seq<Event>, e: Event, id: u64)
    ensures VotesOn(AcceptedVotes(log + [e]), id) ==
            VotesOn(AcceptedVotes(log), id) + if e.Accepted? && e.vote.proposalId == id then 1 else 0
  {
    assert (log + [e])[..|log|] == log;
    var votes := AcceptedVotes(log);
    if e.Accepted? {
      assert (votes + [e.vote])[..|votes|] == votes;
    } else {
      assert AcceptedVotes(log + [e]) == votes;
    }
  }

  /** Whether the last event of the id left it locked. */
  predicate IsLocked(log: seq<Event>, id: u64) {
    LastTouch(log, id).Some? && Locks(LastTouch(log, id).value, id)
  }

  lemma CountsAfter(log: seq<Event>, e: Event, id: u64)
    ensures Locked(log + [e], id) == Locked(log, id) + if Locks(e, id) then 1 else 0
    ensures Runs(log + [e], id) == Runs(log, id) + if e.Ran? && e.id == id then 1 else 0
    ensures Queues(log + [e], id) == Queues(log, id) + if e.Queued? && e.id == id then 1 else 0
    ensures IsLocked(log + [e], id) <==> Locks(e, id) || (IsLocked(log, id) && !Touches(e, id))
  {
    assert (log + [e])[..|log|] == log;
  }

  /** Each execution of an id uses up a lock of it: there are no more executions than votes and queueings together. */
  lemma {:induction false} RunsUseLocks(ops: seq<Op>, verifies: Vote -> bool, id: u64)
    ensures var log := Run(ops, verifies).log;
      && Runs(log, id) + (if IsLocked(log, id) then 1 else 0) <= Locked(log, id)
      && Locked(log, id) == VotesOn(AcceptedVotes(log), id) + Queues(log, id)
  {
    if ops != [] {
      var front, op := ops[..|ops| - 1], ops[|ops| - 1];
      var t := Run(front, verifies);
      var e := EventOf(t.gov, op, verifies);
      hide EventOf, Apply, IsLocked, Locked, Runs, Queues, VotesOn, AcceptedVotes;
      RunsUseLocks(front, verifies, id);
      VotesAfter(t.log, e, id);
      CountsAfter(t.log, e, id);
      RanWasLocked(front, op, verifies, id);
    }
  }

  lemma RanWasLocked(ops: seq<Op>, op: Op, verifies: Vote -> bool, id: u64)
    ensures var t := Run(ops, verifies);
      var e := EventOf(t.gov, op, verifies);
      e.Ran? && e.id == id ==> IsLocked(t.log, id)
  {
    hide Run, FirstWith, ExecuteOutcome, LastTouch, Accepts;
    if op.ExecuteOp? {
      ExecutesIffDue(ops, verifies, op.id, op.when);
    }
  }

  // ---------------------------------------------------------------------------------------------------------------
  // How often an id was submitted
  // ---------------------------------------------------------------------------------------------------------------

  function Entries(ps: seq<Entry>, id: u64): nat {
    if ps == [] then 0
    else Entries(ps[..|ps| - 1], id) + if ps[|ps| - 1].proposal.id == id then 1 else 0
  }

  function Submissions(ops: seq<Op>, id: u64): nat {
    if ops == [] then 0
    else Submissions(ops[..|ops| - 1], id)
         + if ops[|ops| - 1].SubmitOp? && ops[|ops| - 1].proposal.id == id then 1 else 0
  }

  lemma {:induction false} SameIdsSameEntries(ps: seq<Entry>, qs: seq<Entry>, id: u64)
    requires |ps| == |qs| && forall k :: 0 <= k < |ps| ==> ps[k].proposal == qs[k].proposal
    ensures Entries(ps, id) == Entries(qs, id)
  {
    if ps != [] {
      SameIdsSameEntries(ps[..|ps| - 1], qs[..|qs| - 1], id);
    }
  }

  /** Proposals are only ever appended; only a status changes. */
  lemma StepKeepsProposals(g: Gov, op: Op, verifies: Vote -> bool)
    ensures var h := Apply(g, op, verifies);
      && |h.proposals| == |g.proposals| + (if op.SubmitOp? then 1 else 0)
      && (forall k :: 0 <= k < |g.proposals| ==> h.proposals[k].proposal == g.proposals[k].proposal)
      && (op.SubmitOp? ==> h.proposals == g.proposals + [Entry(op.proposal, Active)])
  {
    hide Accepts, NullifierOf;
  }

  lemma {:induction false} EntriesAreSubmissions(ops: seq<Op>, verifies: Vote -> bool, id: u64)
    ensures Entries(Run(ops, verifies).gov.proposals, id) == Submissions(ops, id)
  {
    if ops != [] {
      var front, op := ops[..|ops| - 1], ops[|ops| - 1];
      var g, h := Run(front, verifies).gov, Run(ops, verifies).gov;
      EntriesAreSubmissions(front, verifies, id);
      StepKeepsProposals(g, op, verifies);
      hide Run, Apply;
      SameIdsSameEntries(g.proposals, h.proposals[..|g.proposals|], id);
      if !op.SubmitOp? {
        assert h.proposals[..|g.proposals|] == h.proposals;
      }
    }
  }

  lemma {:induction false} EntriesFound(ps: seq<Entry>, id: u64)
    ensures Entries(ps, id) > 0 <==> FirstWith(ps, id).Some?
  {
    if ps != [] {
      var n := |ps| - 1;
      EntriesFound(ps[..n], id);
      assert ps == ps[..n] + [ps[n]];
      FirstAfterSubmit(ps[..n], ps[n], id);
    }
  }

  lemma {:induction false} OnlyEntry(ps: seq<Entry>, id: u64, k: nat)
    requires Entries(ps, id) <= 1 && k < |ps| && ps[k].proposal.id == id
    ensures FirstWith(ps, id) == Some(k)
  {
    var n := |ps| - 1;
    assert ps == ps[..n] + [ps[n]];
    FirstAfterSubmit(ps[..n], ps[n], id);
    EntriesFound(ps[..n], id);
    if k < n {
      OnlyEntry(ps[..n], id, k);
    }
  }

  lemma {:induction false} SecondEntry(ps: seq<Entry>, id: u64) returns (k: nat)
    requires Entries(ps, id) >= 2
    ensures k < |ps| && ps[k].proposal.id == id && FirstWith(ps, id) != Some(k)
  {
    var n := |ps| - 1;
    assert ps == ps[..n] + [ps[n]];
    FirstAfterSubmit(ps[..n], ps[n], id);
    EntriesFound(ps[..n], id);
    if ps[n].proposal.id == id {
      k := n;
    } else {
      k := SecondEntry(ps[..n], id);
    }
  }

  /** Only the first proposal of an id is ever looked up, so later ones stay active for ever. */
  ghost predicate TwinsActive(ps: seq<Entry>) {
    forall k :: 0 <= k < |ps| ==> FirstWith(ps, ps[k].proposal.id) == Some(k) || ps[k].status.Active?
  }

  lemma StatusKeepsTwins(ps: seq<Entry>, id: u64, s: Status)
    requires TwinsActive(ps) && FirstWith(ps, id).Some?
    ensures TwinsActive(SetStatus(ps, FirstWith(ps, id).value, s))
  {
    hide FirstWith;
    var f := FirstWith(ps, id).value;
    var qs := SetStatus(ps, f, s);
    forall k | 0 <= k < |qs| ensures FirstWith(qs, qs[k].proposal.id) == Some(k) || qs[k].status.Active? {
      FirstAfterStatus(ps, f, s, ps[k].proposal.id);
    }
  }

  lemma SubmitKeepsTwins(ps: seq<Entry>, p: Proposal)
    requires TwinsActive(ps)
    ensures TwinsActive(ps + [Entry(p, Active)])
  {
    hide FirstWith;
    var qs := ps + [Entry(p, Active)];
    forall k | 0 <= k < |ps| ensures FirstWith(qs, qs[k].proposal.id) == Some(k) || qs[k].status.Active? {
      FirstAfterSubmit(ps, Entry(p, Active), ps[k].proposal.id);
    }
  }

  lemma {:induction false} TwinsStayActive(ops: seq<Op>, verifies: Vote -> bool)
    ensures TwinsActive(Run(ops, verifies).gov.proposals)
  {
    if ops != [] {
      var g, op := Run(ops[..|ops| - 1], verifies).gov, ops[|ops| - 1];
      TwinsStayActive(ops[..|ops| - 1], verifies);
      StepKeepsTwins(g, op, verifies);
    }
  }

  lemma StepKeepsTwins(g: Gov, op: Op, verifies: Vote -> bool)
    requires TwinsActive(g.proposals)
    ensures TwinsActive(Apply(g, op, verifies).proposals)
  {
    hide TwinsActive, FirstWith, SomeActive, NullifierOf, SetStatus;
    match op
    case SubmitOp(p) => SubmitKeepsTwins(g.proposals, p);
    case CastOp(v, at) =>
      if FirstWith(g.proposals, v.proposalId).Some? {
        StatusKeepsTwins(g.proposals, v.proposalId, Timelocked((at + TIMELOCK) % U64));
      }
    case QueueOp(id, at) =>
      if FirstWith(g.proposals, id).Some? {
        StatusKeepsTwins(g.proposals, id, Timelocked((at + TIMELOCK) % U64));
      }
    case ExecuteOp(id, now) =>
      if FirstWith(g.proposals, id).Some? {
        StatusKeepsTwins(g.proposals, id, Executed);
      }
  }

  /** The proposals submitted, in order. */
  function Submitting(ops: seq<Op>): seq<Proposal> {
    if ops == [] then []
    else Submitting(ops[..|ops| - 1]) + if ops[|ops| - 1].SubmitOp? then [ops[|ops| - 1].proposal] else []
  }

  /** The engine keeps every proposal as it was submitted, in order. */
  lemma {:induction false} ProposalsAreKept(ops: seq<Op>, verifies: Vote -> bool)
    ensures var ps := Run(ops, verifies).gov.proposals;
      |ps| == |Submitting(ops)| && forall k :: 0 <= k < |ps| ==> ps[k].proposal == Submitting(ops)[k]
  {
    if ops != [] {
      var front, op := ops[..|ops| - 1], ops[|ops| - 1];
      ProposalsAreKept(front, verifies);
      StepKeepsProposals(Run(front, verifies).gov, op, verifies);
      hide Apply;
    }
  }

  /** An execution hands out the hash of the proposal first submitted under the id. */
  lemma FirstHashIsReturned(ops: seq<Op>, verifies: Vote -> bool, id: u64, now: u64)
    requires ExecuteOutcome(Run(ops, verifies).gov, id, now).Done?
    ensures var ps := Submitting(ops);
      exists k: nat :: k < |ps| && ps[k].id == id && (forall j :: 0 <= j < k ==> ps[j].id != id)
        && ExecuteOutcome(Run(ops, verifies).gov, id, now) == Done(ps[k].executionHash)
  {
    ProposalsAreKept(ops, verifies);
    hide Run, Submitting;
    var k := FirstWith(Run(ops, verifies).gov.proposals, id).value;
    assert Submitting(ops)[k].id == id;
  }

  /** The refusals: an id never submitted is not found; one neither locked nor found is not locked. */
  lemma RefusalsTell(ops: seq<Op>, verifies: Vote -> bool, id: u64, now: u64)
    ensures var t := Run(ops, verifies);
      && (ExecuteOutcome(t.gov, id, now) == NotFound <==> Submissions(ops, id) == 0)
      && (ExecuteOutcome(t.gov, id, now) == NotTimelocked <==>
            Submissions(ops, id) > 0 && (LastTouch(t.log, id).None? || LastTouch(t.log, id).value.Ran?))
  {
    StatusLaw(ops, verifies, id);
    EntriesAreSubmissions(ops, verifies, id);
    EntriesFound(Run(ops, verifies).gov.proposals, id);
    hide Run, FirstWith, LastTouch, Entries, Submissions;
  }

  // ---------------------------------------------------------------------------------------------------------------
  // Which votes count
  // ---------------------------------------------------------------------------------------------------------------

  /** One nullifier per vote, the one its voter hash stands for, and never the same twice. */
  ghost predicate NullifiersOk(g: Gov) {
    && |g.nullifiers| == |g.votes|
    && (forall i :: 0 <= i < |g.votes| ==> g.nullifiers[i] == NullifierOf(g.votes[i].voterHash))
    && (forall i, j :: 0 <= i < j < |g.nullifiers| ==> g.nullifiers[i] != g.nullifiers[j])
  }

  lemma VoteKeepsNullifiers(g: Gov, v: Vote, proposals: seq<Entry>)
    requires NullifiersOk(g) && NullifierOf(v.voterHash) !in g.nullifiers
    ensures NullifiersOk(Gov(proposals, g.votes + [v], g.nullifiers + [NullifierOf(v.voterHash)]))
  {
    hide NullifierOf;
  }

  lemma StepKeepsNullifiers(t: Trace, op: Op, verifies: Vote -> bool)
    requires NullifiersOk(t.gov) && t.gov.votes == AcceptedVotes(t.log)
    ensures var u := Step(t, op, verifies);
      NullifiersOk(u.gov) && u.gov.votes == AcceptedVotes(u.log)
  {
    hide NullifierOf, SomeActive, FirstWith, SetStatus, ExecuteOutcome;
    var u := Step(t, op, verifies);
    assert u.log[..|u.log| - 1] == t.log;
    if op.CastOp? && Accepts(t.gov, op.vote, verifies) {
      VoteKeepsNullifiers(t.gov, op.vote, u.gov.proposals);
    } else {
      assert u.gov.votes == t.gov.votes && u.gov.nullifiers == t.gov.nullifiers;
    }
  }

  /**
   The votes kept are those accepted, there is one nullifier for each, the one its voter hash stands for, and no
   nullifier is ever used twice.
   */
  lemma {:induction false} NullifiersUsedOnce(ops: seq<Op>, verifies: Vote -> bool)
    ensures var t := Run(ops, verifies);
      NullifiersOk(t.gov) && t.gov.votes == AcceptedVotes(t.log)
  {
    if ops != [] {
      var n := |ops| - 1;
      NullifiersUsedOnce(ops[..n], verifies);
      StepKeepsNullifiers(Run(ops[..n], verifies), ops[n], verifies);
    }
  }

  lemma NullifiersOfVotes(g: Gov, n: seq<byte>)
    requires NullifiersOk(g)
    ensures n in g.nullifiers <==> exists w :: w in g.votes && NullifierOf(w.voterHash) == n
  {
    hide NullifierOf;
    if n in g.nullifiers {
      var i :| 0 <= i < |g.nullifiers| && g.nullifiers[i] == n;
      assert g.votes[i] in g.votes;
    }
    forall w | w in g.votes ensures NullifierOf(w.voterHash) in g.nullifiers {
      var i :| 0 <= i < |g.votes| && g.votes[i] == w;
      assert g.nullifiers[i] == NullifierOf(w.voterHash);
    }
  }

  lemma SomeActiveIff(ps: seq<Entry>, id: u64)
    requires TwinsActive(ps)
    ensures SomeActive(ps, id) <==>
            Entries(ps, id) >= 2 || (FirstWith(ps, id).Some? && ps[FirstWith(ps, id).value].status.Active?)
  {
    hide FirstWith, Entries;
    if Entries(ps, id) >= 2 {
      var k := SecondEntry(ps, id);
    }
    if SomeActive(ps, id) && Entries(ps, id) < 2 {
      var k :| 0 <= k < |ps| && ps[k].proposal.id == id && ps[k].status.Active?;
      OnlyEntry(ps, id, k);
    }
  }

  /** The id is open to a vote: submitted twice, or once and neither voted on nor queued. */
  predicate Open(ops: seq<Op>, log: seq<Event>, id: u64) {
    Submissions(ops, id) >= 2 || (Submissions(ops, id) == 1 && LastTouch(log, id).None?)
  }

  lemma OpenIffActive(ops: seq<Op>, verifies: Vote -> bool, id: u64)
    ensures var t := Run(ops, verifies);
      SomeActive(t.gov.proposals, id) <==> Open(ops, t.log, id)
  {
    var t := Run(ops, verifies);
    StatusLaw(ops, verifies, id);
    TwinsStayActive(ops, verifies);
    EntriesAreSubmissions(ops, verifies, id);
    EntriesFound(t.gov.proposals, id);
    hide Run, FirstWith, LastTouch, SomeActive, Entries, Submissions, TwinsActive;
    SomeActiveIff(t.gov.proposals, id);
  }

  /**
   After any run a vote counts exactly when its proof verifies, no accepted vote has its nullifier, and its proposal is
   open. Voter hashes that are no 32 bytes share one nullifier, so one of them counts at most.
   */
  lemma CountsIffOpen(ops: seq<Op>, verifies: Vote -> bool, v: Vote)
    ensures var t := Run(ops, verifies);
      Accepts(t.gov, v, verifies) <==>
        && Open(ops, t.log, v.proposalId)
        && (forall w :: w in AcceptedVotes(t.log) ==> NullifierOf(w.voterHash) != NullifierOf(v.voterHash))
        && verifies(v)
  {
    hide NullifierOf, SomeActive, Open, Run, AcceptedVotes;
    var t := Run(ops, verifies);
    OpenIffActive(ops, verifies, v.proposalId);
    NullifiersUsedOnce(ops, verifies);
    NullifiersOfVotes(t.gov, NullifierOf(v.voterHash));
  }

  // ---------------------------------------------------------------------------------------------------------------
  // What the voter hash stands for
  // ---------------------------------------------------------------------------------------------------------------

  /** A hash of 32 bytes, written in hexadecimal, stands for those bytes. */
  lemma HashStandsForBytes(b: seq<byte>)
    requires |b| == 32
    ensures NullifierOf(Hex.Encode(b)) == b
  {
    Hex.DecodeEncode(b);
  }

  predicate IsHash(hash: string) {
    |hash| == 64 && forall i :: 0 <= i < 64 ==> Hex.IsDigit(hash[i])
  }

  /** All other texts, and the hash of 64 zeros, stand for 32 zeros, and they alone do. */
  lemma ZerosIff(hash: string)
    ensures NullifierOf(hash) == Zeros(32) <==> !IsHash(hash) || forall i :: 0 <= i < 64 ==> hash[i] == '0'
  {
    Hex.DecodesIff(hash);
    if IsHash(hash) {
      var b := Hex.Decode(hash).value;
      hide Hex.Decode, Zeros;
      if b == Zeros(32) {
        forall i | 0 <= i < 64 ensures hash[i] == '0' {
          Hex.DecodesAt(hash, i / 2);
        }
      }
      if forall i :: 0 <= i < 64 ==> hash[i] == '0' {
        forall k | 0 <= k < 32 ensures b[k] == Zeros(32)[k] {
          Hex.DecodesAt(hash, k);
        }
      }
    }
  }

  /** An accepted vote puts the bytes of its hash on the list. */
  lemma VoteSpendsItsHash(g: Gov, v: Vote, at: u64, verifies: Vote -> bool, b: seq<byte>)
    requires Accepts(g, v, verifies) && |b| == 32 && v.voterHash == Hex.Encode(b)
    ensures Cast(g, v, at, verifies).nullifiers == g.nullifiers + [b]
  {
    HashStandsForBytes(b);
    hide NullifierOf, SomeActive, FirstWith, SetStatus;
  }

  lemma SameBytesIff(hash: string, b: seq<byte>)
    requires |b| == 32 && b != Zeros(32)
    ensures NullifierOf(hash) == b <==> Hex.Decode(hash) == Some(b)
  {
    hide Hex.Decode;
  }

  /**
   A vote whose hash is 32 bytes, not all zero, counts after any run exactly when its proof verifies, its proposal is
   open, and no accepted vote has a hash of the same bytes. Other voters never stand in its way.
   */
  lemma VoterCountsIffNew(ops: seq<Op>, verifies: Vote -> bool, v: Vote, b: seq<byte>)
    requires |b| == 32 && b != Zeros(32) && v.voterHash == Hex.Encode(b)
    ensures var t := Run(ops, verifies);
      Accepts(t.gov, v, verifies) <==>
        && Open(ops, t.log, v.proposalId)
        && (forall w :: w in AcceptedVotes(t.log) ==> Hex.Decode(w.voterHash) != Some(b))
        && verifies(v)
  {
    hide Run, Open, AcceptedVotes, NullifierOf, Hex.Decode;
    CountsIffOpen(ops, verifies, v);
    HashStandsForBytes(b);
    forall w | w in AcceptedVotes(Run(ops, verifies).log)
      ensures NullifierOf(w.voterHash) == b <==> Hex.Decode(w.voterHash) == Some(b)
    {
      SameBytesIff(w.voterHash, b);
    }
  }

  /** Two voters with different hashes never exclude each other from voting on two proposals. */
  lemma VotersDoNotExclude(
      ops: seq<Op>, verifies: Vote -> bool, v: Vote, a: seq<byte>, w: Vote, b: seq<byte>, at: u64)
    requires |a| == |b| == 32 && a != b && v.voterHash == Hex.Encode(a) && w.voterHash == Hex.Encode(b)
    requires v.proposalId != w.proposalId && Accepts(Run(ops, verifies).gov, w, verifies)
    ensures Accepts(Run(ops + [CastOp(v, at)], verifies).gov, w, verifies)
  {
    HashStandsForBytes(a);
    HashStandsForBytes(b);
    RunMore(ops, CastOp(v, at), verifies);
    SubmissionsAfter(ops, CastOp(v, at), w.proposalId);
    var t := Run(ops, verifies);
    LastTouchAfter(t.log, EventOf(t.gov, CastOp(v, at), verifies), w.proposalId);
    OpenIffActive(ops, verifies, w.proposalId);
    OpenIffActive(ops + [CastOp(v, at)], verifies, w.proposalId);
    hide Run, NullifierOf, Hex.Encode, SomeActive, Submissions, LastTouch, Queue;
    CastAddsOne(t.gov, v, at, verifies);
  }

  lemma CastAddsOne(g: Gov, v: Vote, at: u64, verifies: Vote -> bool)
    ensures Cast(g, v, at, verifies).nullifiers
            == if Accepts(g, v, verifies) then g.nullifiers + [NullifierOf(v.voterHash)] else g.nullifiers
  {
    hide NullifierOf, SomeActive, FirstWith, SetStatus;
  }

  // ---------------------------------------------------------------------------------------------------------------
  // Once, and when it is not once
  // ---------------------------------------------------------------------------------------------------------------

  lemma {:induction false} UntouchedHasNoVotes(log: seq<Event>, id: u64)
    requires LastTouch(log, id).None?
    ensures VotesOn(AcceptedVotes(log), id) == 0
  {
    if log != [] {
      var front, last := log[..|log| - 1], log[|log| - 1];
      UntouchedHasNoVotes(front, id);
      VotesAfter(front, last, id);
      assert front + [last] == log;
    }
  }

  /** An id submitted once gets one vote at most, and runs once at most, and once more for each queueing by itself. */
  lemma {:induction false} OnceEach(ops: seq<Op>, verifies: Vote -> bool, id: u64)
    requires Submissions(ops, id) <= 1
    ensures var log := Run(ops, verifies).log;
      VotesOn(AcceptedVotes(log), id) <= 1 && Runs(log, id) <= 1 + Queues(log, id)
  {
    RunsUseLocks(ops, verifies, id);
    if ops != [] {
      var front, op := ops[..|ops| - 1], ops[|ops| - 1];
      var t := Run(front, verifies);
      var e := EventOf(t.gov, op, verifies);
      OnceEach(front, verifies, id);
      hide Apply, FirstWith, NullifierOf, Runs, Queues, LastTouch, Accepts, VotesOn, AcceptedVotes, ExecuteOutcome;
      VotesAfter(t.log, e, id);
      if op.CastOp? && op.vote.proposalId == id {
        CountsIffOpen(front, verifies, op.vote);
        if LastTouch(t.log, id).None? {
          UntouchedHasNoVotes(t.log, id);
        }
      }
    }
  }

  lemma SubmissionsAfter(ops: seq<Op>, op: Op, id: u64)
    ensures Submissions(ops + [op], id) ==
            Submissions(ops, id) + if op.SubmitOp? && op.proposal.id == id then 1 else 0
  {
    assert (ops + [op])[..|ops|] == ops;
  }

  lemma LastTouchAfter(log: seq<Event>, e: Event, id: u64)
    ensures LastTouch(log + [e], id) == if Touches(e, id) then Some(e) else LastTouch(log, id)
  {
    assert (log + [e])[..|log|] == log;
  }

  /** What one vote that counts and one execution 48 hours later add to a run. */
  lemma RoundRuns(ops: seq<Op>, verifies: Vote -> bool, v: Vote, at: u64, later: u64)
    requires Accepts(Run(ops, verifies).gov, v, verifies) && at + TIMELOCK <= later
    ensures var t := Run(ops, verifies);
      var u := Run(ops + [CastOp(v, at)] + [ExecuteOp(v.proposalId, later)], verifies);
      && u.log == t.log + [Accepted(v, at)] + [Ran(v.proposalId, later)]
      && u.gov.nullifiers == t.gov.nullifiers + [NullifierOf(v.voterHash)]
  {
    var t, voted, id := Run(ops, verifies), ops + [CastOp(v, at)], v.proposalId;
    RunMore(ops, CastOp(v, at), verifies);
    RunMore(voted, ExecuteOp(id, later), verifies);
    hide Run, NullifierOf, FirstWith, Accepts, ExecuteOutcome;
    assert Run(voted, verifies).log == t.log + [Accepted(v, at)];
    LastTouchAfter(t.log, Accepted(v, at), id);
    ExecutesIffDue(voted, verifies, id, later);
  }

  /**
   And when an id was submitted twice, in any run, any two votes on it that verify and have new nullifiers make it run
   twice more. So an id is safe from running twice exactly when it is submitted once and not queued by itself.
   */
  lemma SubmittedTwiceRunsTwice(ops: seq<Op>, verifies: Vote -> bool, v: Vote, w: Vote, at: u64, later: u64)
    requires Submissions(ops, v.proposalId) >= 2 && w.proposalId == v.proposalId
    requires verifies(v) && verifies(w) && NullifierOf(v.voterHash) != NullifierOf(w.voterHash)
    requires NullifierOf(v.voterHash) !in Run(ops, verifies).gov.nullifiers
    requires NullifierOf(w.voterHash) !in Run(ops, verifies).gov.nullifiers
    requires at + TIMELOCK <= later
    ensures var run := ExecuteOp(v.proposalId, later);
      Run(ops + [CastOp(v, at)] + [run] + [CastOp(w, at)] + [run], verifies).log
        == Run(ops, verifies).log + [Accepted(v, at)] + [Ran(v.proposalId, later)]
           + [Accepted(w, at)] + [Ran(v.proposalId, later)]
  {
    var id := v.proposalId;
    var once := ops + [CastOp(v, at)] + [ExecuteOp(id, later)];
    SubmissionsAfter(ops, CastOp(v, at), id);
    SubmissionsAfter(ops + [CastOp(v, at)], ExecuteOp(id, later), id);
    OpenIffActive(ops, verifies, id);
    OpenIffActive(once, verifies, id);
    hide Run, NullifierOf, SomeActive, Submissions, LastTouch;
    RoundRuns(ops, verifies, v, at, later);
    RoundRuns(once, verifies, w, at, later);
  }

  /** Queueing outside a vote locks a submitted id again, so it runs again after 48 hours, in any run and unvoted. */
  lemma QueueingReopens(ops: seq<Op>, verifies: Vote -> bool, id: u64, at: u64, later: u64)
    requires Submissions(ops, id) >= 1 && at + TIMELOCK <= later
    ensures Run(ops + [QueueOp(id, at)] + [ExecuteOp(id, later)], verifies).log
            == Run(ops, verifies).log + [Queued(id, at)] + [Ran(id, later)]
  {
    var t, queued := Run(ops, verifies), ops + [QueueOp(id, at)];
    EntriesAreSubmissions(ops, verifies, id);
    EntriesFound(t.gov.proposals, id);
    RunMore(ops, QueueOp(id, at), verifies);
    RunMore(queued, ExecuteOp(id, later), verifies);
    hide Run, FirstWith, ExecuteOutcome, Entries, Submissions;
    assert Run(queued, verifies).log == t.log + [Queued(id, at)];
    LastTouchAfter(t.log, Queued(id, at), id);
    ExecutesIffDue(queued, verifies, id, later);
  }

  // ---------------------------------------------------------------------------------------------------------------
  // The course of one proposal
  // ---------------------------------------------------------------------------------------------------------------

  function Rank(s: Status): nat {
    match s
    case Active => 1
    case Timelocked(_) => 2
    case Executed => 3
    case _ => 0
  }

  /** One operation moves a proposal submitted once by at most one rank, and never backwards, unless it queues it. */
  lemma StepAdvances(g: Gov, op: Op, verifies: Vote -> bool, k: nat)
    requires k < |g.proposals| && Entries(g.proposals, g.proposals[k].proposal.id) <= 1
    requires op.QueueOp? ==> op.id != g.proposals[k].proposal.id
    ensures var h := Apply(g, op, verifies);
      && k < |h.proposals|
      && h.proposals[k].proposal == g.proposals[k].proposal
      && Rank(g.proposals[k].status) <= Rank(h.proposals[k].status) <= Rank(g.proposals[k].status) + 1
      && (h.proposals[k].status == g.proposals[k].status
          || Rank(h.proposals[k].status) == Rank(g.proposals[k].status) + 1)
  {
    hide FirstWith, Entries, NullifierOf;
    OnlyEntry(g.proposals, g.proposals[k].proposal.id, k);
    if op.CastOp? && Accepts(g, op.vote, verifies) && op.vote.proposalId == g.proposals[k].proposal.id {
      var i :| 0 <= i < |g.proposals| && g.proposals[i].proposal.id == op.vote.proposalId
               && g.proposals[i].status.Active?;
      OnlyEntry(g.proposals, g.proposals[k].proposal.id, i);
    }
  }

  /**
   Over any continuation of a run, a proposal whose id is submitted once and not queued outside a vote only advances,
   from active to locked to executed, whatever happens to other ids.
   */
  lemma {:induction false} StatusOnlyAdvances(ops: seq<Op>, verifies: Vote -> bool, early: nat, k: nat)
    requires early <= |ops| && k < |Run(ops[..early], verifies).gov.proposals|
    requires Submissions(ops, Run(ops[..early], verifies).gov.proposals[k].proposal.id) <= 1
    requires forall i :: early <= i < |ops| && ops[i].QueueOp? ==>
               ops[i].id != Run(ops[..early], verifies).gov.proposals[k].proposal.id
    ensures var before, after := Run(ops[..early], verifies).gov.proposals, Run(ops, verifies).gov.proposals;
      && k < |after|
      && after[k].proposal == before[k].proposal
      && Rank(before[k].status) <= Rank(after[k].status)
  {
    if early == |ops| {
      assert ops[..early] == ops;
    } else {
      var front, op := ops[..|ops| - 1], ops[|ops| - 1];
      var id := Run(ops[..early], verifies).gov.proposals[k].proposal.id;
      assert front[..early] == ops[..early] && ops == front + [op];
      SubmissionsAfter(front, op, id);
      StatusOnlyAdvances(front, verifies, early, k);
      EntriesAreSubmissions(front, verifies, id);
      RunMore(front, op, verifies);
      hide Run, Apply, Submissions, Entries;
      StepAdvances(Run(front, verifies).gov, op, verifies, k);
    }
  }

  /** No other status than these is ever taken, whatever the run. */
  lemma StatusIsKnown(ops: seq<Op>, verifies: Vote -> bool, k: nat)
    requires k < |Run(ops, verifies).gov.proposals|
    ensures Rank(Run(ops, verifies).gov.proposals[k].status) > 0
  {
    TwinsStayActive(ops, verifies);
    StatusLaw(ops, verifies, Run(ops, verifies).gov.proposals[k].proposal.id);
    hide Run, FirstWith;
  }

  // ---------------------------------------------------------------------------------------------------------------
  // The books
  // ---------------------------------------------------------------------------------------------------------------

  function NonActive(ps: seq<Entry>): nat {
    if ps == [] then 0
    else (if ps[|ps| - 1].status.Active? then 0 else 1) + NonActive(ps[..|ps| - 1])
  }

  lemma {:induction false} NonActiveUpdate(ps: seq<Entry>, k: nat, s: Status)
    requires k < |ps| && !s.Active?
    ensures NonActive(SetStatus(ps, k, s)) == NonActive(ps) + if ps[k].status.Active? then 1 else 0
  {
    var n := |ps| - 1;
    var qs := SetStatus(ps, k, s);
    if k == n {
      assert qs[..n] == ps[..n];
    } else {
      assert qs[..n] == SetStatus(ps[..n], k, s);
      NonActiveUpdate(ps[..n], k, s);
    }
  }

  /** No id is submitted twice, and none is queued outside a vote. */
  ghost predicate Orderly(ops: seq<Op>) {
    (forall id :: Submissions(ops, id) <= 1) && forall op :: op in ops ==> !op.QueueOp?
  }

  lemma OrderlyFront(ops: seq<Op>)
    requires Orderly(ops) && ops != []
    ensures Orderly(ops[..|ops| - 1])
  {
    var front := ops[..|ops| - 1];
    assert ops == front + [ops[|ops| - 1]];
    forall id: u64 ensures Submissions(front, id) <= 1 {
      assert Submissions(front, id) <= Submissions(ops, id);
    }
  }

  lemma StepBalances(g: Gov, op: Op, verifies: Vote -> bool)
    requires NonActive(g.proposals) == |g.votes| && !op.QueueOp?
    requires op.CastOp? ==> Entries(g.proposals, op.vote.proposalId) <= 1
    ensures var h := Apply(g, op, verifies);
      NonActive(h.proposals) == |h.votes|
  {
    hide FirstWith, Entries, NullifierOf, NonActive;
    match op
    case SubmitOp(p) => NonActiveSubmit(g.proposals, p);
    case CastOp(v, at) =>
      if Accepts(g, v, verifies) {
        var k :| 0 <= k < |g.proposals| && g.proposals[k].proposal.id == v.proposalId && g.proposals[k].status.Active?;
        OnlyEntry(g.proposals, v.proposalId, k);
        NonActiveUpdate(g.proposals, k, Timelocked((at + TIMELOCK) % U64));
      }
    case ExecuteOp(id, now) =>
      if ExecuteOutcome(g, id, now).Done? {
        NonActiveUpdate(g.proposals, FirstWith(g.proposals, id).value, Executed);
      }
    case _ =>
  }

  lemma NonActiveSubmit(ps: seq<Entry>, p: Proposal)
    ensures NonActive(ps + [Entry(p, Active)]) == NonActive(ps)
  {
    assert (ps + [Entry(p, Active)])[..|ps|] == ps;
  }

  lemma {:induction false} TwoVotes(votes: seq<Vote>, i: nat, j: nat)
    requires i < j < |votes| && votes[i].proposalId == votes[j].proposalId
    ensures VotesOn(votes, votes[i].proposalId) >= 2
  {
    var front := votes[..|votes| - 1];
    if j < |front| {
      TwoVotes(front, i, j);
    } else {
      OneVote(front, i);
    }
  }

  lemma {:induction false} OneVote(votes: seq<Vote>, i: nat)
    requires i < |votes|
    ensures VotesOn(votes, votes[i].proposalId) >= 1
  {
    if i < |votes| - 1 {
      OneVote(votes[..|votes| - 1], i);
    }
  }

  /** In an orderly run exactly as many proposals have left the active state as there are votes. */
  lemma {:induction false} VotesAddUp(ops: seq<Op>, verifies: Vote -> bool)
    requires Orderly(ops)
    ensures NonActive(Run(ops, verifies).gov.proposals) == |Run(ops, verifies).gov.votes|
  {
    if ops != [] {
      var front, op := ops[..|ops| - 1], ops[|ops| - 1];
      OrderlyFront(ops);
      VotesAddUp(front, verifies);
      if op.CastOp? {
        EntriesAreSubmissions(front, verifies, op.vote.proposalId);
      }
      hide Apply, Entries, Submissions, NonActive;
      StepBalances(Run(front, verifies).gov, op, verifies);
    }
  }

  /** Two accepted votes concern two proposals, unless the id they share was submitted twice. */
  lemma VotesAreDistinct(ops: seq<Op>, verifies: Vote -> bool, i: nat, j: nat)
    requires i < j < |Run(ops, verifies).gov.votes|
    requires Submissions(ops, Run(ops, verifies).gov.votes[i].proposalId) <= 1
    ensures Run(ops, verifies).gov.votes[i].proposalId != Run(ops, verifies).gov.votes[j].proposalId
  {
    var votes := Run(ops, verifies).gov.votes;
    NullifiersUsedOnce(ops, verifies);
    OnceEach(ops, verifies, votes[i].proposalId);
    if votes[i].proposalId == votes[j].proposalId {
      TwoVotes(votes, i, j);
    }
  }
}
