/**
 Vortex's count of active connections: an atomic 64-bit counter that fetches and downloads raise and lower around
 their steps, under every interleaving of any number of them.
 */
module Connections {
  import opened Words

  datatype Kind = Fetch | Download

  /** Where a call stands between two steps that others can see. */
  datatype Place = Ready | Counted | Connecting | Refused | Open | Read | Returning | Done

  /** `leaked` counts the increments of the call that nobody will ever give back. */
  datatype Call = Call(kind: Kind, place: Place, leaked: nat)

  /**
   Start and Finish are the outer increment and decrement; Direct ends a call that opens no stream (a blocked or
   malformed address, the plain HTTP client); Connect and Undo are `connect_stream`'s own pair; Close is the decrement
   after a fetch has read its response; Timeout drops a download wherever it waits.
   */
  datatype Act = Start | Direct | Connect | ConnectFails | Undo | Opens | IoFails | Reads | Close | Timeout | Finish

  datatype Event = Event(call: nat, act: Act)

  /** Increments of the call that some later step of it gives back. */
  function Held(c: Call): nat {
    match c.place
    case Ready => 0
    case Counted => 1
    case Connecting => 2
    case Refused => 2
    case Open => if c.kind == Download then 1 else 2
    case Read => 2
    case Returning => 1
    case Done => 0
  }

  predicate Enabled(c: Call, act: Act) {
    match act
    case Start => c.place == Ready
    case Direct => c.place == Counted
    case Connect => c.place == Counted
    case ConnectFails => c.place == Connecting
    case Undo => c.place == Refused
    case Opens => c.place == Connecting
    case IoFails => c.place == Open
    case Reads => c.place == Open
    case Close => c.place == Read
    case Timeout => c.kind == Download && (c.place == Connecting || c.place == Open)
    case Finish => c.place == Returning
  }

  function Move(c: Call, act: Act): Call
    requires Enabled(c, act)
  {
    match act
    case Start => c.(place := Counted)
    case Direct => c.(place := Returning)
    case Connect => c.(place := Connecting)
    case ConnectFails => c.(place := Refused)
    case Undo => c.(place := Returning)
    case Opens => c.(place := Open, leaked := if c.kind == Download then c.leaked + 1 else c.leaked)
    case IoFails => c.(place := Returning, leaked := if c.kind == Fetch then c.leaked + 1 else c.leaked)
    case Reads => c.(place := if c.kind == Fetch then Read else Returning)
    case Close => c.(place := Returning)
    case Timeout => c.(place := Returning, leaked := if c.place == Connecting then c.leaked + 1 else c.leaked)
    case Finish => c.(place := Done)
  }

  predicate Raises(act: Act) {
    act == Start || act == Connect
  }

  predicate Lowers(act: Act) {
    act == Undo || act == Close || act == Finish
  }

  /** `fetch_add(1)` and `fetch_sub(1)` wrap around. */
  function Counter(counter: u64, act: Act): u64 {
    if Raises(act) then (counter + 1) % U64
    else if Lowers(act) then (counter - 1) % U64
    else counter
  }

  datatype Network = Network(counter: u64, calls: seq<Call>)

  predicate Possible(n: Network, e: Event) {
    e.call < |n.calls| && Enabled(n.calls[e.call], e.act)
  }

  function Step(n: Network, e: Event): Network
    requires Possible(n, e)
  {
    Network(Counter(n.counter, e.act), n.calls[e.call := Move(n.calls[e.call], e.act)])
  }

  class Vortex {
    var activeConnections: u64

    constructor ()
      ensures activeConnections == 0
    {
      activeConnections := 0;
    }

    method FetchAdd()
      modifies this
      ensures activeConnections == (old(activeConnections) + 1) % U64
    {
      activeConnections := (activeConnections + 1) % U64;
    }

    method FetchSub()
      modifies this
      ensures activeConnections == (old(activeConnections) - 1) % U64
    {
      activeConnections := (activeConnections - 1) % U64;
    }

    /** One call alone: an opened stream stays counted. */
    method ConnectStream(opens: bool) returns (ok: bool)
      modifies this
      ensures ok == opens
      ensures activeConnections == if opens then (old(activeConnections) + 1) % U64 else old(activeConnections)
    {
      FetchAdd();
      ok := opens;
      if !ok {
        FetchSub();
      }
    }

    /** One fetch alone: `direct` when it opens no stream of its own, else whether one opens and then works. */
    method FetchPage(direct: bool, opens: bool, ioWorks: bool)
      modifies this
      ensures activeConnections == (old(activeConnections) + if !direct && opens && !ioWorks then 1 else 0) % U64
    {
      FetchAdd();
      if !direct {
        var ok := ConnectStream(opens);
        if ok && ioWorks {
          FetchSub();
        }
      }
      FetchSub();
    }

    /** One download alone, which never gives an opened stream back. */
    method DownloadFile(parses: bool, opens: bool, ioWorks: bool)
      modifies this
      ensures activeConnections == (old(activeConnections) + if parses && opens then 1 else 0) % U64
    {
      FetchAdd();
      if parses {
        var ok := ConnectStream(opens);
      }
      FetchSub();
    }
  }

  // ---------------------------------------------------------------------------------------------------------------
  // Runs
  // ---------------------------------------------------------------------------------------------------------------

  function Fresh(kinds: seq<Kind>): (calls: seq<Call>)
    ensures |calls| == |kinds|
    ensures forall i :: 0 <= i < |kinds| ==> calls[i] == Call(kinds[i], Ready, 0)
  {
    if kinds == [] then [] else [Call(kinds[0], Ready, 0)] + Fresh(kinds[1..])
  }

  /** The steps of `run` can be taken one after the other, and lead to `Run`. */
  predicate Feasible(n: Network, run: seq<Event>)
    decreases |run|, 0
  {
    run == [] || (Feasible(n, run[..|run| - 1]) && Possible(Run(n, run[..|run| - 1]), run[|run| - 1]))
  }

  function Run(n: Network, run: seq<Event>): Network
    requires Feasible(n, run)
    decreases |run|, 1
  {
    if run == [] then n else Step(Run(n, run[..|run| - 1]), run[|run| - 1])
  }

  function AllNew(kinds: seq<Kind>): Network {
    Network(0, Fresh(kinds))
  }

  function Total(calls: seq<Call>): nat {
    if calls == [] then 0 else Total(calls[..|calls| - 1]) + Held(calls[|calls| - 1]) + calls[|calls| - 1].leaked
  }

  /** A call has at most two increments out, and none of its decrements comes before its increment. */
  predicate Fair(c: Call) {
    && Held(c) + c.leaked <= 2 && c.leaked <= 1
    && (c.place in {Ready, Counted, Connecting, Refused, Read} ==> c.leaked == 0)
    && (c.place == Open ==> c.leaked == if c.kind == Download then 1 else 0)
    && (c.place == Read ==> c.kind == Fetch)
  }

  function Delta(act: Act): int {
    if Raises(act) then 1 else if Lowers(act) then -1 else 0
  }

  /** A step changes what its call has out by what it does to the counter. */
  lemma MoveBalances(c: Call, act: Act)
    requires Fair(c) && Enabled(c, act)
    ensures Fair(Move(c, act))
    ensures Held(Move(c, act)) + Move(c, act).leaked == Held(c) + c.leaked + Delta(act)
    ensures Lowers(act) ==> Held(c) > 0
  {
  }

  lemma {:induction false} TotalUpdate(calls: seq<Call>, i: nat, c: Call)
    requires i < |calls|
    ensures Total(calls[i := c]) == Total(calls) - Held(calls[i]) - calls[i].leaked + Held(c) + c.leaked
    ensures Total(calls) >= Held(calls[i]) + calls[i].leaked
  {
    var front := calls[..|calls| - 1];
    if i < |front| {
      assert calls[i := c][..|calls| - 1] == front[i := c];
      TotalUpdate(front, i, c);
    } else {
      assert calls[i := c][..|calls| - 1] == front;
    }
  }

  lemma {:induction false} TotalBound(calls: seq<Call>)
    requires forall i :: 0 <= i < |calls| ==> Fair(calls[i])
    ensures Total(calls) <= 2 * |calls|
  {
    if calls != [] {
      TotalBound(calls[..|calls| - 1]);
    }
  }

  ghost predicate Balanced(n: Network) {
    && (forall i :: 0 <= i < |n.calls| ==> Fair(n.calls[i]))
    && n.counter == Total(n.calls) % U64
  }

  lemma WrapAdd(total: int, delta: int)
    requires -1 <= delta <= 1
    ensures (total % U64 + delta) % U64 == (total + delta) % U64
  {
    var q := total / U64;
    assert total == q * U64 + total % U64;
    Multiple((total + delta) - q * U64, q);
  }

  lemma {:induction false} Multiple(x: int, q: int)
    ensures (x + q * U64) % U64 == x % U64
    decreases if q < 0 then -q else q
  {
    if q > 0 {
      Multiple(x, q - 1);
    } else if q < 0 {
      Multiple(x, q + 1);
    }
  }

  lemma StepBalances(n: Network, e: Event)
    requires Balanced(n) && Possible(n, e)
    ensures Balanced(Step(n, e))
    ensures Total(Step(n, e).calls) == Total(n.calls) + Delta(e.act)
  {
    hide Fair, Enabled, Held, Total;
    var c := n.calls[e.call];
    MoveBalances(c, e.act);
    TotalUpdate(n.calls, e.call, Move(c, e.act));
    WrapAdd(Total(n.calls), Delta(e.act));
  }

  lemma {:induction false} FreshBalances(kinds: seq<Kind>)
    ensures Total(Fresh(kinds)) == 0
  {
    AllReady(Fresh(kinds));
  }

  lemma {:induction false} AllReady(calls: seq<Call>)
    requires forall i :: 0 <= i < |calls| ==> Held(calls[i]) == 0 && calls[i].leaked == 0
    ensures Total(calls) == 0
  {
    if calls != [] {
      AllReady(calls[..|calls| - 1]);
    }
  }

  /** In every reachable state the counter is what the calls have out, to the width of the counter. */
  lemma {:induction false} RunBalances(kinds: seq<Kind>, run: seq<Event>)
    requires Feasible(AllNew(kinds), run)
    ensures Balanced(Run(AllNew(kinds), run)) && |Run(AllNew(kinds), run).calls| == |kinds|
  {
    if run == [] {
      FreshBalances(kinds);
    } else {
      RunBalances(kinds, run[..|run| - 1]);
      StepBalances(Run(AllNew(kinds), run[..|run| - 1]), run[|run| - 1]);
    }
  }

  /**
   With fewer than two to the sixty-third calls, the counter is exactly what they have out, and no decrement ever
   meets a counter of zero.
   */
  lemma NeverUnderflows(kinds: seq<Kind>, run: seq<Event>, e: Event)
    requires Feasible(AllNew(kinds), run) && 2 * |kinds| < U64
    requires Possible(Run(AllNew(kinds), run), e)
    ensures var n := Run(AllNew(kinds), run);
      n.counter == Total(n.calls) && (Lowers(e.act) ==> n.counter >= 1)
  {
    hide Fair, Enabled, Held, Total, Run, Feasible;
    var n := Run(AllNew(kinds), run);
    RunBalances(kinds, run);
    TotalBound(n.calls);
    MoveBalances(n.calls[e.call], e.act);
    TotalUpdate(n.calls, e.call, n.calls[e.call]);
  }

  // ---------------------------------------------------------------------------------------------------------------
  // Quiescence
  // ---------------------------------------------------------------------------------------------------------------

  /** The event is one of those after which an increment stays: told from the run alone. */
  predicate Leaves(kinds: seq<Kind>, run: seq<Event>, i: nat)
    requires i < |run|
  {
    && run[i].call < |kinds|
    && match run[i].act
       case Opens => kinds[run[i].call] == Download
       case IoFails => kinds[run[i].call] == Fetch
       case Timeout => !OpenedBefore(run, i)
       case _ => false
  }

  /** The call of event `i` had opened its stream by then. */
  predicate OpenedBefore(run: seq<Event>, i: nat)
    requires i < |run|
  {
    Event(run[i].call, Opens) in run[..i]
  }

  function Left(kinds: seq<Kind>, run: seq<Event>): nat {
    if run == [] then 0
    else Left(kinds, run[..|run| - 1]) + if Leaves(kinds, run, |run| - 1) then 1 else 0
  }

  function Leaked(calls: seq<Call>): nat {
    if calls == [] then 0 else Leaked(calls[..|calls| - 1]) + calls[|calls| - 1].leaked
  }

  lemma {:induction false} LeakedUpdate(calls: seq<Call>, i: nat, c: Call)
    requires i < |calls|
    ensures Leaked(calls[i := c]) == Leaked(calls) - calls[i].leaked + c.leaked
  {
    var front := calls[..|calls| - 1];
    if i < |front| {
      assert calls[i := c][..|calls| - 1] == front[i := c];
      LeakedUpdate(front, i, c);
    } else {
      assert calls[i := c][..|calls| - 1] == front;
    }
  }

  /** A call keeps its kind, and a download stands at Connecting only before its stream opens, at Open only after. */
  lemma {:induction false} CallHistory(kinds: seq<Kind>, run: seq<Event>, i: nat)
    requires Feasible(AllNew(kinds), run) && i < |kinds|
    ensures var n := Run(AllNew(kinds), run);
      && |n.calls| == |kinds| && n.calls[i].kind == kinds[i]
      && (n.calls[i].place in {Ready, Counted, Connecting, Refused} ==> Event(i, Opens) !in run)
      && (n.calls[i].place in {Open, Read} ==> Event(i, Opens) in run)
  {
    if run != [] {
      var front, last := run[..|run| - 1], run[|run| - 1];
      assert run == front + [last];
      CallHistory(kinds, front, i);
    }
  }

  lemma {:induction false} LeakedIsLeft(kinds: seq<Kind>, run: seq<Event>)
    requires Feasible(AllNew(kinds), run)
    ensures Leaked(Run(AllNew(kinds), run).calls) == Left(kinds, run)
  {
    if run == [] {
      NoneLeaked(Fresh(kinds));
    } else {
      var front, e := run[..|run| - 1], run[|run| - 1];
      var n := Run(AllNew(kinds), front);
      LeakedIsLeft(kinds, front);
      RunBalances(kinds, front);
      CallHistory(kinds, front, e.call);
      LeakedUpdate(n.calls, e.call, Move(n.calls[e.call], e.act));
    }
  }

  lemma {:induction false} NoneLeaked(calls: seq<Call>)
    requires forall i :: 0 <= i < |calls| ==> calls[i].leaked == 0
    ensures Leaked(calls) == 0
  {
    if calls != [] {
      NoneLeaked(calls[..|calls| - 1]);
    }
  }

  predicate Quiet(n: Network) {
    forall i :: 0 <= i < |n.calls| ==> n.calls[i].place == Done
  }

  lemma {:induction false} QuietTotal(calls: seq<Call>)
    requires forall i :: 0 <= i < |calls| ==> Held(calls[i]) == 0
    ensures Total(calls) == Leaked(calls)
  {
    if calls != [] {
      QuietTotal(calls[..|calls| - 1]);
    }
  }

  /**
   When every call has returned, the counter is the number of downloads that opened a stream or timed out connecting,
   plus the number of fetches that failed after connecting - and so zero exactly when there were none.
   */
  lemma QuietCounter(kinds: seq<Kind>, run: seq<Event>)
    requires Feasible(AllNew(kinds), run) && Quiet(Run(AllNew(kinds), run)) && 2 * |kinds| < U64
    ensures Run(AllNew(kinds), run).counter == Left(kinds, run)
  {
    var n := Run(AllNew(kinds), run);
    RunBalances(kinds, run);
    TotalBound(n.calls);
    QuietTotal(n.calls);
    LeakedIsLeft(kinds, run);
  }

  lemma {:induction false} LeftIsZeroIff(kinds: seq<Kind>, run: seq<Event>)
    ensures Left(kinds, run) == 0 <==> forall i :: 0 <= i < |run| ==> !Leaves(kinds, run, i)
  {
    if run != [] {
      var front := run[..|run| - 1];
      LeftIsZeroIff(kinds, front);
      forall i | 0 <= i < |front| ensures Leaves(kinds, run, i) == Leaves(kinds, front, i) {
        assert run[..i] == front[..i];
      }
    }
  }

  /** Fetches alone leave the counter at zero exactly when none failed after its stream had opened. */
  lemma FetchesGiveBackIff(kinds: seq<Kind>, run: seq<Event>)
    requires Feasible(AllNew(kinds), run) && Quiet(Run(AllNew(kinds), run)) && 2 * |kinds| < U64
    requires Download !in kinds
    ensures Run(AllNew(kinds), run).counter == 0 <==> forall e :: e in run ==> e.act != IoFails
  {
    QuietCounter(kinds, run);
    LeftIsZeroIff(kinds, run);
    forall i | 0 <= i < |run| ensures Leaves(kinds, run, i) <==> run[i].act == IoFails {
      WasPossible(kinds, run, i);
    }
  }

  lemma {:induction false} WasPossible(kinds: seq<Kind>, run: seq<Event>, i: nat)
    requires Feasible(AllNew(kinds), run) && i < |run|
    ensures run[i].call < |kinds|
    ensures run[i].act == Timeout ==> kinds[run[i].call] == Download
  {
    var front := run[..|run| - 1];
    RunBalances(kinds, front);
    if i < |front| {
      WasPossible(kinds, front, i);
    } else {
      CallHistory(kinds, front, run[i].call);
    }
  }

  lemma RunOneMore(n: Network, run: seq<Event>, e: Event)
    requires Feasible(n, run) && Possible(Run(n, run), e)
    ensures Feasible(n, run + [e]) && Run(n, run + [e]) == Step(Run(n, run), e)
  {
    assert (run + [e])[..|run|] == run;
  }

  /** One download that works leaves the counter at one for ever. */
  lemma DownloadWitness()
    ensures var run := [] + [Event(0, Start)] + [Event(0, Connect)] + [Event(0, Opens)] + [Event(0, Reads)]
                       + [Event(0, Finish)];
      Feasible(AllNew([Download]), run) && Quiet(Run(AllNew([Download]), run))
      && Run(AllNew([Download]), run).counter == 1
  {
    hide Feasible, Run;
    var n := AllNew([Download]);
    var started := [] + [Event(0, Start)];
    var asked := started + [Event(0, Connect)];
    var joined := asked + [Event(0, Opens)];
    var read := joined + [Event(0, Reads)];
    NoRun(n);
    assert n == Network(0, [Call(Download, Ready, 0)]);
    RunOneMore(n, [], Event(0, Start));
    assert Run(n, started) == Network(1, [Call(Download, Counted, 0)]);
    RunOneMore(n, started, Event(0, Connect));
    assert Run(n, asked) == Network(2, [Call(Download, Connecting, 0)]);
    RunOneMore(n, asked, Event(0, Opens));
    assert Run(n, joined) == Network(2, [Call(Download, Open, 1)]);
    RunOneMore(n, joined, Event(0, Reads));
    assert Run(n, read) == Network(2, [Call(Download, Returning, 1)]);
    RunOneMore(n, read, Event(0, Finish));
  }

  lemma NoRun(n: Network)
    ensures Feasible(n, []) && Run(n, []) == n
  {
  }

  /** One fetch that works gives back all it took; one that fails on its open stream leaves one behind. */
  lemma FetchWitness()
    ensures var joined := [] + [Event(0, Start)] + [Event(0, Connect)] + [Event(0, Opens)];
      var works := joined + [Event(0, Reads)] + [Event(0, Close)] + [Event(0, Finish)];
      var fails := joined + [Event(0, IoFails)] + [Event(0, Finish)];
      && Feasible(AllNew([Fetch]), works) && Quiet(Run(AllNew([Fetch]), works))
      && Run(AllNew([Fetch]), works).counter == 0
      && Feasible(AllNew([Fetch]), fails) && Quiet(Run(AllNew([Fetch]), fails))
      && Run(AllNew([Fetch]), fails).counter == 1
  {
    var joined := [] + [Event(0, Start)] + [Event(0, Connect)] + [Event(0, Opens)];
    FetchJoins();
    FetchWorks(joined);
    FetchFails(joined);
  }

  lemma FetchJoins()
    ensures var joined := [] + [Event(0, Start)] + [Event(0, Connect)] + [Event(0, Opens)];
      Feasible(AllNew([Fetch]), joined) && Run(AllNew([Fetch]), joined) == Network(2, [Call(Fetch, Open, 0)])
  {
    hide Feasible, Run;
    var n := AllNew([Fetch]);
    var started := [] + [Event(0, Start)];
    NoRun(n);
    assert n == Network(0, [Call(Fetch, Ready, 0)]);
    RunOneMore(n, [], Event(0, Start));
    assert Run(n, started) == Network(1, [Call(Fetch, Counted, 0)]);
    RunOneMore(n, started, Event(0, Connect));
    assert Run(n, started + [Event(0, Connect)]) == Network(2, [Call(Fetch, Connecting, 0)]);
    RunOneMore(n, started + [Event(0, Connect)], Event(0, Opens));
  }

  lemma FetchWorks(joined: seq<Event>)
    requires Feasible(AllNew([Fetch]), joined) && Run(AllNew([Fetch]), joined) == Network(2, [Call(Fetch, Open, 0)])
    ensures var works := joined + [Event(0, Reads)] + [Event(0, Close)] + [Event(0, Finish)];
      && Feasible(AllNew([Fetch]), works) && Quiet(Run(AllNew([Fetch]), works))
      && Run(AllNew([Fetch]), works).counter == 0
  {
    hide Feasible, Run;
    var n := AllNew([Fetch]);
    var read := joined + [Event(0, Reads)];
    RunOneMore(n, joined, Event(0, Reads));
    assert Run(n, read) == Network(2, [Call(Fetch, Read, 0)]);
    RunOneMore(n, read, Event(0, Close));
    assert Run(n, read + [Event(0, Close)]) == Network(1, [Call(Fetch, Returning, 0)]);
    RunOneMore(n, read + [Event(0, Close)], Event(0, Finish));
  }

  lemma FetchFails(joined: seq<Event>)
    requires Feasible(AllNew([Fetch]), joined) && Run(AllNew([Fetch]), joined) == Network(2, [Call(Fetch, Open, 0)])
    ensures var fails := joined + [Event(0, IoFails)] + [Event(0, Finish)];
      && Feasible(AllNew([Fetch]), fails) && Quiet(Run(AllNew([Fetch]), fails))
      && Run(AllNew([Fetch]), fails).counter == 1
  {
    hide Feasible, Run;
    var n := AllNew([Fetch]);
    RunOneMore(n, joined, Event(0, IoFails));
    assert Run(n, joined + [Event(0, IoFails)]) == Network(2, [Call(Fetch, Returning, 1)]);
    RunOneMore(n, joined + [Event(0, IoFails)], Event(0, Finish));
  }

  lemma AsksFirst(kind: Kind)
    ensures var n, asked := AllNew([kind]), [] + [Event(0, Start)] + [Event(0, Connect)];
      Feasible(n, asked) && Run(n, asked) == Network(2, [Call(kind, Connecting, 0)])
  {
    hide Feasible, Run;
    var n := AllNew([kind]);
    NoRun(n);
    assert n == Network(0, [Call(kind, Ready, 0)]);
    RunOneMore(n, [], Event(0, Start));
    assert Run(n, [] + [Event(0, Start)]) == Network(1, [Call(kind, Counted, 0)]);
    RunOneMore(n, [] + [Event(0, Start)], Event(0, Connect));
  }

  /** A call of either kind whose connection is refused gives back all it took, and so does one that opens no stream. */
  lemma RefusedWitness(kind: Kind)
    ensures var refused := [] + [Event(0, Start)] + [Event(0, Connect)] + [Event(0, ConnectFails)] + [Event(0, Undo)]
                           + [Event(0, Finish)];
      && Feasible(AllNew([kind]), refused) && Quiet(Run(AllNew([kind]), refused))
      && Run(AllNew([kind]), refused).counter == 0
  {
    AsksFirst(kind);
    hide Feasible, Run;
    var n, asked := AllNew([kind]), [] + [Event(0, Start)] + [Event(0, Connect)];
    RunOneMore(n, asked, Event(0, ConnectFails));
    assert Run(n, asked + [Event(0, ConnectFails)]) == Network(2, [Call(kind, Refused, 0)]);
    RunOneMore(n, asked + [Event(0, ConnectFails)], Event(0, Undo));
    assert Run(n, asked + [Event(0, ConnectFails)] + [Event(0, Undo)]) == Network(1, [Call(kind, Returning, 0)]);
    RunOneMore(n, asked + [Event(0, ConnectFails)] + [Event(0, Undo)], Event(0, Finish));
  }

  lemma DirectWitness(kind: Kind)
    ensures var direct := [] + [Event(0, Start)] + [Event(0, Direct)] + [Event(0, Finish)];
      && Feasible(AllNew([kind]), direct) && Quiet(Run(AllNew([kind]), direct))
      && Run(AllNew([kind]), direct).counter == 0
  {
    hide Feasible, Run;
    var n := AllNew([kind]);
    NoRun(n);
    assert n == Network(0, [Call(kind, Ready, 0)]);
    RunOneMore(n, [], Event(0, Start));
    assert Run(n, [] + [Event(0, Start)]) == Network(1, [Call(kind, Counted, 0)]);
    RunOneMore(n, [] + [Event(0, Start)], Event(0, Direct));
    assert Run(n, [] + [Event(0, Start)] + [Event(0, Direct)]) == Network(1, [Call(kind, Returning, 0)]);
    RunOneMore(n, [] + [Event(0, Start)] + [Event(0, Direct)], Event(0, Finish));
  }

  /** A download that times out leaves one behind, whether it was still connecting or already reading. */
  lemma TimeoutWitness()
    ensures var asked := [] + [Event(0, Start)] + [Event(0, Connect)];
      var early, late := asked + [Event(0, Timeout)] + [Event(0, Finish)],
                         asked + [Event(0, Opens)] + [Event(0, Timeout)] + [Event(0, Finish)];
      && Feasible(AllNew([Download]), early) && Quiet(Run(AllNew([Download]), early))
      && Run(AllNew([Download]), early).counter == 1
      && Feasible(AllNew([Download]), late) && Quiet(Run(AllNew([Download]), late))
      && Run(AllNew([Download]), late).counter == 1
  {
    AsksFirst(Download);
    hide Feasible, Run;
    var n, asked := AllNew([Download]), [] + [Event(0, Start)] + [Event(0, Connect)];
    RunOneMore(n, asked, Event(0, Timeout));
    assert Run(n, asked + [Event(0, Timeout)]) == Network(2, [Call(Download, Returning, 1)]);
    RunOneMore(n, asked + [Event(0, Timeout)], Event(0, Finish));
    RunOneMore(n, asked, Event(0, Opens));
    assert Run(n, asked + [Event(0, Opens)]) == Network(2, [Call(Download, Open, 1)]);
    RunOneMore(n, asked + [Event(0, Opens)], Event(0, Timeout));
    assert Run(n, asked + [Event(0, Opens)] + [Event(0, Timeout)]) == Network(2, [Call(Download, Returning, 1)]);
    RunOneMore(n, asked + [Event(0, Opens)] + [Event(0, Timeout)], Event(0, Finish));
  }
}
