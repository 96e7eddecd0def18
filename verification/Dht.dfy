/**
 The peer index: a loop that serves Put and Get commands and the network's query events, over shards kept one file
 per key under the hexadecimal name of the key.
 */
module Dht {
  import opened Words
  import opened Wrappers
  import opened Lists
  import Hex

  type Bytes = seq<byte>

  /** How a file write ended: complete, failed before the file was touched, or failed after the first `count` bytes. */
  datatype Write = Written | Untouched | Partial(count: nat)

  datatype Answer = Found(value: Bytes) | Failed | Other

  datatype Event =
    | Put(key: Bytes, value: Bytes, write: Write, accepted: bool, sender: nat)
    | Get(key: Bytes, readable: bool, query: nat, sender: nat)
    | Progress(query: nat, answer: Answer)
    | Restart

  /** What became of a sender: it was answered, told of a failure, or let go without a word. */
  datatype Reply = Acked | Value(value: Bytes) | Refused | Dropped

  datatype Departure = Departure(sender: nat, reply: Reply)

  datatype Loop = Loop(disk: map<string, Bytes>, pending: map<nat, nat>, departures: seq<Departure>)

  // ---------------------------------------------------------------------------------------------------------------
  // The shard store
  // ---------------------------------------------------------------------------------------------------------------

  /** A key of no bytes names the directory itself, which can be neither written nor read as a file. */
  function AfterWrite(disk: map<string, Bytes>, key: Bytes, value: Bytes, write: Write): map<string, Bytes> {
    match write
    case Written => if key == [] then disk else disk[Hex.Encode(key) := value]
    case Untouched => disk
    case Partial(n) => if key == [] then disk else disk[Hex.Encode(key) := if n < |value| then value[..n] else value]
  }

  function OnDisk(disk: map<string, Bytes>, key: Bytes): Option<Bytes> {
    if key != [] && Hex.Encode(key) in disk then Some(disk[Hex.Encode(key)]) else None
  }

  /** A directory entry: whether it is a file, its name when that is text, its contents when they can be read. */
  datatype Entry = Entry(isFile: bool, name: Option<string>, contents: Result<Bytes>)

  datatype Shard = Shard(key: Bytes, value: Bytes)

  function LoadedEntry(entry: Entry): seq<Shard> {
    match (entry.isFile, entry.name, entry.contents)
    case (true, Some(name), Ok(value)) =>
      (match Hex.Decode(name)
       case Some(key) => if value == [] then [] else [Shard(key, value)]
       case None => [])
    case _ => []
  }

  function Loaded(entries: seq<Entry>): seq<Shard> {
    if entries == [] then [] else Loaded(entries[..|entries| - 1]) + LoadedEntry(entries[|entries| - 1])
  }

  /** What boot hands to the in-memory store; a directory that cannot be listed holds nothing. */
  method LoadAll(listing: Result<seq<Entry>>) returns (shards: seq<Shard>)
    ensures shards == if listing.Ok? then Loaded(listing.value) else []
  {
    shards := [];
    if listing.Err? {
      return;
    }
    var entries := listing.value;
    for i := 0 to |entries|
      invariant shards == Loaded(entries[..i])
    {
      assert entries[..i + 1][..i] == entries[..i];
      var entry := entries[i];
      if !entry.isFile || entry.name.None? {
        continue;
      }
      var key := Hex.Decode(entry.name.value);
      if key.None? {
        continue;
      }
      match entry.contents {
        case Ok(value) =>
          if value != [] {
            shards := shards + [Shard(key.value, value)];
          }
        case Err =>
      }
    }
    assert entries[..|entries|] == entries;
  }

  // ---------------------------------------------------------------------------------------------------------------
  // The loop
  // ---------------------------------------------------------------------------------------------------------------

  class DhtLoop {
    var disk: map<string, Bytes>
    var pending: map<nat, nat>
    var departures: seq<Departure>

    ghost function State(): Loop
      reads this
    {
      Loop(disk, pending, departures)
    }

    constructor (files: map<string, Bytes>)
      ensures State() == Loop(files, map[], [])
    {
      disk, pending, departures := files, map[], [];
    }

    /** The write to disk may fail; the answer tells only of the network's store. */
    method HandlePut(key: Bytes, value: Bytes, write: Write, accepted: bool, sender: nat)
      modifies this
      ensures State() == Step(old(State()), Put(key, value, write, accepted, sender))
    {
      disk := AfterWrite(disk, key, value, write);
      if accepted {
        departures := departures + [Departure(sender, Acked)];
      } else {
        departures := departures + [Departure(sender, Refused)];
      }
    }

    /** The disk is preferred; the network is asked only for what it does not hold. */
    method HandleGet(key: Bytes, readable: bool, query: nat, sender: nat)
      modifies this
      ensures State() == Step(old(State()), Get(key, readable, query, sender))
    {
      var shard := if readable then OnDisk(disk, key) else None;
      match shard {
        case Some(value) => departures := departures + [Departure(sender, Value(value))];
        case None => pending := pending[query := sender];
      }
    }

    /** The first event of a query takes its sender out, whatever the event says. */
    method HandleProgress(query: nat, answer: Answer)
      modifies this
      ensures State() == Step(old(State()), Progress(query, answer))
    {
      if query in pending {
        var sender := pending[query];
        pending := pending - {query};
        match answer {
          case Found(value) => departures := departures + [Departure(sender, Value(value))];
          case Failed => departures := departures + [Departure(sender, Refused)];
          case Other => departures := departures + [Departure(sender, Dropped)];
        }
      }
    }
  }

  function ReplyTo(answer: Answer): Reply {
    match answer
    case Found(value) => Value(value)
    case Failed => Refused
    case Other => Dropped
  }

  function Local(s: Loop, key: Bytes, readable: bool): Option<Bytes> {
    if readable then OnDisk(s.disk, key) else None
  }

  function Step(s: Loop, e: Event): Loop {
    match e
    case Put(key, value, write, accepted, sender) =>
      s.(disk := AfterWrite(s.disk, key, value, write),
         departures := s.departures + [Departure(sender, if accepted then Acked else Refused)])
    case Get(key, readable, query, sender) =>
      (match Local(s, key, readable)
       case Some(value) => s.(departures := s.departures + [Departure(sender, Value(value))])
       case None => s.(pending := s.pending[query := sender]))
    case Progress(query, answer) =>
      if query !in s.pending then s
      else s.(pending := s.pending - {query},
              departures := s.departures + [Departure(s.pending[query], ReplyTo(answer))])
    case Restart => Loop(s.disk, map[], [])
  }

  function Run(s: Loop, es: seq<Event>): Loop {
    if es == [] then s else Step(Run(s, es[..|es| - 1]), es[|es| - 1])
  }

  const EMPTY := Loop(map[], map[], [])

  // ---------------------------------------------------------------------------------------------------------------
  // Files against keys
  // ---------------------------------------------------------------------------------------------------------------

  /** What a store that kept one register per key would hold under `key`: only the writes to `key` matter. */
  function Register(es: seq<Event>, key: Bytes): Option<Bytes> {
    if es == [] then None
    else
      var was := Register(es[..|es| - 1], key);
      match es[|es| - 1]
      case Put(k, value, write, _, _) =>
        if k != key || key == [] || write == Untouched then was
        else if write.Partial? && write.count < |value| then Some(value[..write.count])
        else Some(value)
      case _ => was
  }

  /** Every file is the shard of a key. */
  ghost predicate Named(disk: map<string, Bytes>) {
    forall name :: name in disk ==> exists key :: key != [] && name == Hex.Encode(key)
  }

  lemma WriteKeepsOthers(disk: map<string, Bytes>, key: Bytes, value: Bytes, write: Write, other: Bytes)
    requires other != key
    ensures OnDisk(AfterWrite(disk, key, value, write), other) == OnDisk(disk, other)
  {
    if Hex.Encode(other) == Hex.Encode(key) {
      Hex.EncodeInjective(other, key);
    }
  }

  /** Keys never share a file: the directory holds, key by key, what registers would hold, across restarts too. */
  lemma {:induction false} DiskIsRegisters(es: seq<Event>, key: Bytes)
    ensures OnDisk(Run(EMPTY, es).disk, key) == Register(es, key)
  {
    if es != [] {
      var front, last := es[..|es| - 1], es[|es| - 1];
      DiskIsRegisters(front, key);
      if last.Put? && last.key != key {
        WriteKeepsOthers(Run(EMPTY, front).disk, last.key, last.value, last.write, key);
      }
    }
  }

  lemma {:induction false} RunNames(es: seq<Event>)
    ensures Named(Run(EMPTY, es).disk)
  {
    if es != [] {
      RunNames(es[..|es| - 1]);
    }
  }

  lemma {:induction false} RegisterStays(a: seq<Event>, key: Bytes, b: seq<Event>)
    requires forall i :: 0 <= i < |b| ==> b[i].Put? && b[i].key == key ==> b[i].write == Untouched
    ensures Register(a + b, key) == Register(a, key)
  {
    if b == [] {
      assert a + b == a;
    } else {
      assert (a + b)[..|a + b| - 1] == a + b[..|b| - 1];
      RegisterStays(a, key, b[..|b| - 1]);
    }
  }

  /**
   After a Put whose disk write succeeded, and whatever came after it but another write to the same key - restarts
   included - a Get of the key answers the value at once and asks nobody.
   */
  lemma GetReturnsLatest(a: seq<Event>, put: Event, b: seq<Event>, query: nat, sender: nat)
    requires put.Put? && put.write == Written && put.key != []
    requires forall i :: 0 <= i < |b| ==> b[i].Put? && b[i].key == put.key ==> b[i].write == Untouched
    ensures var s := Run(EMPTY, a + [put] + b);
      Step(s, Get(put.key, true, query, sender))
        == s.(departures := s.departures + [Departure(sender, Value(put.value))])
  {
    hide Hex.Encode;
    var upto := a + [put];
    assert upto[..|upto| - 1] == a;
    RegisterStays(upto, put.key, b);
    DiskIsRegisters(upto + b, put.key);
  }

  // ---------------------------------------------------------------------------------------------------------------
  // Loading at boot
  // ---------------------------------------------------------------------------------------------------------------

  /** The entry shows nothing the store wrote: a directory, or a file whose name is no key. */
  predicate Foreign(entry: Entry) {
    !entry.isFile || entry.name.None? || Hex.Decode(entry.name.value).None?
  }

  /** A listing of the directory in some order, among entries the store did not make. */
  ghost predicate ListingOf(disk: map<string, Bytes>, entries: seq<Entry>) {
    && (forall i :: 0 <= i < |entries| && !Foreign(entries[i]) ==>
          entries[i].name.value in disk && entries[i].contents == Ok(disk[entries[i].name.value]))
    && (forall name :: name in disk ==>
          exists i :: 0 <= i < |entries| && entries[i].isFile && entries[i].name == Some(name))
    && (forall i, j :: 0 <= i < j < |entries| && !Foreign(entries[i]) && !Foreign(entries[j]) ==>
          entries[i].name != entries[j].name)
  }

  lemma {:induction false} LoadedFrom(entries: seq<Entry>, shard: Shard)
    ensures shard in Loaded(entries) <==>
            exists i :: 0 <= i < |entries| && LoadedEntry(entries[i]) == [shard]
  {
    if entries != [] {
      var front := entries[..|entries| - 1];
      LoadedFrom(front, shard);
      if exists i :: 0 <= i < |front| && LoadedEntry(front[i]) == [shard] {
        var i :| 0 <= i < |front| && LoadedEntry(front[i]) == [shard];
        assert LoadedEntry(entries[i]) == [shard];
      }
    }
  }

  lemma NamedDecodes(disk: map<string, Bytes>, name: string)
    requires Named(disk) && name in disk
    ensures Hex.Decode(name).Some? && Hex.Decode(name).value != [] && Hex.Encode(Hex.Decode(name).value) == name
  {
    var key :| key != [] && name == Hex.Encode(key);
    Hex.DecodeEncode(key);
  }

  /** Boot gets exactly the non-empty shards on disk. */
  lemma LoadedIsStored(disk: map<string, Bytes>, entries: seq<Entry>, shard: Shard)
    requires Named(disk) && ListingOf(disk, entries)
    ensures shard in Loaded(entries) <==> shard.value != [] && OnDisk(disk, shard.key) == Some(shard.value)
  {
    LoadedFrom(entries, shard);
    hide Hex.Encode, Hex.Decode, Named;
    if shard in Loaded(entries) {
      var i :| 0 <= i < |entries| && LoadedEntry(entries[i]) == [shard];
      NamedDecodes(disk, entries[i].name.value);
    }
    if shard.value != [] && OnDisk(disk, shard.key) == Some(shard.value) {
      var name := Hex.Encode(shard.key);
      var i :| 0 <= i < |entries| && entries[i].isFile && entries[i].name == Some(name);
      Hex.DecodeEncode(shard.key);
      assert LoadedEntry(entries[i]) == [shard];
    }
  }

  /** Each key is loaded once. */
  lemma {:induction false} LoadedKeysDiffer(disk: map<string, Bytes>, entries: seq<Entry>, m: nat, n: nat)
    requires Named(disk) && ListingOf(disk, entries)
    requires m < n < |Loaded(entries)|
    ensures Loaded(entries)[m].key != Loaded(entries)[n].key
  {
    var i, j := LoadedOrder(entries, m, n);
    NamedDecodes(disk, entries[i].name.value);
    NamedDecodes(disk, entries[j].name.value);
  }

  lemma {:induction false} LoadedPlace(entries: seq<Entry>, m: nat) returns (i: nat)
    requires m < |Loaded(entries)|
    ensures i < |entries| && LoadedEntry(entries[i]) == [Loaded(entries)[m]]
  {
    var front := entries[..|entries| - 1];
    if m < |Loaded(front)| {
      i := LoadedPlace(front, m);
    } else {
      i := |entries| - 1;
    }
  }

  lemma {:induction false} LoadedOrder(entries: seq<Entry>, m: nat, n: nat) returns (i: nat, j: nat)
    requires m < n < |Loaded(entries)|
    ensures i < j < |entries|
    ensures LoadedEntry(entries[i]) == [Loaded(entries)[m]] && LoadedEntry(entries[j]) == [Loaded(entries)[n]]
  {
    var front := entries[..|entries| - 1];
    if n < |Loaded(front)| {
      i, j := LoadedOrder(front, m, n);
    } else {
      i := LoadedPlace(front, m);
      j := |entries| - 1;
    }
  }

  /** Over a whole run from an empty directory, what boot loads is what the registers hold, save empty values. */
  lemma BootSeesRun(es: seq<Event>, entries: seq<Entry>, shard: Shard)
    requires ListingOf(Run(EMPTY, es).disk, entries)
    ensures shard in Loaded(entries) <==> shard.value != [] && Register(es, shard.key) == Some(shard.value)
  {
    RunNames(es);
    LoadedIsStored(Run(EMPTY, es).disk, entries, shard);
    DiskIsRegisters(es, shard.key);
  }

  // ---------------------------------------------------------------------------------------------------------------
  // Senders
  // ---------------------------------------------------------------------------------------------------------------

  /** The senders handed over since the loop was last started. */
  function Senders(es: seq<Event>): seq<nat> {
    if es == [] || es[|es| - 1] == Restart then []
    else Senders(es[..|es| - 1]) + match es[|es| - 1] {
           case Put(_, _, _, _, s) => [s]
           case Get(_, _, _, s) => [s]
           case _ => []
         }
  }

  /** The query ids the network gave out since then; it numbers them anew after a restart. */
  function Queries(es: seq<Event>): seq<nat> {
    if es == [] || es[|es| - 1] == Restart then []
    else Queries(es[..|es| - 1]) + if es[|es| - 1].Get? then [es[|es| - 1].query] else []
  }

  function Gone(departures: seq<Departure>): seq<nat> {
    if departures == [] then []
    else Gone(departures[..|departures| - 1]) + [departures[|departures| - 1].sender]
  }

  lemma GoneSnoc(departures: seq<Departure>, d: Departure)
    ensures Gone(departures + [d]) == Gone(departures) + [d.sender]
  {
    assert (departures + [d])[..|departures|] == departures;
  }

  /** The get of `es[i]` was left to the network, and neither its query's first event nor a restart has come since. */
  ghost predicate Unresolved(es: seq<Event>, i: nat)
    requires i < |es|
  {
    && es[i].Get?
    && Local(Run(EMPTY, es[..i]), es[i].key, es[i].readable).None?
    && forall j :: i < j < |es| ==> es[j] != Restart && !(es[j].Progress? && es[j].query == es[i].query)
  }

  lemma UnresolvedSnoc(es: seq<Event>, e: Event, i: nat)
    requires i < |es|
    ensures Unresolved(es + [e], i) <==>
            Unresolved(es, i) && e != Restart && !(e.Progress? && e.query == es[i].query)
  {
    assert (es + [e])[..i] == es[..i];
    if Unresolved(es + [e], i) {
      assert (es + [e])[|es|] == e;
      forall j | i < j < |es| ensures es[j] != Restart && !(es[j].Progress? && es[j].query == es[i].query) {
        assert (es + [e])[j] == es[j];
      }
    }
  }

  lemma {:induction false} QueriesHas(es: seq<Event>, i: nat)
    requires i < |es| && es[i].Get? && forall j :: i < j < |es| ==> es[j] != Restart
    ensures es[i].query in Queries(es)
  {
    if i < |es| - 1 {
      QueriesHas(es[..|es| - 1], i);
    }
  }

  ghost predicate PendingIsUnresolved(es: seq<Event>) {
    && (forall i :: 0 <= i < |es| && Unresolved(es, i) ==>
          es[i].query in Run(EMPTY, es).pending && Run(EMPTY, es).pending[es[i].query] == es[i].sender)
    && (forall q :: q in Run(EMPTY, es).pending ==> exists i :: 0 <= i < |es| && Unresolved(es, i) && es[i].query == q)
  }

  predicate Enqueues(s: Loop, e: Event) {
    e.Get? && Local(s, e.key, e.readable).None?
  }

  lemma PendingAfter(s: Loop, e: Event, q: nat)
    ensures q in Step(s, e).pending <==>
            (Enqueues(s, e) && e.query == q) || (q in s.pending && e != Restart && !(e.Progress? && e.query == q))
    ensures q in Step(s, e).pending && !(e.Get? && e.query == q) ==> Step(s, e).pending[q] == s.pending[q]
    ensures Enqueues(s, e) && e.query == q ==> Step(s, e).pending[q] == e.sender
  {
  }

  lemma RunSnoc(s: Loop, es: seq<Event>, e: Event)
    ensures Run(s, es + [e]) == Step(Run(s, es), e)
  {
    assert (es + [e])[..|es|] == es;
  }

  lemma LastUnresolved(es: seq<Event>, e: Event)
    ensures Unresolved(es + [e], |es|) <==> Enqueues(Run(EMPTY, es), e)
  {
    assert (es + [e])[..|es|] == es;
  }

  lemma QueriesSnoc(es: seq<Event>, e: Event)
    requires NoDup(Queries(es + [e])) && e.Get?
    ensures e.query !in Queries(es)
  {
    assert (es + [e])[..|es|] == es;
    NoDupSnoc(Queries(es), e.query);
  }

  lemma UnresolvedIsGet(es: seq<Event>, i: nat)
    requires i < |es| && Unresolved(es, i)
    ensures es[i].Get? && forall j :: i < j < |es| ==> es[j] != Restart
  {
  }

  lemma PendingStepIn(es: seq<Event>, e: Event, i: nat)
    requires NoDup(Queries(es + [e])) && PendingIsUnresolved(es) && i < |es| + 1 && Unresolved(es + [e], i)
    ensures (es + [e])[i].query in Run(EMPTY, es + [e]).pending
    ensures Run(EMPTY, es + [e]).pending[(es + [e])[i].query] == (es + [e])[i].sender
  {
    hide NoDup, Queries, Run, Step, Unresolved, Enqueues;
    UnresolvedIsGet(es + [e], i);
    var q := (es + [e])[i].query;
    RunSnoc(EMPTY, es, e);
    PendingAfter(Run(EMPTY, es), e, q);
    if i < |es| {
      UnresolvedSnoc(es, e, i);
      UnresolvedIsGet(es, i);
      QueriesHas(es, i);
      if e.Get? {
        QueriesSnoc(es, e);
      }
    } else {
      LastUnresolved(es, e);
    }
  }

  lemma PendingStepOut(es: seq<Event>, e: Event, q: nat)
    requires PendingIsUnresolved(es) && q in Run(EMPTY, es + [e]).pending
    ensures exists i :: 0 <= i < |es| + 1 && Unresolved(es + [e], i) && (es + [e])[i].query == q
  {
    hide Run, Step, Local;
    RunSnoc(EMPTY, es, e);
    PendingAfter(Run(EMPTY, es), e, q);
    if Enqueues(Run(EMPTY, es), e) && e.query == q {
      LastUnresolved(es, e);
      assert Unresolved(es + [e], |es|);
    } else {
      var i :| 0 <= i < |es| && Unresolved(es, i) && es[i].query == q;
      UnresolvedSnoc(es, e, i);
      assert (es + [e])[i].query == q;
    }
  }

  /** The table of pending queries holds the unresolved gets, each with its own sender, and nothing else. */
  lemma {:induction false} PendingHoldsUnresolved(es: seq<Event>)
    requires NoDup(Queries(es))
    ensures PendingIsUnresolved(es)
  {
    if es != [] {
      var front, last := es[..|es| - 1], es[|es| - 1];
      assert es == front + [last];
      if last != Restart {
        NoDupAppend(Queries(front), if last.Get? then [last.query] else []);
        PendingHoldsUnresolved(front);
      }
      hide Unresolved, Run, NoDup, Queries;
      forall i | 0 <= i < |es| && Unresolved(es, i)
        ensures es[i].query in Run(EMPTY, es).pending && Run(EMPTY, es).pending[es[i].query] == es[i].sender
      {
        PendingStepIn(front, last, i);
      }
      forall q | q in Run(EMPTY, es).pending
        ensures exists i :: 0 <= i < |es| && Unresolved(es, i) && es[i].query == q
      {
        PendingStepOut(front, last, q);
      }
    }
  }

  /**
   The next event of an unresolved get's query takes its sender out, with the value when one was found, with an error
   when the query failed, and with nothing otherwise; after it the query is no longer pending.
   */
  lemma {:induction false} NextEventResolves(es: seq<Event>, i: nat, answer: Answer)
    requires NoDup(Queries(es)) && i < |es| && Unresolved(es, i)
    ensures var s := Run(EMPTY, es);
      var reply := if answer.Found? then Value(answer.value) else if answer.Failed? then Refused else Dropped;
      Step(s, Progress(es[i].query, answer))
        == Loop(s.disk, s.pending - {es[i].query}, s.departures + [Departure(es[i].sender, reply)])
  {
    PendingHoldsUnresolved(es);
    hide Run, NoDup, Queries, Local;
    assert es[i].query in Run(EMPTY, es).pending;
  }

  /** Every sender handed to the loop is in exactly one place: still pending, under one query, or gone, once. */
  ghost predicate Accounted(s: Loop, senders: seq<nat>) {
    && NoDup(Gone(s.departures))
    && (forall q, r :: q in s.pending && r in s.pending && q != r ==> s.pending[q] != s.pending[r])
    && (forall q :: q in s.pending ==> s.pending[q] !in Gone(s.departures))
    && (forall x :: x in senders <==> x in Gone(s.departures) || x in s.pending.Values)
  }

  lemma DepartKeeps(s: Loop, senders: seq<nat>, disk: map<string, Bytes>, d: Departure)
    requires Accounted(s, senders) && d.sender !in senders
    ensures Accounted(Loop(disk, s.pending, s.departures + [d]), senders + [d.sender])
  {
    GoneSnoc(s.departures, d);
    NoDupSnoc(Gone(s.departures), d.sender);
    forall q | q in s.pending ensures s.pending[q] != d.sender {
      assert s.pending[q] in s.pending.Values;
    }
  }

  lemma EnqueueKeeps(s: Loop, senders: seq<nat>, q: nat, x: nat)
    requires Accounted(s, senders) && x !in senders && q !in s.pending
    ensures Accounted(s.(pending := s.pending[q := x]), senders + [x])
  {
    hide NoDup;
    var next := s.pending[q := x];
    forall r | r in s.pending ensures s.pending[r] != x {
      assert s.pending[r] in s.pending.Values;
    }
    assert next.Values == s.pending.Values + {x} by {
      forall y | y in s.pending.Values ensures y in next.Values {
        var r :| r in s.pending && s.pending[r] == y;
        assert next[r] == y;
      }
      assert next[q] == x;
    }
  }

  lemma ValuesWithout(pending: map<nat, nat>, q: nat)
    requires q in pending
    ensures pending.Values == (pending - {q}).Values + {pending[q]}
  {
    var rest := pending - {q};
    forall y | y in pending.Values && y != pending[q] ensures y in rest.Values {
      var r :| r in pending && pending[r] == y;
      assert rest[r] == y;
    }
  }

  lemma ResolveKeeps(s: Loop, senders: seq<nat>, q: nat, reply: Reply)
    requires Accounted(s, senders) && q in s.pending
    ensures Accounted(Loop(s.disk, s.pending - {q}, s.departures + [Departure(s.pending[q], reply)]), senders)
  {
    hide NoDup, Gone;
    GoneSnoc(s.departures, Departure(s.pending[q], reply));
    NoDupSnoc(Gone(s.departures), s.pending[q]);
    ValuesWithout(s.pending, q);
  }

  /** Since the last restart no sender has left the loop twice, and none is lost. */
  lemma {:induction false} SendersAccounted(es: seq<Event>)
    requires NoDup(Senders(es)) && NoDup(Queries(es))
    ensures Accounted(Run(EMPTY, es), Senders(es))
  {
    if es != [] && es[|es| - 1] != Restart {
      var front, last := es[..|es| - 1], es[|es| - 1];
      var s := Run(EMPTY, front);
      assert es == front + [last];
      NoDupAppend(Senders(front), Senders(es)[|Senders(front)|..]);
      NoDupAppend(Queries(front), if last.Get? then [last.query] else []);
      SendersAccounted(front);
      SenderStep(front, last);
    }
  }

  lemma SenderStep(front: seq<Event>, last: Event)
    requires NoDup(Senders(front + [last])) && NoDup(Queries(front + [last])) && NoDup(Queries(front))
    requires Accounted(Run(EMPTY, front), Senders(front)) && last != Restart
    ensures Accounted(Run(EMPTY, front + [last]), Senders(front + [last]))
  {
    hide Accounted, NoDup, Run, Queries, AfterWrite, OnDisk;
    assert (front + [last])[..|front|] == front;
    RunSnoc(EMPTY, front, last);
    if last.Progress? {
      assert Senders(front + [last]) == Senders(front);
      ProgressKeeps(Run(EMPTY, front), Senders(front), last);
    } else {
      NoDupSnoc(Senders(front), last.sender);
      if last.Get? {
        QueriesSnoc(front, last);
        QueryIsFresh(front, last.query);
      }
      CommandKeeps(Run(EMPTY, front), Senders(front), last);
    }
  }

  lemma ProgressKeeps(s: Loop, senders: seq<nat>, e: Event)
    requires Accounted(s, senders) && e.Progress?
    ensures Accounted(Step(s, e), senders)
  {
    hide Accounted;
    if e.query in s.pending {
      ResolveKeeps(s, senders, e.query, ReplyTo(e.answer));
    }
  }

  lemma CommandKeeps(s: Loop, senders: seq<nat>, e: Event)
    requires Accounted(s, senders) && (e.Put? || e.Get?) && e.sender !in senders
    requires e.Get? ==> e.query !in s.pending
    ensures Accounted(Step(s, e), senders + [e.sender])
  {
    hide Accounted, AfterWrite, OnDisk;
    if e.Put? {
      DepartKeeps(s, senders, AfterWrite(s.disk, e.key, e.value, e.write),
                  Departure(e.sender, if e.accepted then Acked else Refused));
    } else {
      match Local(s, e.key, e.readable)
      case Some(value) => DepartKeeps(s, senders, s.disk, Departure(e.sender, Value(value)));
      case None => EnqueueKeeps(s, senders, e.query, e.sender);
    }
  }

  lemma QueryIsFresh(es: seq<Event>, query: nat)
    requires NoDup(Queries(es)) && query !in Queries(es)
    ensures query !in Run(EMPTY, es).pending
  {
    PendingHoldsUnresolved(es);
    if query in Run(EMPTY, es).pending {
      var i :| 0 <= i < |es| && Unresolved(es, i) && es[i].query == query;
      QueriesHas(es, i);
    }
  }

  // ---------------------------------------------------------------------------------------------------------------
  // Replies
  // ---------------------------------------------------------------------------------------------------------------

  /**
   Event `i` is why this sender left with this reply: a Put, told how the network's store took it and nothing of the
   disk; a Get that the disk answered, with what was last written under its key; or the first event of a Get's query.
   */
  ghost predicate DueAt(es: seq<Event>, i: nat, d: Departure)
    requires i < |es|
  {
    match es[i]
    case Put(_, _, _, accepted, sender) => d == Departure(sender, if accepted then Acked else Refused)
    case Get(key, readable, _, sender) =>
      readable && Register(es[..i], key).Some? && d == Departure(sender, Value(Register(es[..i], key).value))
    case Progress(query, answer) =>
      && (exists j :: 0 <= j < i && Unresolved(es[..i], j) && es[j].query == query && es[j].sender == d.sender)
      && d.reply == (if answer.Found? then Value(answer.value) else if answer.Failed? then Refused else Dropped)
    case Restart => false
  }

  lemma DueLater(es: seq<Event>, e: Event, i: nat, d: Departure)
    requires i < |es|
    ensures DueAt(es + [e], i, d) <==> DueAt(es, i, d)
  {
    hide Unresolved;
    assert (es + [e])[..i] == es[..i];
    assert forall j :: 0 <= j <= i ==> (es + [e])[j] == es[j];
  }

  lemma LastIsDue(es: seq<Event>, e: Event)
    requires NoDup(Queries(es)) && e != Restart
    ensures var before, after := Run(EMPTY, es).departures, Run(EMPTY, es + [e]).departures;
      after == before || (|after| == |before| + 1 && after[..|before|] == before
                          && DueAt(es + [e], |es|, after[|before|]))
  {
    var all := es + [e];
    assert all[..|es|] == es;
    RunSnoc(EMPTY, es, e);
    hide Run, Unresolved, Queries, NoDup, AfterWrite, OnDisk, Register;
    match e {
      case Get(key, _, _, _) => DiskIsRegisters(es, key);
      case Progress(query, answer) =>
        PendingHoldsUnresolved(es);
        if query in Run(EMPTY, es).pending {
          var j :| 0 <= j < |es| && Unresolved(es, j) && es[j].query == query;
          assert all[j] == es[j];
        }
      case _ =>
    }
  }

  /** Every sender that has left since the last restart has the reply due to it. */
  lemma {:induction false} RepliesAreDue(es: seq<Event>, k: nat)
    requires NoDup(Queries(es)) && k < |Run(EMPTY, es).departures|
    ensures exists i :: 0 <= i < |es| && DueAt(es, i, Run(EMPTY, es).departures[k])
  {
    if es != [] && es[|es| - 1] != Restart {
      var front, last := es[..|es| - 1], es[|es| - 1];
      assert es == front + [last];
      NoDupAppend(Queries(front), if last.Get? then [last.query] else []);
      LastIsDue(front, last);
      hide Run, DueAt, NoDup, Queries;
      var before := Run(EMPTY, front).departures;
      if k < |before| {
        RepliesAreDue(front, k);
        var i :| 0 <= i < |front| && DueAt(front, i, before[k]);
        DueLater(front, last, i, before[k]);
      }
    }
  }
}
