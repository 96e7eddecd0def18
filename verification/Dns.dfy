/**
 The secure resolver: a cache shared by all lookups in front of an upstream, each lookup a sequence of steps between
 which other lookups may run. Time is a real number of seconds and never goes back.
 */
module Dns {
  import opened Words
  import opened Wrappers
  import opened Text

  type Ip = seq<byte>

  const TTL := 3600.0

  datatype Provider = Cloudflare | Google | Quad9 | Tor

  datatype CacheEntry = CacheEntry(ips: seq<Ip>, expires: real)

  /** A lookup has not looked yet, waits for the upstream, holds its answer but not yet the cache's lock, or is over. */
  datatype Place = New | Waiting | Holding(ips: seq<Ip>) | Over(answer: Result<seq<Ip>>)

  datatype Lookup = Lookup(domain: string, place: Place)

  datatype Event =
    | Look(lookup: nat, now: real)
    | Reply(lookup: nat, answer: Result<seq<Ip>>)
    | Insert(lookup: nat, now: real)

  datatype Resolver = Resolver(available: bool, cache: map<string, CacheEntry>, lookups: seq<Lookup>, clock: real)

  /** The name the upstream is asked: ENS names go through the eth.limo gateway. */
  function Name(domain: string): string {
    if EndsWith(domain, ".eth") then domain + ".limo" else domain
  }

  predicate Live(cache: map<string, CacheEntry>, name: string, now: real) {
    name in cache && cache[name].expires > now
  }

  predicate Possible(r: Resolver, e: Event) {
    && e.lookup < |r.lookups|
    && match e
       case Look(i, now) => r.lookups[i].place == New && r.clock <= now
       case Reply(i, _) => r.lookups[i].place == Waiting
       case Insert(i, now) => r.lookups[i].place.Holding? && r.clock <= now
  }

  function Put(r: Resolver, i: nat, place: Place): Resolver
    requires i < |r.lookups|
  {
    r.(lookups := r.lookups[i := r.lookups[i].(place := place)])
  }

  function Step(r: Resolver, e: Event): Resolver
    requires Possible(r, e)
  {
    match e
    case Look(i, now) =>
      var domain := r.lookups[i].domain;
      if Live(r.cache, domain, now) then Put(r, i, Over(Ok(r.cache[domain].ips))).(clock := now)
      else Put(r, i, if r.available then Waiting else Over(Err)).(cache := r.cache - {domain}, clock := now)
    case Reply(i, answer) =>
      Put(r, i, if answer.Ok? && answer.value != [] then Holding(answer.value) else Over(answer))
    case Insert(i, now) =>
      var ips := r.lookups[i].place.ips;
      Put(r, i, Over(Ok(ips))).(cache := r.cache[Name(r.lookups[i].domain) := CacheEntry(ips, now + TTL)], clock := now)
  }

  class SecureDns {
    var provider: Provider
    var hasTor: bool
    var cache: map<string, CacheEntry>
    ghost var lookups: seq<Lookup>
    ghost var clock: real

    ghost function State(): Resolver
      reads this
    {
      Resolver(provider != Tor || hasTor, cache, lookups, clock)
    }

    constructor (provider: Provider, hasTor: bool, domains: seq<string>, now: real)
      ensures State() == Starting(provider != Tor || hasTor, domains, now)
    {
      this.provider, this.hasTor, cache := provider, hasTor, map[];
      lookups, clock := Asked(domains), now;
    }

    /** The part of a lookup before the upstream is asked: an answer, a name to ask for, or a refusal. */
    method LookInCache(ghost i: nat, domain: string, now: real) returns (answer: Option<Result<seq<Ip>>>, name: string)
      requires Possible(State(), Look(i, now)) && lookups[i].domain == domain
      modifies this
      ensures State() == Step(old(State()), Look(i, now))
      ensures answer.Some? ==> lookups[i].place == Over(answer.value)
      ensures answer.None? ==> lookups[i].place == Waiting && name == Name(domain)
    {
      answer, name := None, domain;
      if domain in cache {
        if cache[domain].expires > now {
          answer := Some(Ok(cache[domain].ips));
        } else {
          cache := cache - {domain};
        }
      } else {
        assert cache - {domain} == cache;
      }
      if answer.None? {
        if EndsWith(domain, ".eth") {
          name := domain + ".limo";
        }
        if provider == Tor && !hasTor {
          answer := Some(Err);
        }
      }
      clock := now;
      lookups := lookups[i := Lookup(domain, if answer.Some? then Over(answer.value) else Waiting)];
    }

    /** What the upstream's answer leads to: an end, or addresses still to be put in the cache. */
    method AcceptReply(ghost i: nat, answer: Result<seq<Ip>>) returns (store: bool)
      requires Possible(State(), Reply(i, answer))
      modifies this
      ensures State() == Step(old(State()), Reply(i, answer))
      ensures store <==> lookups[i].place.Holding?
    {
      store := answer.Ok? && answer.value != [];
      lookups := lookups[i := lookups[i].(place := if store then Holding(answer.value) else Over(answer))];
    }

    /** An answer of at least one address is kept for an hour. */
    method UpdateCache(ghost i: nat, name: string, ips: seq<Ip>, now: real)
      requires Possible(State(), Insert(i, now)) && lookups[i].place.ips == ips && name == Name(lookups[i].domain)
      modifies this
      ensures State() == Step(old(State()), Insert(i, now))
    {
      cache := cache[name := CacheEntry(ips, now + TTL)];
      clock := now;
      lookups := lookups[i := lookups[i].(place := Over(Ok(ips)))];
    }
  }

  function Asked(domains: seq<string>): (r: seq<Lookup>)
    ensures |r| == |domains| && forall i :: 0 <= i < |r| ==> r[i] == Lookup(domains[i], New)
  {
    if domains == [] then [] else [Lookup(domains[0], New)] + Asked(domains[1..])
  }

  function Starting(available: bool, domains: seq<string>, now: real): Resolver {
    Resolver(available, map[], Asked(domains), now)
  }

  predicate Feasible(r: Resolver, run: seq<Event>)
    decreases |run|, 0
  {
    run == [] || (Feasible(r, run[..|run| - 1]) && Possible(Run(r, run[..|run| - 1]), run[|run| - 1]))
  }

  function Run(r: Resolver, run: seq<Event>): Resolver
    requires Feasible(r, run)
    decreases |run|, 1
  {
    if run == [] then r else Step(Run(r, run[..|run| - 1]), run[|run| - 1])
  }

  // ---------------------------------------------------------------------------------------------------------------
  // The cache in every reachable state
  // ---------------------------------------------------------------------------------------------------------------

  lemma GatewayIsNotEns(domain: string)
    ensures !EndsWith(Name(domain), ".eth")
  {
    if EndsWith(domain, ".eth") {
      var name := Name(domain);
      assert name[|name| - 1] == 'o';
      assert name[|name| - 4..][3] == 'o';
    }
  }

  ghost predicate Clean(r: Resolver) {
    && (forall name :: name in r.cache ==> r.cache[name].ips != [] && !EndsWith(name, ".eth"))
    && (forall i :: 0 <= i < |r.lookups| && r.lookups[i].place.Holding? ==> r.lookups[i].place.ips != [])
  }

  lemma StepKeepsClean(r: Resolver, e: Event)
    requires Clean(r) && Possible(r, e)
    ensures Clean(Step(r, e))
  {
    hide Name;
    GatewayIsNotEns(r.lookups[e.lookup].domain);
  }

  /** No entry of the cache is empty and none is for an ENS name, however lookups interleave. */
  lemma {:induction false} CacheIsClean(r: Resolver, run: seq<Event>)
    requires Clean(r) && Feasible(r, run)
    ensures Clean(Run(r, run))
  {
    if run != [] {
      CacheIsClean(r, run[..|run| - 1]);
      StepKeepsClean(Run(r, run[..|run| - 1]), run[|run| - 1]);
    }
  }

  /** So an ENS name is never answered by the cache: its lookup goes on to the upstream when there is one. */
  lemma EnsReachesUpstream(available: bool, domains: seq<string>, start: real, run: seq<Event>, i: nat, now: real)
    requires Feasible(Starting(available, domains, start), run)
    requires Possible(Run(Starting(available, domains, start), run), Look(i, now))
    requires EndsWith(Run(Starting(available, domains, start), run).lookups[i].domain, ".eth")
    ensures var r := Run(Starting(available, domains, start), run);
      Step(r, Look(i, now)).lookups[i].place == (if r.available then Waiting else Over(Err))
  {
    CacheIsClean(Starting(available, domains, start), run);
  }

  // ---------------------------------------------------------------------------------------------------------------
  // The cache against the history of the run
  // ---------------------------------------------------------------------------------------------------------------

  /** The answer most recently inserted for a name, and when. */
  datatype Stamp = Stamp(ips: seq<Ip>, at: real)

  function Latest(r: Resolver, run: seq<Event>, name: string): Option<Stamp>
    requires Feasible(r, run)
  {
    if run == [] then None
    else
      var front := run[..|run| - 1];
      match run[|run| - 1]
      case Insert(i, now) =>
        var l := Run(r, front).lookups[i];
        if Name(l.domain) == name then Some(Stamp(l.place.ips, now)) else Latest(r, front, name)
      case _ => Latest(r, front, name)
  }

  /** The cache never holds anything but the latest insertion, and drops that only once its hour is over. */
  ghost predicate Reflects(r: Resolver, latest: Option<Stamp>, name: string) {
    if name in r.cache then latest.Some? && r.cache[name] == CacheEntry(latest.value.ips, latest.value.at + TTL)
    else latest.Some? ==> latest.value.at + TTL <= r.clock
  }

  lemma {:induction false} CacheReflectsHistory(
      available: bool, domains: seq<string>, start: real, run: seq<Event>, name: string)
    requires Feasible(Starting(available, domains, start), run)
    ensures var r := Starting(available, domains, start);
      Reflects(Run(r, run), Latest(r, run, name), name)
      && (Latest(r, run, name).Some? ==> Latest(r, run, name).value.at <= Run(r, run).clock)
  {
    if run != [] {
      CacheReflectsHistory(available, domains, start, run[..|run| - 1], name);
    }
  }

  /**
   The cache answers a lookup exactly when the latest insertion for the name is less than an hour old, and then with
   the addresses of that insertion.
   */
  lemma {:induction false} HitIffFresh(
      available: bool, domains: seq<string>, start: real, run: seq<Event>, i: nat, now: real)
    requires Feasible(Starting(available, domains, start), run)
    requires Possible(Run(Starting(available, domains, start), run), Look(i, now))
    ensures var r := Starting(available, domains, start);
      var s := Run(r, run);
      var latest := Latest(r, run, s.lookups[i].domain);
      && (Live(s.cache, s.lookups[i].domain, now) <==> latest.Some? && now - latest.value.at < 60.0 * 60.0)
      && (Live(s.cache, s.lookups[i].domain, now) ==>
            Step(s, Look(i, now)).lookups[i].place == Over(Ok(latest.value.ips)) && latest.value.at <= now)
  {
    var s := Run(Starting(available, domains, start), run);
    CacheReflectsHistory(available, domains, start, run, s.lookups[i].domain);
  }

  // ---------------------------------------------------------------------------------------------------------------
  // Answers come from upstream
  // ---------------------------------------------------------------------------------------------------------------

  /** The upstream gave these addresses, in this run, to some lookup asking for `name`. */
  ghost predicate Vouched(run: seq<Event>, domains: seq<string>, name: string, ips: seq<Ip>) {
    exists k :: 0 <= k < |run| && SaysSo(run[k], domains, name, ips)
  }

  predicate SaysSo(e: Event, domains: seq<string>, name: string, ips: seq<Ip>) {
    e.Reply? && e.answer == Ok(ips) && e.lookup < |domains| && Name(domains[e.lookup]) == name
  }

  ghost predicate Honest(r: Resolver, run: seq<Event>, domains: seq<string>) {
    && (forall name :: name in r.cache ==> Vouched(run, domains, name, r.cache[name].ips))
    && |r.lookups| == |domains|
    && forall i :: 0 <= i < |domains| ==> r.lookups[i].domain == domains[i] && PlaceHonest(r.lookups[i], run, domains)
  }

  ghost predicate PlaceHonest(l: Lookup, run: seq<Event>, domains: seq<string>) {
    match l.place
    case Holding(ips) => Vouched(run, domains, Name(l.domain), ips)
    case Over(Ok(ips)) => Vouched(run, domains, Name(l.domain), ips)
    case _ => true
  }

  lemma VouchedLater(run: seq<Event>, e: Event, domains: seq<string>, name: string, ips: seq<Ip>)
    ensures Vouched(run, domains, name, ips) ==> Vouched(run + [e], domains, name, ips)
    ensures SaysSo(e, domains, name, ips) ==> Vouched(run + [e], domains, name, ips)
  {
    if Vouched(run, domains, name, ips) {
      var k :| 0 <= k < |run| && SaysSo(run[k], domains, name, ips);
      assert (run + [e])[k] == run[k];
    }
    if SaysSo(e, domains, name, ips) {
      assert (run + [e])[|run|] == e;
    }
  }

  lemma HonestLater(r: Resolver, run: seq<Event>, domains: seq<string>, e: Event)
    requires Honest(r, run, domains)
    ensures Honest(r, run + [e], domains)
  {
    hide Vouched, Name;
    forall name | name in r.cache ensures Vouched(run + [e], domains, name, r.cache[name].ips) {
      VouchedLater(run, e, domains, name, r.cache[name].ips);
    }
    forall i | 0 <= i < |domains| ensures PlaceHonest(r.lookups[i], run + [e], domains) {
      match r.lookups[i].place {
        case Holding(ips) => VouchedLater(run, e, domains, Name(r.lookups[i].domain), ips);
        case Over(Ok(ips)) => VouchedLater(run, e, domains, Name(r.lookups[i].domain), ips);
        case _ =>
      }
    }
  }

  lemma StepHonest(r: Resolver, run: seq<Event>, domains: seq<string>, e: Event)
    requires Clean(r) && Honest(r, run, domains) && Possible(r, e)
    ensures Honest(Step(r, e), run + [e], domains)
  {
    hide Vouched;
    HonestLater(r, run, domains, e);
    if e.Reply? && e.answer.Ok? {
      VouchedLater(run, e, domains, Name(domains[e.lookup]), e.answer.value);
    }
  }

  lemma {:induction false} RunIsHonest(available: bool, domains: seq<string>, start: real, run: seq<Event>)
    requires Feasible(Starting(available, domains, start), run)
    ensures Honest(Run(Starting(available, domains, start), run), run, domains)
  {
    if run != [] {
      var r, front := Starting(available, domains, start), run[..|run| - 1];
      assert run == front + [run[|run| - 1]];
      RunIsHonest(available, domains, start, front);
      CacheIsClean(r, front);
      StepHonest(Run(r, front), front, domains, run[|run| - 1]);
    }
  }

  /** Every answer given, by the cache or not, is one the upstream gave in this run for the name asked. */
  lemma AnswersAreUpstreams(available: bool, domains: seq<string>, start: real, run: seq<Event>, i: nat, ips: seq<Ip>)
    requires Feasible(Starting(available, domains, start), run) && i < |domains|
    requires |Run(Starting(available, domains, start), run).lookups| == |domains|
    requires Run(Starting(available, domains, start), run).lookups[i].place == Over(Ok(ips))
    ensures exists k :: 0 <= k < |run| && SaysSo(run[k], domains, Name(domains[i]), ips)
  {
    RunIsHonest(available, domains, start, run);
    assert PlaceHonest(Run(Starting(available, domains, start), run).lookups[i], run, domains);
    assert Vouched(run, domains, Name(domains[i]), ips);
  }

  // ---------------------------------------------------------------------------------------------------------------
  // Names, misses and failures
  // ---------------------------------------------------------------------------------------------------------------

  /** A name under .eth is asked for under .eth.limo, any other as it is. */
  lemma GatewayNames(front: string, domain: string)
    ensures Name(front + ".eth") == front + ".eth.limo"
    ensures (forall x :: domain != x + ".eth") ==> Name(domain) == domain
  {
    assert EndsWith(front + ".eth", ".eth");
    assert front + ".eth" + ".limo" == front + ".eth.limo";
    EndsWithIff(domain, ".eth");
  }

  /** A lookup that the cache does not answer waits for the upstream, or fails at once when there is none. */
  lemma MissGoesUpstream(r: Resolver, i: nat, now: real)
    requires Possible(r, Look(i, now)) && !Live(r.cache, r.lookups[i].domain, now)
    ensures var s := Step(r, Look(i, now));
      && s.lookups == r.lookups[i := Lookup(r.lookups[i].domain, if r.available then Waiting else Over(Err))]
      && r.lookups[i].domain !in s.cache
      && forall name :: name != r.lookups[i].domain ==>
           (name in s.cache <==> name in r.cache) && (name in s.cache ==> s.cache[name] == r.cache[name])
  {
  }

  /** An upstream failure, and an empty answer, are handed on as they are, and nothing is kept of them. */
  lemma FailureIsHandedOn(r: Resolver, i: nat, answer: Result<seq<Ip>>)
    requires Possible(r, Reply(i, answer)) && (answer == Err || answer == Ok([]))
    ensures Step(r, Reply(i, answer)) == r.(lookups := r.lookups[i := Lookup(r.lookups[i].domain, Over(answer))])
  {
  }

  /** An answer with addresses is returned once it has been kept for the name asked, and for an hour from then. */
  lemma AnswerIsKept(r: Resolver, i: nat, ips: seq<Ip>, now: real)
    requires Possible(r, Reply(i, Ok(ips))) && ips != [] && r.clock <= now
    ensures var s := Step(r, Reply(i, Ok(ips)));
      && Possible(s, Insert(i, now))
      && var t := Step(s, Insert(i, now));
      && t.lookups[i] == Lookup(r.lookups[i].domain, Over(Ok(ips)))
      && Name(r.lookups[i].domain) in t.cache
      && t.cache[Name(r.lookups[i].domain)] == CacheEntry(ips, now + 60.0 * 60.0)
  {
  }
}
