/** The cache of depsolve results, whose entries run out after a fixed time. */
module ResultCaches {
  import opened Basics

  type Packages = seq<string>

  /** A stored result with the time of the request. */
  datatype Stored = Stored(expire: int, pkgs: Packages)

  type Results = map<string, Stored>

  /** Hits only while less than the timeout has passed. */
  function Lookup(results: Results, timeout: int, hash: string, now: int): Option<Packages> {
    if hash !in results || timeout <= now - results[hash].expire then None else Some(results[hash].pkgs)
  }

  /** Drops the entries that are older than the timeout; the clock is read anew for every entry. */
  function Cleaned(results: Results, timeout: int, clock: string -> int): Results {
    map k | k in results && clock(k) - results[k].expire <= timeout :: results[k]
  }

  // ---------- runs ----------

  /** One call; `clock` gives the times read in a cleaning, `latest` the last of them. */
  datatype Op =
    | Get(now: int, hash: string)
    | Store(now: int, hash: string, pkgs: Packages)
    | Clean(now: int, clock: string -> int)

  function After(results: Results, timeout: int, op: Op): Results {
    match op
    case Get(_, _) => results
    case Store(now, hash, pkgs) => results[hash := Stored(now, pkgs)]
    case Clean(_, clock) => Cleaned(results, timeout, clock)
  }

  ghost function State(timeout: int, ops: seq<Op>): Results {
    if ops == [] then map[] else After(State(timeout, ops[..|ops| - 1]), timeout, ops[|ops| - 1])
  }

  function TimeOf(ops: seq<Op>, start: int): int {
    if ops == [] then start else ops[|ops| - 1].now
  }

  /** The clock never runs backwards; a cleaning takes from the call before it until its own time. */
  ghost predicate Timely(ops: seq<Op>, start: int) {
    ops != [] ==>
      var before, op := ops[..|ops| - 1], ops[|ops| - 1];
      && Timely(before, start)
      && TimeOf(before, start) <= op.now
      && (op.Clean? ==> forall k :: TimeOf(before, start) <= op.clock(k) <= op.now)
  }

  /** The latest result that was stored under `hash`, whether or not it ran out. */
  ghost function Latest(ops: seq<Op>, hash: string): Option<Stored> {
    if ops == [] then None
    else
      var op := ops[|ops| - 1];
      if op.Store? && op.hash == hash then Some(Stored(op.now, op.pkgs)) else Latest(ops[..|ops| - 1], hash)
  }

  /** What a caller may expect at time `now`: the latest result, unless its time has run out. */
  ghost function Expected(ops: seq<Op>, timeout: int, hash: string, now: int): Option<Packages> {
    match Latest(ops, hash)
    case None => None
    case Some(s) => if timeout <= now - s.expire then None else Some(s.pkgs)
  }

  /** The cache holds the latest result of a hash, or that result has run out and was dropped. */
  lemma {:induction false} HoldsLatest(timeout: int, ops: seq<Op>, start: int, hash: string)
    requires Timely(ops, start)
    ensures hash in State(timeout, ops) ==> Latest(ops, hash) == Some(State(timeout, ops)[hash])
    ensures hash !in State(timeout, ops) && Latest(ops, hash).Some? ==>
              timeout < TimeOf(ops, start) - Latest(ops, hash).value.expire
  {
    if ops != [] {
      HoldsLatest(timeout, ops[..|ops| - 1], start, hash);
    }
  }

  /** In every run, a lookup gives the latest result exactly while its time has not run out. */
  lemma {:induction false} GetIsExpected(timeout: int, ops: seq<Op>, start: int, hash: string, now: int)
    requires Timely(ops, start) && TimeOf(ops, start) <= now
    ensures Lookup(State(timeout, ops), timeout, hash, now) == Expected(ops, timeout, hash, now)
  {
    HoldsLatest(timeout, ops, start, hash);
  }

  /** What the lookups of a run answer, in their order. */
  ghost function Answers(timeout: int, ops: seq<Op>): seq<Option<Packages>> {
    if ops == [] then []
    else
      var before, op := ops[..|ops| - 1], ops[|ops| - 1];
      if !op.Get? then Answers(timeout, before)
      else Answers(timeout, before) + [Lookup(State(timeout, before), timeout, op.hash, op.now)]
  }

  function NoCleans(ops: seq<Op>): (r: seq<Op>)
    ensures forall op :: op in r ==> !op.Clean?
  {
    if ops == [] then []
    else
      var before, op := NoCleans(ops[..|ops| - 1]), ops[|ops| - 1];
      if op.Clean? then before else before + [op]
  }

  lemma {:induction false} NoCleansTimely(ops: seq<Op>, start: int)
    requires Timely(ops, start)
    ensures Timely(NoCleans(ops), start) && TimeOf(NoCleans(ops), start) <= TimeOf(ops, start)
  {
    if ops != [] {
      var before, op := ops[..|ops| - 1], ops[|ops| - 1];
      NoCleansTimely(before, start);
      if !op.Clean? { SnocParts(NoCleans(before), op); }
    }
  }

  lemma SnocParts(ops: seq<Op>, op: Op)
    ensures (ops + [op])[..|ops + [op]| - 1] == ops && (ops + [op])[|ops + [op]| - 1] == op
  {
  }

  lemma {:induction false} LatestWithoutCleans(ops: seq<Op>, hash: string)
    ensures Latest(NoCleans(ops), hash) == Latest(ops, hash)
  {
    if ops != [] {
      var before, op := ops[..|ops| - 1], ops[|ops| - 1];
      LatestWithoutCleans(before, hash);
      if !op.Clean? { SnocParts(NoCleans(before), op); }
    }
  }

  /** Cleaning is invisible: a run answers what it would answer with all its cleanings left out. */
  lemma {:induction false} CleaningIsInvisible(timeout: int, ops: seq<Op>, start: int)
    requires Timely(ops, start)
    ensures Answers(timeout, ops) == Answers(timeout, NoCleans(ops))
  {
    if ops != [] {
      var before, op := ops[..|ops| - 1], ops[|ops| - 1];
      CleaningIsInvisible(timeout, before, start);
      if !op.Clean? { SnocParts(NoCleans(before), op); }
      if op.Get? {
        NoCleansTimely(before, start);
        GetIsExpected(timeout, before, start, op.hash, op.now);
        GetIsExpected(timeout, NoCleans(before), start, op.hash, op.now);
        LatestWithoutCleans(before, op.hash);
      }
    }
  }

  /** Cleanings may be inserted anywhere: two runs that differ only in them answer the same. */
  lemma CleansInsertedAnywhere(timeout: int, ops: seq<Op>, ops': seq<Op>, start: int)
    requires Timely(ops, start) && Timely(ops', start) && NoCleans(ops) == NoCleans(ops')
    ensures Answers(timeout, ops) == Answers(timeout, ops')
  {
    CleaningIsInvisible(timeout, ops, start);
    CleaningIsInvisible(timeout, ops', start);
  }

  lemma AfterSnoc(timeout: int, ops: seq<Op>, op: Op)
    ensures State(timeout, ops + [op]) == After(State(timeout, ops), timeout, op)
  {
    SnocParts(ops, op);
  }

  /** The cache with the calls that changed it.  The clock of its callers never runs backwards. */
  class ResultCache {
    var results: Results
    const timeout: int
    ghost var history: seq<Op>
    ghost const start: int

    ghost predicate Valid()
      reads this
    {
      results == State(timeout, history) && Timely(history, start)
    }

    constructor (timeout: int, ghost now: int)
      ensures Valid() && this.timeout == timeout && start == now && history == []
    {
      this.timeout := timeout;
      results := map[];
      history, start := [], now;
    }

    method CleanCache(now: int, clock: string -> int)
      requires Valid() && Timely(history + [Clean(now, clock)], start)
      modifies this
      ensures Valid() && history == old(history) + [Clean(now, clock)]
      ensures forall k :: k in results <==> k in old(results) && clock(k) <= old(results)[k].expire + timeout
      ensures forall k :: k in results ==> results[k] == old(results)[k]
    {
      AfterSnoc(timeout, history, Clean(now, clock));
      var todo := results.Keys;
      while todo != {}
        invariant todo <= results.Keys <= old(results).Keys && history == old(history)
        invariant forall k :: k in results ==> results[k] == old(results)[k]
        invariant forall k :: k in old(results) && k !in todo ==>
                    (k in results <==> clock(k) - old(results)[k].expire <= timeout)
      {
        var k :| k in todo;
        if timeout < clock(k) - results[k].expire { results := results - {k}; }
        todo := todo - {k};
      }
      assert results == Cleaned(old(results), timeout, clock);
      history := history + [Clean(now, clock)];
    }

    /** Gives the latest result stored under the hash, unless its time has run out, whatever was
        cleaned in between. */
    method Get(hash: string, now: int) returns (r: Option<Packages>)
      requires Valid() && TimeOf(history, start) <= now
      ensures r == Expected(history, timeout, hash, now)
      ensures r.Some? <==> Latest(history, hash).Some? && now < Latest(history, hash).value.expire + timeout
      ensures r.Some? ==> r.value == Latest(history, hash).value.pkgs
    {
      GetIsExpected(timeout, history, start, hash, now);
      if hash !in results || timeout <= now - results[hash].expire { return None; }
      return Some(results[hash].pkgs);
    }

    method Store(hash: string, pkgs: Packages, now: int)
      requires Valid() && TimeOf(history, start) <= now
      modifies this
      ensures Valid() && history == old(history) + [Op.Store(now, hash, pkgs)]
      ensures results == old(results)[hash := Stored(now, pkgs)]
    {
      AfterSnoc(timeout, history, Op.Store(now, hash, pkgs));
      SnocParts(history, Op.Store(now, hash, pkgs));
      results := results[hash := Stored(now, pkgs)];
      history := history + [Op.Store(now, hash, pkgs)];
    }
  }
}
