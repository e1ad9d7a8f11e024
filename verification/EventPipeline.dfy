/** The queue of discovered names (src/pipeline.rs): each name once, best priority first, within a budget. */
module EventPipeline {
  import opened Basics
  import opened Orders
  import opened Ranking

  datatype Event = Event(priority: nat, name: string)

  /** Higher priority first, then by name. */
  predicate Before(a: Event, b: Event) {
    a.priority > b.priority || (a.priority == b.priority && CompareStrings(a.name, b.name) == Less)
  }

  lemma BeforeIsStrict()
    ensures StrictOrder(Before)
  {
    StringsTotal();
    forall x, y ensures (Before(x, y) ==> !Before(y, x)) && (Before(x, y) || Before(y, x) || x == y) {
      assert CompareStrings(x.name, y.name) == CompareStrings(y.name, x.name).Reverse();
      assert CompareStrings(x.name, y.name) == Equal <==> x.name == y.name;
    }
    forall x, y, z | Before(x, y) && Before(y, z) ensures Before(x, z) {
      assert CompareStrings(x.name, y.name) == Less && CompareStrings(y.name, z.name) == Less ==> CompareStrings(x.name, z.name) == Less;
    }
  }

  /** The event that a pop returns. */
  predicate IsFirst(e: Event, queue: set<Event>) {
    e in queue && forall y :: y in queue && y != e ==> Before(e, y)
  }

  ghost function First(queue: set<Event>): (e: Event)
    requires queue != {}
    ensures IsFirst(e, queue)
  {
    assert exists e :: IsFirst(e, queue) by {
      BeforeIsStrict();
      var m := FirstExists(Before, queue);
      assert IsFirst(m, queue);
    }
    var e :| IsFirst(e, queue);
    e
  }

  lemma FirstIsUnique(e: Event, queue: set<Event>)
    requires IsFirst(e, queue)
    ensures e == First(queue)
  {
    BeforeIsStrict();
    var other := First(queue);
    assert Before(e, other) ==> !Before(other, e);
  }

  // ----- draining -----

  datatype Drained = Drained(names: seq<string>, queue: set<Event>, processed: set<string>)

  /** Pops until k names that were not processed have been returned, or the queue is empty. */
  ghost function Drain(queue: set<Event>, processed: set<string>, k: nat): Drained
    decreases |queue|
  {
    if k == 0 || queue == {} then Drained([], queue, processed)
    else
      var e := First(queue);
      if e.name in processed then Drain(queue - {e}, processed, k)
      else
        var rest := Drain(queue - {e}, processed + {e.name}, k - 1);
        rest.(names := [e.name] + rest.names)
  }

  /** The queue holds each name once. */
  predicate UniqueNames(queue: set<Event>) {
    forall a, b :: a in queue && b in queue && a.name == b.name ==> a == b
  }

  function Live(queue: set<Event>, processed: set<string>): set<Event> {
    set e | e in queue && e.name !in processed
  }

  function NamesOf(events: seq<Event>): seq<string> {
    seq(|events|, i requires 0 <= i < |events| => events[i].name)
  }

  /** A name that was already processed is passed over and changes nothing else. */
  lemma PassOver(queue: set<Event>, processed: set<string>, e: Event)
    requires e in queue && e.name in processed
    ensures Live(queue - {e}, processed) == Live(queue, processed)
  {
  }

  lemma TakeFirst(queue: set<Event>, processed: set<string>, e: Event, k: nat, rest: seq<Event>)
    requires UniqueNames(queue) && IsFirst(e, queue) && e.name !in processed && k > 0
    requires Best(Before, Live(queue - {e}, processed + {e.name}), k - 1, rest)
    ensures Best(Before, Live(queue, processed), k, [e] + rest)
    ensures NamesOf([e] + rest) == [e.name] + NamesOf(rest)
  {
    var live := Live(queue, processed);
    assert Live(queue - {e}, processed + {e.name}) == live - {e};
    BestOfOthers(Before, live, e, k, rest);
  }

  lemma UniqueWithout(queue: set<Event>, e: Event)
    requires UniqueNames(queue)
    ensures UniqueNames(queue - {e})
  {
  }

  lemma NothingToDrain(queue: set<Event>, processed: set<string>, k: nat)
    requires k == 0 || queue == {}
    ensures Best(Before, Live(queue, processed), k, [])
    ensures Drain(queue, processed, k).names == NamesOf([]) == []
  {
    if queue == {} { assert Live(queue, processed) == {}; }
  }

  /** The drain returns these events, and they are the best. */
  ghost predicate DrainIsBest(queue: set<Event>, processed: set<string>, k: nat, events: seq<Event>) {
    Best(Before, Live(queue, processed), k, events) && Drain(queue, processed, k).names == NamesOf(events)
  }

  lemma BestWithoutFirst(queue: set<Event>, processed: set<string>, k: nat, events: seq<Event>)
    requires queue != {} && k > 0 && First(queue).name in processed
    requires DrainIsBest(queue - {First(queue)}, processed, k, events)
    ensures DrainIsBest(queue, processed, k, events)
  {
    PassOver(queue, processed, First(queue));
  }

  lemma BestWithFirst(queue: set<Event>, processed: set<string>, k: nat, rest: seq<Event>)
    requires UniqueNames(queue) && queue != {} && k > 0 && First(queue).name !in processed
    requires DrainIsBest(queue - {First(queue)}, processed + {First(queue).name}, k - 1, rest)
    ensures DrainIsBest(queue, processed, k, [First(queue)] + rest)
  {
    TakeFirst(queue, processed, First(queue), k, rest);
  }

  /** What a drain returns: the best remaining names, in order; and what it leaves. */
  lemma {:induction false} DrainReturnsTheBest(queue: set<Event>, processed: set<string>, k: nat) returns (events: seq<Event>)
    requires UniqueNames(queue)
    ensures Best(Before, Live(queue, processed), k, events)
    ensures Drain(queue, processed, k).names == NamesOf(events)
    decreases |queue|
  {
    if k == 0 || queue == {} {
      NothingToDrain(queue, processed, k);
      events := [];
    } else {
      var e := First(queue);
      UniqueWithout(queue, e);
      if e.name in processed {
        events := DrainReturnsTheBest(queue - {e}, processed, k);
        BestWithoutFirst(queue, processed, k, events);
      } else {
        var rest := DrainReturnsTheBest(queue - {e}, processed + {e.name}, k - 1);
        BestWithFirst(queue, processed, k, rest);
        events := [e] + rest;
      }
    }
  }

  /** A drain returns higher priorities first, equal ones by name, and leaves no live event that comes before one it returned. */
  lemma DrainsHighestFirst(queue: set<Event>, processed: set<string>, k: nat) returns (events: seq<Event>)
    requires UniqueNames(queue)
    ensures Drain(queue, processed, k).names == NamesOf(events)
    ensures Elements(events) <= Live(queue, processed) && |events| == Min(k, |Live(queue, processed)|)
    ensures forall i, j :: 0 <= i < j < |events| ==>
              events[i].priority > events[j].priority
              || (events[i].priority == events[j].priority && CompareStrings(events[i].name, events[j].name) == Less)
    ensures forall x, y :: x in events && y in Live(queue, processed) && y !in events ==>
              x.priority > y.priority || (x.priority == y.priority && CompareStrings(x.name, y.name) == Less)
  {
    events := DrainReturnsTheBest(queue, processed, k);
    forall i, j | 0 <= i < j < |events| ensures Before(events[i], events[j]) { }
    forall x, y | x in events && y in Live(queue, processed) && y !in events ensures Before(x, y) { }
  }

  lemma Regroup(a: seq<string>, b: seq<string>, c: seq<string>)
    ensures a + (b + c) == (a + b) + c
  {
  }

  /** Draining twice is draining once with the sum of the limits. */
  lemma {:induction false} DrainTwice(queue: set<Event>, processed: set<string>, a: nat, b: nat, once: Drained, twice: Drained)
    requires once == Drain(queue, processed, a) && twice == Drain(once.queue, once.processed, b)
    ensures Drain(queue, processed, a + b) == Drained(once.names + twice.names, twice.queue, twice.processed)
    decreases |queue|
  {
    if a > 0 && queue != {} {
      var e := First(queue);
      if e.name in processed {
        DrainTwice(queue - {e}, processed, a, b, once, twice);
      } else {
        var rest := Drain(queue - {e}, processed + {e.name}, a - 1);
        DrainTwice(queue - {e}, processed + {e.name}, a - 1, b, rest, twice);
        Regroup([e.name], rest.names, twice.names);
      }
    } else {
      assert [] + twice.names == twice.names;
    }
  }

  /** Everything popped is returned or was processed before; what is returned was not. */
  ghost predicate Accounts(queue: set<Event>, processed: set<string>, d: Drained) {
    && d.queue <= queue
    && d.processed == processed + Elements(d.names)
    && Elements(d.names) !! processed
    && (forall i, j :: 0 <= i < j < |d.names| ==> d.names[i] != d.names[j])
    && (forall n :: n in d.names ==> exists e :: e in queue - d.queue && e.name == n)
    && |d.names| <= |queue| - |d.queue|
  }

  lemma AccountsMore(queue: set<Event>, processed: set<string>, e: Event, rest: Drained)
    requires e in queue && e.name !in processed && Accounts(queue - {e}, processed + {e.name}, rest)
    ensures Accounts(queue, processed, rest.(names := [e.name] + rest.names))
  {
    var names := [e.name] + rest.names;
    assert Elements(names) == {e.name} + Elements(rest.names);
    assert forall i :: 0 <= i < |rest.names| ==> rest.names[i] in Elements(rest.names);
    forall n | n in names ensures exists x :: x in queue - rest.queue && x.name == n {
      if n == e.name {
        assert e in queue - rest.queue;
      } else {
        var x :| x in queue - {e} - rest.queue && x.name == n;
        assert x in queue - rest.queue;
      }
    }
  }

  lemma {:induction false} DrainAccounts(queue: set<Event>, processed: set<string>, k: nat)
    ensures Accounts(queue, processed, Drain(queue, processed, k))
    ensures var d := Drain(queue, processed, k); |d.names| <= k && (|d.names| < k ==> d.queue == {})
    decreases |queue|
  {
    if k > 0 && queue != {} {
      var e := First(queue);
      if e.name in processed {
        DrainAccounts(queue - {e}, processed, k);
        PassedAccounts(queue, processed, e, Drain(queue - {e}, processed, k));
      } else {
        DrainAccounts(queue - {e}, processed + {e.name}, k - 1);
        AccountsMore(queue, processed, e, Drain(queue - {e}, processed + {e.name}, k - 1));
      }
    }
  }

  lemma PassedAccounts(queue: set<Event>, processed: set<string>, e: Event, d: Drained)
    requires e in queue && Accounts(queue - {e}, processed, d)
    ensures Accounts(queue, processed, d)
  {
    forall n | n in d.names ensures exists x :: x in queue - d.queue && x.name == n {
      var x :| x in queue - {e} - d.queue && x.name == n;
      assert x in queue - d.queue;
    }
  }

  // ----- the pipeline as a value -----

  datatype Pipe = Pipe(
    queue: set<Event>, seen: set<string>, processed: set<string>, limit: Option<nat>, enqueued: nat, duplicates: nat, exhausted: bool)

  datatype Op = Mark(names: seq<string>) | Add(name: string, priority: nat) | Take(limit: nat)

  function Opened(limit: nat): Pipe {
    Pipe({}, {}, {}, if limit > 0 then Some(limit) else None, 0, 0, false)
  }

  function Marked(p: Pipe, names: seq<string>): Pipe {
    p.(seen := p.seen + Elements(names), processed := p.processed + Elements(names))
  }

  predicate HasRoom(p: Pipe) { p.limit.Some? ==> p.enqueued < p.limit.value }

  function Queued(p: Pipe, name: string, priority: nat): Pipe {
    if name in p.seen then p.(duplicates := p.duplicates + 1)
    else if !HasRoom(p) then p.(exhausted := true)
    else p.(seen := p.seen + {name}, queue := p.queue + {Event(priority, name)}, enqueued := p.enqueued + 1)
  }

  ghost function DrainOf(p: Pipe, limit: nat): Drained {
    Drain(p.queue, p.processed, if limit == 0 then |p.queue| else limit)
  }

  ghost function Step(p: Pipe, op: Op): Pipe {
    match op
    case Mark(names) => Marked(p, names)
    case Add(name, priority) => Queued(p, name, priority)
    case Take(limit) => var d := DrainOf(p, limit); p.(queue := d.queue, processed := d.processed)
  }

  /** What an operation returns. */
  ghost function Output(p: Pipe, op: Op): seq<string> {
    if op.Take? then DrainOf(p, op.limit).names else []
  }

  /** The pipeline after some operations. */
  ghost function After(limit: nat, ops: seq<Op>): Pipe {
    if ops == [] then Opened(limit) else Step(After(limit, ops[..|ops| - 1]), ops[|ops| - 1])
  }

  function Concat(outputs: seq<seq<string>>): seq<string> {
    if outputs == [] then [] else Concat(outputs[..|outputs| - 1]) + outputs[|outputs| - 1]
  }

  /** What every operation keeps, given what was drained and how many popped events had been processed elsewhere. */
  ghost predicate Sound(p: Pipe, drained: seq<string>, skipped: nat) {
    && UniqueNames(p.queue) && (forall e :: e in p.queue ==> e.name in p.seen)
    && p.processed <= p.seen && Elements(drained) <= p.processed
    && (forall i, j :: 0 <= i < j < |drained| ==> drained[i] != drained[j])
    && (forall e :: e in p.queue ==> e.name !in Elements(drained))
    && p.enqueued == |drained| + |p.queue| + skipped
    && (p.limit.Some? ==> p.enqueued <= p.limit.value)
  }

  lemma DrainingIsSound(p: Pipe, drained: seq<string>, skipped: nat, limit: nat)
    requires Sound(p, drained, skipped)
    ensures var d := DrainOf(p, limit);
            && d.queue <= p.queue && |d.queue| + |d.names| <= |p.queue| && Elements(d.names) !! p.processed
            && d.processed == p.processed + Elements(d.names)
            && Sound(Step(p, Take(limit)), drained + d.names, skipped + (|p.queue| - |d.queue| - |d.names|))
  {
    var k := if limit == 0 then |p.queue| else limit;
    DrainAccounts(p.queue, p.processed, k);
    KeepsApart(drained, p.queue, p.processed, DrainOf(p, limit));
    SubsetSize(DrainOf(p, limit).queue, p.queue);
  }

  lemma QueueingIsSound(p: Pipe, drained: seq<string>, skipped: nat, name: string, priority: nat)
    requires Sound(p, drained, skipped)
    ensures Sound(Queued(p, name, priority), drained, skipped)
    ensures name !in p.seen ==> Event(priority, name) !in p.queue
  {
    if name !in p.seen {
      assert name !in Elements(drained);
      assert |p.queue + {Event(priority, name)}| == |p.queue| + 1;
    }
  }

  // ----- the pipeline -----

  class DiscoveryPipeline {
    /** The binary heap, as the events it holds. */
    var queue: set<Event>
    var seen: set<string>
    var processed: set<string>
    const eventLimit: Option<nat>
    var enqueued: nat
    var duplicates: nat
    var budgetExhausted: bool
    /** Every name that was ever drained, and how many popped events had been processed elsewhere. */
    ghost var drained: seq<string>
    ghost var skipped: nat

    ghost function State(): Pipe
      reads this
    {
      Pipe(queue, seen, processed, eventLimit, enqueued, duplicates, budgetExhausted)
    }

    ghost predicate Valid()
      reads this
    {
      Sound(State(), drained, skipped)
    }

    constructor (limit: nat)
      ensures Valid() && State() == Opened(limit) && drained == []
    {
      queue, seen, processed, enqueued, duplicates, budgetExhausted := {}, {}, {}, 0, 0, false;
      eventLimit := if limit > 0 then Some(limit) else None;
      drained, skipped := [], 0;
    }

    method MarkProcessed(names: seq<string>)
      requires Valid()
      modifies this`seen, this`processed
      ensures Valid()
      ensures seen == old(seen) + Elements(names) && processed == old(processed) + Elements(names)
      ensures State() == Marked(old(State()), names)
    {
      for k := 0 to |names|
        invariant seen == old(seen) + Elements(names[..k]) && processed == old(processed) + Elements(names[..k])
      {
        assert Elements(names[..k + 1]) == Elements(names[..k]) + {names[k]};
        seen := seen + {names[k]};
        processed := processed + {names[k]};
      }
      assert names[..|names|] == names;
    }

    /** A name is queued once, and only while the budget lasts. */
    method Enqueue(name: string, priority: nat) returns (queued: bool)
      requires Valid()
      modifies this
      ensures Valid() && processed == old(processed) && drained == old(drained) && skipped == old(skipped)
      ensures queued <==> name !in old(seen) && (eventLimit.Some? ==> old(enqueued) < eventLimit.value)
      ensures queue == (if queued then old(queue) + {Event(priority, name)} else old(queue))
      ensures seen == (if queued then old(seen) + {name} else old(seen)) && enqueued == old(enqueued) + (if queued then 1 else 0)
      ensures duplicates == old(duplicates) + (if name in old(seen) then 1 else 0)
      ensures budgetExhausted == (old(budgetExhausted) || (name !in old(seen) && !queued))
      ensures State() == Queued(old(State()), name, priority)
    {
      QueueingIsSound(State(), drained, skipped, name, priority);
      queued := Push(name, priority);
    }

    method Push(name: string, priority: nat) returns (queued: bool)
      modifies this`queue, this`seen, this`enqueued, this`duplicates, this`budgetExhausted
      ensures State() == Queued(old(State()), name, priority)
      ensures queued <==> name !in old(seen) && HasRoom(old(State()))
    {
      if name in seen {
        duplicates := duplicates + 1;
        return false;
      }
      if eventLimit.Some? && enqueued >= eventLimit.value {
        budgetExhausted := true;
        return false;
      }
      seen := seen + {name};
      queue := queue + {Event(priority, name)};
      enqueued := enqueued + 1;
      return true;
    }

    /** Up to limit names, or all for zero. No name is returned twice, or after it was marked. */
    method DrainNames(limit: nat) returns (names: seq<string>)
      requires Valid()
      modifies this`queue, this`processed, this`drained, this`skipped
      ensures Valid()
      ensures Drained(names, queue, processed) == Drain(old(queue), old(processed), if limit == 0 then |old(queue)| else limit)
      ensures State() == Step(old(State()), Take(limit)) && names == Output(old(State()), Take(limit))
      ensures drained == old(drained) + names && Elements(names) !! old(processed)
      ensures processed == old(processed) + Elements(names)
      ensures queue <= old(queue) && skipped == old(skipped) + (|old(queue)| - |queue| - |names|)
      ensures limit == 0 ==> queue == {}
    {
      DrainingIsSound(State(), drained, skipped, limit);
      if limit == 0 { FullDrainEmpties(queue, processed); }
      names := PopNames(limit);
      drained := drained + names;
      skipped := skipped + (|old(queue)| - |queue| - |names|);
    }

    method Pop() returns (e: Event)
      requires queue != {}
      modifies this`queue
      ensures IsFirst(e, old(queue)) && queue == old(queue) - {e}
    {
      ghost var first := First(queue);
      e :| IsFirst(e, queue);
      queue := queue - {e};
    }

    /** The loop that pops events. */
    method PopNames(limit: nat) returns (names: seq<string>)
      modifies this`queue, this`processed
      ensures Drained(names, queue, processed) == Drain(old(queue), old(processed), if limit == 0 then |old(queue)| else limit)
    {
      names := [];
      ghost var room: nat := if limit == 0 then |queue| else limit;
      ghost var all := Drain(queue, processed, room);
      while (limit == 0 || |names| < limit) && queue != {}
        invariant if limit == 0 then room >= |queue| else room == limit - |names|
        invariant all == Continued(names, Drain(queue, processed, room))
        decreases |queue|
      {
        ghost var before := queue;
        var e := Pop();
        PopStep(names, before, processed, room, e);
        if e.name !in processed {
          processed := processed + {e.name};
          names := names + [e.name];
          room := room - 1;
        }
      }
      ContinuedEnd(names, queue, processed, room);
    }
  }

  function Continued(names: seq<string>, rest: Drained): Drained {
    rest.(names := names + rest.names)
  }

  lemma ContinuedEnd(names: seq<string>, queue: set<Event>, processed: set<string>, room: nat)
    requires room == 0 || queue == {}
    ensures Continued(names, Drain(queue, processed, room)) == Drained(names, queue, processed)
  {
  }

  /** What one pop does to a drain under way. */
  lemma PopStep(names: seq<string>, queue: set<Event>, processed: set<string>, room: nat, e: Event)
    requires room > 0 && IsFirst(e, queue)
    ensures Continued(names, Drain(queue, processed, room))
         == if e.name in processed then Continued(names, Drain(queue - {e}, processed, room))
            else Continued(names + [e.name], Drain(queue - {e}, processed + {e.name}, room - 1))
  {
    FirstIsUnique(e, queue);
    if e.name !in processed {
      ContinuedMore(names, e.name, Drain(queue - {e}, processed + {e.name}, room - 1));
    }
  }

  lemma ContinuedMore(names: seq<string>, name: string, rest: Drained)
    ensures Continued(names, rest.(names := [name] + rest.names)) == Continued(names + [name], rest)
  {
    assert names + ([name] + rest.names) == names + [name] + rest.names;
  }

  lemma {:induction false} FullDrainEmpties(queue: set<Event>, processed: set<string>)
    ensures Drain(queue, processed, |queue|).queue == {}
  {
    DrainAccounts(queue, processed, |queue|);
    var d := Drain(queue, processed, |queue|);
    if |d.names| == |queue| {
      assert |d.queue| == 0;
    }
  }

  /** New names are apart from the old ones and from what still waits. */
  lemma KeepsApart(drained: seq<string>, queue: set<Event>, processed: set<string>, d: Drained)
    requires UniqueNames(queue) && Elements(drained) <= processed && Accounts(queue, processed, d)
    requires forall i, j :: 0 <= i < j < |drained| ==> drained[i] != drained[j]
    requires forall e :: e in queue ==> e.name !in Elements(drained)
    ensures forall i, j :: 0 <= i < j < |drained + d.names| ==> (drained + d.names)[i] != (drained + d.names)[j]
    ensures Elements(drained + d.names) == Elements(drained) + Elements(d.names)
    ensures forall e :: e in d.queue ==> e.name !in Elements(drained + d.names)
    ensures forall n :: n in d.names ==> exists e :: e in queue && e.name == n
  {
    var all := drained + d.names;
    assert forall x :: x in all <==> x in drained || x in d.names;
    forall i, j | 0 <= i < j < |all| ensures all[i] != all[j] {
      if i < |drained| <= j {
        assert all[i] in Elements(drained) && all[j] in Elements(d.names);
      }
    }
    forall n | n in d.names ensures exists e :: e in queue && e.name == n {
      var e :| e in queue - d.queue && e.name == n;
      assert e in queue;
    }
    forall n | n in d.names ensures forall e :: e in d.queue ==> e.name != n {
      var x :| x in queue - d.queue && x.name == n;
      assert forall e :: e in d.queue ==> e in queue && e != x;
    }
  }

  // ----- whole runs -----

  /** Output k is what operation k returns on the state that the operations before it leave. */
  ghost predicate OutputsOf(limit: nat, ops: seq<Op>, outputs: seq<seq<string>>) {
    && |outputs| == |ops|
    && forall k {:trigger outputs[k]} :: 0 <= k < |ops| ==> outputs[k] == Output(After(limit, ops[..k]), ops[k])
  }

  lemma OutputsExtend(limit: nat, ops: seq<Op>, outputs: seq<seq<string>>, op: Op)
    requires OutputsOf(limit, ops, outputs)
    ensures OutputsOf(limit, ops + [op], outputs + [Output(After(limit, ops), op)])
    ensures Concat(outputs + [Output(After(limit, ops), op)]) == Concat(outputs) + Output(After(limit, ops), op)
    ensures After(limit, ops + [op]) == Step(After(limit, ops), op)
  {
    var more, out := ops + [op], outputs + [Output(After(limit, ops), op)];
    assert out[..|outputs|] == outputs && more[..|ops|] == ops;
    forall k {:trigger out[k]} | 0 <= k < |more| ensures out[k] == Output(After(limit, more[..k]), more[k]) {
      if k < |ops| { assert more[..k] == ops[..k] && out[k] == outputs[k]; }
    }
  }

  method Perform(p: DiscoveryPipeline, op: Op) returns (out: seq<string>)
    requires p.Valid()
    modifies p
    ensures p.Valid() && p.State() == Step(old(p.State()), op) && out == Output(old(p.State()), op)
    ensures p.drained == old(p.drained) + out
    ensures old(p.processed) <= p.processed && Elements(out) !! old(p.processed)
    ensures op.Mark? ==> Elements(op.names) <= p.processed
  {
    out := [];
    match op {
      case Mark(names) => p.MarkProcessed(names);
      case Add(name, priority) => var queued := p.Enqueue(name, priority);
      case Take(k) => out := p.DrainNames(k);
    }
  }

  /** A name that an operation marks is in no output from then on; all marked names count as processed. */
  ghost predicate NeverAgain(ops: seq<Op>, outputs: seq<seq<string>>, processed: set<string>) {
    && |outputs| == |ops|
    && (forall i {:trigger ops[i]} :: 0 <= i < |ops| && ops[i].Mark? ==> Elements(ops[i].names) <= processed)
    && (forall i, j {:trigger ops[i], outputs[j]} :: 0 <= i <= j < |ops| && ops[i].Mark? ==> Elements(ops[i].names) !! Elements(outputs[j]))
  }

  lemma NeverAgainExtends(
      ops: seq<Op>, outputs: seq<seq<string>>, processed: set<string>, op: Op, out: seq<string>, after: set<string>)
    requires NeverAgain(ops, outputs, processed) && processed <= after && Elements(out) !! processed
    requires op.Mark? ==> Elements(op.names) <= after && out == []
    ensures NeverAgain(ops + [op], outputs + [out], after)
  {
    var more, outs := ops + [op], outputs + [out];
    forall i, j {:trigger more[i], outs[j]} | 0 <= i <= j < |more| && more[i].Mark? ensures Elements(more[i].names) !! Elements(outs[j]) {
      if j < |ops| {
        assert more[i] == ops[i] && outs[j] == outputs[j];
      } else if i < |ops| {
        assert more[i] == ops[i];
      }
    }
    forall i {:trigger more[i]} | 0 <= i < |more| && more[i].Mark? ensures Elements(more[i].names) <= after {
      if i < |ops| { assert more[i] == ops[i]; }
    }
  }

  /** One operation of a run under way. */
  method RunOne(p: DiscoveryPipeline, limit: nat, ghost done: seq<Op>, op: Op, outputs: seq<seq<string>>) returns (more: seq<seq<string>>)
    requires p.Valid() && p.State() == After(limit, done) && OutputsOf(limit, done, outputs) && p.drained == Concat(outputs)
    requires NeverAgain(done, outputs, p.processed)
    modifies p
    ensures p.Valid() && p.State() == After(limit, done + [op]) && OutputsOf(limit, done + [op], more) && p.drained == Concat(more)
    ensures NeverAgain(done + [op], more, p.processed)
  {
    ghost var before := p.processed;
    var out := Perform(p, op);
    OutputsExtend(limit, done, outputs, op);
    NeverAgainExtends(done, outputs, before, op, out, p.processed);
    more := outputs + [out];
  }

  lemma OneMoreOp(ops: seq<Op>, n: nat)
    requires n < |ops|
    ensures ops[..n] + [ops[n]] == ops[..n + 1]
  {
  }

  /** Over any run: conservation, the budget, and no name drained twice or after it was marked. */
  method RunOps(limit: nat, ops: seq<Op>) returns (p: DiscoveryPipeline, outputs: seq<seq<string>>)
    ensures p.Valid() && p.State() == After(limit, ops) && OutputsOf(limit, ops, outputs) && p.drained == Concat(outputs)
    ensures p.enqueued == |p.drained| + |p.queue| + p.skipped && (limit > 0 ==> p.enqueued <= limit)
    ensures forall i, j :: 0 <= i < j < |Concat(outputs)| ==> Concat(outputs)[i] != Concat(outputs)[j]
    ensures NeverAgain(ops, outputs, p.processed)
  {
    p := new DiscoveryPipeline(limit);
    outputs := [];
    for n := 0 to |ops|
      invariant fresh(p) && p.Valid() && OutputsOf(limit, ops[..n], outputs)
      invariant p.State() == After(limit, ops[..n]) && p.drained == Concat(outputs)
      invariant p.eventLimit == if limit > 0 then Some(limit) else None
      invariant NeverAgain(ops[..n], outputs, p.processed)
    {
      outputs := RunOne(p, limit, ops[..n], ops[n], outputs);
      OneMoreOp(ops, n);
    }
    assert ops[..|ops|] == ops;
  }
}
