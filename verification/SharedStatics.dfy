/**
 The handler protocol that lets one thread at a time use shared static field
 objects: an atomic counter of handlers in flight decides who gets them.  Threads
 interleave load, compare-exchange, use and decrement in any way.
 */
module SharedStatics {

  type Thread = nat

  /** The field values of one market data message. */
  const FIELDS: nat := 7
  type Message = m: seq<string> | |m| == FIELDS witness ["", "", "", "", "", "", ""]

  /** The objects a handler works with: the repeating group and one object a field. */
  datatype Objects = Objects(group: Message, fields: Message)

  /** The counter is an unsigned 32-bit integer. */
  const MODULUS: nat := 0x1_0000_0000

  /** Where a thread is in the handler.  `seen` is its last view of the counter; the
      value it replaced decides whether it uses the shared objects (0) or its own.
      `pc` counts its accesses to the objects: the group is copied out of the message,
      then each field out of the group, then each field is read into the entry. */
  datatype Phase =
    | Idle
    | Trying(message: Message, seen: nat)
    | Running(message: Message, seen: nat, own: Objects, pc: nat, entry: seq<string>)
  {
    predicate UsesShared() { Running? && seen == 0 }
    predicate Done() { Running? && pc > 2 * FIELDS }
  }

  /** `shared` is what the static objects hold. */
  datatype State = State(counter: nat, shared: Objects, threads: map<Thread, Phase>)

  datatype Event =
    | Load(t: Thread, message: Message)
    | CompareExchange(t: Thread, own: Objects)
    | Access(t: Thread)
    | Leave(t: Thread)

  /** The counter wraps around. */
  function Wrapped(n: nat): nat { n % MODULUS }

  predicate Possible(s: State, e: Event) {
    e.t in s.threads &&
    match e
    case Load(t, _) => s.threads[t].Idle?
    case CompareExchange(t, _) => s.threads[t].Trying?
    case Access(t) => s.threads[t].Running? && !s.threads[t].Done()
    case Leave(t) => s.threads[t].Done()
  }

  /** The objects after access number `pc`; reading changes nothing. */
  function Written(o: Objects, message: Message, pc: nat): Objects {
    if pc == 0 then o.(group := message)
    else if pc <= FIELDS then o.(fields := o.fields[pc - 1 := o.group[pc - 1]])
    else o
  }

  /** The entry after access number `pc`. */
  function Collected(o: Objects, entry: seq<string>, pc: nat): seq<string>
    requires pc <= 2 * FIELDS
  {
    if pc > FIELDS then entry + [o.fields[pc - FIELDS - 1]] else entry
  }

  function UsedBy(s: State, p: Phase): Objects
    requires p.Running?
  {
    if p.seen == 0 then s.shared else p.own
  }

  function Step(s: State, e: Event): State
    requires Possible(s, e)
  {
    var p := s.threads[e.t];
    match e
    case Load(t, message) => s.(threads := s.threads[t := Trying(message, s.counter)])
    case CompareExchange(t, own) =>
      // a failed exchange refreshes the expected value and tries again
      if p.seen == s.counter then
        State(Wrapped(s.counter + 1), s.shared, s.threads[t := Running(p.message, p.seen, own, 0, [])])
      else s.(threads := s.threads[t := p.(seen := s.counter)])
    case Access(t) =>
      var o := UsedBy(s, p);
      var next := Written(o, p.message, p.pc);
      var moved := p.(pc := p.pc + 1, entry := Collected(o, p.entry, p.pc));
      if p.seen == 0 then State(s.counter, next, s.threads[t := moved])
      else s.(threads := s.threads[t := moved.(own := next)])
    case Leave(t) => State(Wrapped(s.counter + MODULUS - 1), s.shared, s.threads[t := Idle])
  }

  predicate PossibleRun(s: State, events: seq<Event>)
    decreases |events|
  {
    events == [] || (Possible(s, events[0]) && PossibleRun(Step(s, events[0]), events[1..]))
  }

  function Run(s: State, events: seq<Event>): State
    requires PossibleRun(s, events)
    decreases |events|
  {
    if events == [] then s else Run(Step(s, events[0]), events[1..])
  }

  ghost predicate Initial(s: State) {
    s.counter == 0 && forall t :: t in s.threads ==> s.threads[t].Idle?
  }

  // ----- the invariant -----------------------------------------------------

  function Flying(threads: map<Thread, Phase>): set<Thread> {
    set t | t in threads && threads[t].Running?
  }

  /** At most one handler uses the shared objects. */
  ghost predicate Exclusive(s: State) {
    forall t, u :: t in s.threads && u in s.threads && s.threads[t].UsesShared() && s.threads[u].UsesShared() ==> t == u
  }

  /** What one handler has copied so far is still there, object by object, and what
      it has read so far is its own message. */
  predicate Consistent(p: Phase, o: Objects)
    requires p.Running?
  {
    && p.pc <= 2 * FIELDS + 1
    && (p.pc > 0 ==> o.group == p.message)
    && (forall k :: 0 <= k < FIELDS && k + 1 < p.pc ==> o.fields[k] == p.message[k])
    && p.entry == (if p.pc > FIELDS then p.message[..p.pc - FIELDS - 1] else [])
  }

  ghost predicate Intact(s: State) {
    forall t :: t in s.threads && s.threads[t].Running? ==> Consistent(s.threads[t], UsedBy(s, s.threads[t]))
  }

  ghost predicate Inv(s: State) {
    s.counter == Wrapped(|Flying(s.threads)|) && Exclusive(s) && Intact(s)
  }

  lemma SubsetSize<T>(a: set<T>, b: set<T>)
    requires a <= b
    ensures |a| <= |b|
    decreases |a|
  {
    if a != {} {
      var x :| x in a;
      SubsetSize(a - {x}, b - {x});
    }
  }

  lemma FlyingChanges(threads: map<Thread, Phase>, t: Thread, p: Phase)
    requires t in threads
    ensures var before, after := Flying(threads), Flying(threads[t := p]);
            && (threads[t].Running? == p.Running? ==> after == before)
            && (!threads[t].Running? && p.Running? ==> after == before + {t} && |after| == |before| + 1)
            && (threads[t].Running? && !p.Running? ==> after == before - {t} && |after| == |before| - 1)
  {
    var before, after := Flying(threads), Flying(threads[t := p]);
    if p.Running? {
      assert after == before + {t};
    } else {
      assert after == before - {t};
    }
  }

  lemma CountUp(n: nat)
    ensures Wrapped(Wrapped(n) + 1) == Wrapped(n + 1)
  {
  }

  lemma CountDown(n: nat)
    requires n > 0
    ensures Wrapped(Wrapped(n) + MODULUS - 1) == Wrapped(n - 1)
  {
  }

  /** A thread that replaces a zero counter finds nobody else in flight, as long as
      there are no more threads than counter values. */
  lemma ZeroMeansNobody(s: State, t: Thread)
    requires Inv(s) && |s.threads| <= MODULUS && s.counter == 0
    requires t in s.threads && !s.threads[t].Running?
    ensures Flying(s.threads) == {}
  {
    var flying := Flying(s.threads);
    assert flying <= s.threads.Keys - {t};
    SubsetSize(flying, s.threads.Keys - {t});
    assert |s.threads.Keys| == |s.threads|;
    assert |flying| < MODULUS;
  }

  /** Only a successful exchange puts a handler in flight and only leaving takes it
      out; no other event moves the counter. */
  lemma StepMoves(s: State, e: Event)
    requires Possible(s, e)
    ensures var next, enters := Step(s, e), e.CompareExchange? && s.threads[e.t].seen == s.counter;
            && e.t in next.threads
            && next.threads == s.threads[e.t := next.threads[e.t]]
            && s.threads[e.t].Running? == (e.Access? || e.Leave?)
            && next.threads[e.t].Running? == (enters || e.Access?)
            && next.counter == (if enters then Wrapped(s.counter + 1)
                                else if e.Leave? then Wrapped(s.counter + MODULUS - 1)
                                else s.counter)
  {
    hide Wrapped, Written, Collected;
  }

  lemma StepCounts(s: State, e: Event)
    requires s.counter == Wrapped(|Flying(s.threads)|) && Possible(s, e)
    ensures var next := Step(s, e);
            next.counter == Wrapped(|Flying(next.threads)|) && next.threads.Keys == s.threads.Keys
  {
    StepMoves(s, e);
    assert e.t in s.threads;
    assert e.Leave? ==> e.t in Flying(s.threads);
    hide Wrapped, Step, Possible, Flying;
    var next := Step(s, e);
    FlyingChanges(s.threads, e.t, next.threads[e.t]);
    CountUp(|Flying(s.threads)|);
    if e.Leave? {
      CountDown(|Flying(s.threads)|);
    }
  }

  /** Only a successful exchange makes a new user of the shared objects, and it does
      so only when nobody is in flight. */
  lemma StepExcludes(s: State, e: Event)
    requires Inv(s) && |s.threads| <= MODULUS && Possible(s, e)
    ensures Exclusive(Step(s, e))
  {
    if e.CompareExchange? && s.counter == 0 {
      ZeroMeansNobody(s, e.t);
      assert forall u :: u in s.threads && s.threads[u].Running? ==> u in Flying(s.threads);
    }
    hide Flying;
    var next := Step(s, e);
    forall t, u | t in next.threads && u in next.threads && next.threads[t].UsesShared() && next.threads[u].UsesShared()
      ensures t == u
    {
      assert t != e.t ==> next.threads[t] == s.threads[t];
      assert u != e.t ==> next.threads[u] == s.threads[u];
    }
  }

  lemma AccessIsConsistent(p: Phase, o: Objects)
    requires p.Running? && Consistent(p, o) && !p.Done()
    ensures Consistent(p.(pc := p.pc + 1, entry := Collected(o, p.entry, p.pc)), Written(o, p.message, p.pc))
  {
    var next := Written(o, p.message, p.pc);
    if p.pc > FIELDS {
      var k := p.pc - FIELDS - 1;
      assert p.message[..k + 1] == p.message[..k] + [p.message[k]];
    }
  }

  lemma EnteredIsConsistent(message: Message, seen: nat, own: Objects, o: Objects)
    ensures Consistent(Running(message, seen, own, 0, []), o)
  {
  }

  /** Only the one user of the shared objects writes to them. */
  lemma StepIntact(s: State, e: Event)
    requires Exclusive(s) && Intact(s) && Possible(s, e)
    ensures Intact(Step(s, e))
  {
    var next := Step(s, e);
    var p := s.threads[e.t];
    if e.Access? {
      AccessIsConsistent(p, UsedBy(s, p));
    }
    forall t | t in next.threads && next.threads[t].Running?
      ensures Consistent(next.threads[t], UsedBy(next, next.threads[t]))
    {
      if t != e.t {
        assert next.threads[t] == s.threads[t];
        assert next.shared == s.shared || (p.UsesShared() && e.Access?);
      } else if e.CompareExchange? {
        EnteredIsConsistent(p.message, p.seen, e.own, UsedBy(next, next.threads[t]));
      }
    }
    hide Flying, Consistent, Written, Collected;
  }

  lemma StepKeeps(s: State, e: Event)
    requires Inv(s) && |s.threads| <= MODULUS && Possible(s, e)
    ensures Inv(Step(s, e)) && Step(s, e).threads.Keys == s.threads.Keys
  {
    StepCounts(s, e);
    StepExcludes(s, e);
    StepIntact(s, e);
  }

  lemma SameThreads(s: State, r: State)
    requires s.threads.Keys == r.threads.Keys
    ensures |s.threads| == |r.threads|
  {
    assert |s.threads| == |s.threads.Keys| && |r.threads| == |r.threads.Keys|;
  }

  lemma {:induction false} RunKeeps(s: State, events: seq<Event>)
    requires Inv(s) && |s.threads| <= MODULUS && PossibleRun(s, events)
    ensures Inv(Run(s, events))
    decreases |events|
  {
    if events != [] {
      StepKeeps(s, events[0]);
      SameThreads(s, Step(s, events[0]));
      hide Inv, Step, Possible;
      RunKeeps(Step(s, events[0]), events[1..]);
    }
  }

  lemma InitialIsInvariant(s: State)
    requires Initial(s)
    ensures Inv(s)
  {
    assert Flying(s.threads) == {};
  }

  /** In every interleaving of up to 2^32 threads the counter counts the handlers in
      flight, at most one of them uses the shared objects, and every handler that is
      done has collected the fields of its own message. */
  lemma HandlersDoNotInterfere(s: State, events: seq<Event>)
    requires Initial(s) && |s.threads| <= MODULUS && PossibleRun(s, events)
    ensures var r := Run(s, events);
            && r.counter == Wrapped(|Flying(r.threads)|)
            && Exclusive(r)
            && forall t :: t in r.threads && r.threads[t].Done() ==> r.threads[t].entry == r.threads[t].message
  {
    InitialIsInvariant(s);
    RunKeeps(s, events);
    var r := Run(s, events);
    hide Run, PossibleRun, Flying;
    forall t | t in r.threads && r.threads[t].Done() ensures r.threads[t].entry == r.threads[t].message {
      assert Consistent(r.threads[t], UsedBy(r, r.threads[t]));
    }
  }

  lemma {:induction false} RunCounts(s: State, events: seq<Event>)
    requires s.counter == Wrapped(|Flying(s.threads)|) && PossibleRun(s, events)
    ensures var r := Run(s, events); r.counter == Wrapped(|Flying(r.threads)|) && r.threads.Keys == s.threads.Keys
    decreases |events|
  {
    if events != [] {
      StepCounts(s, events[0]);
      RunCounts(Step(s, events[0]), events[1..]);
    }
  }

  // ----- one thread too many -----------------------------------------------

  const BLANK := Objects(["", "", "", "", "", "", ""], ["", "", "", "", "", "", ""])

  function Entered(seen: nat): Phase { Running(BLANK.group, seen, BLANK, 0, []) }

  /** The given threads enter one after the other. */
  function Entering(threads: seq<Thread>): seq<Event> {
    if threads == [] then []
    else [Load(threads[0], BLANK.group), CompareExchange(threads[0], BLANK)] + Entering(threads[1..])
  }

  predicate Distinct(threads: seq<Thread>) {
    forall i, j :: 0 <= i < j < |threads| ==> threads[i] != threads[j]
  }

  lemma EnterOne(s: State, t: Thread)
    requires t in s.threads && s.threads[t].Idle?
    ensures Possible(s, Load(t, BLANK.group)) && Possible(Step(s, Load(t, BLANK.group)), CompareExchange(t, BLANK))
    ensures Step(Step(s, Load(t, BLANK.group)), CompareExchange(t, BLANK))
        == State(Wrapped(s.counter + 1), s.shared, s.threads[t := Entered(s.counter)])
  {
    assert s.threads[t := Trying(BLANK.group, s.counter)][t := Entered(s.counter)]
        == s.threads[t := Entered(s.counter)];
  }

  lemma FirstEnters(s: State, threads: seq<Thread>, next: State)
    requires threads != [] && threads[0] in s.threads && s.threads[threads[0]].Idle?
    requires next == State(Wrapped(s.counter + 1), s.shared, s.threads[threads[0] := Entered(s.counter)])
    requires PossibleRun(next, Entering(threads[1..]))
    ensures PossibleRun(s, Entering(threads)) && Run(s, Entering(threads)) == Run(next, Entering(threads[1..]))
  {
    EnterOne(s, threads[0]);
    var events := Entering(threads);
    assert events[0] == Load(threads[0], BLANK.group);
    assert events[1..][0] == CompareExchange(threads[0], BLANK);
    assert events[1..][1..] == Entering(threads[1..]);
    hide Step, Possible, Entering;
  }

  /** Every one of the threads has entered, in order, each with the count it found;
      nobody else has moved. */
  ghost predicate AllIn(s: State, threads: seq<Thread>, r: State) {
    && r.threads.Keys == s.threads.Keys
    && (forall t :: t in s.threads && t !in threads ==> r.threads[t] == s.threads[t])
    && (forall i :: 0 <= i < |threads| ==>
          threads[i] in r.threads && r.threads[threads[i]] == Entered(Wrapped(s.counter + i)))
  }

  lemma OneMoreIn(s: State, threads: seq<Thread>, next: State, r: State)
    requires s.counter < MODULUS && threads != [] && Distinct(threads) && threads[0] in s.threads
    requires next == State(Wrapped(s.counter + 1), s.shared, s.threads[threads[0] := Entered(s.counter)])
    requires AllIn(next, threads[1..], r)
    ensures AllIn(s, threads, r)
  {
    var t, rest := threads[0], threads[1..];
    assert t !in rest;
    assert Wrapped(s.counter) == s.counter;
    forall i | 0 <= i < |threads|
      ensures threads[i] in r.threads && r.threads[threads[i]] == Entered(Wrapped(s.counter + i))
    {
      hide Wrapped;
      if i > 0 {
        assert threads[i] == rest[i - 1];
        WrapsOn(s.counter, i - 1);
      }
    }
    hide Wrapped;
    assert r.threads.Keys == s.threads.Keys;
    forall u | u in s.threads && u !in threads ensures r.threads[u] == s.threads[u] {
      assert u != t && u !in rest;
    }
  }

  lemma {:induction false} AllEnter(s: State, threads: seq<Thread>)
    requires s.counter < MODULUS && Distinct(threads)
    requires forall i :: 0 <= i < |threads| ==> threads[i] in s.threads && s.threads[threads[i]].Idle?
    ensures PossibleRun(s, Entering(threads)) && AllIn(s, threads, Run(s, Entering(threads)))
    decreases |threads|
  {
    if threads != [] {
      var t, rest := threads[0], threads[1..];
      var next := State(Wrapped(s.counter + 1), s.shared, s.threads[t := Entered(s.counter)]);
      assert next.counter < MODULUS;
      assert forall i :: 0 <= i < |rest| ==> rest[i] == threads[i + 1];
      hide Run, PossibleRun, Entering, AllIn, Wrapped;
      AllEnter(next, rest);
      FirstEnters(s, threads, next);
      OneMoreIn(s, threads, next, Run(next, Entering(rest)));
    }
  }

  lemma WrapsOn(c: nat, i: nat)
    ensures Wrapped(Wrapped(c + 1) + i) == Wrapped(c + (i + 1))
  {
  }

  lemma {:induction false} Enumerate(threads: set<Thread>, n: nat) returns (s: seq<Thread>)
    requires n <= |threads|
    ensures |s| == n && Distinct(s) && forall i :: 0 <= i < n ==> s[i] in threads
    decreases n
  {
    if n == 0 {
      s := [];
    } else {
      var t :| t in threads;
      var rest := Enumerate(threads - {t}, n - 1);
      s := [t] + rest;
    }
  }

  /** With one thread more than the counter has values, the last of them replaces a
      zero as well. */
  lemma OneTooMany(s: State) returns (events: seq<Event>)
    requires Initial(s) && |s.threads| > MODULUS
    ensures PossibleRun(s, events) && !Exclusive(Run(s, events))
  {
    assert |s.threads.Keys| == |s.threads|;
    var threads := Enumerate(s.threads.Keys, MODULUS + 1);
    events := Entering(threads);
    AllEnter(s, threads);
    hide PossibleRun, Run, Entering;
    var r := Run(s, events);
    var t, u := threads[0], threads[MODULUS];
    assert r.threads[t] == Entered(Wrapped(0)) && r.threads[u] == Entered(Wrapped(MODULUS));
    assert r.threads[t].UsesShared() && r.threads[u].UsesShared();
  }

  /** The exact limit: every run keeps the shared objects exclusive if and only if
      there are at most 2^32 threads. */
  lemma ExclusiveIffCounterSuffices(s: State)
    requires Initial(s)
    ensures |s.threads| <= MODULUS <==> forall events :: PossibleRun(s, events) ==> Exclusive(Run(s, events))
  {
    hide Initial, PossibleRun, Run, Exclusive;
    if |s.threads| <= MODULUS {
      forall events | PossibleRun(s, events) ensures Exclusive(Run(s, events)) {
        HandlersDoNotInterfere(s, events);
      }
    } else {
      var events := OneTooMany(s);
      assert PossibleRun(s, events);
    }
  }

  // ----- the handler's own assertion ---------------------------------------

  /** The counter is positive while any handler is in flight. */
  ghost predicate Positive(s: State) {
    forall t :: t in s.threads && s.threads[t].Running? ==> s.counter > 0
  }

  lemma FewEnoughStayPositive(s: State, events: seq<Event>)
    requires Initial(s) && |s.threads| < MODULUS && PossibleRun(s, events)
    ensures Positive(Run(s, events))
  {
    InitialIsInvariant(s);
    RunCounts(s, events);
    var r := Run(s, events);
    SameThreads(s, r);
    hide Run, PossibleRun, Initial;
    forall t | t in r.threads && r.threads[t].Running? ensures r.counter > 0 {
      var flying := Flying(r.threads);
      assert t in flying && flying <= r.threads.Keys;
      SubsetSize({t}, flying);
      SubsetSize(flying, r.threads.Keys);
      assert |r.threads.Keys| == |r.threads|;
    }
  }

  lemma {:induction false} DistinctSize(threads: seq<Thread>, all: set<Thread>)
    requires Distinct(threads) && forall t :: t in all <==> t in threads
    ensures |all| == |threads|
  {
    if threads != [] {
      var t, rest := threads[0], threads[1..];
      assert t !in rest;
      assert threads == [t] + rest;
      DistinctSize(rest, all - {t});
    } else {
      assert all == {};
    }
  }

  lemma AllInFly(s: State, threads: seq<Thread>, r: State)
    requires Initial(s) && AllIn(s, threads, r)
    ensures forall t :: t in Flying(r.threads) <==> t in threads
  {
    hide Wrapped;
    forall t ensures t in Flying(r.threads) <==> t in threads {
      if t in threads {
        var i :| 0 <= i < |threads| && threads[i] == t;
        assert r.threads[threads[i]].Running?;
      }
    }
  }

  lemma AllInIsZero(s: State, threads: seq<Thread>, r: State)
    requires Initial(s) && AllIn(s, threads, r) && Distinct(threads) && |threads| == MODULUS
    requires r.counter == Wrapped(|Flying(r.threads)|)
    ensures !Positive(r)
  {
    AllInFly(s, threads, r);
    assert threads[0] in Flying(r.threads);
    DistinctSize(threads, Flying(r.threads));
    hide AllIn, Initial, Distinct;
  }

  lemma WholeTurn(s: State) returns (events: seq<Event>)
    requires Initial(s) && |s.threads| >= MODULUS
    ensures PossibleRun(s, events) && !Positive(Run(s, events))
  {
    assert |s.threads.Keys| == |s.threads|;
    InitialIsInvariant(s);
    var threads := Enumerate(s.threads.Keys, MODULUS);
    hide PossibleRun, Run, Entering, Distinct, Exclusive, Intact, AllIn, Positive, Flying, Wrapped;
    events := Entering(threads);
    AllEnter(s, threads);
    RunCounts(s, events);
    AllInIsZero(s, threads, Run(s, events));
  }

  /** The assertion at the handler's entry holds in every run if and only if there are
      fewer threads than counter values. */
  lemma AssertionHoldsIffFewer(s: State)
    requires Initial(s)
    ensures |s.threads| < MODULUS <==> forall events :: PossibleRun(s, events) ==> Positive(Run(s, events))
  {
    hide Initial, PossibleRun, Run, Positive;
    if |s.threads| < MODULUS {
      forall events | PossibleRun(s, events) ensures Positive(Run(s, events)) {
        FewEnoughStayPositive(s, events);
      }
    } else {
      var events := WholeTurn(s);
      assert PossibleRun(s, events);
    }
  }
}
