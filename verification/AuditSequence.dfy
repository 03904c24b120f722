/**
 Numbering of audit events: the setup of the sequence over evidence that is already there, and the
 numbers that inserts draw from it, kept or rolled back, between any number of setups.
 */
module AuditSequence {
  import opened Wrappers

  const MAX: int := 0x7FFF_FFFF_FFFF_FFFF

  /** A stored event: its tenant and its number, which old evidence does not have. */
  datatype Event = Event(tenant: string, number: Option<int>)

  datatype Sequence = Sequence(last: int, called: bool)

  /** `setting` is app.current_tenant_id, None while it was never set. */
  datatype State = State(events: seq<Event>, sequence: Option<Sequence>, numbered: bool, setting: Option<string>)

  predicate Stored(n: int) {
    -MAX - 1 <= n <= MAX
  }

  ghost predicate Valid(s: State) {
    && (s.sequence.Some? ==> 1 <= s.sequence.value.last <= MAX)
    && (s.numbered ==> s.sequence.Some?)
    && (forall i :: 0 <= i < |s.events| && s.events[i].number.Some? ==> Stored(s.events[i].number.value))
  }

  /** What `nextval` would return. */
  function NextValue(q: Sequence): int {
    if q.called then q.last + 1 else q.last
  }

  /* ---- Setup ---- */

  /** Row-level security is forced: a scoped session sees its tenant's events only. */
  predicate Visible(setting: Option<string>, e: Event) {
    setting == Some("BYPASS") || setting == Some(e.tenant)
  }

  /** `max(sequence_num)` over the visible events. */
  function MaxNumber(events: seq<Event>, setting: Option<string>): Option<int> {
    if events == [] then None
    else
      var rest := MaxNumber(events[1..], setting);
      if !Visible(setting, events[0]) || events[0].number.None? then rest
      else if rest.Some? && rest.value > events[0].number.value then rest
      else events[0].number
  }

  /** The setval: at least the high water, and called as soon as an event has reached the last value. */
  function Raised(q: Sequence, high: Option<int>): Sequence {
    if high.None? then q
    else Sequence(if high.value > q.last then high.value else q.last, q.called || high.value >= q.last)
  }

  function Setup(s: State): State {
    var q := if s.sequence.Some? then s.sequence.value else Sequence(1, false);
    s.(sequence := Some(Raised(q, MaxNumber(s.events, Some("BYPASS")))), numbered := true,
       setting := Some(if s.setting.Some? then s.setting.value else ""))
  }

  class Database {
    var events: seq<Event>
    var sequence: Option<Sequence>
    var numbered: bool
    var setting: Option<string>

    constructor (s: State)
      ensures Value() == s
    {
      events := s.events;
      sequence := s.sequence;
      numbered := s.numbered;
      setting := s.setting;
    }

    function Value(): State
      reads this
    {
      State(events, sequence, numbered, setting)
    }

    /** `SELECT max(sequence_num)` under the current setting. */
    method HighWater() returns (high: Option<int>)
      ensures high == MaxNumber(events, setting)
    {
      high := None;
      var i := |events|;
      while i > 0
        invariant 0 <= i <= |events|
        invariant high == MaxNumber(events[i..], setting)
      {
        i := i - 1;
        assert events[i..][1..] == events[i + 1..];
        var e := events[i];
        if Visible(setting, e) && e.number.Some? && (high.None? || high.value <= e.number.value) {
          high := e.number;
        }
      }
      assert events[0..] == events;
    }

    /** The bootstrap step: bypass the policies, raise the sequence, restore the scope. */
    method ApplySequence()
      modifies this
      ensures Value() == Setup(old(Value()))
    {
      var previous := setting;
      setting := Some("BYPASS");
      if sequence.None? {
        sequence := Some(Sequence(1, false));
      }
      var high := HighWater();
      if high.Some? {
        var q := sequence.value;
        sequence := Some(Sequence(if high.value > q.last then high.value else q.last,
                                  q.called || high.value >= q.last));
      }
      numbered := true;
      setting := Some(if previous.Some? then previous.value else "");
    }
  }

  lemma {:induction false} MaxIsHighest(events: seq<Event>, setting: Option<string>)
    ensures forall i :: 0 <= i < |events| && Visible(setting, events[i]) && events[i].number.Some? ==>
              MaxNumber(events, setting).Some? && events[i].number.value <= MaxNumber(events, setting).value
    ensures MaxNumber(events, setting).Some? ==>
              exists i :: 0 <= i < |events| && events[i].number == MaxNumber(events, setting)
  {
    if events != [] {
      MaxIsHighest(events[1..], setting);
      forall i | 0 <= i < |events| && Visible(setting, events[i]) && events[i].number.Some?
        ensures MaxNumber(events, setting).Some? && events[i].number.value <= MaxNumber(events, setting).value
      {
        if i > 0 { assert events[i] == events[1..][i - 1]; }
      }
      if MaxNumber(events, setting).Some? {
        var high := MaxNumber(events, setting);
        if MaxNumber(events[1..], setting) == high {
          var j :| 0 <= j < |events[1..]| && events[1..][j].number == high;
          assert events[j + 1].number == high;
        } else {
          assert events[0].number == high;
        }
      }
    }
  }

  /** Every stored number is below the next one. */
  ghost predicate Ahead(s: State) {
    && s.sequence.Some? && s.numbered
    && forall i :: 0 <= i < |s.events| && s.events[i].number.Some? ==> s.events[i].number.value < NextValue(s.sequence.value)
  }

  /** The setup puts the next number above all evidence of all tenants and never lowers it. */
  lemma SetupGetsAhead(s: State)
    requires Valid(s)
    ensures Valid(Setup(s)) && Ahead(Setup(s)) && Setup(s).events == s.events
    ensures s.sequence.Some? ==> NextValue(Setup(s).sequence.value) >= NextValue(s.sequence.value)
    ensures NextValue(Setup(s).sequence.value) > NextValue(if s.sequence.Some? then s.sequence.value else Sequence(1, false)) ==>
              exists i :: 0 <= i < |s.events| && s.events[i].number == Some(NextValue(Setup(s).sequence.value) - 1)
  {
    MaxIsHighest(s.events, Some("BYPASS"));
  }

  /** It leaves the tenant scope as it found it, or empty where there was none, and never in bypass because of it. */
  lemma SetupKeepsScope(s: State)
    ensures Setup(s).numbered && Setup(s).sequence.Some? && Setup(s).events == s.events
    ensures s.setting.Some? ==> Setup(s).setting == s.setting
    ensures s.setting.None? ==> Setup(s).setting == Some("")
  {
  }

  lemma SetupIsIdempotent(s: State)
    ensures Setup(Setup(s)) == Setup(s)
  {
  }

  /** What the next number would be if the high water were read through one tenant's scope. */
  function ScopedNext(q: Sequence, events: seq<Event>, tenant: string): int {
    NextValue(Raised(q, MaxNumber(events, Some(tenant))))
  }

  /**
   Read through one tenant's scope the setup would fall short of the true next number exactly when
   another tenant has stored a number from there on; the first number issued then is already in use
   or will be reached by it.
   */
  lemma ScopedHighWaterFallsShort(q: Sequence, events: seq<Event>, tenant: string)
    requires tenant != "BYPASS"
    ensures ScopedNext(q, events, tenant) <= ScopedNext(q, events, "BYPASS")
    ensures ScopedNext(q, events, tenant) < ScopedNext(q, events, "BYPASS")
            <==> exists i :: 0 <= i < |events| && events[i].tenant != tenant && events[i].number.Some?
                             && events[i].number.value >= ScopedNext(q, events, tenant)
  {
    MaxIsHighest(events, Some(tenant));
    MaxIsHighest(events, Some("BYPASS"));
    var high := MaxNumber(events, Some("BYPASS"));
    if high.Some? {
      var i :| 0 <= i < |events| && events[i].number == high;
      assert events[i].number.Some?;
    }
    var own := MaxNumber(events, Some(tenant));
    if own.Some? {
      var j :| 0 <= j < |events| && events[j].number == own;
      assert Visible(Some("BYPASS"), events[j]);
    }
  }

  /* ---- Runs ---- */

  /** An insert that takes the default, or names a number itself; a setup. Each may be rolled back. */
  datatype Op = Insert(tenant: string, kept: bool) | InsertNumber(event: Event, kept: bool) | ApplySetup(kept: bool)

  /** Sequence changes survive a rollback, unless the rolled back transaction created the sequence. */
  function Step(s: State, op: Op): State {
    match op
    case Insert(tenant, kept) =>
      if !s.numbered then (if kept then s.(events := s.events + [Event(tenant, None)]) else s)
      else if s.sequence.None? || NextValue(s.sequence.value) > MAX then s
      else
        var n := NextValue(s.sequence.value);
        s.(sequence := Some(Sequence(n, true)), events := if kept then s.events + [Event(tenant, Some(n))] else s.events)
    case InsertNumber(event, kept) => if kept then s.(events := s.events + [event]) else s
    case ApplySetup(kept) =>
      if kept then Setup(s)
      else if s.sequence.None? then s
      else s.(sequence := Setup(s).sequence)
  }

  /** The number a step draws, whether or not its transaction is kept. */
  function Drawn(s: State, op: Op): Option<int> {
    if op.Insert? && s.numbered && s.sequence.Some? && NextValue(s.sequence.value) <= MAX
    then Some(NextValue(s.sequence.value))
    else None
  }

  function Run(s: State, ops: seq<Op>): State
    decreases |ops|
  {
    if ops == [] then s else Run(Step(s, ops[0]), ops[1..])
  }

  function Issued(s: State, ops: seq<Op>): seq<int>
    decreases |ops|
  {
    if ops == [] then []
    else (if Drawn(s, ops[0]).Some? then [Drawn(s, ops[0]).value] else []) + Issued(Step(s, ops[0]), ops[1..])
  }

  predicate Named(op: Op) {
    op.InsertNumber? && op.event.number.Some?
  }

  predicate Storable(op: Op) {
    Named(op) ==> Stored(op.event.number.value)
  }

  lemma StepKeepsValid(s: State, op: Op)
    requires Valid(s) && Storable(op)
    ensures Valid(Step(s, op))
    ensures s.sequence.Some? && s.numbered ==>
              && Step(s, op).sequence.Some? && Step(s, op).numbered
              && NextValue(Step(s, op).sequence.value)
                 >= if Drawn(s, op).Some? then Drawn(s, op).value + 1 else NextValue(s.sequence.value)
  {
    if op.ApplySetup? { SetupGetsAhead(s); }
  }

  /** Strictly rising, from `low` on. */
  ghost predicate Rising(numbers: seq<int>, low: int) {
    && (forall i :: 0 <= i < |numbers| ==> numbers[i] >= low)
    && (forall i, j :: 0 <= i < j < |numbers| ==> numbers[i] < numbers[j])
  }

  lemma RisingCons(n: int, rest: seq<int>)
    requires Rising(rest, n + 1)
    ensures Rising([n] + rest, n)
  {
  }

  /**
   Once the sequence is set up, the numbers issued by any run rise strictly, from the next number on:
   rolled back inserts, repeated or rolled back setups and inserts that name their number do not change that.
   */
  lemma {:induction false} IssuedNumbersRise(s: State, ops: seq<Op>)
    requires Valid(s) && s.sequence.Some? && s.numbered && forall i :: 0 <= i < |ops| ==> Storable(ops[i])
    ensures Rising(Issued(s, ops), NextValue(s.sequence.value))
    decreases |ops|
  {
    if ops != [] {
      StepKeepsValid(s, ops[0]);
      var next := Step(s, ops[0]);
      IssuedNumbersRise(next, ops[1..]);
      if Drawn(s, ops[0]).Some? {
        RisingCons(NextValue(s.sequence.value), Issued(next, ops[1..]));
      } else {
        assert Issued(s, ops) == Issued(next, ops[1..]);
      }
    }
  }

  /** Default inserts, one after the other. */
  function Inserts(tenant: string, n: nat): seq<Op> {
    if n == 0 then [] else [Insert(tenant, true)] + Inserts(tenant, n - 1)
  }

  /** What a rolled back transaction leaves of a setup: the raised sequence, if it was there before. */
  lemma RolledBackSetup(s: State)
    ensures s.sequence.None? ==> Step(s, ApplySetup(false)) == s
    ensures s.sequence.Some? ==> Step(s, ApplySetup(false)) == State(s.events, Setup(s).sequence, s.numbered, s.setting)
    ensures Step(s, ApplySetup(true)) == Setup(s)
  {
  }

  /** Before the first setup events have no number; after it an insert that would exceed the last one fails. */
  lemma UnnumberedInsert(s: State, tenant: string, kept: bool)
    requires Valid(s)
    ensures !s.numbered ==>
              && Step(s, Insert(tenant, kept)).sequence == s.sequence && !Step(s, Insert(tenant, kept)).numbered
              && Step(s, Insert(tenant, kept)).events == s.events + (if kept then [Event(tenant, None)] else [])
              && Drawn(s, Insert(tenant, kept)) == None
    ensures s.numbered && NextValue(s.sequence.value) == 0x8000_0000_0000_0000 ==>
              Step(s, Insert(tenant, kept)) == s && Drawn(s, Insert(tenant, kept)) == None
  {
  }

  /** Events with consecutive numbers. */
  function Consecutive(tenant: string, first: int, n: nat): seq<Event>
    decreases n
  {
    if n == 0 then [] else [Event(tenant, Some(first))] + Consecutive(tenant, first + 1, n - 1)
  }

  /** A default insert that is kept stores the next number. */
  lemma KeptInsert(s: State, tenant: string)
    requires Valid(s) && s.numbered && NextValue(s.sequence.value) <= MAX
    ensures var t := Step(s, Insert(tenant, true));
            && t.events == s.events + [Event(tenant, Some(NextValue(s.sequence.value)))]
            && Valid(t) && t.numbered && NextValue(t.sequence.value) == NextValue(s.sequence.value) + 1
  {
    StepKeepsValid(s, Insert(tenant, true));
  }

  lemma Appended(events: seq<Event>, e: Event, rest: seq<Event>)
    ensures events + [e] + rest == events + ([e] + rest)
  {
  }

  /**
   Default inserts that are kept are stored in order under consecutive numbers, the first of which is the
   sequence's next.
   */
  lemma {:induction false} NumbersAreConsecutive(s: State, tenant: string, n: nat)
    requires Valid(s) && s.numbered && NextValue(s.sequence.value) + n <= MAX + 1
    ensures var t := Run(s, Inserts(tenant, n));
            && t.numbered && t.sequence.Some? && NextValue(t.sequence.value) == NextValue(s.sequence.value) + n
            && t.events == s.events + Consecutive(tenant, NextValue(s.sequence.value), n)
    decreases n
  {
    if n == 0 {
      assert s.events + [] == s.events;
    } else {
      var first := NextValue(s.sequence.value);
      KeptInsert(s, tenant);
      NumbersAreConsecutive(Step(s, Insert(tenant, true)), tenant, n - 1);
      InsertsFirst(tenant, n);
      Appended(s.events, Event(tenant, Some(first)), Consecutive(tenant, first + 1, n - 1));
    }
  }

  lemma InsertsFirst(tenant: string, n: nat)
    requires n > 0
    ensures Inserts(tenant, n) != [] && Inserts(tenant, n)[0] == Insert(tenant, true)
    ensures Inserts(tenant, n)[1..] == Inserts(tenant, n - 1)
  {
  }

  /** One that is rolled back only leaves a gap of one. */
  lemma RolledBackInsert(s: State, tenant: string)
    requires Valid(s) && s.numbered && NextValue(s.sequence.value) <= MAX
    ensures var t := Step(s, Insert(tenant, false));
            && t.events == s.events && t.numbered && t.sequence.Some?
            && NextValue(t.sequence.value) == NextValue(s.sequence.value) + 1
  {
  }

  /** A named number that is already behind the sequence, or no named number at all. */
  predicate NamedBehind(s: State, op: Op) {
    Named(op) && op.kept ==> s.sequence.Some? && op.event.number.value < NextValue(s.sequence.value)
  }

  /** Each named number is behind the sequence when it is inserted. */
  predicate NamedBehindRun(s: State, ops: seq<Op>)
    decreases |ops|
  {
    ops == [] || (NamedBehind(s, ops[0]) && Storable(ops[0]) && NamedBehindRun(Step(s, ops[0]), ops[1..]))
  }

  /** A step leaves all stored numbers below the next one exactly when it names no number from there on. */
  lemma StepStaysAheadExactly(s: State, op: Op)
    requires Valid(s) && Ahead(s) && Storable(op)
    ensures Valid(Step(s, op))
    ensures Ahead(Step(s, op)) <==> NamedBehind(s, op)
  {
    StepKeepsValid(s, op);
    if op.ApplySetup? { SetupGetsAhead(s); }
    if op.InsertNumber? && op.kept { assert Step(s, op).events[|s.events|] == op.event; }
  }

  /** The numbers of a list of events. */
  ghost predicate Numbers(events: seq<Event>, n: int) {
    exists i :: 0 <= i < |events| && events[i].number == Some(n)
  }

  lemma {:induction false} BehindIsStorable(s: State, ops: seq<Op>)
    requires NamedBehindRun(s, ops)
    ensures forall i :: 0 <= i < |ops| ==> Storable(ops[i])
    decreases |ops|
  {
    if ops != [] {
      BehindIsStorable(Step(s, ops[0]), ops[1..]);
      forall i | 0 <= i < |ops| ensures Storable(ops[i]) {
        if i > 0 { assert ops[i] == ops[1..][i - 1]; }
      }
    }
  }

  /**
   From a setup on, as long as named numbers are behind the sequence, an issued number is none that is
   already stored, and at the end all stored numbers are still below the next one.
   */
  lemma {:induction false} IssuedNumbersAreNew(s: State, ops: seq<Op>)
    requires Valid(s) && Ahead(s) && NamedBehindRun(s, ops)
    ensures Ahead(Run(s, ops))
    ensures forall n :: n in Issued(s, ops) ==> !Numbers(s.events, n)
    decreases |ops|
  {
    BehindIsStorable(s, ops);
    IssuedNumbersRise(s, ops);
    if ops != [] {
      StepStaysAheadExactly(s, ops[0]);
      IssuedNumbersAreNew(Step(s, ops[0]), ops[1..]);
    }
  }

  /** A number that is stored and not yet behind the sequence is issued a second time by later default inserts. */
  lemma {:induction false} NumberIsIssuedAgain(s: State, tenant: string, n: int)
    requires Valid(s) && s.numbered && n <= MAX && Numbers(s.events, n) && n >= NextValue(s.sequence.value)
    ensures n in Issued(s, Inserts(tenant, 1 + n - NextValue(s.sequence.value)))
    decreases n - NextValue(s.sequence.value)
  {
    var next := NextValue(s.sequence.value);
    var op := Insert(tenant, true);
    var ops := Inserts(tenant, 1 + n - next);
    assert ops[0] == op && ops[1..] == Inserts(tenant, n - next);
    if n > next {
      StepKeepsValid(s, op);
      var i :| 0 <= i < |s.events| && s.events[i].number == Some(n);
      assert Step(s, op).events[i].number == Some(n);
      NumberIsIssuedAgain(Step(s, op), tenant, n);
    }
  }

  /**
   So an insert that names its number is harmless exactly when the number is behind the sequence:
   otherwise enough default inserts after it issue the number again.
   */
  lemma NamedNumberCollides(s: State, event: Event, tenant: string)
    requires Valid(s) && Ahead(s) && event.number.Some? && Stored(event.number.value)
    requires event.number.value >= NextValue(s.sequence.value)
    ensures var after := Step(s, InsertNumber(event, true));
            var n := event.number.value;
            Numbers(after.events, n) && n in Issued(after, Inserts(tenant, 1 + n - NextValue(s.sequence.value)))
  {
    var after := Step(s, InsertNumber(event, true));
    StepKeepsValid(s, InsertNumber(event, true));
    assert after.events[|s.events|] == event;
    NumberIsIssuedAgain(after, tenant, event.number.value);
  }
}
