/**
 The passing of the EDM206 ring between its real-time writer and its one reader, step by step: every load,
 store and compare-exchange of m_state is one step, and so is every store to and every read of a payload word.
 The source's conditions on sessions, modes and ticks are choices of the environment.
 */
module SyncHandover {

  datatype Ownership = Idle | Recording | Frozen | Ready | Reading

  /** Stores of one call to payload words: rows first, the header behind them. */
  datatype Put = Put(at: nat, value: nat)

  /**
   The writer: after the session tests of Start, about to load the state; about to store Recording; storing
   words, with the state to store behind them, if any; about to load the state in PublishContained.
   */
  datatype Writer =
    | Away
    | Loading(puts: seq<Put>, freezes: bool, restarts: bool)
    | Marking(puts: seq<Put>, freezes: bool)
    | Putting(puts: seq<Put>, freezes: bool)
    | Checking(puts: seq<Put>)
    | Containing(puts: seq<Put>)

  /**
   The reader: outside a call; about to load the state in ReadRow; copying the words of a header or of a row;
   about to load the state in EndRead; about to store Idle.
   */
  datatype Reader =
    | Out
    | Testing(words: seq<nat>)
    | Copying(words: seq<nat>, got: seq<nat>)
    | Got(words: seq<nat>, got: seq<nat>)
    | Leaving
    | Releasing

  /** sealedRows and sealed (history): the row words when Frozen was stored, and all words when Ready was. */
  datatype State = State(
    owner: Ownership, payload: seq<nat>, rows: nat, writer: Writer, reader: Reader,
    sealedRows: seq<nat>, sealed: seq<nat>)

  datatype Event =
    | Observe(puts: seq<Put>, restarts: bool)      // a recording call past its session tests
    | Fault(puts: seq<Put>, restarts: bool)        // Freeze past its own
    | Contain(puts: seq<Put>)                      // PublishContained
    | Write                                        // the writer's next step
    | Claim(header: seq<nat>)                      // BeginRead: the compare-exchange
    | Ask(words: seq<nat>)                         // ReadRow is called
    | Finish                                       // EndRead is called
    | Read(matches: bool)                          // the reader's next step; whether the session matches

  predicate Initial(s: State) {
    s.owner.Idle? && s.writer.Away? && s.reader.Out? && s.rows <= |s.payload|
  }

  predicate InHeader(s: State, puts: seq<Put>) { forall k :: 0 <= k < |puts| ==> s.rows <= puts[k].at }

  function Stored(s: State, put: Put): State {
    if put.at < |s.payload| then s.(payload := s.payload[put.at := put.value]) else s
  }

  function StepWriter(s: State): State {
    match s.writer
    case Away => s
    case Loading(puts, freezes, restarts) =>
      if !s.owner.Idle? && !s.owner.Recording? then s.(writer := Away)
      else if s.owner.Idle? || restarts then s.(writer := Marking(puts, freezes))
      else s.(writer := Putting(puts, freezes))
    case Marking(puts, freezes) => s.(owner := Recording, writer := Putting(puts, freezes))
    case Putting(puts, freezes) =>
      if puts != [] then Stored(s, puts[0]).(writer := Putting(puts[1..], freezes))
      else if freezes then s.(owner := Frozen, writer := Away, sealedRows := s.payload[..Cut(s)])
      else s.(writer := Away)
    case Checking(puts) => s.(writer := if s.owner.Frozen? then Containing(puts) else Away)
    case Containing(puts) =>
      if puts != [] then Stored(s, puts[0]).(writer := Containing(puts[1..]))
      else s.(owner := Ready, writer := Away, sealed := s.payload)
  }

  function Cut(s: State): nat { if s.rows <= |s.payload| then s.rows else |s.payload| }

  function StepReader(s: State, matches: bool): State {
    match s.reader
    case Testing(words) => s.(reader := if s.owner.Reading? && matches then Copying(words, []) else Out)
    case Copying(words, got) =>
      if |got| < |words| then
        s.(reader := Copying(words, got + [if words[|got|] < |s.payload| then s.payload[words[|got|]] else 0]))
      else s.(reader := Got(words, got))
    case Leaving => s.(reader := if s.owner.Reading? && matches then Releasing else Out)
    case Releasing => s.(owner := Idle, reader := Out)
    case _ => s
  }

  function Step(s: State, e: Event): State {
    match e
    case Observe(puts, restarts) => if s.writer.Away? then s.(writer := Loading(puts, false, restarts)) else s
    case Fault(puts, restarts) => if s.writer.Away? then s.(writer := Loading(puts, true, restarts)) else s
    case Contain(puts) => if s.writer.Away? && InHeader(s, puts) then s.(writer := Checking(puts)) else s
    case Write => StepWriter(s)
    case Claim(header) =>
      if (s.reader.Out? || s.reader.Got?) && s.owner.Ready? then s.(owner := Reading, reader := Copying(header, []))
      else s
    case Ask(words) => if s.reader.Out? || s.reader.Got? then s.(reader := Testing(words)) else s
    case Finish => if s.reader.Out? || s.reader.Got? then s.(reader := Leaving) else s
    case Read(matches) => StepReader(s, matches)
  }

  function Run(s: State, events: seq<Event>): State
    decreases |events|
  {
    if events == [] then s else Step(Run(s, events[..|events| - 1]), events[|events| - 1])
  }

  // ------------------------------------------------------------ invariant

  predicate WriterOk(s: State) {
    match s.writer
    case Marking(_, _) => s.owner.Idle? || s.owner.Recording?
    case Putting(_, _) => s.owner.Recording?
    case Checking(puts) => InHeader(s, puts)
    case Containing(puts) => s.owner.Frozen? && InHeader(s, puts)
    case _ => true
  }

  /** What has been copied so far are the words as they are now. */
  predicate ReaderOk(s: State) {
    match s.reader
    case Copying(words, got) =>
      && s.owner.Reading? && |got| <= |words|
      && forall k :: 0 <= k < |got| ==> got[k] == if words[k] < |s.payload| then s.payload[words[k]] else 0
    case Releasing => s.owner.Reading?
    case _ => true
  }

  predicate Sealed(s: State) {
    && s.rows <= |s.payload|
    && (s.owner.Frozen? || s.owner.Ready? || s.owner.Reading? ==> s.payload[..s.rows] == s.sealedRows)
    && (s.owner.Ready? || s.owner.Reading? ==> s.payload == s.sealed)
  }

  predicate Ok(s: State) { WriterOk(s) && ReaderOk(s) && Sealed(s) }

  lemma OkWrite(s: State)
    requires Ok(s)
    ensures Ok(StepWriter(s))
  {
    if s.writer.Containing? && s.writer.puts != [] {
      var put := s.writer.puts[0];
      assert put.at >= s.rows;
      assert Stored(s, put).payload[..s.rows] == s.payload[..s.rows];
    }
  }

  lemma OkStep(s: State, e: Event)
    requires Ok(s)
    ensures Ok(Step(s, e))
  {
    if e.Write? {
      OkWrite(s);
    }
  }

  lemma {:induction false} OkRun(s: State, events: seq<Event>)
    requires Initial(s)
    ensures Ok(Run(s, events))
    decreases |events|
  {
    if events != [] {
      OkRun(s, events[..|events| - 1]);
      OkStep(Run(s, events[..|events| - 1]), events[|events| - 1]);
    }
  }

  // -------------------------------------------------------- main theorems

  /** The writer has a payload store before it, and the reader a payload read. */
  predicate Storing(w: Writer) { (w.Putting? || w.Containing?) && w.puts != [] }

  predicate Copies(r: Reader) { r.Copying? && |r.got| < |r.words| }

  /**
   Ownership: in every interleaving no payload store can come between the payload reads of the reader, and
   neither side stores the state while the other one owns the ring.
   */
  lemma NeverBoth(s: State, events: seq<Event>)
    requires Initial(s)
    ensures var r := Run(s, events);
            && !(Storing(r.writer) && Copies(r.reader))
            && (r.reader.Copying? || r.reader.Releasing? ==>
                  !r.writer.Marking? && !r.writer.Putting? && !r.writer.Containing?)
  {
    OkRun(s, events);
  }

  /** A copy that the reader completes is word for word what the ring held when Ready was stored. */
  lemma CopyIsSealed(s: State, events: seq<Event>, matches: bool)
    requires Initial(s) && Run(s, events).reader.Copying? && Step(Run(s, events), Read(matches)).reader.Got?
    ensures var r := Run(s, events);
            var done := Step(r, Read(matches)).reader;
            && r.owner.Reading? && |done.got| == |done.words|
            && (forall k :: 0 <= k < |done.got| ==>
                  done.got[k] == if done.words[k] < |r.sealed| then r.sealed[done.words[k]] else 0)
            && r.payload == r.sealed && r.payload[..Cut(r)] == r.sealedRows
  {
    OkRun(s, events);
  }

  predicate Taken(owner: Ownership) { owner.Frozen? || owner.Ready? || owner.Reading? }

  /** One step of either side: a taken ring keeps its rows until the reader gives it back. */
  lemma TakenStep(s: State, e: Event)
    requires Ok(s) && Taken(s.owner)
    ensures var u := Step(s, e);
            && (Taken(u.owner) ==> u.payload[..u.rows] == s.payload[..s.rows] && u.rows == s.rows)
            && (!Taken(u.owner) ==> e.Read? && s.reader.Releasing? && u.owner.Idle? && u.payload == s.payload)
            && (s.owner.Ready? || s.owner.Reading? ==> u.payload == s.payload)
  {
    if e.Write? {
      OkWrite(s);
      if s.writer.Containing? && s.writer.puts != [] {
        assert s.writer.puts[0].at >= s.rows;
      }
    }
  }

  /** As long as the reader has not given the ring back, no interleaving changes a row word. */
  lemma {:induction false} RowsUntouched(s: State, events: seq<Event>, later: seq<Event>)
    requires Initial(s) && Taken(Run(s, events).owner)
    requires forall n :: 0 <= n <= |later| ==> Taken(Run(Run(s, events), later[..n]).owner)
    ensures var a, b := Run(s, events), Run(Run(s, events), later);
            b.rows == a.rows <= |a.payload| && b.rows <= |b.payload| && b.payload[..b.rows] == a.payload[..a.rows]
    decreases |later|
  {
    var a := Run(s, events);
    OkRun(s, events);
    if later != [] {
      hide Run, Step, Ok;
      var shorter := later[..|later| - 1];
      forall n | 0 <= n <= |shorter| ensures Taken(Run(a, shorter[..n]).owner) {
        assert shorter[..n] == later[..n];
      }
      RowsUntouched(s, events, shorter);
      assert later[..|later|] == later && Taken(Run(a, later[..|later| - 1]).owner);
      OkLater(s, events, shorter);
      LastStep(a, later);
      TakenStep(Run(a, shorter), later[|later| - 1]);
      OkStep(Run(a, shorter), later[|later| - 1]);
      SealedIs(Run(a, later));
    } else {
      SealedIs(a);
    }
  }

  lemma SealedIs(s: State)
    requires Ok(s)
    ensures s.rows <= |s.payload|
  {
  }

  lemma LastStep(s: State, events: seq<Event>)
    requires events != []
    ensures Run(s, events) == Step(Run(s, events[..|events| - 1]), events[|events| - 1])
  {
  }

  lemma {:induction false} OkLater(s: State, events: seq<Event>, later: seq<Event>)
    requires Initial(s)
    ensures Ok(Run(Run(s, events), later))
    decreases |later|
  {
    if later == [] {
      OkRun(s, events);
    } else {
      OkLater(s, events, later[..|later| - 1]);
      OkStep(Run(Run(s, events), later[..|later| - 1]), later[|later| - 1]);
    }
  }

  // ---------------------------------------------------------------- progress

  lemma {:induction false} RunAppends(s: State, a: seq<Event>, b: seq<Event>)
    ensures Run(s, a + b) == Run(Run(s, a), b)
    decreases |b|
  {
    hide Step;
    if b == [] {
      assert a + b == a;
    } else {
      assert (a + b)[..|a + b| - 1] == a + b[..|b| - 1];
      RunAppends(s, a, b[..|b| - 1]);
    }
  }

  function Repeat(e: Event, n: nat): seq<Event> { if n == 0 then [] else [e] + Repeat(e, n - 1) }

  lemma RepeatFirst(s: State, e: Event, n: nat)
    requires n > 0
    ensures Run(s, Repeat(e, n)) == Run(Step(s, e), Repeat(e, n - 1))
  {
    hide Step;
    RunAppends(s, [e], Repeat(e, n - 1));
    RunOne(s, e);
  }

  lemma RunNone(s: State, e: Event)
    ensures Run(s, Repeat(e, 0)) == s
  {
  }

  lemma RunOne(s: State, e: Event)
    ensures Run(s, [e]) == Step(s, e)
  {
    hide Step;
    assert [e][..0] == [] && Run(s, []) == s;
  }

  /** The payload after some stores. */
  function AfterPuts(payload: seq<nat>, puts: seq<Put>): (r: seq<nat>)
    ensures |r| == |payload|
    decreases |puts|
  {
    if puts == [] then payload
    else AfterPuts(if puts[0].at < |payload| then payload[puts[0].at := puts[0].value] else payload, puts[1..])
  }

  /** The stores of a recording call, and the step behind them. */
  lemma {:induction false} PutsAll(s: State, puts: seq<Put>, freezes: bool)
    requires s.writer == Putting(puts, freezes)
    ensures var r := Run(s, Repeat(Write, |puts| + 1));
            var after := s.(payload := AfterPuts(s.payload, puts), writer := Away);
            r == if freezes then after.(owner := Frozen, sealedRows := after.payload[..Cut(after)]) else after
    decreases |puts|
  {
    hide Run;
    RepeatFirst(s, Write, |puts| + 1);
    if puts != [] {
      PutsAll(Step(s, Write), puts[1..], freezes);
    } else {
      RunNone(Step(s, Write), Write);
    }
  }

  /**
   A recording call past its session tests, run to its end on a ring that is idle or being recorded, makes all its
   stores; a fault then freezes the ring.
   */
  lemma CallRecords(s: State, puts: seq<Put>, freezes: bool, restarts: bool)
    requires s.writer.Away? && (s.owner.Idle? || s.owner.Recording?)
    ensures var marks := if s.owner.Idle? || restarts then 1 else 0;
            var call := if freezes then Fault(puts, restarts) else Observe(puts, restarts);
            var r := Run(s, [call] + Repeat(Write, |puts| + 2 + marks));
            && r.payload == AfterPuts(s.payload, puts) && r.writer.Away? && r.reader == s.reader && r.rows == s.rows
            && r.owner == (if freezes then Frozen else Recording)
            && (freezes ==> r.sealedRows == r.payload[..Cut(r)])
  {
    hide Run, Repeat, AfterPuts;
    var marks := if s.owner.Idle? || restarts then 1 else 0;
    var call := if freezes then Fault(puts, restarts) else Observe(puts, restarts);
    RunAppends(s, [call], Repeat(Write, |puts| + 2 + marks));
    RunOne(s, call);
    var s1 := Step(s, call);
    RepeatFirst(s1, Write, |puts| + 2 + marks);
    var s2 := Step(s1, Write);
    if marks == 1 {
      RepeatFirst(s2, Write, |puts| + 2);
      PutsAll(Step(s2, Write), puts, freezes);
    } else {
      PutsAll(s2, puts, freezes);
    }
  }

  /** A recording call finds a ring the reader's side owns and leaves it alone. */
  lemma CallIsTurnedAway(s: State, puts: seq<Put>, freezes: bool, restarts: bool)
    requires s.writer.Away? && Taken(s.owner)
    ensures var call := if freezes then Fault(puts, restarts) else Observe(puts, restarts);
            Step(Step(s, call), Write) == s
  {
  }

  lemma {:induction false} ContainsAll(s: State, puts: seq<Put>)
    requires s.writer == Containing(puts)
    ensures var after := s.(payload := AfterPuts(s.payload, puts), writer := Away, owner := Ready);
            Run(s, Repeat(Write, |puts| + 1)) == after.(sealed := after.payload)
    decreases |puts|
  {
    hide Run;
    RepeatFirst(s, Write, |puts| + 1);
    if puts != [] {
      ContainsAll(Step(s, Write), puts[1..]);
    } else {
      RunNone(Step(s, Write), Write);
    }
  }

  /** PublishContained on a frozen ring stores its header words and makes the ring ready. */
  lemma ContainedIsReady(s: State, puts: seq<Put>)
    requires s.writer.Away? && s.owner.Frozen? && InHeader(s, puts)
    ensures var r := Run(s, [Contain(puts)] + Repeat(Write, |puts| + 2));
            && r.owner.Ready? && r.writer.Away? && r.payload == AfterPuts(s.payload, puts) == r.sealed
            && r.reader == s.reader && r.rows == s.rows && r.sealedRows == s.sealedRows
  {
    hide Run, Repeat, AfterPuts;
    RunAppends(s, [Contain(puts)], Repeat(Write, |puts| + 2));
    RunOne(s, Contain(puts));
    var s1 := Step(s, Contain(puts));
    RepeatFirst(s1, Write, |puts| + 2);
    ContainsAll(Step(s1, Write), puts);
  }

  /** The words a copy asks for. */
  function Asked(payload: seq<nat>, words: seq<nat>): seq<nat> {
    seq(|words|, k requires 0 <= k < |words| => if words[k] < |payload| then payload[words[k]] else 0)
  }

  lemma {:induction false} CopiesAll(s: State, words: seq<nat>, got: seq<nat>)
    requires s.reader == Copying(words, got) && |got| <= |words| && got == Asked(s.payload, words[..|got|])
    ensures Run(s, Repeat(Read(true), |words| - |got| + 1)) == s.(reader := Got(words, Asked(s.payload, words)))
    decreases |words| - |got|
  {
    hide Run;
    RepeatFirst(s, Read(true), |words| - |got| + 1);
    if |got| < |words| {
      var more := got + [if words[|got|] < |s.payload| then s.payload[words[|got|]] else 0];
      assert more == Asked(s.payload, words[..|more|]);
      CopiesAll(Step(s, Read(true)), words, more);
    } else {
      assert words[..|got|] == words;
      RunNone(Step(s, Read(true)), Read(true));
    }
  }

  lemma AskedNothing(payload: seq<nat>, words: seq<nat>)
    ensures [] == Asked(payload, words[..0])
  {
  }

  /** BeginRead claims a ready ring and copies its header. */
  lemma ClaimCopies(s: State, header: seq<nat>)
    requires s.owner.Ready? && s.reader.Out?
    ensures Run(s, [Claim(header)] + Repeat(Read(true), |header| + 1)) ==
            s.(owner := Reading, reader := Got(header, Asked(s.payload, header)))
  {
    hide Run, Repeat;
    RunAppends(s, [Claim(header)], Repeat(Read(true), |header| + 1));
    RunOne(s, Claim(header));
    assert [] == Asked(s.payload, header[..0]);
    CopiesAll(Step(s, Claim(header)), header, []);
  }

  /** ReadRow under the claimed session copies the row's words. */
  lemma RowIsCopied(s: State, words: seq<nat>)
    requires s.owner.Reading? && (s.reader.Out? || s.reader.Got?)
    ensures Run(s, [Ask(words)] + Repeat(Read(true), |words| + 2)) ==
            s.(reader := Got(words, Asked(s.payload, words)))
  {
    hide Run, Repeat;
    RunAppends(s, [Ask(words)], Repeat(Read(true), |words| + 2));
    RunOne(s, Ask(words));
    AskIsGranted(s, words);
    hide Step, Asked;
    var s1 := Step(s, Ask(words));
    RepeatFirst(s1, Read(true), |words| + 2);
    AskedNothing(s.payload, words);
    CopiesAll(Step(s1, Read(true)), words, []);
  }

  lemma AskIsGranted(s: State, words: seq<nat>)
    requires s.owner.Reading? && (s.reader.Out? || s.reader.Got?)
    ensures Step(Step(s, Ask(words)), Read(true)) == s.(reader := Copying(words, []))
  {
  }

  /** EndRead under the claimed session gives the ring back; under any other it changes no ownership. */
  lemma RingIsReturned(s: State, matches: bool)
    requires s.owner.Reading? && (s.reader.Out? || s.reader.Got?)
    ensures Step(Step(Step(s, Finish), Read(matches)), Read(matches)) ==
            s.(owner := if matches then Idle else Reading, reader := Out)
  {
  }
}
