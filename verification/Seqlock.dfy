/**
 The word-wise publication of EDMAnalogInput::Publisher: one writer, any number
 of readers, every load and store one step.  The 64-bit sequence wraps.
 */
module Seqlock {

  import opened Numbers
  const ATTEMPTS: nat := 3

  /** Publish(): before the fetch_add, between the word stores, before the closing store. */
  datatype Writer = Quiet | Storing(words: seq<nat>, i: nat, odd: nat)

  /** Read(): at (history) is the unbounded number of sequence changes at the first load. */
  datatype Reader =
    | Idle
    | Before(attempt: nat)
    | Loading(attempt: nat, before: nat, at: nat, got: seq<nat>)
    | Done(ok: bool, at: nat, got: seq<nat>)

  /** changes and log are history: sequence changes ever made, and the completed snapshots. */
  datatype State = State(
    sequence: nat, words: seq<nat>, writer: Writer, readers: seq<Reader>,
    changes: nat, log: seq<seq<nat>>)

  datatype Event = Publish(snapshot: seq<nat>) | Store | Begin(r: nat) | Load(r: nat)

  predicate Initial(s: State) {
    && s.sequence == 0 && s.changes == 0 && s.log == [] && s.writer == Quiet
    && |s.words| > 0
    && (forall i :: 0 <= i < |s.words| ==> s.words[i] == 0)
    && forall r :: 0 <= r < |s.readers| ==> s.readers[r] == Idle
  }

  function StepWriter(s: State): State {
    match s.writer
    case Quiet => s
    case Storing(words, i, odd) =>
      if i < |words| && i < |s.words| then
        s.(words := s.words[i := words[i]], writer := Storing(words, i + 1, odd))
      else
        s.(sequence := (odd + 1) % TWO64, changes := s.changes + 1, writer := Quiet, log := s.log + [words])
  }

  function Retry(attempt: nat): Reader {
    if attempt + 1 < ATTEMPTS then Before(attempt + 1) else Done(false, 0, [])
  }

  function StepReader(s: State, reader: Reader): Reader {
    match reader
    case Before(attempt) =>
      if s.sequence % 2 != 0 then Retry(attempt) else Loading(attempt, s.sequence, s.changes, [])
    case Loading(attempt, before, at, got) =>
      if |got| < |s.words| then Loading(attempt, before, at, got + [s.words[|got|]])
      else if s.sequence == before && s.sequence % 2 == 0 then Done(true, at, got)
      else Retry(attempt)
    case _ => reader
  }

  function Step(s: State, e: Event): State {
    match e
    case Publish(snapshot) =>
      if s.writer.Quiet? && |snapshot| == |s.words| then
        var odd := (s.sequence + 1) % TWO64;
        s.(sequence := odd, changes := s.changes + 1, writer := Storing(snapshot, 0, odd))
      else s
    case Store => StepWriter(s)
    case Begin(r) =>
      if r < |s.readers| && (s.readers[r].Idle? || s.readers[r].Done?) then
        s.(readers := s.readers[r := Before(0)])
      else s
    case Load(r) =>
      if r < |s.readers| then s.(readers := s.readers[r := StepReader(s, s.readers[r])]) else s
  }

  function Run(s: State, events: seq<Event>): State
    decreases |events|
  {
    if events == [] then s else Step(Run(s, events[..|events| - 1]), events[|events| - 1])
  }

  // --------------------------------------------------------------- invariant

  /** The image that was current after an even number of changes: a published snapshot, or zero words. */
  predicate IsSnapshot(s: State, at: nat, image: seq<nat>) {
    if at == 0 then |image| == |s.words| && forall i :: 0 <= i < |image| ==> image[i] == 0
    else at % 2 == 0 && at / 2 <= |s.log| && image == s.log[at / 2 - 1]
  }

  predicate WriterOk(s: State) {
    && s.sequence == s.changes % TWO64
    && (forall k :: 0 <= k < |s.log| ==> |s.log[k]| == |s.words|)
    && match s.writer
       case Quiet => s.changes == 2 * |s.log| && IsSnapshot(s, s.changes, s.words)
       case Storing(words, i, odd) =>
         && s.changes == 2 * |s.log| + 1 && odd == s.sequence
         && |words| == |s.words| && i <= |words|
         && forall k :: 0 <= k < i ==> s.words[k] == words[k]
  }

  /** While the sequence has not moved since the first load, the words read so far are the current image. */
  predicate ReaderOk(s: State, reader: Reader) {
    match reader
    case Loading(_, before, at, got) =>
      && before == at % TWO64 && at % 2 == 0 && at <= s.changes && |got| <= |s.words|
      && (at == s.changes ==> forall k :: 0 <= k < |got| ==> got[k] == s.words[k])
    case _ => true
  }

  predicate Ok(s: State) {
    WriterOk(s) && forall r :: 0 <= r < |s.readers| ==> ReaderOk(s, s.readers[r])
  }

  lemma Parity(x: nat)
    ensures x % TWO64 % 2 == x % 2
  {
  }

  lemma NextModulo(x: nat)
    ensures (x % TWO64 + 1) % TWO64 == (x + 1) % TWO64
  {
  }

  lemma OkStep(s: State, e: Event)
    requires Ok(s)
    ensures Ok(Step(s, e))
  {
    NextModulo(s.changes);
    Parity(s.changes);
    if e.Store? && s.writer.Storing? && s.writer.i == |s.words| {
      assert s.words == s.writer.words;
    }
  }

  lemma {:induction false} OkRun(s: State, events: seq<Event>)
    requires Initial(s)
    ensures Ok(Run(s, events))
    decreases |events|
  {
    if events != [] {
      OkRun(s, events[..|events| - 1]);
      OkStep(Run(s, events[..|events| - 1]), events[|events| - 1]);
    }
  }

  // ------------------------------------------------------------ main theorem

  /**
   Seqlock atomicity: in every interleaving, unless the sequence makes a full
   64-bit turn between the two loads, an accepted Read returns exactly one
   image: the snapshot that was the latest complete one at both loads.  That
   image is a published snapshot exactly when something had been published at
   the first load; before that it is the zero-initialised words.
   */
  lemma ReadIsAtomic(s: State, events: seq<Event>, r: nat)
    requires Initial(s)
    requires var before := Run(s, events);
             && r < |before.readers| && before.readers[r].Loading?
             && Step(before, Load(r)).readers[r].Done? && Step(before, Load(r)).readers[r].ok
             && before.changes - before.readers[r].at < TWO64
    ensures var before := Run(s, events);
            var done := Step(before, Load(r)).readers[r];
            && IsSnapshot(before, done.at, done.got)
            && done.at == before.changes && before.writer.Quiet?
            && (done.at > 0 <==> before.log != [])
            && (before.log != [] ==> done.got == before.log[|before.log| - 1])
  {
    OkRun(s, events);
    var before := Run(s, events);
    var reader := before.readers[r];
    SameResidue(reader.at, before.changes, TWO64);
    Parity(before.changes);
    assert reader.got == before.words;
  }

  /** A Read that gives up after three attempts returns no words at all. */
  lemma FailedReadIsEmpty(s: State, r: nat)
    requires r < |s.readers| && !s.readers[r].Done?
    requires Step(s, Load(r)).readers[r].Done? && !Step(s, Load(r)).readers[r].ok
    ensures Step(s, Load(r)).readers[r].got == []
    ensures (s.readers[r].Before? || s.readers[r].Loading?) && s.readers[r].attempt + 1 >= ATTEMPTS
  {
  }

  /** Before the first Publish a Read is accepted with words nobody published. */
  lemma ReadBeforePublish()
    ensures var s := State(0, [0], Quiet, [Idle], 0, []);
            var r := Step(Step(Step(Step(s, Begin(0)), Load(0)), Load(0)), Load(0));
            Initial(s) && r.readers[0] == Done(true, 0, [0]) && r.log == []
  {
    var s := State(0, [0], Quiet, [Idle], 0, []);
    var s1 := Step(s, Begin(0));
    assert s1.readers[0] == Before(0) && |s1.readers| == 1;
    var s2 := Step(s1, Load(0));
    assert s2.readers[0] == Loading(0, 0, 0, []) && |s2.readers| == 1;
    var s3 := Step(s2, Load(0));
    assert s3.readers[0] == Loading(0, 0, 0, [0]) && |s3.readers| == 1;
  }

  // ---------------------------------------------------------------- progress

  lemma {:induction false} RunAppends(s: State, a: seq<Event>, b: seq<Event>)
    ensures Run(s, a + b) == Run(Run(s, a), b)
    decreases |b|
  {
    hide Step;
    if b == [] {
      assert a + b == a;
    } else {
      assert (a + b)[..|a + b| - 1] == a + b[..|b| - 1];
      RunAppends(s, a, b[..|b| - 1]);
    }
  }

  lemma RunOne(s: State, e: Event)
    ensures Run(s, [e]) == Step(s, e)
  {
    assert [e][..0] == [] && Run(s, []) == s;
  }

  function Repeat(e: Event, n: nat): seq<Event> { if n == 0 then [] else Repeat(e, n - 1) + [e] }

  lemma RepeatLast(s: State, e: Event, n: nat)
    requires n > 0
    ensures Run(s, Repeat(e, n)) == Step(Run(s, Repeat(e, n - 1)), e)
  {
    hide Step;
    assert Repeat(e, n)[..|Repeat(e, n)| - 1] == Repeat(e, n - 1);
  }

  lemma {:induction false} StoresSome(s: State, snapshot: seq<nat>, odd: nat, n: nat)
    requires s.writer == Storing(snapshot, 0, odd) && n <= |snapshot| == |s.words|
    ensures var r := Run(s, Repeat(Store, n));
            && r == s.(words := r.words, writer := Storing(snapshot, n, odd)) && |r.words| == |s.words|
            && forall k :: 0 <= k < n ==> r.words[k] == snapshot[k]
  {
    if n > 0 {
      StoresSome(s, snapshot, odd, n - 1);
      RepeatLast(s, Store, n);
    }
  }

  /** One Publish, run to its end, makes its snapshot the words and the last of the log; the readers are left alone. */
  lemma PublishCompletes(s: State, events: seq<Event>, snapshot: seq<nat>)
    requires Initial(s) && Run(s, events).writer.Quiet? && |snapshot| == |Run(s, events).words|
    ensures var r := Run(s, events);
            var end := Run(r, [Publish(snapshot)] + Repeat(Store, |snapshot| + 1));
            && end.writer.Quiet? && end.words == snapshot && end.log == r.log + [snapshot]
            && end.readers == r.readers && end.changes == r.changes + 2 && end.sequence == end.changes % TWO64
  {
    hide Run, Step, Repeat;
    OkRun(s, events);
    var r := Run(s, events);
    RunAppends(r, [Publish(snapshot)], Repeat(Store, |snapshot| + 1));
    RunOne(r, Publish(snapshot));
    PublishStarts(r, snapshot);
    var r1 := Run(r, [Publish(snapshot)]);
    StoresSome(r1, snapshot, r1.sequence, |snapshot|);
    RepeatLast(r1, Store, |snapshot| + 1);
    var r2 := Run(r1, Repeat(Store, |snapshot|));
    assert r2.words == snapshot;
    LastStore(r2, snapshot, r1.sequence);
    NextModulo(r.changes);
    NextModulo(r.changes + 1);
  }

  lemma PublishStarts(s: State, snapshot: seq<nat>)
    requires s.writer.Quiet? && |snapshot| == |s.words|
    ensures var odd := (s.sequence + 1) % TWO64;
            Step(s, Publish(snapshot)) ==
            s.(sequence := odd, changes := s.changes + 1, writer := Storing(snapshot, 0, odd))
  {
  }

  lemma LastStore(s: State, snapshot: seq<nat>, odd: nat)
    requires s.writer == Storing(snapshot, |snapshot|, odd)
    ensures Step(s, Store) ==
            s.(sequence := (odd + 1) % TWO64, changes := s.changes + 1, writer := Quiet, log := s.log + [snapshot])
  {
  }

  lemma {:induction false} LoadsSome(s: State, r: nat, n: nat)
    requires r < |s.readers| && s.readers[r].Before? && s.sequence % 2 == 0 && n <= |s.words|
    ensures Run(s, Repeat(Load(r), n + 1)) ==
            s.(readers := s.readers[r := Loading(s.readers[r].attempt, s.sequence, s.changes, s.words[..n])])
  {
    RepeatLast(s, Load(r), n + 1);
    if n == 0 {
      assert s.words[..0] == [];
      assert Run(s, Repeat(Load(r), 0)) == s;
    } else {
      LoadsSome(s, r, n - 1);
      var u := Run(s, Repeat(Load(r), n));
      assert s.words[..n - 1] + [s.words[n - 1]] == s.words[..n];
      assert u.readers[r := Loading(s.readers[r].attempt, s.sequence, s.changes, s.words[..n])]
          == s.readers[r := Loading(s.readers[r].attempt, s.sequence, s.changes, s.words[..n])];
    }
  }

  /** A Read while nothing is published succeeds at its first attempt, with the latest snapshot if there is one. */
  lemma QuietReadSucceeds(s: State, events: seq<Event>, r: nat)
    requires Initial(s) && r < |Run(s, events).readers| && Run(s, events).writer.Quiet?
    requires Run(s, events).readers[r].Idle? || Run(s, events).readers[r].Done?
    ensures var q := Run(s, events);
            var end := Run(q, [Begin(r)] + Repeat(Load(r), |q.words| + 2));
            && end == q.(readers := q.readers[r := Done(true, q.changes, q.words)])
            && (q.log != [] ==> q.words == q.log[|q.log| - 1])
  {
    hide Run, Step, Repeat;
    OkRun(s, events);
    var q := Run(s, events);
    Parity(q.changes);
    RunAppends(q, [Begin(r)], Repeat(Load(r), |q.words| + 2));
    RunOne(q, Begin(r));
    ReadStarts(q, r);
    var q1 := Run(q, [Begin(r)]);
    LoadsSome(q1, r, |q.words|);
    RepeatLast(q1, Load(r), |q.words| + 2);
    assert q.words[..|q.words|] == q.words;
    var loaded := q.readers[r := Before(0)][r := Loading(0, q.sequence, q.changes, q.words)];
    assert loaded == q.readers[r := Loading(0, q.sequence, q.changes, q.words)];
    LastLoad(q.(readers := loaded), r);
    assert loaded[r := Done(true, q.changes, q.words)] == q.readers[r := Done(true, q.changes, q.words)];
  }

  lemma ReadStarts(s: State, r: nat)
    requires r < |s.readers| && (s.readers[r].Idle? || s.readers[r].Done?)
    ensures Step(s, Begin(r)) == s.(readers := s.readers[r := Before(0)])
  {
  }

  lemma LastLoad(s: State, r: nat)
    requires r < |s.readers| && s.readers[r].Loading? && s.readers[r].got == s.words
    requires s.readers[r].before == s.sequence && s.sequence % 2 == 0
    ensures Step(s, Load(r)) == s.(readers := s.readers[r := Done(true, s.readers[r].at, s.words)])
  {
  }

  /** An attempt that starts or ends without success met a publication in progress, or one completed meanwhile. */
  lemma AttemptFailsExactly(s: State, events: seq<Event>, r: nat)
    requires Initial(s) && r < |Run(s, events).readers|
    ensures var q := Run(s, events);
            var next := Step(q, Load(r)).readers[r];
            && (q.readers[r].Before? ==> (!next.Loading? <==> q.writer.Storing?))
            && (q.readers[r].Loading? && |q.readers[r].got| == |q.words| && q.changes - q.readers[r].at < TWO64 ==>
                  (!(next.Done? && next.ok) <==> q.changes != q.readers[r].at))
            && (q.readers[r].Before? || q.readers[r].Loading? ==>
                  next.Before? ==> next.attempt == q.readers[r].attempt + 1 < ATTEMPTS)
  {
    OkRun(s, events);
    var q := Run(s, events);
    Parity(q.changes);
    if q.readers[r].Loading? && q.changes - q.readers[r].at < TWO64 {
      SameResidue(q.readers[r].at, q.changes, TWO64);
    }
  }
}
