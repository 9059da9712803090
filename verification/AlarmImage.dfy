/**
 The alarm image: at every moment the readable slots are the first 64 publications since the last
 clear, and every Trigger call in the image has its publication, with its own code, line and axis.
 */
module AlarmImage {
  import opened AlarmWords
  import opened AlarmMachine
  import opened AlarmControl

  // ----------------------------------------------------------- invariant

  /** The call with this id was made with this alarm. */
  predicate Known(made: seq<Alarm>, id: nat, a: Alarm) { id < |made| && made[id] == a }

  /** The publication that stands for a call. */
  predicate EntryFor(published: seq<Entry>, i: nat, id: nat) { i < |published| && id in published[i].ids }

  predicate HonestEntry(made: seq<Alarm>, e: Entry) {
    e.direct ==> forall id :: id in e.ids ==> Known(made, id, e.alarm)
  }

  /** The publications are honest, cover the image, and the slots below the count are the first 64 of them. */
  ghost predicate ImageLog(sh: Shared) {
    && |sh.slots| == MAX_ALARMS
    && sh.alarmCount == (if |sh.hist.published| < MAX_ALARMS then |sh.hist.published| else MAX_ALARMS)
    && (forall i :: 0 <= i < sh.alarmCount ==> sh.slots[i] == sh.hist.published[i].alarm)
    && (forall e :: e in sh.hist.published ==> HonestEntry(sh.hist.made, e))
    && (forall id :: id in sh.hist.image ==> exists i: nat :: EntryFor(sh.hist.published, i, id))
  }

  /** How much of a publication a thread has stored. */
  predicate Published(sh: Shared, job: Job, pc: PublishPc) {
    match pc
    case PutCode(i) => i == sh.alarmCount < |sh.slots|
    case PutLine(i) => i == sh.alarmCount < |sh.slots| && sh.slots[i].code == job.alarm.code
    case PutAxis(i) =>
      i == sh.alarmCount < |sh.slots| && sh.slots[i].code == job.alarm.code && sh.slots[i].line == job.alarm.line
    case PutCount(i) => i == sh.alarmCount < |sh.slots| && sh.slots[i] == job.alarm
    case PutHas => |sh.hist.published| > 0 && sh.hist.published[|sh.hist.published| - 1] == EntryOf(job)
    case _ => true
  }

  /** How many slots a clearing thread has emptied. */
  predicate Dropped(sh: Shared, pc: DropPc) {
    match pc
    case DropCount => sh.hist.image == {}
    case DropSlot(i, field) =>
      && sh.alarmCount == 0 && i < |sh.slots|
      && (forall j :: 0 <= j < i ==> sh.slots[j] == EMPTY_SLOT)
      && (field != Code ==> sh.slots[i].code == EMPTY_SLOT.code)
      && (field == Axis ==> sh.slots[i].line == EMPTY_SLOT.line)
    case DropUpdate => sh.alarmCount == 0 && forall j :: 0 <= j < |sh.slots| ==> sh.slots[j] == EMPTY_SLOT
    case _ => true
  }

  /** The call a thread is running, while it carries its own argument. */
  function TicketOf(pc: Pc): set<Ticket> {
    match pc
    case Open(TriggerEnter(t)) => {t}
    case Deferring(DeferLoad(t)) => {t}
    case Deferring(DeferCas(t, _, _)) => {t}
    case Deferring(DeferPayload(t)) => {t}
    case Deferring(DeferOr(t)) => {t}
    case Contending(TriggerWriter(t)) => {t}
    case _ => {}
  }

  predicate Progress(sh: Shared, th: Thread) {
    && (forall t :: t in TicketOf(th.pc) ==> Known(sh.hist.made, t.id, t.alarm))
    && match th.pc
       case Publishing(job, pc) => Published(sh, job, pc) && HonestEntry(sh.hist.made, EntryOf(job))
       case Dropping(_, pc) => Dropped(sh, pc)
       case _ => true
  }

  ghost predicate ImageOk(s: State) {
    ImageLog(s.shared) && forall t :: 0 <= t < |s.threads| ==> Progress(s.shared, s.threads[t])
  }

  // ------------------------------------------------ steps at the image

  lemma PutKeepsLog(sh: Shared, th: Thread)
    requires ImageLog(sh) && Progress(sh, th) && th.pc.Publishing?
    requires th.pc.publish.PutCode? || th.pc.publish.PutLine? || th.pc.publish.PutAxis?
    ensures var r := ActPublish(sh, th, th.pc.job, th.pc.publish); ImageLog(r.0) && Progress(r.0, r.1)
  {
    hide HonestEntry, EntryFor;
  }

  lemma CoverGrows(published: seq<Entry>, e: Entry, id: nat, i: nat)
    requires EntryFor(published, i, id)
    ensures EntryFor(published + [e], i, id)
  {
  }

  /** A publication enters the log: its slot is complete, or the image is full. */
  lemma EnterKeepsLog(sh: Shared, th: Thread)
    requires ImageLog(sh) && Progress(sh, th) && th.pc.Publishing?
          && (th.pc.publish.LoadCount? || th.pc.publish.PutCount?)
    ensures var r := ActPublish(sh, th, th.pc.job, th.pc.publish); ImageLog(r.0) && Progress(r.0, r.1)
  {
    hide HonestEntry, EntryFor;
    var e, log := EntryOf(th.pc.job), sh.hist.published;
    forall id | id in sh.hist.image ensures exists i: nat :: EntryFor(log + [e], i, id) {
      var i: nat :| EntryFor(log, i, id);
      CoverGrows(log, e, id, i);
    }
  }

  lemma HasKeepsLog(sh: Shared, th: Thread)
    requires ImageLog(sh) && Progress(sh, th) && th.pc.Publishing?
          && (th.pc.publish.PutHas? || th.pc.publish.PutUpdate?)
    ensures var r := ActPublish(sh, th, th.pc.job, th.pc.publish); ImageLog(r.0) && Progress(r.0, r.1)
  {
    if th.pc.publish.PutHas? {
      forall id | id in th.pc.job.ids ensures exists i: nat :: EntryFor(sh.hist.published, i, id) {
        assert EntryFor(sh.hist.published, |sh.hist.published| - 1, id);
      }
    }
    hide EntryFor;
  }

  lemma PublishKeepsLog(sh: Shared, th: Thread)
    requires ImageLog(sh) && Progress(sh, th) && th.pc.Publishing?
    ensures var r := ActPublish(sh, th, th.pc.job, th.pc.publish); ImageLog(r.0) && Progress(r.0, r.1)
  {
    hide ImageLog, Progress, ActPublish;
    if th.pc.publish.LoadCount? || th.pc.publish.PutCount? {
      EnterKeepsLog(sh, th);
    } else if th.pc.publish.PutHas? || th.pc.publish.PutUpdate? {
      HasKeepsLog(sh, th);
    } else {
      PutKeepsLog(sh, th);
    }
  }

  lemma DropKeepsLog(sh: Shared, th: Thread)
    requires ImageLog(sh) && Progress(sh, th) && th.pc.Dropping?
    ensures var r := ActDrop(sh, th, th.pc.under, th.pc.drop); ImageLog(r.0) && Progress(r.0, r.1)
  {
    hide HonestEntry, EntryFor;
  }

  // ------------------------------------------------------ steps elsewhere

  /** The same image and log; only new calls may have been made. */
  predicate SameLog(sh: Shared, sh': Shared) {
    && sh'.slots == sh.slots && sh'.alarmCount == sh.alarmCount
    && sh'.hist.published == sh.hist.published && sh'.hist.image == sh.hist.image
    && sh.hist.made <= sh'.hist.made
  }

  /** A thread outside the image stores, with an honest ticket, or about to make the first store. */
  predicate Outside(sh: Shared, pc: Pc) {
    && (forall t :: t in TicketOf(pc) ==> Known(sh.hist.made, t.id, t.alarm))
    && (pc.Publishing? ==> pc.publish == LoadCount && HonestEntry(sh.hist.made, EntryOf(pc.job)))
    && (pc.Dropping? ==> pc.drop == DropHas)
  }

  lemma ProbeTickets(sh: Shared, pc: OpenPc)
    requires Probing(pc)
    ensures Outside(sh, Probe(sh, pc))
  {
  }

  lemma OpenOutside(sh: Shared, th: Thread)
    requires Outside(sh, th.pc) && th.pc.Open?
    ensures var r := ActOpen(sh, th, th.pc.open); SameLog(sh, r.0) && Outside(r.0, r.1.pc)
  {
    hide HonestEntry;
    if Probing(th.pc.open) {
      assert ActOpen(sh, th, th.pc.open) == (sh, th.(pc := Probe(sh, th.pc.open)));
      ProbeTickets(sh, th.pc.open);
    }
  }

  lemma DeferOutside(sh: Shared, th: Thread, spurious: bool)
    requires Outside(sh, th.pc) && th.pc.Deferring?
    ensures var r := ActDefer(sh, th, th.pc.defer, spurious); SameLog(sh, r.0) && Outside(r.0, r.1.pc)
  {
    hide HonestEntry;
  }

  lemma ContendOutside(sh: Shared, th: Thread)
    requires Outside(sh, th.pc) && th.pc.Contending?
    ensures var r := ActContend(sh, th, th.pc.contend); SameLog(sh, r.0) && Outside(r.0, r.1.pc)
  {
  }

  lemma WriteOutside(sh: Shared, th: Thread)
    requires Outside(sh, th.pc) && th.pc.Writing?
    ensures var r := ActWrite(sh, th, th.pc.write); SameLog(sh, r.0) && Outside(r.0, r.1.pc)
  {
  }

  lemma StartOutside(sh: Shared, th: Thread, c: Choice)
    requires th.pc.Idle?
    ensures var r := Start(sh, th, c); SameLog(sh, r.0) && Outside(r.0, r.1.pc)
  {
  }

  lemma VerifyOutside(sh: Shared, th: Thread)
    requires th.pc.Verifying?
    ensures var r := ActVerify(sh, th, th.pc.verify); SameLog(sh, r.0) && Outside(r.0, r.1.pc)
  {
  }

  lemma OwnOutside(sh: Shared, th: Thread)
    requires th.pc.Owning?
    ensures var r := ActOwn(sh, th, th.pc.own); SameLog(sh, r.0) && Outside(r.0, r.1.pc)
  {
  }

  lemma OwnWriterOutside(sh: Shared, th: Thread)
    requires th.pc.OwningWriter?
    ensures var r := ActOwnWriter(sh, th, th.pc.ownWriter); SameLog(sh, r.0) && Outside(r.0, r.1.pc)
  {
  }

  lemma ActOutside(sh: Shared, th: Thread, c: Choice)
    requires Outside(sh, th.pc) && !WritesImage(th.pc)
    ensures var r := Act(sh, th, c); SameLog(sh, r.0) && Outside(r.0, r.1.pc)
  {
    hide Outside, SameLog, Start, ActOpen, ActDefer, ActContend, ActWrite, ActVerify, ActOwn, ActOwnWriter;
    match th.pc
    case Idle => StartOutside(sh, th, c);
    case Open(_) => OpenOutside(sh, th);
    case Deferring(_) => DeferOutside(sh, th, c.Proceed? && c.spurious);
    case Contending(_) => ContendOutside(sh, th);
    case Writing(_) => WriteOutside(sh, th);
    case Verifying(_) => VerifyOutside(sh, th);
    case Owning(_) => OwnOutside(sh, th);
    case OwningWriter(_) => OwnWriterOutside(sh, th);
  }

  lemma LogKept(sh: Shared, sh': Shared)
    requires ImageLog(sh) && SameLog(sh, sh')
    ensures ImageLog(sh')
  {
  }

  lemma ActAtImage(sh: Shared, th: Thread, c: Choice)
    requires WritesImage(th.pc)
    ensures Act(sh, th, c) == if th.pc.Publishing? then ActPublish(sh, th, th.pc.job, th.pc.publish)
                              else ActDrop(sh, th, th.pc.under, th.pc.drop)
    ensures Act(sh, th, c).0.hist.made == sh.hist.made
  {
  }

  lemma ActKeepsImage(sh: Shared, th: Thread, c: Choice)
    requires ImageLog(sh) && Progress(sh, th)
    ensures var r := Act(sh, th, c); ImageLog(r.0) && Progress(r.0, r.1)
    ensures !WritesImage(th.pc) ==> SameLog(sh, Act(sh, th, c).0)
    ensures sh.hist.made <= Act(sh, th, c).0.hist.made
  {
    hide ImageLog, Act, ActPublish, ActDrop, HonestEntry;
    if WritesImage(th.pc) {
      hide Progress;
      ActAtImage(sh, th, c);
      if th.pc.Publishing? {
        PublishKeepsLog(sh, th);
      } else {
        DropKeepsLog(sh, th);
      }
    } else {
      ActOutside(sh, th, c);
      LogKept(sh, Act(sh, th, c).0);
    }
  }

  /** What another thread has stored stays stored: it is not at the image, or this step is not. */
  lemma ProgressStable(sh: Shared, sh': Shared, th: Thread)
    requires Progress(sh, th) && sh.hist.made <= sh'.hist.made && (WritesImage(th.pc) ==> SameLog(sh, sh'))
    ensures Progress(sh', th)
  {
  }

  lemma ImageStep(s: State, t: nat, c: Choice)
    requires Control(s) && ImageOk(s) && t < |s.threads|
    ensures ImageOk(Step(s, t, c))
  {
    hide Act, Control, ImageLog, Progress, SameLog;
    var s' := Step(s, t, c);
    ActKeepsImage(s.shared, s.threads[t], c);
    forall u | 0 <= u < |s.threads| && u != t ensures Progress(s'.shared, s.threads[u]) {
      ImageWriterUnique(s, t, u);
      ProgressStable(s.shared, s'.shared, s.threads[u]);
    }
  }

  lemma {:induction false} ImageRun(s: State, events: seq<Event>)
    requires Initial(s)
    ensures ImageOk(Run(s, events))
    decreases |events|
  {
    if events != [] {
      hide ImageOk, Control, Step;
      ImageRun(s, events[..|events| - 1]);
      ControlRun(s, events[..|events| - 1]);
      var before := Run(s, events[..|events| - 1]);
      var e := events[|events| - 1];
      if e.t < |before.threads| {
        ImageStep(before, e.t, e.c);
      }
    }
  }

  // -------------------------------------------------------- main theorems

  /**
   The shared slot array refines a list: in every reachable state, also in the
   middle of a publication, the readable slots are exactly the first 64 alarms
   published since the last clear, none torn and none overwritten.
   */
  lemma ImageRefinesLog(s: State, events: seq<Event>)
    requires Initial(s)
    ensures var sh := Run(s, events).shared;
            && 0 <= sh.alarmCount <= MAX_ALARMS == |sh.slots|
            && sh.alarmCount <= |sh.hist.published|
            && (sh.alarmCount < MAX_ALARMS ==> sh.alarmCount == |sh.hist.published|)
            && forall i :: 0 <= i < sh.alarmCount ==> sh.slots[i] == sh.hist.published[i].alarm
  {
    ImageRun(s, events);
  }

  /**
   A call in the image has its publication, and among the first 64 its slot; unless it was deferred,
   that slot holds exactly the code, line and axis the call was made with.
   */
  ghost predicate InImage(sh: Shared, id: nat) {
    exists i: nat :: EntryFor(sh.hist.published, i, id) && |sh.slots| == MAX_ALARMS
      && (i < MAX_ALARMS ==> i < sh.alarmCount && sh.slots[i] == sh.hist.published[i].alarm)
      && (sh.hist.published[i].direct ==> Known(sh.hist.made, id, sh.hist.published[i].alarm))
  }

  lemma CallInImage(sh: Shared, id: nat)
    requires ImageLog(sh) && id in sh.hist.image
    ensures InImage(sh, id) && sh.alarmCount > 0
  {
    var i: nat :| EntryFor(sh.hist.published, i, id);
    assert HonestEntry(sh.hist.made, sh.hist.published[i]);
  }

  /** In every reachable state, for every call in the image. */
  lemma ImageHoldsCall(s: State, events: seq<Event>, id: nat)
    requires Initial(s) && id in Run(s, events).shared.hist.image
    ensures InImage(Run(s, events).shared, id) && Run(s, events).shared.alarmCount > 0
  {
    hide Run, ImageLog, InImage;
    ImageRun(s, events);
    CallInImage(Run(s, events).shared, id);
  }

  lemma DropEnds(sh: Shared)
    requires ImageLog(sh) && forall j :: 0 <= j < |sh.slots| ==> sh.slots[j] == EMPTY_SLOT
    ensures sh.slots == seq(MAX_ALARMS, _ => EMPTY_SLOT)
  {
  }

  /** When the clearing stores are done, every slot is back to its initial value. */
  lemma ClearEmptiesImage(s: State, events: seq<Event>, t: nat)
    requires Initial(s)
    requires t < |Run(s, events).threads|
    requires Run(s, events).threads[t].pc.Dropping? && Run(s, events).threads[t].pc.drop.DropUpdate?
    ensures var sh := Run(s, events).shared;
            sh.alarmCount == 0 && sh.slots == seq(MAX_ALARMS, _ => EMPTY_SLOT)
  {
    hide Run, ImageLog;
    ImageRun(s, events);
    assert Progress(Run(s, events).shared, Run(s, events).threads[t]);
    assert ImageLog(Run(s, events).shared);
    DropEnds(Run(s, events).shared);
  }
}
