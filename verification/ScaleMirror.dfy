/**
 Scaling and mirror selection of the CoordinateManager: Prepare builds a candidate
 snapshot from a command, and Commit has to find the command back from the candidate.
 */
module ScaleMirror {
  import opened Numbers
  import opened Optional

  const ZEROS: seq<real> := [0.0, 0.0, 0.0]

  type Triple = s: seq<real> | |s| == 3 witness ZEROS
  type Values = s: seq<real> | |s| == 8 witness seq(8, _ => 0.0)
  type Flags = s: seq<bool> | |s| == 8 witness seq(8, _ => false)

  /** A translation snapshot; rest is all that neither scaling nor mirroring touches. */
  datatype Snapshot = Snapshot(
    generation: u64, revision: u64, scalingMode: int, scalingFactor: real, scalingCenter: Triple,
    mirrorMask: set<nat>, mirrorCenter: Triple, rest: nat)

  /** The parts of validity that are given: the other fields, and the eccentric rule. */
  datatype Rules = Rules(others: Snapshot -> bool, eccentric: Snapshot -> bool)

  predicate ValidSnapshot(rules: Rules, s: Snapshot) {
    && s.generation != 0 && s.revision != 0 && (s.scalingMode == 50 || s.scalingMode == 51)
    && s.mirrorMask <= {0, 1, 2} && s.scalingFactor > 0.0
    && (s.scalingMode == 50 ==> s.scalingFactor == 1.0 && s.scalingCenter == ZEROS)
    && (forall axis: nat :: axis < 3 && axis !in s.mirrorMask ==> s.mirrorCenter[axis] == 0.0)
    && rules.others(s)
  }

  datatype Command = Command(code: int, values: Values, has: Flags, factor: real)

  predicate Any(has: Flags) { exists axis :: 0 <= axis < 8 && has[axis] }

  /** The guards of BuildScaleMirrorSelection. */
  predicate Selectable(c: Command, cAxisOffset: bool) {
    && (c.code == 50 || c.code == 51 || c.code == 150 || c.code == 151)
    && c.factor > 0.0 && (c.code != 51 ==> c.factor == 1.0)
    && (forall axis :: 3 <= axis < 8 ==> !c.has[axis])
    && !(c.code == 50 && Any(c.has)) && !(c.code == 151 && !Any(c.has))
    && (c.code == 51 ==> c.has[0] && c.has[1] && c.has[2])
    && !((c.code == 51 || c.code == 151) && cAxisOffset)
  }

  /** The axes a mirror command acts on; a bare 150 means all of them. */
  predicate Acts(c: Command, axis: nat) {
    axis < 3 && (c.has[axis] || (c.code == 150 && !Any(c.has)))
  }

  /** The snapshot that a command selects. */
  function Selection(source: Snapshot, c: Command): Snapshot {
    if c.code == 50 || c.code == 51 then
      source.(scalingMode := c.code, scalingFactor := if c.code == 51 then c.factor else 1.0,
              scalingCenter := if c.code == 51 then c.values[..3] else ZEROS)
    else
      var axes := set axis: nat | axis < 3 && Acts(c, axis);
      source.(mirrorMask := if c.code == 151 then source.mirrorMask + axes else source.mirrorMask - axes,
              mirrorCenter := seq(3, axis requires 0 <= axis < 3 =>
                if !Acts(c, axis) then source.mirrorCenter[axis] else if c.code == 151 then c.values[axis] else 0.0))
  }

  /** The members of the manager that decide a transition; current stands for the run being current. */
  datatype Control = Control(
    frozen: Snapshot, translationFrozen: bool, resetBypass: bool, current: bool,
    generation: u64, generationCounter: u64, revision: u64, toolRadiusMode: int, cAxisOffset: bool)

  predicate Ready(m: Control) {
    m.translationFrozen && !m.resetBypass && m.current && m.generation == m.generationCounter
  }

  function Prepared(rules: Rules, m: Control, c: Command): Option<Snapshot> {
    if m.toolRadiusMode != 40 || !Ready(m) || !Selectable(c, m.cAxisOffset) then None
    else
      var next := Selection(m.frozen, c);
      if next == m.frozen then Checked(rules, next)
      else if m.generationCounter == MAX64 || m.revision == MAX64 then None
      else Checked(rules, next.(generation := m.generationCounter + 1, revision := m.revision + 1))
  }

  function Checked(rules: Rules, next: Snapshot): Option<Snapshot> {
    if ValidSnapshot(rules, next) && rules.eccentric(next) then Some(next) else None
  }

  /** The command that Commit reads off a candidate. */
  function Recovered(frozen: Snapshot, candidate: Snapshot): Command {
    var normalized := candidate.(generation := frozen.generation, revision := frozen.revision,
                                 scalingMode := frozen.scalingMode, scalingFactor := frozen.scalingFactor,
                                 scalingCenter := frozen.scalingCenter);
    if normalized == frozen then
      Command(candidate.scalingMode, candidate.scalingCenter + [0.0, 0.0, 0.0, 0.0, 0.0],
              seq(8, axis => axis < 3 && candidate.scalingMode == 51), candidate.scalingFactor)
    else
      var removed := frozen.mirrorMask - candidate.mirrorMask;
      var code := if removed != {} then 150 else 151;
      Command(code, (if code == 151 then candidate.mirrorCenter else ZEROS) + [0.0, 0.0, 0.0, 0.0, 0.0],
              seq(8, axis requires 0 <= axis < 8 =>
                axis < 3 && axis in (if code == 150 then removed else candidate.mirrorMask)), 1.0)
  }

  predicate Committed(rules: Rules, m: Control, candidate: Snapshot) {
    && Ready(m) && ValidSnapshot(rules, candidate)
    && (candidate == m.frozen || Prepared(rules, m, Recovered(m.frozen, candidate)) == Some(candidate))
  }

  // -------------------------------------------------- Commit inverts Prepare

  /** Recovering a scaling command. */
  lemma RecoverScaling(frozen: Snapshot, c: Command, cAxisOffset: bool, candidate: Snapshot)
    requires Selectable(c, cAxisOffset) && (c.code == 50 || c.code == 51)
    requires candidate.(generation := frozen.generation, revision := frozen.revision) == Selection(frozen, c)
    ensures var r := Recovered(frozen, candidate);
            Selectable(r, cAxisOffset) && Selection(frozen, r) == Selection(frozen, c)
  {
    var r := Recovered(frozen, candidate);
    assert r.code == c.code && r.values[..3] == candidate.scalingCenter;
    assert r.has[0] == r.has[1] == r.has[2] == (c.code == 51);
  }

  /** Recovering a mirror command that switches no inactive axis with a centre off. */
  lemma RecoverMirror(frozen: Snapshot, c: Command, cAxisOffset: bool, candidate: Snapshot)
    requires Selectable(c, cAxisOffset) && (c.code == 150 || c.code == 151) && frozen.mirrorMask <= {0, 1, 2}
    requires candidate.(generation := frozen.generation, revision := frozen.revision) == Selection(frozen, c)
    requires Selection(frozen, c) != frozen && !ClearsStaleCenter(frozen, c)
    ensures var r := Recovered(frozen, candidate);
            Selectable(r, cAxisOffset) && Selection(frozen, r) == Selection(frozen, c)
  {
    var r, next := Recovered(frozen, candidate), Selection(frozen, c);
    MirrorChanged(frozen, c, candidate);
    var removed := frozen.mirrorMask - candidate.mirrorMask;
    if c.code == 150 {
      RemovedSome(frozen, c);
      var gone :| gone in removed;
      assert r.has[gone];
    } else {
      var axis :| 0 <= axis < 8 && c.has[axis];
      assert axis in candidate.mirrorMask;
      assert r.has[axis];
    }
    assert Any(r.has);
    SameSelection(frozen, c, r);
  }

  lemma MirrorChanged(frozen: Snapshot, c: Command, candidate: Snapshot)
    requires c.code == 150 || c.code == 151
    requires candidate.(generation := frozen.generation, revision := frozen.revision) == Selection(frozen, c) != frozen
    ensures candidate.(generation := frozen.generation, revision := frozen.revision, scalingMode := frozen.scalingMode,
                       scalingFactor := frozen.scalingFactor, scalingCenter := frozen.scalingCenter) != frozen
  {
    var next := Selection(frozen, c);
    assert next.(scalingMode := frozen.scalingMode, scalingFactor := frozen.scalingFactor,
                 scalingCenter := frozen.scalingCenter) == next;
  }

  /** Code 150 acts on an axis whose mirror is off but whose frozen centre is not zero. */
  ghost predicate ClearsStaleCenter(frozen: Snapshot, c: Command) {
    c.code == 150 && exists axis: nat :: Acts(c, axis) && axis !in frozen.mirrorMask && frozen.mirrorCenter[axis] != 0.0
  }

  lemma NothingRemoved(frozen: Snapshot, c: Command)
    requires c.code == 150 && !ClearsStaleCenter(frozen, c)
    requires frozen.mirrorMask - Selection(frozen, c).mirrorMask == {}
    ensures Selection(frozen, c) == frozen
  {
    var next := Selection(frozen, c);
    forall axis | axis in frozen.mirrorMask ensures axis in next.mirrorMask {
      assert axis !in frozen.mirrorMask - next.mirrorMask;
    }
    assert next.mirrorMask == frozen.mirrorMask;
    assert next.mirrorCenter == frozen.mirrorCenter;
  }

  lemma RemovedSome(frozen: Snapshot, c: Command)
    requires c.code == 150 && Selection(frozen, c) != frozen && !ClearsStaleCenter(frozen, c)
    ensures frozen.mirrorMask - Selection(frozen, c).mirrorMask != {}
  {
    if frozen.mirrorMask - Selection(frozen, c).mirrorMask == {} {
      NothingRemoved(frozen, c);
    }
  }

  /** Two mirror commands of one code select the same snapshot when they agree where they matter. */
  lemma SameSelection(frozen: Snapshot, c: Command, r: Command)
    requires (c.code == 150 || c.code == 151) && r.code == c.code && frozen.mirrorMask <= {0, 1, 2}
    requires Any(r.has) && !ClearsStaleCenter(frozen, c)
    requires var next := Selection(frozen, c);
             && (c.code == 150 ==> forall axis: nat :: axis < 3 ==>
                   (r.has[axis] <==> axis in frozen.mirrorMask - next.mirrorMask))
             && (c.code == 151 ==> forall axis: nat :: axis < 3 ==>
                   (r.has[axis] <==> axis in next.mirrorMask) && r.values[axis] == next.mirrorCenter[axis])
    ensures Selection(frozen, r) == Selection(frozen, c)
  {
    var a, b := Selection(frozen, c), Selection(frozen, r);
    forall axis: nat | axis < 3
      ensures axis in a.mirrorMask <==> axis in b.mirrorMask
      ensures a.mirrorCenter[axis] == b.mirrorCenter[axis]
    {
      assert Acts(r, axis) <==> r.has[axis];
    }
    assert a.mirrorMask == b.mirrorMask;
    assert a.mirrorCenter == b.mirrorCenter;
  }

  /** What a prepared candidate says of the command and the frozen snapshot. */
  lemma PreparedMeans(rules: Rules, m: Control, c: Command)
    requires Prepared(rules, m, c).Some?
    ensures var k := Prepared(rules, m, c).value;
            && Ready(m) && Selectable(c, m.cAxisOffset) && ValidSnapshot(rules, k) && m.frozen.mirrorMask <= {0, 1, 2}
            && k.(generation := m.frozen.generation, revision := m.frozen.revision) == Selection(m.frozen, c)
            && (k == m.frozen || (Selection(m.frozen, c) != m.frozen
                                  && k.generation == m.generationCounter + 1 && k.revision == m.revision + 1))
  {
    var k, next := Prepared(rules, m, c).value, Selection(m.frozen, c);
    assert next.generation == m.frozen.generation && next.revision == m.frozen.revision;
    forall axis | axis in m.frozen.mirrorMask ensures axis in {0, 1, 2} {
      assert axis in next.mirrorMask || axis < 3;
    }
  }

  /** A recovered command never acts on an axis that the mirror was off for and stays off for. */
  lemma RecoveredLeavesStale(frozen: Snapshot, c: Command, candidate: Snapshot, axis: nat)
    requires c.code == 150 && frozen.mirrorMask <= {0, 1, 2} && axis < 3
    requires candidate.(generation := frozen.generation, revision := frozen.revision) == Selection(frozen, c) != frozen
    requires Acts(c, axis) && axis !in frozen.mirrorMask && frozen.mirrorCenter[axis] != 0.0
    ensures Selection(frozen, Recovered(frozen, candidate)).mirrorCenter[axis] != candidate.mirrorCenter[axis]
  {
    MirrorChanged(frozen, c, candidate);
    var r := Recovered(frozen, candidate);
    var removed := frozen.mirrorMask - candidate.mirrorMask;
    if removed != {} {
      var gone :| gone in removed;
      assert r.has[gone] && !r.has[axis];
    }
    assert !Acts(r, axis);
  }

  /**
   Commit inverts Prepare: a prepared candidate is committed, except exactly when its command
   cleared the leftover centre of an axis whose mirror was already off.
   */
  lemma CommitInvertsPrepare(rules: Rules, m: Control, c: Command)
    requires Prepared(rules, m, c).Some?
    ensures Committed(rules, m, Prepared(rules, m, c).value) <==> !ClearsStaleCenter(m.frozen, c)
  {
    PreparedMeans(rules, m, c);
    var k := Prepared(rules, m, c).value;
    if ClearsStaleCenter(m.frozen, c) {
      var axis: nat :| Acts(c, axis) && axis !in m.frozen.mirrorMask && m.frozen.mirrorCenter[axis] != 0.0;
      assert Selection(m.frozen, c).mirrorCenter[axis] == 0.0;
      RecoveredLeavesStale(m.frozen, c, k, axis);
      if Prepared(rules, m, Recovered(m.frozen, k)).Some? {
        PreparedMeans(rules, m, Recovered(m.frozen, k));
      }
    } else if k != m.frozen {
      if c.code == 50 || c.code == 51 {
        RecoverScaling(m.frozen, c, m.cAxisOffset, k);
      } else {
        RecoverMirror(m.frozen, c, m.cAxisOffset, k);
      }
    }
  }

  /** From a valid frozen snapshot every prepared candidate is committed. */
  lemma ValidFrozenAlwaysCommits(rules: Rules, m: Control, c: Command)
    requires ValidSnapshot(rules, m.frozen) && Prepared(rules, m, c).Some?
    ensures Committed(rules, m, Prepared(rules, m, c).value)
  {
    CommitInvertsPrepare(rules, m, c);
  }

  /** Commit accepts nothing but the frozen snapshot and candidates that some command prepares. */
  lemma CommitAcceptsOnlyPrepared(rules: Rules, m: Control, k: Snapshot)
    requires Committed(rules, m, k) && k != m.frozen
    ensures exists c :: Prepared(rules, m, c) == Some(k) && !ClearsStaleCenter(m.frozen, c)
  {
    var r := Recovered(m.frozen, k);
    CommitInvertsPrepare(rules, m, r);
    assert Prepared(rules, m, r) == Some(k) && !ClearsStaleCenter(m.frozen, r);
  }

  /** Without a valid frozen snapshot the exception occurs: a bare 150 clears a leftover centre and is then refused. */
  lemma StaleCenterIsRefused()
    ensures var rules := Rules(_ => true, _ => true);
            var frozen := Snapshot(7, 3, 50, 1.0, ZEROS, {}, [5.0, 0.0, 0.0], 0);
            var m := Control(frozen, true, false, true, 7, 7, 3, 40, false);
            var c := Command(150, seq(8, _ => 0.0), seq(8, _ => false), 1.0);
            Prepared(rules, m, c).Some? && !Committed(rules, m, Prepared(rules, m, c).value)
  {
    var rules := Rules(_ => true, _ => true);
    var frozen := Snapshot(7, 3, 50, 1.0, ZEROS, {}, [5.0, 0.0, 0.0], 0);
    var m := Control(frozen, true, false, true, 7, 7, 3, 40, false);
    var c := Command(150, seq(8, _ => 0.0), seq(8, _ => false), 1.0);
    assert Acts(c, 0) && frozen.mirrorCenter[0] != 0.0;
    var next := Selection(frozen, c);
    assert next.mirrorCenter[0] == 0.0 && next.mirrorCenter[1] == 0.0 && next.mirrorCenter[2] == 0.0;
    CommitInvertsPrepare(rules, m, c);
  }

  /**
   A snapshot after a command: the scaling that was commanded, or on every axis the mirror and the centre that
   were commanded, and everything else as it was.
   */
  ghost predicate Obeys(c: Command, was: Snapshot, now: Snapshot) {
    && now.rest == was.rest
    && (c.code == 50 ==> now.scalingMode == 50 && now.scalingFactor == 1.0 && now.scalingCenter == ZEROS)
    && (c.code == 51 ==>
          && now.scalingMode == 51 && now.scalingFactor == c.factor
          && forall axis: nat :: axis < 3 ==> now.scalingCenter[axis] == c.values[axis])
    && (c.code == 50 || c.code == 51 ==> now.mirrorMask == was.mirrorMask && now.mirrorCenter == was.mirrorCenter)
    && (c.code == 150 || c.code == 151 ==>
          && now.scalingMode == was.scalingMode && now.scalingFactor == was.scalingFactor
          && now.scalingCenter == was.scalingCenter
          && forall axis: nat :: axis < 3 ==> MirrorObeys(c, was, now, axis))
  }

  /** An axis that is named, or any axis of a bare 150, is switched; any other keeps its mirror and its centre. */
  ghost predicate MirrorObeys(c: Command, was: Snapshot, now: Snapshot, axis: nat)
    requires axis < 3
  {
    var named := c.has[axis] || (c.code == 150 && forall a :: 0 <= a < 8 ==> !c.has[a]);
    if named && c.code == 151 then axis in now.mirrorMask && now.mirrorCenter[axis] == c.values[axis]
    else if named then axis !in now.mirrorMask && now.mirrorCenter[axis] == 0.0
    else (axis in now.mirrorMask <==> axis in was.mirrorMask) && now.mirrorCenter[axis] == was.mirrorCenter[axis]
  }

  /** A prepared candidate is what its command asked for. */
  lemma PreparedObeys(rules: Rules, m: Control, c: Command)
    requires Prepared(rules, m, c).Some?
    ensures Obeys(c, m.frozen, Prepared(rules, m, c).value)
  {
    PreparedMeans(rules, m, c);
    var next := Selection(m.frozen, c);
    if c.code == 150 || c.code == 151 {
      forall axis: nat | axis < 3 ensures MirrorObeys(c, m.frozen, next, axis) {
        if c.code == 151 && c.has[axis] {
          assert Acts(c, axis);
        }
      }
    }
  }

  /** The commands the manager takes, code by code; an offset of the C axis rules the switching-on ones out. */
  predicate Legal(c: Command, cAxisOffset: bool) {
    var none, within := forall a :: 0 <= a < 8 ==> !c.has[a], forall a :: 3 <= a < 8 ==> !c.has[a];
    match c.code
    case 50 => none && c.factor == 1.0
    case 51 => within && c.has[0] && c.has[1] && c.has[2] && c.factor > 0.0 && !cAxisOffset
    case 150 => within && c.factor == 1.0
    case 151 => within && !none && c.factor == 1.0 && !cAxisOffset
    case _ => false
  }

  lemma LegalIsSelectable(c: Command, cAxisOffset: bool)
    ensures Selectable(c, cAxisOffset) <==> Legal(c, cAxisOffset)
  {
    assert Any(c.has) <==> exists a :: 0 <= a < 8 && c.has[a];
  }

  /** The snapshot a legal command leads to is valid when the frozen one is, as far as these fields decide it. */
  lemma SelectionIsValid(rules: Rules, m: Control, c: Command, generation: u64, revision: u64)
    requires ValidSnapshot(rules, m.frozen) && Legal(c, m.cAxisOffset) && generation > 0 && revision > 0
    requires (forall s :: rules.others(s))
    ensures ValidSnapshot(rules, Selection(m.frozen, c).(generation := generation, revision := revision))
  {
  }

  /**
   With rules that forbid nothing, a command is prepared from a valid frozen snapshot exactly when it is legal, the
   tool radius is off, the frozen snapshot is the current one, and the counters have room if it changes anything.
   */
  lemma PreparedExactly(rules: Rules, m: Control, c: Command)
    requires ValidSnapshot(rules, m.frozen) && (forall s :: rules.others(s)) && (forall s :: rules.eccentric(s))
    requires m.frozen.generation == m.generation && m.frozen.revision == m.revision
    ensures Prepared(rules, m, c).Some? <==>
            && m.toolRadiusMode == 40 && m.translationFrozen && !m.resetBypass && m.current
            && m.generation == m.generationCounter && Legal(c, m.cAxisOffset)
            && ((m.generation < MAX64 && m.revision < MAX64) || Obeys(c, m.frozen, m.frozen))
  {
    LegalIsSelectable(c, m.cAxisOffset);
    if m.toolRadiusMode == 40 && Ready(m) && Legal(c, m.cAxisOffset) {
      var next := Selection(m.frozen, c);
      SelectionIsValid(rules, m, c, m.frozen.generation, m.frozen.revision);
      assert next.(generation := m.frozen.generation, revision := m.frozen.revision) == next;
      UnchangedExactly(rules, m.frozen, c);
      if m.generation < MAX64 && m.revision < MAX64 {
        SelectionIsValid(rules, m, c, m.generationCounter + 1, m.revision + 1);
      }
    }
  }

  /** A command changes nothing exactly when the frozen snapshot already obeys it. */
  lemma UnchangedExactly(rules: Rules, frozen: Snapshot, c: Command)
    requires ValidSnapshot(rules, frozen) && c.code in {50, 51, 150, 151}
    ensures Selection(frozen, c) == frozen <==> Obeys(c, frozen, frozen)
  {
    var next := Selection(frozen, c);
    if Obeys(c, frozen, frozen) {
      if c.code == 150 || c.code == 151 {
        forall axis: nat | axis < 3
          ensures axis in next.mirrorMask <==> axis in frozen.mirrorMask
          ensures next.mirrorCenter[axis] == frozen.mirrorCenter[axis]
        {
          assert MirrorObeys(c, frozen, frozen, axis);
        }
        assert next.mirrorMask == frozen.mirrorMask;
        assert next.mirrorCenter == frozen.mirrorCenter;
      } else if c.code == 51 {
        assert next.scalingCenter == frozen.scalingCenter;
      }
    }
    if next == frozen && (c.code == 150 || c.code == 151) {
      forall axis: nat | axis < 3 ensures MirrorObeys(c, frozen, frozen, axis) {
        assert next.mirrorCenter[axis] == frozen.mirrorCenter[axis];
        if c.code == 151 && c.has[axis] {
          assert Acts(c, axis);
        }
      }
    }
  }

  /** Generation and revision advance by one exactly when the candidate differs from the frozen snapshot. */
  lemma GenerationAdvances(rules: Rules, m: Control, c: Command)
    requires Prepared(rules, m, c).Some? && m.frozen.generation == m.generation && m.frozen.revision == m.revision
    ensures var k := Prepared(rules, m, c).value;
            && (k == m.frozen <==> k.generation == m.generation)
            && (k != m.frozen <==> k.generation == m.generation + 1)
            && (k != m.frozen <==> k.revision == m.revision + 1)
  {
    PreparedMeans(rules, m, c);
  }

  // ------------------------------------------------------------ the manager

  class CoordinateManager {
    const rules: Rules
    var frozen: Snapshot
    var translationFrozen: bool
    var resetBypass: bool
    var current: bool
    var generation: u64
    var generationCounter: u64
    var revision: u64
    var toolRadiusMode: int
    var cAxisOffset: bool
    var workCenterConfirmed: bool
    var rest: nat
    var isScalingActive: bool
    var scaleFactor: real
    const scalingCenterWCS: array<real>
    const isMirrorActive: array<bool>
    const mirrorCenterWCS: array<real>

    ghost predicate Valid()
      reads this
    {
      scalingCenterWCS.Length == isMirrorActive.Length == mirrorCenterWCS.Length == 8
          && scalingCenterWCS != mirrorCenterWCS
    }

    function View(): Control
      reads this
    {
      Control(frozen, translationFrozen, resetBypass, current, generation, generationCounter, revision,
              toolRadiusMode, cAxisOffset)
    }

    /** What the live scaling and mirror members say, with the other live members in rest. */
    ghost function Live(): Snapshot
      requires Valid()
      reads this, scalingCenterWCS, isMirrorActive, mirrorCenterWCS
    {
      Snapshot(generation, revision, if isScalingActive then 51 else 50, if isScalingActive then scaleFactor else 1.0,
               if isScalingActive then scalingCenterWCS[..3] else ZEROS,
               set axis: nat | axis < 3 && isMirrorActive[axis],
               seq(3, axis requires 0 <= axis < 3 reads isMirrorActive, mirrorCenterWCS =>
                 if isMirrorActive[axis] then mirrorCenterWCS[axis] else 0.0),
               rest)
    }

    constructor (rules: Rules, rest: nat)
      ensures Valid() && fresh(scalingCenterWCS) && fresh(isMirrorActive) && fresh(mirrorCenterWCS)
      ensures !translationFrozen && Live() == Snapshot(0, 0, 50, 1.0, ZEROS, {}, ZEROS, rest)
    {
      this.rules, this.rest := rules, rest;
      frozen := Snapshot(0, 0, 50, 1.0, ZEROS, {}, ZEROS, 0);
      translationFrozen, resetBypass, current, workCenterConfirmed := false, false, false, false;
      generation, generationCounter, revision, toolRadiusMode, cAxisOffset := 0, 0, 0, 40, false;
      isScalingActive, scaleFactor := false, 1.0;
      scalingCenterWCS := new real[8](_ => 0.0);
      isMirrorActive := new bool[8](_ => false);
      mirrorCenterWCS := new real[8](_ => 0.0);
    }

    /** The scaling and mirror part of the rebuilt snapshot. */
    method BuildCurrentSnapshot() returns (s: Snapshot)
      requires Valid()
      ensures s == Live()
    {
      var scalingCenter: Triple, mirrorCenter: Triple := ZEROS, ZEROS;
      var mirrorMask: set<nat> := {};
      var axis := 0;
      while axis < 3
        invariant 0 <= axis <= 3
        invariant forall a :: 0 <= a < axis ==> scalingCenter[a] == if isScalingActive then scalingCenterWCS[a] else 0.0
        invariant forall a :: axis <= a < 3 ==> scalingCenter[a] == 0.0 && mirrorCenter[a] == 0.0
        invariant mirrorMask == set a: nat | a < axis && isMirrorActive[a]
        invariant forall a :: 0 <= a < axis ==> mirrorCenter[a] == if isMirrorActive[a] then mirrorCenterWCS[a] else 0.0
      {
        if isScalingActive {
          scalingCenter := scalingCenter[axis := scalingCenterWCS[axis]];
        }
        if isMirrorActive[axis] {
          mirrorMask := mirrorMask + {axis};
          mirrorCenter := mirrorCenter[axis := mirrorCenterWCS[axis]];
        }
        axis := axis + 1;
      }
      s := Snapshot(generation, revision, if isScalingActive then 51 else 50, if isScalingActive then scaleFactor
          else 1.0,
                    scalingCenter, mirrorMask, mirrorCenter, rest);
      assert scalingCenter == Live().scalingCenter && mirrorCenter == Live().mirrorCenter;
    }

    method BuildScaleMirrorSelection(c: Command, source: Snapshot) returns (r: Option<Snapshot>)
      ensures r == if Selectable(c, cAxisOffset) then Some(Selection(source, c)) else None
    {
      if (c.code != 50 && c.code != 51 && c.code != 150 && c.code != 151)
         || c.factor <= 0.0 || (c.code != 51 && c.factor != 1.0) {
        return None;
      }
      var any := false;
      var axis := 0;
      while axis < 8
        invariant 0 <= axis <= 8 && (any <==> exists a :: 0 <= a < axis && c.has[a])
        invariant forall a :: 3 <= a < axis ==> !c.has[a]
      {
        any := any || c.has[axis];
        if c.has[axis] && axis >= 3 {
          return None;
        }
        axis := axis + 1;
      }
      if (c.code == 50 && any) || (c.code == 151 && !any) || (c.code == 51 && (!c.has[0] || !c.has[1] || !c.has[2]))
         || ((c.code == 51 || c.code == 151) && cAxisOffset) {
        return None;
      }
      if c.code == 50 || c.code == 51 {
        return Some(source.(scalingMode := c.code, scalingFactor := if c.code == 51 then c.factor else 1.0,
                            scalingCenter := if c.code == 51 then c.values[..3] else ZEROS));
      }
      var next := MirrorSelection(c, source);
      return Some(next);
    }

    static method MirrorSelection(c: Command, source: Snapshot) returns (next: Snapshot)
      requires c.code == 150 || c.code == 151
      ensures next == Selection(source, c)
    {
      var mask, center := source.mirrorMask, source.mirrorCenter;
      var axis := 0;
      while axis < 3
        invariant 0 <= axis <= 3
        invariant forall a: nat :: a in mask <==>
                    if a < axis && Acts(c, a) then c.code == 151 else a in source.mirrorMask
        invariant forall a: nat :: a < 3 ==>
                    center[a] == (if a >= axis || !Acts(c, a) then source.mirrorCenter[a]
                                  else if c.code == 151 then c.values[a] else 0.0)
      {
        if c.code == 151 && c.has[axis] {
          mask := mask + {axis};
          center := center[axis := c.values[axis]];
        } else if c.code == 150 && (!Any(c.has) || c.has[axis]) {
          mask := mask - {axis};
          center := center[axis := 0.0];
        }
        axis := axis + 1;
      }
      next := source.(mirrorMask := mask, mirrorCenter := center);
      assert mask == Selection(source, c).mirrorMask;
      assert center == Selection(source, c).mirrorCenter;
    }

    method PrepareScaleMirrorTransition(c: Command) returns (r: Option<Snapshot>)
      ensures r == Prepared(rules, View(), c)
    {
      if toolRadiusMode != 40 || !translationFrozen || resetBypass || !current || generation != generationCounter {
        return None;
      }
      var selection := BuildScaleMirrorSelection(c, frozen);
      if selection.None? {
        return None;
      }
      var next := selection.value;
      if next != frozen {
        if generationCounter == MAX64 || revision == MAX64 {
          return None;
        }
        next := next.(generation := generationCounter + 1, revision := revision + 1);
      }
      if !ValidSnapshot(rules, next) || !rules.eccentric(next) {
        return None;
      }
      return Some(next);
    }

    /** The command that the candidate stands for. */
    method Recover(candidate: Snapshot) returns (c: Command)
      ensures c == Recovered(frozen, candidate)
    {
      var normalized := candidate.(generation := frozen.generation, revision := frozen.revision);
      normalized := normalized.(scalingMode := frozen.scalingMode, scalingFactor := frozen.scalingFactor);
      normalized := normalized.(scalingCenter := frozen.scalingCenter);
      var values: Values, selected: Flags := seq(8, _ => 0.0), seq(8, _ => false);
      var code, factor := candidate.scalingMode, candidate.scalingFactor;
      var chosen: set<nat>, centers: Triple := {}, candidate.scalingCenter;
      if normalized == frozen {
        chosen := if code == 51 then {0, 1, 2} else {};
      } else {
        factor := 1.0;
        var removed := frozen.mirrorMask - candidate.mirrorMask;
        code := if removed != {} then 150 else 151;
        chosen := if code == 150 then removed else candidate.mirrorMask;
        centers := if code == 151 then candidate.mirrorCenter else ZEROS;
      }
      var axis := 0;
      while axis < 3
        invariant 0 <= axis <= 3
        invariant forall a :: 0 <= a < 8 ==> selected[a] == (a < axis && a in chosen)
        invariant forall a :: 0 <= a < 8 ==> values[a] == if a < axis then centers[a] else 0.0
      {
        selected := selected[axis := axis in chosen];
        values := values[axis := centers[axis]];
        axis := axis + 1;
      }
      c := Command(code, values, selected, factor);
      assert values == Recovered(frozen, candidate).values;
      assert selected == Recovered(frozen, candidate).has;
    }

    /** Whether a candidate is committed, and that the live members then show the new frozen snapshot. */
    method CommitScaleMirrorTransition(candidate: Snapshot) returns (ok: bool)
      requires Valid()
      modifies this, scalingCenterWCS, isMirrorActive, mirrorCenterWCS
      ensures Valid() && ok == old(Committed(rules, View(), candidate))
      ensures !ok || candidate == old(frozen) ==>
                unchanged(this) && unchanged(scalingCenterWCS) && unchanged(isMirrorActive)
                    && unchanged(mirrorCenterWCS)
      ensures ok ==> frozen == candidate
      ensures ok && candidate != old(frozen) ==>
                && View() == old(View()).(frozen := candidate, generation := candidate.generation,
                                          generationCounter := candidate.generation, revision := candidate.revision)
                && Live() == candidate.(rest := rest) && rest == old(rest) && !workCenterConfirmed
    {
      if !translationFrozen || resetBypass || !current || generation != generationCounter
         || !ValidSnapshot(rules, candidate) {
        return false;
      }
      if candidate == frozen {
        return true;
      }
      var c := Recover(candidate);
      var expected := PrepareScaleMirrorTransition(c);
      if expected != Some(candidate) {
        return false;
      }
      Install(candidate);
      return true;
    }

    method Install(candidate: Snapshot)
      requires Valid() && ValidSnapshot(rules, candidate)
      modifies this, scalingCenterWCS, isMirrorActive, mirrorCenterWCS
      ensures Valid()
      ensures View() == old(View()).(frozen := candidate, generation := candidate.generation,
                                     generationCounter := candidate.generation, revision := candidate.revision)
      ensures Live() == candidate.(rest := rest) && rest == old(rest) && !workCenterConfirmed
    {
      workCenterConfirmed := false;
      generationCounter, generation, revision := candidate.generation, candidate.generation, candidate.revision;
      isScalingActive := candidate.scalingMode == 51;
      scaleFactor := candidate.scalingFactor;
      InstallCenters(candidate);
      frozen := candidate;
      assert Live().scalingCenter == candidate.scalingCenter;
      assert Live().mirrorMask == candidate.mirrorMask;
      assert Live().mirrorCenter == candidate.mirrorCenter;
    }

    method InstallCenters(candidate: Snapshot)
      requires Valid()
      modifies scalingCenterWCS, isMirrorActive, mirrorCenterWCS
      ensures forall a :: 0 <= a < 8 ==> scalingCenterWCS[a] == (if a < 3 then candidate.scalingCenter[a] else 0.0)
      ensures forall a :: 0 <= a < 8 ==> isMirrorActive[a] == (a < 3 && a in candidate.mirrorMask)
      ensures forall a :: 0 <= a < 8 ==> mirrorCenterWCS[a] == (if a < 3 then candidate.mirrorCenter[a] else 0.0)
    {
      var axis := 0;
      while axis < 8
        invariant 0 <= axis <= 8
        invariant forall a :: 0 <= a < axis ==>
                    scalingCenterWCS[a] == (if a < 3 then candidate.scalingCenter[a] else 0.0)
        invariant forall a :: 0 <= a < axis ==> isMirrorActive[a] == (a < 3 && a in candidate.mirrorMask)
        invariant forall a :: 0 <= a < axis ==> mirrorCenterWCS[a] == (if a < 3 then candidate.mirrorCenter[a] else 0.0)
      {
        scalingCenterWCS[axis] := if axis < 3 then candidate.scalingCenter[axis] else 0.0;
        isMirrorActive[axis] := axis < 3 && axis in candidate.mirrorMask;
        mirrorCenterWCS[axis] := if axis < 3 then candidate.mirrorCenter[axis] else 0.0;
        axis := axis + 1;
      }
    }

    /** A whole transition from a synchronised manager: prepare, commit, and the rebuilt snapshot is the frozen one. */
    method Transition(c: Command) returns (ok: bool)
      requires Valid() && frozen == Live() && ValidSnapshot(rules, frozen)
      modifies this, scalingCenterWCS, isMirrorActive, mirrorCenterWCS
      ensures Valid() && ok == old(Prepared(rules, View(), c).Some?)
      ensures frozen == Live() && ValidSnapshot(rules, frozen)
      ensures ok ==> frozen == old(Prepared(rules, View(), c)).value
      ensures ok ==> Obeys(c, old(frozen), Live())
      ensures !ok ==> frozen == old(frozen)
    {
      var prepared := PrepareScaleMirrorTransition(c);
      if prepared.None? {
        return false;
      }
      ghost var before := View();
      ValidFrozenAlwaysCommits(rules, before, c);
      PreparedMeans(rules, before, c);
      PreparedObeys(rules, before, c);
      ok := CommitScaleMirrorTransition(prepared.value);
    }
  }
}
