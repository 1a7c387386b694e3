/** Staged config edits: one shared session over a versioned compare-and-set row. */
module Staging {
  import opened Wrappers

  type Doc = string

  /** A change of the working document; None when it does not apply or the result does not validate. A
      wholesale replacement is one that ignores its argument. */
  type Change = Doc -> Option<Doc>

  const NO_DOC: Doc := ""

  // ---- the stored row ----

  /** The single config row; version 0 stands for no row. */
  datatype Row = Absent | Row(version: nat, doc: Doc)

  function Version(r: Row): nat { if r.Absent? then 0 else r.version }

  function Stored(r: Row): Doc { if r.Absent? then NO_DOC else r.doc }

  /** Set with the version the writer last read: the new row, or None for a conflict. */
  function Written(r: Row, doc: Doc, expected: nat): Option<Row> {
    if expected == 0 then
      if r.Absent? then Some(Row(1, doc)) else None
    else
      if r.Row? && r.version == expected then Some(Row(r.version + 1, doc)) else None
  }

  /** The compare-and-set: it writes exactly if the expected version is the stored one, 0 standing for no row,
      and stores the document under the next version. */
  lemma WrittenIff(r: Row, doc: Doc, expected: nat)
    requires r.Row? ==> r.version >= 1
    ensures Written(r, doc, expected).Some? <==> expected == if r.Row? then r.version else 0
    ensures Written(r, doc, expected).Some? ==> Written(r, doc, expected).value == Row(expected + 1, doc)
  {}

  class Store {
    var row: Row

    constructor ()
      ensures row == Absent
    {
      row := Absent;
    }

    method Get() returns (doc: Doc, version: nat)
      ensures doc == Stored(row) && version == Version(row)
    {
      match row {
        case Absent => return NO_DOC, 0;
        case Row(v, d) => return d, v;
      }
    }

    method Set(doc: Doc, expected: nat) returns (conflict: bool)
      modifies this
      ensures conflict <==> Written(old(row), doc, expected).None?
      ensures row == if conflict then old(row) else Written(old(row), doc, expected).value
    {
      if expected == 0 {
        if row.Row? { return true; }
        row := Row(1, doc);
        return false;
      }
      if row.Absent? || row.version != expected { return true; }
      row := Row(row.version + 1, doc);
      return false;
    }
  }

  // ---- the session ----

  datatype Session = Session(active: bool, baseVer: nat, baseDoc: Doc, workDoc: Doc, seqNo: nat)

  function Cleared(s: Session): Session { Session(false, 0, NO_DOC, NO_DOC, s.seqNo + 1) }

  function Seeded(s: Session, r: Row): Session {
    if s.active then s else Session(true, Version(r), Stored(r), Stored(r), s.seqNo + 1)
  }

  predicate Stages(s: Session, change: Change) { s.active && change(s.workDoc).Some? }

  function Changed(s: Session, change: Change): Session
    requires Stages(s, change)
  {
    s.(workDoc := change(s.workDoc).value, seqNo := s.seqNo + 1)
  }

  /** The shared staging buffer; each method is one lock cycle. */
  class Buffer {
    var active: bool
    var baseVer: nat
    var baseDoc: Doc
    var workDoc: Doc
    var seqNo: nat

    constructor ()
      ensures S() == Session(false, 0, NO_DOC, NO_DOC, 0)
    {
      active, baseVer, baseDoc, workDoc, seqNo := false, 0, NO_DOC, NO_DOC, 0;
    }

    function S(): Session
      reads this
    {
      Session(active, baseVer, baseDoc, workDoc, seqNo)
    }

    /** ensure: seed from the stored config unless a session is active. A hub that cannot be read seeds
        nothing. */
    method Ensure(store: Store, readable: bool) returns (failed: bool)
      modifies this
      ensures failed <==> !old(active) && !readable
      ensures S() == if failed then old(S()) else Seeded(old(S()), store.row)
    {
      if active { return false; }
      if !readable { return true; }
      var doc, version := store.Get();
      baseDoc, workDoc, baseVer := doc, doc, version;
      active, seqNo := true, seqNo + 1;
      return false;
    }

    method Clear()
      modifies this
      ensures S() == Cleared(old(S()))
    {
      active, baseVer, baseDoc, workDoc := false, 0, NO_DOC, NO_DOC;
      seqNo := seqNo + 1;
    }

    method ResetIfUnchanged(wantSeq: nat) returns (did: bool)
      modifies this
      ensures did <==> old(active) && old(seqNo) == wantSeq
      ensures S() == if did then Cleared(old(S())) else old(S())
    {
      if !active || seqNo != wantSeq { return false; }
      Clear();
      return true;
    }

    /** mutate, and setDoc with a change that ignores the old document. */
    method Mutate(change: Change) returns (ok: bool)
      modifies this
      ensures ok <==> Stages(old(S()), change)
      ensures S() == if ok then Changed(old(S()), change) else old(S())
    {
      if !active { return false; }
      match change(workDoc) {
        case None => return false;
        case Some(next) =>
          workDoc := next;
          seqNo := seqNo + 1;
          return true;
      }
    }

    method SnapshotForApply() returns (doc: Doc, version: nat, seq_: nat, ok: bool)
      ensures (doc, version, seq_, ok) == (workDoc, baseVer, seqNo, active)
    {
      return workDoc, baseVer, seqNo, active;
    }
  }

  /** applyStaged with nothing in between. The hub may reject the document as invalid, and its answer may
      be lost. On success the row holds the working document at the next version and the session is over;
      without an answer the session stays, whether or not the hub wrote; otherwise nothing changes. */
  method ApplyStaged(b: Buffer, store: Store, valid: bool, heard: bool) returns (newVer: Option<nat>)
    modifies b, store
    ensures var r := Written(old(store.row), old(b.workDoc), old(b.baseVer));
            var wrote := old(b.active) && valid && r.Some?;
            && store.row == (if wrote then r.value else old(store.row))
            && newVer == (if wrote && heard then Some(old(b.baseVer) + 1) else None)
            && b.S() == if wrote && heard then Cleared(old(b.S())) else old(b.S())
  {
    var doc, version, seqNo, ok := b.SnapshotForApply();
    if !ok { return None; }
    if !valid { return None; }
    var conflict := store.Set(doc, version);
    if conflict || !heard { return None; }
    var did := b.ResetIfUnchanged(seqNo);
    return Some(version + 1);
  }

  // ---- interleavings ----

  /** A staged edit, numbered. */
  datatype Edit = Edit(id: nat, change: Change)

  datatype Phase = Snapped | Put | Over

  /** One applyStaged call: what it snapshotted, how far it is, whether its PUT wrote the row. `trail` and
      `base` record what the snapshot contained and what its session was seeded from. */
  datatype Apply = Apply(doc: Doc, ver: nat, seqNo: nat, phase: Phase, wrote: bool, trail: seq<Edit>, base: Doc)

  /** The whole system. `trail` lists the edits of the session in order, `docs` every document the row
      ever held, and the sets what became of an edit. */
  datatype System = System(
    row: Row, session: Session, applies: seq<Apply>,
    trail: seq<Edit>, docs: seq<Doc>, staged: nat, discarded: set<nat>, written: set<nat>)

  datatype Step =
    | Ensure
    | Stage(change: Change)
    | Discard
    | Snapshot
    | PutStaged(i: nat, valid: bool, heard: bool) // the hub may reject the document, its answer may be lost
    | Settle(i: nat)                 // resetIfUnchanged
    | OtherWrite(doc: Doc, expected: nat)

  ghost function Ids(trail: seq<Edit>): set<nat> { set e | e in trail :: e.id }

  function Init(): System { System(Absent, Session(false, 0, NO_DOC, NO_DOC, 0), [], [], [], 0, {}, {}) }

  predicate CanStep(s: System, step: Step) {
    match step
    case PutStaged(i, _, _) => i < |s.applies| && s.applies[i].phase == Snapped
    case Settle(i) => i < |s.applies| && s.applies[i].phase == Put
    case _ => true
  }

  ghost function AfterPut(s: System, i: nat, valid: bool, heard: bool): System
    requires i < |s.applies|
  {
    var a := s.applies[i];
    match Written(s.row, a.doc, a.ver)
    case Some(r) =>
      if valid then
        s.(row := r, docs := s.docs + [a.doc], written := s.written + Ids(a.trail),
           applies := s.applies[i := a.(phase := if heard then Put else Over, wrote := true)])
      else s.(applies := s.applies[i := a.(phase := Over)])
    case None => s.(applies := s.applies[i := a.(phase := Over)])
  }

  ghost function After(s: System, step: Step): System
    requires CanStep(s, step)
  {
    match step
    case Ensure => s.(session := Seeded(s.session, s.row))
    case Stage(change) =>
      if !Stages(s.session, change) then s
      else s.(session := Changed(s.session, change), trail := s.trail + [Edit(s.staged, change)], staged := s.staged + 1)
    case Discard => s.(session := Cleared(s.session), trail := [], discarded := s.discarded + Ids(s.trail))
    case Snapshot =>
      if !s.session.active then s
      else
        var n := s.session;
        s.(applies := s.applies + [Apply(n.workDoc, n.baseVer, n.seqNo, Snapped, false, s.trail, n.baseDoc)])
    case PutStaged(i, valid, heard) => AfterPut(s, i, valid, heard)
    case Settle(i) =>
      var a := s.applies[i];
      var t := s.(applies := s.applies[i := a.(phase := Over)]);
      if s.session.active && s.session.seqNo == a.seqNo then t.(session := Cleared(s.session), trail := []) else t
    case OtherWrite(doc, expected) =>
      match Written(s.row, doc, expected)
      case Some(r) => s.(row := r, docs := s.docs + [doc])
      case None => s
  }

  /** The document after the edits, in order. */
  function Replay(base: Doc, trail: seq<Edit>): Doc
    decreases |trail|
  {
    if |trail| == 0 then base
    else
      var d := Replay(base, trail[..|trail| - 1]);
      match trail[|trail| - 1].change(d)
      case Some(d') => d'
      case None => d
  }

  /** The document at a version. */
  function DocAt(docs: seq<Doc>, v: nat): Doc { if 0 < v <= |docs| then docs[v - 1] else NO_DOC }

  predicate RowOk(s: System) {
    Version(s.row) == |s.docs| && (s.row.Row? <==> |s.docs| > 0) && Stored(s.row) == DocAt(s.docs, |s.docs|)
  }

  /** The session was seeded from a version the row had, and holds that document with all its edits. */
  ghost predicate SessionOk(s: System) {
    if s.session.active then
      && s.session.baseVer <= |s.docs| && s.session.baseDoc == DocAt(s.docs, s.session.baseVer)
      && s.session.workDoc == Replay(s.session.baseDoc, s.trail)
    else s.trail == []
  }

  ghost predicate ApplyOk(s: System, a: Apply) {
    && a.ver <= |s.docs| && a.base == DocAt(s.docs, a.ver) && a.doc == Replay(a.base, a.trail)
    && a.seqNo <= s.session.seqNo
    && (s.session.active && a.seqNo == s.session.seqNo ==> a.trail == s.trail && a.base == s.session.baseDoc)
    && (a.wrote ==> a.ver < |s.docs| && s.docs[a.ver] == a.doc && Ids(a.trail) <= s.written)
    && (a.phase == Put ==> a.wrote)
  }

  ghost predicate AppliesOk(s: System) { forall i :: 0 <= i < |s.applies| ==> ApplyOk(s, s.applies[i]) }

  /** No staged edit vanished. */
  ghost predicate EditsOk(s: System) {
    forall id :: 0 <= id < s.staged ==> id in Ids(s.trail) || id in s.discarded || id in s.written
  }

  ghost predicate Inv(s: System) { RowOk(s) && SessionOk(s) && AppliesOk(s) && EditsOk(s) }

  lemma InitInv()
    ensures Inv(Init())
  {}

  // ---- every step ----

  lemma DocAtGrows(docs: seq<Doc>, d: Doc, v: nat)
    requires v <= |docs|
    ensures DocAt(docs + [d], v) == DocAt(docs, v)
  {}

  lemma ReplaySnoc(base: Doc, trail: seq<Edit>, e: Edit)
    ensures Replay(base, trail + [e]) ==
            match e.change(Replay(base, trail)) case Some(d') => d' case None => Replay(base, trail)
  {
    assert (trail + [e])[..|trail|] == trail;
  }

  lemma IdsSnoc(trail: seq<Edit>, e: Edit)
    ensures Ids(trail + [e]) == Ids(trail) + {e.id}
  {
    forall id | id in Ids(trail) + {e.id}
      ensures id in Ids(trail + [e])
    {
      if id == e.id {
        assert e in trail + [e];
      } else {
        var x :| x in trail && x.id == id;
        assert x in trail + [e];
      }
    }
  }

  lemma StageKeeps(s: System, change: Change)
    requires Inv(s) && Stages(s.session, change)
    ensures Inv(After(s, Stage(change)))
  {
    hide Replay, Ids, DocAt;
    var e := Edit(s.staged, change);
    ReplaySnoc(s.session.baseDoc, s.trail, e);
    IdsSnoc(s.trail, e);
    var s' := After(s, Stage(change));
    forall i | 0 <= i < |s'.applies|
      ensures ApplyOk(s', s'.applies[i])
    {
      assert ApplyOk(s, s.applies[i]);
    }
  }

  lemma EnsureKeeps(s: System)
    requires Inv(s)
    ensures Inv(After(s, Ensure))
  {
    hide Ids, DocAt;
    var s' := After(s, Ensure);
    forall i | 0 <= i < |s'.applies|
      ensures ApplyOk(s', s'.applies[i])
    {
      assert ApplyOk(s, s.applies[i]);
    }
  }

  lemma DiscardKeeps(s: System)
    requires Inv(s)
    ensures Inv(After(s, Discard))
  {
    hide Replay, DocAt;
    var s' := After(s, Discard);
    forall i | 0 <= i < |s'.applies|
      ensures ApplyOk(s', s'.applies[i])
    {
      assert ApplyOk(s, s.applies[i]);
    }
  }

  lemma SnapshotKeeps(s: System)
    requires Inv(s)
    ensures Inv(After(s, Snapshot))
  {
    hide Replay, DocAt, Ids;
  }

  /** One write to the row, by the compare-and-set. */
  lemma WriteKeeps(s: System, doc: Doc, expected: nat)
    requires RowOk(s) && Written(s.row, doc, expected).Some?
    ensures expected == |s.docs| && Stored(s.row) == DocAt(s.docs, expected)
    ensures RowOk(s.(row := Written(s.row, doc, expected).value, docs := s.docs + [doc]))
  {}

  /** What only depends on older versions does not mind another write. */
  lemma OlderKeeps(s: System, s': System, doc: Doc)
    requires SessionOk(s) && s'.docs == s.docs + [doc]
    requires s'.session == s.session && s'.trail == s.trail && s.written <= s'.written
    ensures SessionOk(s')
    ensures forall a :: ApplyOk(s, a) ==> ApplyOk(s', a)
  {
    hide Replay, Ids;
    if s.session.active { DocAtGrows(s.docs, doc, s.session.baseVer); }
    forall a | ApplyOk(s, a)
      ensures ApplyOk(s', a)
    {
      DocAtGrows(s.docs, doc, a.ver);
    }
  }

  lemma OtherKeeps(s: System, doc: Doc, expected: nat)
    requires Inv(s)
    ensures Inv(After(s, OtherWrite(doc, expected)))
  {
    hide Replay, Ids, ApplyOk, SessionOk, RowOk, Written;
    if Written(s.row, doc, expected).Some? {
      WriteKeeps(s, doc, expected);
      OlderKeeps(s, After(s, OtherWrite(doc, expected)), doc);
      RowSame(s.(row := Written(s.row, doc, expected).value, docs := s.docs + [doc]), After(s, OtherWrite(doc, expected)));
    }
  }

  lemma RowSame(s: System, s': System)
    requires RowOk(s) && s'.row == s.row && s'.docs == s.docs
    ensures RowOk(s')
  {}

  lemma PutKeeps(s: System, i: nat, valid: bool, heard: bool)
    requires Inv(s) && CanStep(s, PutStaged(i, valid, heard))
    ensures Inv(After(s, PutStaged(i, valid, heard)))
  {
    var a := s.applies[i];
    assert ApplyOk(s, a);
    if Written(s.row, a.doc, a.ver).Some? && valid {
      PutWrites(s, i, heard);
    } else {
      PutFails(s, i, valid, heard);
    }
  }

  lemma PutFails(s: System, i: nat, valid: bool, heard: bool)
    requires Inv(s) && CanStep(s, PutStaged(i, valid, heard))
    requires !(Written(s.row, s.applies[i].doc, s.applies[i].ver).Some? && valid)
    ensures Inv(After(s, PutStaged(i, valid, heard)))
  {
    hide Replay, Ids, DocAt;
    var s' := After(s, PutStaged(i, valid, heard));
    forall k | 0 <= k < |s'.applies|
      ensures ApplyOk(s', s'.applies[k])
    {
      assert ApplyOk(s, s.applies[k]);
    }
  }

  lemma PutWrites(s: System, i: nat, heard: bool)
    requires Inv(s) && CanStep(s, PutStaged(i, true, heard)) && Written(s.row, s.applies[i].doc, s.applies[i].ver).Some?
    ensures Inv(After(s, PutStaged(i, true, heard)))
  {
    hide Replay, Ids, DocAt;
    var a, s' := s.applies[i], After(s, PutStaged(i, true, heard));
    WriteKeeps(s, a.doc, a.ver);
    RowSame(s.(row := s'.row, docs := s'.docs), s');
    OlderKeeps(s, s', a.doc);
    forall k | 0 <= k < |s'.applies|
      ensures ApplyOk(s', s'.applies[k])
    {
      assert ApplyOk(s, s.applies[k]);
      assert ApplyOk(s', s.applies[k]);
    }
  }

  lemma SettleKeeps(s: System, i: nat)
    requires Inv(s) && CanStep(s, Settle(i))
    ensures Inv(After(s, Settle(i)))
  {
    hide Replay, DocAt, Ids;
    var s' := After(s, Settle(i));
    assert ApplyOk(s, s.applies[i]);
    NoIds();
    forall k | 0 <= k < |s'.applies|
      ensures ApplyOk(s', s'.applies[k])
    {
      assert ApplyOk(s, s.applies[k]);
    }
  }

  lemma NoIds()
    ensures Ids([]) == {}
  {}

  lemma StepKeeps(s: System, step: Step)
    requires Inv(s) && CanStep(s, step)
    ensures Inv(After(s, step))
  {
    hide Inv, AfterPut, Written;
    match step {
      case Ensure => EnsureKeeps(s);
      case Stage(change) => if Stages(s.session, change) { StageKeeps(s, change); }
      case Discard => DiscardKeeps(s);
      case Snapshot => SnapshotKeeps(s);
      case PutStaged(i, valid, heard) => PutKeeps(s, i, valid, heard);
      case Settle(i) => SettleKeeps(s, i);
      case OtherWrite(doc, expected) => OtherKeeps(s, doc, expected);
    }
  }

  // ---- whole runs ----

  ghost predicate Run(s: System, steps: seq<Step>)
    decreases |steps|
  {
    |steps| == 0 || (CanStep(s, steps[0]) && Run(After(s, steps[0]), steps[1..]))
  }

  ghost function RunEnd(s: System, steps: seq<Step>): System
    requires Run(s, steps)
    decreases |steps|
  {
    if |steps| == 0 then s else RunEnd(After(s, steps[0]), steps[1..])
  }

  /** In every interleaving of staging, discarding, applying and other writers: an edit once staged is
      still in the session, or was discarded, or was in a PUT that succeeded. */
  lemma {:induction false} NoEditLost(s: System, steps: seq<Step>)
    requires Inv(s) && Run(s, steps)
    ensures Inv(RunEnd(s, steps)) && EditsOk(RunEnd(s, steps))
    decreases |steps|
  {
    hide CanStep, After, EditsOk, RowOk, SessionOk, AppliesOk;
    if |steps| > 0 {
      StepKeeps(s, steps[0]);
      NoEditLost(After(s, steps[0]), steps[1..]);
    }
  }

  /** An apply that is over takes no further step. */
  lemma OverStays(s: System, i: nat, step: Step)
    requires CanStep(s, step) && i < |s.applies| && s.applies[i].phase == Over
    ensures i < |After(s, step).applies| && After(s, step).applies[i].phase == Over
    ensures step != Settle(i) && (step.PutStaged? ==> step.i != i)
  {}

  /** An apply whose PUT was refused or whose answer was lost never clears the session, whatever happens later. */
  lemma {:induction false} OverNeverSettles(s: System, i: nat, steps: seq<Step>)
    requires i < |s.applies| && s.applies[i].phase == Over && Run(s, steps)
    ensures Settle(i) !in steps
    decreases |steps|
  {
    hide After;
    if |steps| > 0 {
      OverStays(s, i, steps[0]);
      OverNeverSettles(After(s, steps[0]), i, steps[1..]);
      assert steps == [steps[0]] + steps[1..];
    }
  }

  lemma LostAnswerKeepsSession(s: System, i: nat, valid: bool, heard: bool, steps: seq<Step>)
    requires CanStep(s, PutStaged(i, valid, heard)) && Run(After(s, PutStaged(i, valid, heard)), steps)
    requires !heard || !valid || Written(s.row, s.applies[i].doc, s.applies[i].ver).None?
    ensures After(s, PutStaged(i, valid, heard)).session == s.session && Settle(i) !in steps
  {
    hide Written, Run;
    OverNeverSettles(After(s, PutStaged(i, valid, heard)), i, steps);
  }

  lemma SessionKeepsEdits(s: System, step: Step)
    requires Inv(s) && CanStep(s, step) && s.trail != []
    ensures || s.trail <= After(s, step).trail
            || step == Discard
            || (step.Settle? && s.applies[step.i].wrote && s.applies[step.i].trail == s.trail
                && s.applies[step.i].ver < |s.docs| && s.docs[s.applies[step.i].ver] == s.applies[step.i].doc == s.session.workDoc)
  {
    hide Replay, Ids, DocAt, Written;
    if step.Settle? {
      assert ApplyOk(s, s.applies[step.i]);
      if s.session.active && s.session.seqNo == s.applies[step.i].seqNo {
        SameSeed(s, step.i);
      }
    }
  }

  /** Of an unchanged session the snapshot is the working document. */
  lemma SameSeed(s: System, i: nat)
    requires Inv(s) && i < |s.applies| && s.session.active && s.session.seqNo == s.applies[i].seqNo
    ensures s.applies[i].trail == s.trail && s.applies[i].doc == s.session.workDoc
  {
    hide Replay, Ids, DocAt;
    assert ApplyOk(s, s.applies[i]);
  }

  lemma PutSees(s: System, i: nat, valid: bool, heard: bool)
    requires Inv(s) && CanStep(s, PutStaged(i, valid, heard)) && After(s, PutStaged(i, valid, heard)).row != s.row
    ensures var a := s.applies[i];
            && Version(s.row) == a.ver && Stored(s.row) == a.base
            && Stored(After(s, PutStaged(i, valid, heard)).row) == Replay(Stored(s.row), a.trail)
            && Version(After(s, PutStaged(i, valid, heard)).row) == a.ver + 1
  {
    hide Replay, Ids;
    assert ApplyOk(s, s.applies[i]);
  }

  /** In every interleaving: a session loses its edits only to a discard, or to the apply whose successful
      PUT contained every one of them. Any other step keeps them all, in order. */
  lemma ClearedOnlyBy(steps: seq<Step>, step: Step)
    requires Run(Init(), steps)
    requires CanStep(RunEnd(Init(), steps), step) && |RunEnd(Init(), steps).trail| > 0
    ensures var s := RunEnd(Init(), steps);
            || s.trail <= After(s, step).trail
            || step == Discard
            || (step.Settle? && s.applies[step.i].wrote && s.applies[step.i].trail == s.trail
                && s.applies[step.i].ver < |s.docs| && s.docs[s.applies[step.i].ver] == s.applies[step.i].doc == s.session.workDoc)
  {
    hide Run, RunEnd, After, Inv;
    InitInv();
    NoEditLost(Init(), steps);
    SessionKeepsEdits(RunEnd(Init(), steps), step);
  }

  /** In every interleaving: a PUT succeeds only while the hub still holds the version, and so the
      document, that the session was seeded from; and it stores that document with exactly the
      snapshotted edits made to it. */
  lemma PutSeesSeed(steps: seq<Step>, i: nat, valid: bool, heard: bool)
    requires Run(Init(), steps)
    requires CanStep(RunEnd(Init(), steps), PutStaged(i, valid, heard))
    requires After(RunEnd(Init(), steps), PutStaged(i, valid, heard)).row != RunEnd(Init(), steps).row
    ensures var s := RunEnd(Init(), steps);
            var a, row' := s.applies[i], After(s, PutStaged(i, valid, heard)).row;
            && Version(s.row) == a.ver && Stored(s.row) == a.base
            && Version(row') == a.ver + 1 && Stored(row') == Replay(Stored(s.row), a.trail)
  {
    hide Run, RunEnd, After, Inv, Replay;
    InitInv();
    NoEditLost(Init(), steps);
    PutSees(RunEnd(Init(), steps), i, valid, heard);
  }

  // ---- where a written or discarded edit went ----

  /** The step is a PUT that stores, at the next version, the document its session was seeded from with its edits made,
      this one among them. */
  ghost predicate Writes(s: System, step: Step, id: nat)
    requires CanStep(s, step)
  {
    && step.PutStaged? && step.valid && id in Ids(s.applies[step.i].trail)
    && Version(s.row) == s.applies[step.i].ver
    && After(s, step).row == Row(Version(s.row) + 1, Replay(DocAt(s.docs, Version(s.row)), s.applies[step.i].trail))
  }

  /** The step writes the edit, or throws it away with its session. */
  ghost predicate Ends(s: System, step: Step, id: nat, written: bool)
    requires CanStep(s, step)
  {
    if written then Writes(s, step, id) else step == Discard && id in Ids(s.trail)
  }

  ghost predicate EverEnds(s: System, steps: seq<Step>, id: nat, written: bool)
    requires Run(s, steps)
    decreases |steps|
  {
    |steps| > 0 && (Ends(s, steps[0], id, written) || EverEnds(After(s, steps[0]), steps[1..], id, written))
  }

  function Ended(s: System, written: bool): set<nat> { if written then s.written else s.discarded }

  lemma StepEnds(s: System, step: Step, id: nat, written: bool)
    requires Inv(s) && CanStep(s, step) && id in Ended(After(s, step), written) && id !in Ended(s, written)
    ensures Ends(s, step, id, written)
  {
    hide Replay, Ids, SessionOk, EditsOk, Written;
    if step.PutStaged? && written {
      var a := s.applies[step.i];
      assert ApplyOk(s, a);
      WrittenIff(s.row, a.doc, a.ver);
    }
  }

  lemma {:induction false} RunEnds(s: System, steps: seq<Step>, id: nat, written: bool)
    requires Inv(s) && Run(s, steps) && id in Ended(RunEnd(s, steps), written)
    ensures id in Ended(s, written) || EverEnds(s, steps, id, written)
    decreases |steps|
  {
    hide CanStep, After, Inv, Ends, Ended;
    if |steps| > 0 {
      StepKeeps(s, steps[0]);
      RunEnds(After(s, steps[0]), steps[1..], id, written);
      if id in Ended(After(s, steps[0]), written) && id !in Ended(s, written) { StepEnds(s, steps[0], id, written); }
    }
  }

  /** From the start, over every interleaving: an edit the model files as written was part of a PUT that stored it, one
      filed as discarded was in a session at its discard. */
  lemma EditsHaveEnds(steps: seq<Step>, id: nat, written: bool)
    requires Run(Init(), steps) && id in Ended(RunEnd(Init(), steps), written)
    ensures EverEnds(Init(), steps, id, written)
  {
    hide Run, RunEnd, EverEnds;
    RunEnds(Init(), steps, id, written);
  }
}
