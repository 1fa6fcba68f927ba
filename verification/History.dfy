/** A run leaves nothing behind for the next one: every hook is deleted once, every handle is back
    to 0, and no restart is pending. */
module History {
  import opened Utils
  import opened Machine
  import opened Equivalence
  import opened Hooks
  import opened GoldenRun
  import opened StatsRun
  import opened TwinRuns
  import opened Aftermath
  import opened Injection
  import opened ExactlyOnce
  import opened Replay
  import opened Segments

  const NO_HANDLES := Handles(0, 0, 0, 0, 0, 0, 0, 0, 0, 0, 0, 0, 0, 0, 0)

  /** The handle field of a kind of hook, by its place in Handles. */
  function Field(kind: HookKind): (f: nat)
    ensures f < 15
  {
    match kind
    case OnInterrupt => 0
    case OnMemoryInvalid => 1
    case OnInstructionInvalid => 2
    case OnEndAddress => 3
    case OnStartAddress => 4
    case OnSkip => 5
    case OnStartFaults => 6
    case OnStopFaults => 7
    case OnHardStop => 8
    case Placebo => 9
    case Stats => 9
    case CountInstructions => 10
    case FaultItAddress => 11
    case FaultItRegister => 12
    case FaultItInstruction => 12
    case FaultItIP => 12
    case RevertRegister => 13
    case RepeatRegister => 13
    case RevertInstruction => 13
    case RepeatInstruction => 13
    case RepeatIP => 13
    case Equivalent => 14
  }

  function FieldsOf(hk: Handles): (fields: seq<nat>)
    ensures |fields| == 15
  {
    [hk.interrupt, hk.memoryInvalid, hk.instructionInvalid, hk.endAddress, hk.startAddress, hk.skips, hk.startFaults,
     hk.stopFaults, hk.hardStops, hk.caller, hk.countInstructions, hk.faultAddress, hk.faultIt, hk.lifespan,
     hk.equivalent]
  }

  lemma {:induction false} HandleIsField(hk: Handles, kind: HookKind)
    ensures HandleOf(hk, kind) == FieldsOf(hk)[Field(kind)]
  {
  }

  lemma {:induction false} SetHandleIsUpdate(hk: Handles, kind: HookKind, h: nat)
    ensures FieldsOf(SetHandle(hk, kind, h)) == FieldsOf(hk)[Field(kind) := h]
  {
    var f, g := FieldsOf(SetHandle(hk, kind, h)), FieldsOf(hk);
    assert f[..8] == g[Field(kind) := h][..8];
    assert f[8..] == g[Field(kind) := h][8..];
    assert f == f[..8] + f[8..] && g[Field(kind) := h] == g[Field(kind) := h][..8] + g[Field(kind) := h][8..];
  }

  lemma {:induction false} HandleAfterSet(hk: Handles, a: HookKind, b: HookKind, h: nat)
    ensures HandleOf(SetHandle(hk, a, h), b) == if Field(a) == Field(b) then h else HandleOf(hk, b)
    ensures Field(a) == Field(b) ==> HandleOf(hk, a) == HandleOf(hk, b)
  {
    hide HandleOf, SetHandle, Field, FieldsOf;
    HandleIsField(hk, a);
    HandleIsField(hk, b);
    HandleIsField(SetHandle(hk, a, h), b);
    SetHandleIsUpdate(hk, a, h);
  }

  /** Each live hook is held by the handle of its kind, each handle that is not 0 holds a live hook,
      and no hook was deleted twice. */
  ghost predicate Tidy(r: Run) {
    && (forall i :: 0 <= i < |r.hooks| ==>
          if r.hooks[i].deletions == 0 then HandleOf(r.hk, r.hooks[i].kind) == i + 1 else r.hooks[i].deletions == 1)
    && (forall kind :: HandleOf(r.hk, kind) != 0 ==> Holds(r, kind, HandleOf(r.hk, kind)))
  }

  predicate Holds(r: Run, kind: HookKind, h: nat) {
    1 <= h <= |r.hooks| && r.hooks[h - 1].deletions == 0 && Field(r.hooks[h - 1].kind) == Field(kind)
  }

  lemma {:induction false} InstallTidy(r: Run, kind: HookKind, where: Where)
    requires Tidy(r) && HandleOf(r.hk, kind) == 0
    ensures Tidy(Install(r, kind, where))
  {
    hide HandleOf, SetHandle, Field;
    var s := Install(r, kind, where);
    forall i | 0 <= i < |s.hooks|
      ensures if s.hooks[i].deletions == 0 then HandleOf(s.hk, s.hooks[i].kind) == i + 1 else s.hooks[i].deletions == 1
    {
      HandleAfterSet(r.hk, kind, s.hooks[i].kind, |r.hooks| + 1);
    }
    forall k | HandleOf(s.hk, k) != 0 ensures Holds(s, k, HandleOf(s.hk, k)) {
      HandleAfterSet(r.hk, kind, k, |r.hooks| + 1);
    }
  }

  lemma {:induction false} RemoveTidy(r: Run, kind: HookKind)
    requires Tidy(r) && HandleOf(r.hk, kind) != 0
    ensures Tidy(Remove(r, kind))
  {
    hide HandleOf, SetHandle, Field;
    var s, h := Remove(r, kind), HandleOf(r.hk, kind);
    forall i | 0 <= i < |s.hooks|
      ensures if s.hooks[i].deletions == 0 then HandleOf(s.hk, s.hooks[i].kind) == i + 1 else s.hooks[i].deletions == 1
    {
      HandleAfterSet(r.hk, kind, s.hooks[i].kind, 0);
    }
    forall k | HandleOf(s.hk, k) != 0 ensures Holds(s, k, HandleOf(s.hk, k)) {
      HandleAfterSet(r.hk, kind, k, 0);
      assert Holds(r, k, HandleOf(r.hk, k)) && Holds(r, kind, h);
    }
  }

  lemma {:induction false} Removed(r: Run, kind: HookKind)
    requires Tidy(r)
    ensures var s := RemoveIfSet(r, kind);
            && Tidy(s) && s == r.(hooks := s.hooks, hk := s.hk) && |s.hooks| == |r.hooks|
            && (HandleOf(r.hk, kind) != 0 ==> s == Remove(r, kind))
    ensures forall k :: HandleOf(RemoveIfSet(r, kind).hk, k) == if Field(kind) == Field(k) then 0 else HandleOf(r.hk, k)
  {
    hide HandleOf, SetHandle, Field;
    forall k ensures HandleOf(RemoveIfSet(r, kind).hk, k) == if Field(kind) == Field(k) then 0 else HandleOf(r.hk, k) {
      HandleAfterSet(r.hk, kind, k, 0);
    }
    if HandleOf(r.hk, kind) != 0 {
      RemoveTidy(r, kind);
    }
  }

  // ----- closing a run -----

  function DeleteHooks(r: Run, kinds: seq<HookKind>): Run
    decreases |kinds|
  {
    if kinds == [] then r else DeleteHooks(RemoveIfSet(r, kinds[0]), kinds[1..])
  }

  /** The order of uc_delete_all_hooks; one kind stands for those that share a handle. */
  const DELETION_ORDER := [CountInstructions, OnEndAddress, FaultItAddress, FaultItInstruction, RevertInstruction,
                           OnHardStop, OnInterrupt, OnMemoryInvalid, OnInstructionInvalid, OnSkip, OnStartAddress,
                           OnStartFaults, OnStopFaults, Equivalent]

  /** The caller deletes its own hook, then my_uc_close has all the others deleted. */
  function Close(r: Run): Run {
    DeleteHooks(Remove(r, Placebo), DELETION_ORDER)
  }

  lemma {:induction false} DeletesHooks(r: Run, kinds: seq<HookKind>)
    requires Tidy(r)
    ensures var s := DeleteHooks(r, kinds);
            Tidy(s) && s == r.(hooks := s.hooks, hk := s.hk) && |s.hooks| == |r.hooks|
    ensures forall k :: HandleOf(r.hk, k) == 0 || (exists i :: 0 <= i < |kinds| && Field(kinds[i]) == Field(k)) ==>
              HandleOf(DeleteHooks(r, kinds).hk, k) == 0
    decreases |kinds|
  {
    hide HandleOf, SetHandle, Field, Tidy, RemoveIfSet;
    if kinds != [] {
      var r1 := RemoveIfSet(r, kinds[0]);
      Removed(r, kinds[0]);
      DeletesHooks(r1, kinds[1..]);
      forall k, i | 0 <= i < |kinds| && Field(kinds[i]) == Field(k) ensures HandleOf(DeleteHooks(r, kinds).hk, k) == 0 {
        if i > 0 {
          assert kinds[1..][i - 1] == kinds[i];
        }
      }
    }
  }

  lemma {:induction false} EveryFieldIsDeleted(kind: HookKind)
    ensures Field(kind) == Field(Placebo) ||
            exists i :: 0 <= i < |DELETION_ORDER| && Field(DELETION_ORDER[i]) == Field(kind)
  {
    var at := [6, 7, 8, 1, 10, 9, 11, 12, 5, 0, 0, 2, 3, 4, 13][Field(kind)];
    assert Field(kind) != Field(Placebo) ==> Field(DELETION_ORDER[at]) == Field(kind);
  }

  lemma {:induction false} AllZero(hk: Handles)
    requires forall k :: HandleOf(hk, k) == 0
    ensures hk == NO_HANDLES
  {
    assert HandleOf(hk, OnInterrupt) == HandleOf(hk, OnMemoryInvalid) == HandleOf(hk, OnInstructionInvalid) == 0;
    assert HandleOf(hk, OnEndAddress) == HandleOf(hk, OnStartAddress) == HandleOf(hk, OnSkip)
           == HandleOf(hk, OnStartFaults) == 0;
    assert HandleOf(hk, OnStopFaults) == HandleOf(hk, OnHardStop) == HandleOf(hk, Placebo)
           == HandleOf(hk, CountInstructions) == 0;
    assert HandleOf(hk, FaultItAddress) == HandleOf(hk, FaultItIP) == HandleOf(hk, RepeatIP)
           == HandleOf(hk, Equivalent) == 0;
  }

  lemma {:induction false} NoneIsLive(c: Run)
    requires Tidy(c) && c.hk == NO_HANDLES
    ensures forall i :: 0 <= i < |c.hooks| ==> c.hooks[i].deletions == 1
  {
  }

  lemma {:induction false} ClosesTidily(r: Run)
    requires Tidy(r) && HandleOf(r.hk, Placebo) != 0
    ensures var c := Close(r);
            Tidy(c) && c.hk == NO_HANDLES && |c.hooks| == |r.hooks| && c == r.(hooks := c.hooks, hk := c.hk)
  {
    hide HandleOf, SetHandle, Field, RemoveIfSet, Remove, DeleteHooks, DELETION_ORDER, NO_HANDLES, Tidy;
    Removed(r, Placebo);
    var r1 := Remove(r, Placebo);
    DeletesHooks(r1, DELETION_ORDER);
    forall k ensures HandleOf(Close(r).hk, k) == 0 {
      EveryFieldIsDeleted(k);
    }
    AllZero(Close(r).hk);
  }

  /** Closing a tidy run deletes every hook exactly once, zeroes every handle, and changes nothing else. */
  lemma {:induction false} CloseDeletesAll(r: Run)
    requires Tidy(r) && r.hk.caller != 0
    ensures var c := Close(r);
            && c.hk == NO_HANDLES && |c.hooks| == |r.hooks|
            && (forall i :: 0 <= i < |c.hooks| ==> c.hooks[i].deletions == 1)
            && c == r.(hooks := c.hooks, hk := c.hk)
  {
    hide Close, Tidy;
    ClosesTidily(r);
    NoneIsLive(Close(r));
  }

  // ----- a handle that is overwritten -----

  /** The hook is live and no handle holds it: nothing can delete it any more. */
  ghost predicate Leaked(r: Run, i: nat) {
    i < |r.hooks| && r.hooks[i].deletions == 0 && forall kind :: HandleOf(r.hk, kind) != i + 1
  }

  lemma {:induction false} StaysLeaked(r: Run, i: nat, kind: HookKind)
    requires Leaked(r, i)
    ensures Leaked(Remove(r, kind), i) && Leaked(RemoveIfSet(r, kind), i)
  {
    hide HandleOf, SetHandle, Field;
    forall k ensures HandleOf(SetHandle(r.hk, kind, 0), k) != i + 1 {
      HandleAfterSet(r.hk, kind, k, 0);
    }
  }

  lemma {:induction false} LeaksThroughDeletes(r: Run, i: nat, kinds: seq<HookKind>)
    requires Leaked(r, i)
    ensures Leaked(DeleteHooks(r, kinds), i)
    decreases |kinds|
  {
    hide Leaked, RemoveIfSet;
    if kinds != [] {
      StaysLeaked(r, i, kinds[0]);
      LeaksThroughDeletes(RemoveIfSet(r, kinds[0]), i, kinds[1..]);
    }
  }

  /** Registering a hook whose handle still holds another loses that one: closing the run does not
      delete it.  With a free handle the run stays tidy, so closing it deletes every hook. */
  lemma {:induction false} OverwritingLeaks(r: Run, kind: HookKind, where: Where)
    requires Tidy(r) && r.hk.caller != 0 && HandleOf(r.hk, kind) != r.hk.caller
    ensures var c := Close(Install(r, kind, where));
            HandleOf(r.hk, kind) == 0 <==> forall i :: 0 <= i < |c.hooks| ==> c.hooks[i].deletions == 1
  {
    hide Close, HandleOf, SetHandle, Field;
    var s, h := Install(r, kind, where), HandleOf(r.hk, kind);
    if h == 0 {
      InstallTidy(r, kind, where);
      CallerStays(r, kind, where);
      CloseDeletesAll(s);
    } else {
      forall k ensures HandleOf(s.hk, k) != h {
        HandleAfterSet(r.hk, kind, k, |r.hooks| + 1);
        assert HandleOf(r.hk, k) != 0 ==> Holds(r, k, HandleOf(r.hk, k));
        assert Holds(r, kind, h);
        HandleAfterSet(r.hk, k, r.hooks[h - 1].kind, 0);
      }
      assert Leaked(s, h - 1);
      CloseLeaks(s, h - 1);
    }
  }

  lemma {:induction false} CallerStays(r: Run, kind: HookKind, where: Where)
    requires r.hk.caller != 0
    ensures Install(r, kind, where).hk.caller != 0
  {
  }

  lemma {:induction false} CloseLeaks(r: Run, i: nat)
    requires Leaked(r, i)
    ensures i < |Close(r).hooks| && Close(r).hooks[i].deletions == 0
  {
    hide Remove, DeleteHooks;
    StaysLeaked(r, i, Placebo);
    LeaksThroughDeletes(Remove(r, Placebo), i, DELETION_ORDER);
  }

  // ----- runs stay tidy -----

  ghost predicate TidyRun(r: Run) {
    Tidy(r) && r.hk.caller != 0
  }

  /** s has r's hooks and handles, or all but one deleted hook of the kind. */
  predicate AtMostDeletes(r: Run, s: Run, kind: HookKind) {
    (s.hooks == r.hooks && s.hk == r.hk) || (s.hooks == Remove(r, kind).hooks && s.hk == Remove(r, kind).hk)
  }

  lemma {:induction false} TidyAfter(r: Run, s: Run, kind: HookKind)
    requires TidyRun(r) && AtMostDeletes(r, s, kind) && HandleOf(r.hk, kind) != 0 && !kind.Placebo? && !kind.Stats?
    ensures TidyRun(s)
  {
    hide Tidy, Holds, Field;
    RemoveTidy(r, kind);
    HandleAfterSet(r.hk, kind, Placebo, 0);
    assert HandleOf(r.hk, Placebo) == r.hk.caller;
    SameTidy(r, s);
    SameTidy(Remove(r, kind), s);
  }

  lemma {:induction false} SameTidy(r: Run, s: Run)
    ensures r.hooks == s.hooks && r.hk == s.hk ==> Tidy(r) == Tidy(s)
  {
    hide HandleOf, Field;
    if r.hooks == s.hooks && r.hk == s.hk {
      assert forall k, h :: Holds(r, k, h) == Holds(s, k, h);
    }
  }

  lemma {:induction false} RemoveDepends(r: Run, s: Run, kind: HookKind)
    requires s.hooks == r.hooks && s.hk == r.hk
    ensures Remove(s, kind).hooks == Remove(r, kind).hooks && Remove(s, kind).hk == Remove(r, kind).hk
    ensures Remove(s, kind) == s.(hooks := Remove(s, kind).hooks, hk := Remove(s, kind).hk)
  {
    hide SetHandle, HandleOf;
  }

  lemma {:induction false} RegisterLifespanDeletes(e: Env, r: Run, at: Site)
    ensures AtMostDeletes(r, RevertRegisterHook(e, r, at), RevertRegister)
    ensures AtMostDeletes(r, RepeatRegisterHook(e, r, at), RepeatRegister)
  {
    hide WritePc, FaultReg, LifespanNotStarted, Remove;
    RemoveDepends(r, WriteRegister(e, CountDown(r), r.rule.number, r.rule.lifespan.originalValue), RevertRegister);
    RemoveDepends(r, DoTheRegisterFault(e, CountDown(r), at), RepeatRegister);
  }

  lemma {:induction false} InstructionLifespanDeletes(e: Env, r: Run, at: Site)
    requires FaultedHooks(e, r.hooks, r.hk)
    ensures AtMostDeletes(r, RevertInstructionHook(e, r, at), RevertInstruction)
    ensures AtMostDeletes(r, RepeatInstructionHook(e, r, at), RepeatInstruction)
  {
    NoFaultHandle(e, r);
    hide WriteMem, ReadMem, FaultBytes, Remove, HandleOf, FaultedHooks;
    var r1 := ToolWrites(e, CountDown(r), ThumbCheck(e.p, LineAt(r.lines, r.rule.instruction).address),
                         r.rule.lifespan.originalBytes);
    RemoveDepends(r, r1, RevertInstruction);
    RemoveDepends(r, CountDown(DoTheInstructionFault(e, r, at)), RepeatInstruction);
  }

  lemma {:induction false} NoFaultHandle(e: Env, r: Run)
    requires FaultedHooks(e, r.hooks, r.hk)
    ensures HandleOf(Remove(r, RevertInstruction).hk, FaultItInstruction) == 0
    ensures HandleOf(r.hk, FaultItInstruction) == 0
  {
    hide LaterHooks;
  }

  lemma {:induction false} OtherLaterDeletes(e: Env, r: Run, at: Site)
    ensures AtMostDeletes(r, RepeatIPHook(e, r, at), RepeatIP)
    ensures AtMostDeletes(r, CheckEquivalent(e, r), Equivalent)
  {
    hide WritePc, StateHashes, Record, Known, Remove;
    var r1 := DoTheIPFault(e, CountDown(r), at);
    RemoveDepends(r, r1.(trail := r1.trail.(drift := r1.trail.drift + 1)), RepeatIP);
    RemoveDepends(r, RecordState(e, r), Equivalent);
  }

  lemma {:induction false} TidyLaterVisit(e: Env, r: Run, at: Site, i: nat)
    requires TidyRun(r) && HasFaulted(e, r) && 12 <= i < |r.hooks|
    ensures TidyRun(Visit(e, r, at, i))
  {
    hide Field, Holds, RevertRegisterHook, RepeatRegisterHook, RevertInstructionHook, RepeatInstructionHook,
         RepeatIPHook, CheckEquivalent, AtMostDeletes, SetupHooks;
    if IsCalled(r, at, i) {
      RegisterLifespanDeletes(e, r, at);
      InstructionLifespanDeletes(e, r, at);
      OtherLaterDeletes(e, r, at);
      var kind := r.hooks[i].kind;
      assert IsLater(kind) && HandleOf(r.hk, kind) == i + 1;
      hide Tidy, HasFaulted, HandleOf;
      TidyAfter(r, Visit(e, r, at, i), kind);
    }
  }

  lemma {:induction false} TidyLaterDispatch(e: Env, r: Run, at: Site, i: nat)
    requires TidyRun(r) && HasFaulted(e, r) && r.control.Going? && !r.restart && 12 <= i <= |r.hooks|
    ensures TidyRun(Dispatch(e, r, at, i))
    decreases |r.hooks| - i
  {
    hide HasFaulted, Visit, TidyRun;
    if i < |r.hooks| {
      OneVisit(e, r, at, i);
      LaterVisit(e, r, at, i);
      TidyLaterVisit(e, r, at, i);
      var s := Visit(e, r, at, i);
      if s.control.Going? {
        TidyLaterDispatch(e, s, at, i + 1);
      } else {
        EndsThere(e, s, at, i + 1);
      }
    }
  }

  lemma {:induction false} TidyEnds(e: Env, r: Run, at: Site, b: bool)
    requires TidyRun(r)
    ensures TidyRun(AtEndAddress(r)) && TidyRun(AtHardStop(e, r)) && TidyRun(AtSkip(e, r, at))
    ensures TidyRun(r.(inRange := b)) && TidyRun(Count(r.(inRange := b)))
    ensures TidyRun(Finish(e, r)) && TidyRun(AfterSegment(e, r))
  {
    TidyStops(e, r);
    hide Tidy, HandleOf, WritePc, AtEndAddress, AtHardStop, Finish, AfterSegment;
    HooksStay(e, r);
    SameTidy(r, AtSkip(e, r, at));
    SameTidy(r, r.(inRange := b));
    SameTidy(r, Count(r.(inRange := b)));
    SameTidy(r, Finish(e, r));
    SameTidy(r, AfterSegment(e, r));
  }

  lemma {:induction false} HooksStay(e: Env, r: Run)
    ensures Finish(e, r).hooks == AfterSegment(e, r).hooks == r.hooks
    ensures Finish(e, r).hk == AfterSegment(e, r).hk == r.hk
  {
    hide WritePc;
  }

  lemma {:induction false} TidyStops(e: Env, r: Run)
    requires TidyRun(r)
    ensures TidyRun(AtEndAddress(r)) && TidyRun(AtHardStop(e, r))
  {
    hide Tidy, HandleOf, SetHandle, Field, RemoveIfSet;
    var state := if r.state.Faulted? then EndAddressAndFaulted
                 else if r.state.EquivalentRs? then EquivalentRs else EndAddress;
    TidyCountGone(r.(state := state));
    TidyCountGone(r.(state := HardStopped));
    SameTidy(r, r.(state := state));
    SameTidy(r, r.(state := HardStopped));
    SameTidy(RemoveIfSet(r.(state := state), CountInstructions), AtEndAddress(r));
    SameTidy(RemoveIfSet(r.(state := HardStopped), CountInstructions), AtHardStop(e, r));
  }

  lemma {:induction false} TidyCountGone(r: Run)
    ensures TidyRun(r) ==> TidyRun(RemoveIfSet(r, CountInstructions))
  {
    hide Tidy, Field;
    if TidyRun(r) {
      Removed(r, CountInstructions);
    }
  }

  /** No restart is left pending by a run that ended. */
  ghost predicate NonePending(r: Run) {
    TidyRun(r) && (r.phase.Ended? ==> !r.restart || r.control.Aborted?)
  }

  lemma {:induction false} TidyStep(e: Env, r: Run, budget: nat)
    requires NonePending(r) && (GoesOn(e, r, budget) || IsOver(r, budget))
    ensures NonePending(Step(e, r))
  {
    hide Dispatch, HasFaulted, AtEndAddress, AtHardStop, AtSkip, Count, Finish, AfterSegment, FlagAt, TidyRun;
    match r.phase
    case Running => TidyDispatch(e, r, budget);
    case Stopped => TidyEnds(e, r, SiteOf(e.p, r.cpu), r.inRange); NotErrored(e, r, budget);
    case Ended =>
  }

  lemma {:induction false} NotErrored(e: Env, r: Run, budget: nat)
    requires r.phase.Stopped? && (GoesOn(e, r, budget) || IsOver(r, budget))
    ensures AfterSegment(e, r).phase.Ended? ==> !AfterSegment(e, r).restart
  {
    hide FaultedHooks;
  }

  lemma {:induction false} TidyDispatch(e: Env, r: Run, budget: nat)
    requires TidyRun(r) && GoesOn(e, r, budget) && r.phase.Running?
    ensures NonePending(Step(e, r))
  {
    hide Dispatch, HasFaulted, AtEndAddress, AtHardStop, AtSkip, Count, Finish, FlagAt, TidyRun;
    var at := SiteOf(e.p, r.cpu);
    var b := FlagAt(e, r.inRange, at.address);
    var r1 := r.(inRange := b);
    FaultedPrefix(e, r, at);
    TidyEnds(e, r, at, b);
    TidyEnds(e, r1, at, b);
    if at.address != e.p.codeEnd && at.address !in e.p.skips && at.address !in e.p.hardStops {
      CountingKeeps(e, r, b);
      CountKeepsMarks(r1);
      Behind12(e, Count(r1));
      LaterDispatch(e, Count(r1), at, 12);
      TidyLaterDispatch(e, Count(r1), at, 12);
    }
    var d := Dispatch(e, r, at, 0);
    TidyEnds(e, d, at, b);
    PhaseStays(e, r, at);
    PhaseStays(e, r1, at);
    AbortedOnly(e, d);
  }

  lemma {:induction false} CountKeepsMarks(r: Run)
    ensures Count(r).control == r.control && Count(r).restart == r.restart && Count(r).hooks == r.hooks
  {
  }

  lemma {:induction false} PhaseStays(e: Env, r: Run, at: Site)
    ensures AtEndAddress(r).phase == AtHardStop(e, r).phase == AtSkip(e, r, at).phase == Count(r).phase == r.phase
  {
    hide SetHandle, HandleOf, WritePc;
  }

  lemma {:induction false} AbortedOnly(e: Env, d: Run)
    requires !d.phase.Ended?
    ensures Finish(e, d).phase.Ended? ==> Finish(e, d).control.Aborted?
  {
  }

  // ----- setting a run up -----

  /** The new engine of a run. */
  function NewEngine(e: Env, r: Run): Run {
    r.(cpu := e.p.image, hooks := [], control := Going, phase := Running, trail := Trail(0, 0, 0, [], []))
  }

  function InstallThree(r: Run, a: HookKind, wa: Where, b: HookKind, wb: Where, c: HookKind, wc: Where): Run {
    Install(Install(Install(r, a, wa), b, wb), c, wc)
  }

  /** The hooks of my_uc_engine_setup. */
  function SetupInstalled(e: Env, r: Run): Run {
    var r1 := InstallThree(r, OnInterrupt, Nowhere, OnMemoryInvalid, Nowhere, OnInstructionInvalid, Nowhere);
    var r2 := InstallThree(r1, OnEndAddress, At({e.p.codeEnd}), OnStartAddress, At({ThumbCheck(e.p, e.p.codeStart)}),
                           OnSkip, At(e.p.skips.Keys));
    InstallThree(r2, OnStartFaults, At({e.p.faultStart}), OnStopFaults, At({e.p.faultEnd}), OnHardStop,
                 At(e.p.hardStops))
  }

  /** get_on_with_it up to my_uc_engine_start, on the current_run_state another run has left: a new
      engine with its hooks, current_run_state_reset, and the caller's own hook. */
  function SetUp(e: Env, left: Run, rule: FaultRule, classes: seq<Class<FaultRule>>): Run {
    var r := SetupInstalled(e, NewEngine(e, left.(rule := rule, classes := classes))).(count := 0, inRange := false,
                                                                                       state := NoneRs);
    Install(r, if e.mode.StatsMode? then Stats else Placebo, Everywhere).(cpu := WritePc(e.p, e.p.image, e.p.codeStart))
  }

  lemma {:induction false} ThreeInstalled(r: Run, a: HookKind, wa: Where, b: HookKind, wb: Where, c: HookKind,
                                          wc: Where)
    ensures InstallThree(r, a, wa, b, wb, c, wc)
         == r.(hooks := r.hooks + [Hook(a, wa, 0), Hook(b, wb, 0), Hook(c, wc, 0)],
               hk := SetHandle(SetHandle(SetHandle(r.hk, a, |r.hooks| + 1), b, |r.hooks| + 2), c, |r.hooks| + 3))
  {
    hide SetHandle;
  }

  /** On a tidy leftover, setting up gives the run every theorem starts from, but for the value of a
      restart address that is not in use. */
  lemma {:induction false} SetUpIsLaunched(e: Env, left: Run, rule: FaultRule, classes: seq<Class<FaultRule>>)
    requires left.hk == NO_HANDLES && !left.restart
    ensures SetUp(e, left, rule, classes)
         == Launched(e, rule, left.lines, classes).(restartAddress := left.restartAddress)
  {
    hide WritePc, ThumbCheck, InstallThree;
    var r := NewEngine(e, left.(rule := rule, classes := classes));
    ThreeInstalled(r, OnInterrupt, Nowhere, OnMemoryInvalid, Nowhere, OnInstructionInvalid, Nowhere);
    var r1 := InstallThree(r, OnInterrupt, Nowhere, OnMemoryInvalid, Nowhere, OnInstructionInvalid, Nowhere);
    ThreeInstalled(r1, OnEndAddress, At({e.p.codeEnd}), OnStartAddress, At({ThumbCheck(e.p, e.p.codeStart)}),
                   OnSkip, At(e.p.skips.Keys));
    var r2 := InstallThree(r1, OnEndAddress, At({e.p.codeEnd}), OnStartAddress, At({ThumbCheck(e.p, e.p.codeStart)}),
                           OnSkip, At(e.p.skips.Keys));
    ThreeInstalled(r2, OnStartFaults, At({e.p.faultStart}), OnStopFaults, At({e.p.faultEnd}), OnHardStop,
                   At(e.p.hardStops));
  }

  lemma {:induction false} LaunchedIsTidy(e: Env, rule: FaultRule, lines: seq<Line>, classes: seq<Class<FaultRule>>)
    ensures TidyRun(Launched(e, rule, lines, classes))
  {
    var r := Launched(e, rule, lines, classes);
    assert forall i :: 0 <= i < |r.hooks| ==> r.hooks[i].deletions == 0 && HandleOf(r.hk, r.hooks[i].kind) == i + 1;
    hide HandleOf, SetupHooks, Holds;
    forall kind | HandleOf(r.hk, kind) != 0 ensures Holds(r, kind, HandleOf(r.hk, kind)) {
    }
  }

  // ----- the fault itself -----

  lemma {:induction false} InstallsTidily(r: Run, kind: HookKind, where: Where)
    requires TidyRun(r) && HandleOf(r.hk, kind) == 0
    ensures TidyRun(Install(r, kind, where))
  {
    hide Tidy, HandleOf, Field;
    InstallTidy(r, kind, where);
    CallerStays(r, kind, where);
  }

  lemma {:induction false} RemovesTidily(r: Run, kind: HookKind)
    requires TidyRun(r) && !kind.Placebo? && !kind.Stats?
    ensures TidyRun(RemoveIfSet(r, kind))
  {
    hide Tidy, Holds, Field;
    if HandleOf(r.hk, kind) != 0 {
      TidyAfter(r, Remove(r, kind), kind);
    }
  }

  lemma {:induction false} CarriesOver(r: Run, s: Run)
    requires TidyRun(r) && s.hooks == r.hooks && s.hk == r.hk
    ensures TidyRun(s)
  {
    hide Tidy;
    SameTidy(r, s);
  }

  /** The run at its primary hook. */
  lemma {:induction false} AtTheHookIsTidy(e: Env, o: Origin, w: Run, at: Site)
    requires AtTheHook(e, o, w, at)
    ensures TidyRun(w)
  {
    var a: nat :| w.hooks == SetupHooks(e) + [Hook(PrimaryKind(w.rule.target), At({a}), 0)] + [COUNT_HOOK];
    var r := Launched(e, w.rule, w.lines, w.classes);
    LaunchedIsTidy(e, w.rule, w.lines, w.classes);
    assert HandleOf(r.hk, PrimaryKind(w.rule.target)) == 0;
    var r1 := Install(r, PrimaryKind(w.rule.target), At({a}));
    assert HandleOf(r1.hk, CountInstructions) == 0;
    var r2 := Install(r1, CountInstructions, Everywhere);
    assert r2.hooks == w.hooks && r2.hk == w.hk;
    hide TidyRun, Install, HandleOf, SetupHooks;
    InstallsTidily(r, PrimaryKind(w.rule.target), At({a}));
    InstallsTidily(r1, CountInstructions, Everywhere);
    CarriesOver(r2, w);
  }

  lemma {:induction false} LifespanIsTidy(r: Run, revert: HookKind, repeat_: HookKind, where: Where)
    requires TidyRun(r) && HandleOf(r.hk, revert) == HandleOf(r.hk, repeat_) == 0
    ensures TidyRun(AddLifespan(r, revert, repeat_, where))
  {
    hide TidyRun, Install, HandleOf;
    CarriesOver(r, StartLifespan(r));
    InstallsTidily(StartLifespan(r), revert, Everywhere);
    InstallsTidily(StartLifespan(r), repeat_, where);
  }

  lemma {:induction false} EquivalentIsTidy(e: Env, r: Run)
    requires TidyRun(r) && r.hk.equivalent == 0
    ensures TidyRun(AddEquivalent(e, r)) && AddEquivalent(e, r).hk.lifespan == r.hk.lifespan
  {
    assert HandleOf(r.hk, Equivalent) == 0;
    hide TidyRun;
    InstallsTidily(r, Equivalent, Everywhere);
  }

  lemma {:induction false} AfterInstructionFault(e: Env, r: Run, at: Site)
    requires TidyRun(r) && r.hk.lifespan == r.hk.equivalent == 0
    ensures TidyRun(RemoveIfSet(RestartAt(AddLifespan(AddEquivalent(e, r), RevertInstruction, RepeatInstruction,
                                                      At({at.address})),
                                          ThumbAddress(e.p, at.address)), FaultItInstruction))
  {
    hide TidyRun, AddEquivalent, AddLifespan, RemoveIfSet, HandleOf;
    EquivalentIsTidy(e, r);
    var r2 := AddEquivalent(e, r);
    HandleKinds(r2.hk, RevertInstruction);
    HandleKinds(r2.hk, RepeatInstruction);
    LifespanIsTidy(r2, RevertInstruction, RepeatInstruction, At({at.address}));
    var r3 := AddLifespan(r2, RevertInstruction, RepeatInstruction, At({at.address}));
    CarriesOver(r3, RestartAt(r3, ThumbAddress(e.p, at.address)));
    RemovesTidily(RestartAt(r3, ThumbAddress(e.p, at.address)), FaultItInstruction);
  }

  lemma {:induction false} AfterIPFault(e: Env, r: Run, at: Site)
    requires TidyRun(r) && r.hk.lifespan == r.hk.equivalent == 0
    ensures var r2 := AddEquivalent(e, r);
            var r3 := AddSkipLifespan(r2, at);
            TidyRun(RemoveIfSet(r3, FaultItIP))
  {
    hide TidyRun, AddEquivalent, Install, RemoveIfSet, HandleOf;
    EquivalentIsTidy(e, r);
    var r2 := AddEquivalent(e, r);
    CarriesOver(r2, StartLifespan(r2));
    HandleKinds(StartLifespan(r2).hk, RepeatIP);
    InstallsTidily(StartLifespan(r2), RepeatIP, At({at.address}));
    RemovesTidily(r2, FaultItIP);
    RemovesTidily(StartLifespan(r2), FaultItIP);
    RemovesTidily(Install(StartLifespan(r2), RepeatIP, At({at.address})), FaultItIP);
  }

  lemma {:induction false} InstructionIsTidy(e: Env, o: Origin, w: Run, at: Site)
    requires AtTheHook(e, o, w, at) && w.rule.target.Instruction?
    ensures TidyRun(FaultInstructionHook(e, w, at))
  {
    AtTheHookIsTidy(e, o, w, at);
    FreshHooks(e, o, w, at);
    InstructionFaultMade(e, w, at);
    hide TidyRun, AddEquivalent, AddLifespan, RemoveIfSet, DoTheInstructionFault, Fire, LaterHooks, SetupHooks,
         AtTheHook;
    var r1 := DoTheInstructionFault(e, w, at);
    CarriesOver(w, r1);
    CarriesOver(w, Fire(r1, at));
    AfterInstructionFault(e, Fire(r1, at), at);
  }

  lemma {:induction false} IPIsTidy(e: Env, o: Origin, w: Run, at: Site)
    requires AtTheHook(e, o, w, at) && w.rule.target.InstructionPointer?
    ensures TidyRun(FaultIPHook(e, w, at))
  {
    AtTheHookIsTidy(e, o, w, at);
    FreshHooks(e, o, w, at);
    hide TidyRun, AddEquivalent, Install, RemoveIfSet, DoTheIPFault, Fire, LaterHooks, SetupHooks, AtTheHook;
    var r1 := DoTheIPFault(e, w, at);
    CarriesOver(w, r1);
    CarriesOver(w, Fire(r1, at));
    AfterIPFault(e, Fire(r1, at), at);
  }

  lemma {:induction false} AddressIsTidy(e: Env, o: Origin, w: Run, at: Site)
    requires AtTheHook(e, o, w, at) && w.rule.target.Register?
    ensures TidyRun(Count(FaultAddressHook(w, at)))
  {
    AtTheHookIsTidy(e, o, w, at);
    FreshHooks(e, o, w, at);
    hide TidyRun, Install, RemoveIfSet, LaterHooks, SetupHooks;
    var r1 := w.(rule := w.rule.(faultedAddress := at.address));
    CarriesOver(w, r1);
    assert HandleOf(r1.hk, FaultItRegister) == 0;
    InstallsTidily(r1, FaultItRegister, Everywhere);
    RemovesTidily(Install(r1, FaultItRegister, Everywhere), FaultItAddress);
    CarriesOver(FaultAddressHook(w, at), Count(FaultAddressHook(w, at)));
  }

  lemma {:induction false} AfterRegisterFault(e: Env, r: Run)
    requires TidyRun(r) && r.hk.lifespan == 0
    ensures var r2 := AddLifespan(r, RevertRegister, RepeatRegister, Everywhere).(state := Faulted);
            && TidyRun(RemoveIfSet(r2, FaultItRegister)) && TidyRun(RemoveIfSet(RecordState(e, r2), FaultItRegister))
            && TidyRun(Stop(RecordState(e, r2).(state := EquivalentRs)))
  {
    HandleKinds(r.hk, RevertRegister);
    HandleKinds(r.hk, RepeatRegister);
    hide TidyRun, AddLifespan, RemoveIfSet, StateHashes, Record, HandleOf;
    LifespanIsTidy(r, RevertRegister, RepeatRegister, Everywhere);
    var r1 := AddLifespan(r, RevertRegister, RepeatRegister, Everywhere);
    var r2 := r1.(state := Faulted);
    CarriesOver(r1, r2);
    CarriesOver(r1, RecordState(e, r2));
    CarriesOver(r1, Stop(RecordState(e, r2).(state := EquivalentRs)));
    RemovesTidily(r2, FaultItRegister);
    RemovesTidily(RecordState(e, r2), FaultItRegister);
  }

  lemma {:induction false} RegisterIsTidy(e: Env, v: Run, at: Site)
    requires TidyRun(v) && v.hk.lifespan == 0 && v.rule.target.Register? && Accepts(v.rule)
    ensures TidyRun(FaultRegisterHook(e, v, at))
  {
    RegisterFaultMade(e, v, at);
    hide TidyRun, AddLifespan, RemoveIfSet, DoTheRegisterFault, Fire, RecordState, IsEquivalent, Accepts, Stop;
    var r := DoTheRegisterFault(e, v, at);
    CarriesOver(v, r);
    CarriesOver(v, Fire(r, at));
    AfterRegisterFault(e, Fire(r, at));
  }

  // ----- the line table is only read -----

  lemma {:induction false} OpsKeepLines()
    ensures forall r: Run, kind :: Remove(r, kind).lines == r.lines && RemoveIfSet(r, kind).lines == r.lines
    ensures forall r: Run, kind, where :: Install(r, kind, where).lines == r.lines
  {
    hide SetHandle, HandleOf;
  }

  lemma {:induction false} FaultsKeepLines(e: Env, r: Run, at: Site)
    ensures DoTheRegisterFault(e, r, at).lines == DoTheInstructionFault(e, r, at).lines
            == DoTheIPFault(e, r, at).lines == r.lines
    ensures DoTheRegisterFault(e, r, at).hooks == r.hooks
  {
    hide WritePc, WriteMem, ReadMem, FaultBytes, FaultReg;
  }

  lemma {:induction false} RegisterHooksKeepLines(e: Env, r: Run, at: Site)
    ensures FaultAddressHook(r, at).lines == FaultRegisterHook(e, r, at).lines == r.lines
  {
    hide Install, RemoveIfSet, DoTheRegisterFault, StateHashes, Record, Known;
    OpsKeepLines();
    FaultsKeepLines(e, r, at);
  }

  lemma {:induction false} OtherFaultsKeepLines(e: Env, r: Run, at: Site)
    ensures FaultInstructionHook(e, r, at).lines == FaultIPHook(e, r, at).lines == r.lines
  {
    hide Install, Remove, RemoveIfSet, DoTheInstructionFault, DoTheIPFault;
    OpsKeepLines();
    FaultsKeepLines(e, r, at);
  }

  lemma {:induction false} RegisterLifespansKeepLines(e: Env, r: Run, at: Site)
    ensures RevertRegisterHook(e, r, at).lines == RepeatRegisterHook(e, r, at).lines == r.lines
  {
    hide Remove, DoTheRegisterFault, WritePc, LifespanNotStarted;
    OpsKeepLines();
    FaultsKeepLines(e, CountDown(r), at);
  }

  lemma {:induction false} InstructionLifespansKeepLines(e: Env, r: Run, at: Site)
    ensures RevertInstructionHook(e, r, at).lines == RepeatInstructionHook(e, r, at).lines == r.lines
  {
    hide Remove, RemoveIfSet, DoTheInstructionFault, WriteMem;
    OpsKeepLines();
    FaultsKeepLines(e, r, at);
  }

  lemma {:induction false} LifespansKeepLines(e: Env, r: Run, at: Site)
    ensures RepeatIPHook(e, r, at).lines == CheckEquivalent(e, r).lines == r.lines
  {
    hide Remove, DoTheIPFault, StateHashes, Record, Known;
    OpsKeepLines();
    FaultsKeepLines(e, CountDown(r), at);
  }

  lemma {:induction false} StartKeepsLines(e: Env, r: Run)
    ensures AtStartAddress(e, r).lines == AtStartFaults(r).lines == AtEndAddress(r).lines == AtHardStop(e, r).lines
            == r.lines
  {
    hide Install, Remove, RemoveIfSet, Load, RestoresCheckpoint;
    OpsKeepLines();
  }

  lemma {:induction false} CallKeepsLines(e: Env, r: Run, at: Site, kind: HookKind)
    requires !kind.Stats?
    ensures Call(e, r, at, kind).lines == r.lines
  {
    hide WritePc, AtEndAddress, AtStartAddress, AtStartFaults, AtHardStop, FaultAddressHook, FaultRegisterHook,
         FaultInstructionHook, FaultIPHook, RevertRegisterHook, RepeatRegisterHook, RevertInstructionHook,
         RepeatInstructionHook, RepeatIPHook, CheckEquivalent;
    StartKeepsLines(e, r);
    RegisterHooksKeepLines(e, r, at);
    OtherFaultsKeepLines(e, r, at);
    RegisterLifespansKeepLines(e, r, at);
    InstructionLifespansKeepLines(e, r, at);
    LifespansKeepLines(e, r, at);
  }

  lemma {:induction false} DispatchKeepsLines(e: Env, r: Run, at: Site, i: nat)
    requires NoStats(r.hooks) && i <= |r.hooks|
    ensures Dispatch(e, r, at, i).lines == r.lines && NoStats(Dispatch(e, r, at, i).hooks)
    decreases Pending(r.hooks, i)
  {
    hide Call;
    if i < |r.hooks| && r.control.Going? {
      CallKeepsLines(e, r, at, r.hooks[i].kind);
      VisitNoStats(e, r, at, i);
      VisitDecreases(e, r, at, i);
      DispatchKeepsLines(e, Visit(e, r, at, i), at, i + 1);
    }
  }

  lemma {:induction false} StepKeepsLines(e: Env, r: Run)
    requires NoStats(r.hooks)
    ensures Step(e, r).lines == r.lines && NoStats(Step(e, r).hooks)
  {
    hide Dispatch, NoStats, Finish, AfterSegment;
    DispatchKeepsLines(e, r, SiteOf(e.p, r.cpu), 0);
    FinishKeepsTable(e, Dispatch(e, r, SiteOf(e.p, r.cpu), 0));
    FinishKeepsTable(e, r);
  }

  lemma {:induction false} FinishKeepsTable(e: Env, r: Run)
    ensures Finish(e, r).lines == AfterSegment(e, r).lines == r.lines
    ensures Finish(e, r).hooks == AfterSegment(e, r).hooks == r.hooks
  {
    hide WritePc;
  }

  lemma {:induction false} StepsKeepLines(e: Env, r: Run, n: nat)
    requires NoStats(r.hooks)
    ensures Steps(e, r, n).lines == r.lines && NoStats(Steps(e, r, n).hooks)
  {
    hide Step, NoStats;
    if n > 0 {
      StepsKeepLines(e, r, n - 1);
      StepKeepsLines(e, Steps(e, r, n - 1));
    }
  }

  // ----- a run, and the next one -----

  /** The dispatch that injects leaves the run tidy. */
  lemma {:induction false} InjectionIsTidy(e: Env, o: Origin, w: Run, at: Site)
    requires AtTheHook(e, o, w, at) && |w.hooks| == 12 && IsCalled(w, at, 10)
    requires w.hooks[10].kind == PrimaryKind(w.rule.target)
    ensures var d := Dispatch(e, w, at, 10);
            TidyRun(d) && !d.phase.Ended?
  {
    hide AtTheHook, Dispatch, Visit, FaultInstructionHook, FaultIPHook, FaultAddressHook, FaultRegisterHook,
         SetupHooks, TidyRun, HasFaulted, LaterEffect;
    IsGoing(e, o, w, at);
    match w.rule.target
    case Register => RegisterInjectsTidily(e, o, w, at);
    case Instruction =>
      OneVisit(e, w, at, 10);
      InstructionIsTidy(e, o, w, at);
      InstructionFires(e, o, w, at);
      PrimaryVisit(e, w, at);
      EndsThere(e, FaultInstructionHook(e, w, at), at, 11);
    case InstructionPointer =>
      OneVisit(e, w, at, 10);
      IPIsTidy(e, o, w, at);
      IPFires(e, o, w, at);
      PrimaryVisit(e, w, at);
      EndsThere(e, FaultIPHook(e, w, at), at, 11);
  }

  lemma {:induction false} PrimaryVisit(e: Env, w: Run, at: Site)
    requires |w.hooks| == 12 && IsCalled(w, at, 10)
    ensures w.hooks[10].kind.FaultItInstruction? ==> Visit(e, w, at, 10) == FaultInstructionHook(e, w, at)
    ensures w.hooks[10].kind.FaultItIP? ==> Visit(e, w, at, 10) == FaultIPHook(e, w, at)
  {
    hide FaultInstructionHook, FaultIPHook;
  }

  lemma {:induction false} RegisterInjectsTidily(e: Env, o: Origin, w: Run, at: Site)
    requires AtTheHook(e, o, w, at) && |w.hooks| == 12 && IsCalled(w, at, 10) && w.hooks[10].kind.FaultItAddress?
    requires w.rule.target.Register?
    ensures var d := Dispatch(e, w, at, 10);
            TidyRun(d) && !d.phase.Ended?
  {
    hide AtTheHook, Dispatch, FaultAddressHook, FaultRegisterHook, Count, SetupHooks, TidyRun, HasFaulted,
         AtTheSecondHook, Accepts;
    ReachSecondHook(e, o, w, at);
    var v := Count(FaultAddressHook(w, at));
    AddressIsTidy(e, o, w, at);
    AcceptsStill(e, o, w, v, at);
    RegisterIsTidy(e, v, at);
    RegisterFires(e, o, w, v, at);
    var s := FaultRegisterHook(e, v, at);
    if s.control.Going? {
      LaterDispatch(e, s, at, 13);
      TidyLaterDispatch(e, s, at, 13);
    } else {
      EndsThere(e, s, at, 13);
    }
  }

  lemma {:induction false} AcceptsStill(e: Env, o: Origin, w: Run, v: Run, at: Site)
    requires AtTheHook(e, o, w, at) && AtTheSecondHook(e, o, w, v) && w.rule.target.Register?
    ensures Accepts(v.rule) && v.rule.target.Register? && v.hk.lifespan == 0
  {
  }

  lemma {:induction false} FaultStepIsTidy(e: Env, o: Origin, trace: seq<Cpu>, rule: FaultRule, lines: seq<Line>,
                                           classes: seq<Class<FaultRule>>)
    requires HasItsLine(e, trace, rule, lines) && Accepts(rule)
    requires o.Restored? || !RestoresCheckpoint(e, rule, lines)
    ensures NonePending(Step(e, Before(e, o, trace, rule, lines, classes, FaultDispatch(e, trace, rule, lines))))
  {
    hide Dispatch, Visit, SetupHooks, AtTheHook, RestoresCheckpoint, Finish, Accepts, Fires, TidyRun, IsRecorded;
    FiresThereOnly(e, trace, rule, lines);
    var u := FaultDispatch(e, trace, rule, lines);
    var at, w := SiteOf(e.p, trace[u]), Within(e, o, trace, rule, lines, classes, u);
    ReachWithin(e, o, trace, rule, lines, classes, u);
    AtItsLine(e, o, trace, rule, lines, classes, u);
    OneVisit(e, w, at, 9);
    InjectionIsTidy(e, o, w, at);
    var d := Dispatch(e, w, at, 10);
    TidyEnds(e, d, at, d.inRange);
    AbortedOnly(e, d);
  }

  lemma {:induction false} TidySteps(e: Env, r: Run, budget: nat, n: nat)
    requires NonePending(r) && (GoesOn(e, r, budget) || IsOver(r, budget))
    ensures NonePending(Steps(e, r, n))
  {
    hide NonePending, GoesOn, IsOver, Step;
    if n > 0 {
      TidySteps(e, r, budget, n - 1);
      FaultedSteps(e, r, budget, n - 1);
      TidyStep(e, Steps(e, r, n - 1), budget);
    }
  }

  /** The run, from either kind of start, as it follows its fault. */
  lemma {:induction false} FollowsFault(e: Env, o: Origin, trace: seq<Cpu>, rule: FaultRule, lines: seq<Line>,
                                        classes: seq<Class<FaultRule>>, t: nat, n: nat)
    requires HasItsLine(e, trace, rule, lines) && Accepts(rule) && (o.Restored? || !RestoresCheckpoint(e, rule, lines))
    requires t <= FaultDispatch(e, trace, rule, lines)
    requires Steps(e, Before(e, o, trace, rule, lines, classes, t), n).phase.Ended?
    ensures NonePending(Steps(e, Before(e, o, trace, rule, lines, classes, t), n))
  {
    hide Before, Step, HasInjected, Accepts, IsGolden, IsRecorded, RestoresCheckpoint, Fires, NonePending, GoesOn,
         IsOver;
    FiresThereOnly(e, trace, rule, lines);
    var u := FaultDispatch(e, trace, rule, lines);
    var b := Before(e, o, trace, rule, lines, classes, t);
    InjectsOnce(e, o, trace, rule, lines, classes, t, n);
    if t + n <= u {
      StillRunning(e, o, trace, rule, lines, classes, t + n);
      assert false;
    } else {
      InjectsOnce(e, o, trace, rule, lines, classes, t, u - t);
      var s := Step(e, Before(e, o, trace, rule, lines, classes, u));
      FaultStepIsTidy(e, o, trace, rule, lines, classes);
      LineInjects(e, o, trace, rule, lines, classes, u);
      Injected(e, o, rule, Pc(e.p, trace[u]), s);
      TidySteps(e, s, RestartBudget(o, rule), t + n - u - 1);
      StepsAdd(e, b, u - t + 1, t + n - u - 1);
    }
  }

  lemma {:induction false} Injected(e: Env, o: Origin, rule: FaultRule, address: nat, r: Run)
    requires HasInjected(e, o, rule, address, r)
    ensures GoesOn(e, r, RestartBudget(o, rule)) || IsOver(r, RestartBudget(o, rule))
  {
  }

  lemma {:induction false} StillRunning(e: Env, o: Origin, trace: seq<Cpu>, rule: FaultRule, lines: seq<Line>,
                                        classes: seq<Class<FaultRule>>, t: nat)
    requires t < |trace|
    ensures !Before(e, o, trace, rule, lines, classes, t).phase.Ended?
  {
    hide SetupHooks;
  }

  /** Whichever way the run starts: once it has ended and is closed, every handle is 0, every hook it
      ever registered was deleted exactly once, no restart is pending, and the line table is as it was. */
  lemma {:induction false} RunLeavesNothing(e: Env, trace: seq<Cpu>, rule: FaultRule, lines: seq<Line>,
                                            classes: seq<Class<FaultRule>>, t: nat, n: nat)
    requires HasItsLine(e, trace, rule, lines) && Accepts(rule)
    requires RestoresCheckpoint(e, rule, lines) ==> RestoresAt(e, trace, rule, lines, t)
    requires var r := Steps(e, Launched(e, rule, lines, classes), n);
             r.phase.Ended? && !r.control.Aborted?
    ensures var c := Close(Steps(e, Launched(e, rule, lines, classes), n));
            && c.hk == NO_HANDLES && (forall i :: 0 <= i < |c.hooks| ==> c.hooks[i].deletions == 1)
            && !c.restart && c.lines == lines
  {
    assert !e.mode.StatsMode?;
    hide Before, Steps, HasItsLine, RestoresAt, Accepts, Launched, NO_HANDLES, Tidy, Close;
    var r := Steps(e, Launched(e, rule, lines, classes), n);
    assert NonePending(r) by { EndsTidily(e, trace, rule, lines, classes, t, n); }
    LaunchedNoStats(e, rule, lines, classes);
    StepsKeepLines(e, Launched(e, rule, lines, classes), n);
    CloseDeletesAll(r);
  }

  lemma {:induction false} LaunchedNoStats(e: Env, rule: FaultRule, lines: seq<Line>, classes: seq<Class<FaultRule>>)
    ensures !e.mode.StatsMode? ==> NoStats(Launched(e, rule, lines, classes).hooks)
    ensures Launched(e, rule, lines, classes).lines == lines
  {
  }

  lemma {:induction false} EndsTidily(e: Env, trace: seq<Cpu>, rule: FaultRule, lines: seq<Line>,
                                      classes: seq<Class<FaultRule>>, t: nat, n: nat)
    requires HasItsLine(e, trace, rule, lines) && Accepts(rule)
    requires RestoresCheckpoint(e, rule, lines) ==> RestoresAt(e, trace, rule, lines, t)
    requires Steps(e, Launched(e, rule, lines, classes), n).phase.Ended?
    ensures NonePending(Steps(e, Launched(e, rule, lines, classes), n))
  {
    hide Before, Steps, Accepts, Launched, NonePending, IsRecorded, RestoresAt;
    if RestoresCheckpoint(e, rule, lines) {
      hide HasItsLine, RestoresCheckpoint;
      CheckpointIsBehind(e, trace, rule, lines, t);
      NotEndedSoon(e, trace, rule, lines, classes, t, n);
      FastRun(e, trace, rule, lines, classes, t, n - 2);
      FollowsFault(e, OriginAt(e, trace, t), trace, rule, lines, classes, t, n - 2);
    } else {
      LaunchedIsBefore(e, trace, rule, lines, classes);
      FollowsFault(e, FromStart, trace, rule, lines, classes, 0, n);
    }
  }

  lemma {:induction false} NotEndedSoon(e: Env, trace: seq<Cpu>, rule: FaultRule, lines: seq<Line>,
                                        classes: seq<Class<FaultRule>>, t: nat, n: nat)
    requires HasItsLine(e, trace, rule, lines) && RestoresAt(e, trace, rule, lines, t)
    requires Steps(e, Launched(e, rule, lines, classes), n).phase.Ended?
    ensures n > 2
  {
    RestoresFlagged(e, trace, rule, lines, t);
    hide Steps, Launched, HasItsLine, RestoresAt, FlaggedAt;
    if n <= 2 {
      FirstStepsNumbered(e, trace, rule, lines, classes, t, n);
    }
  }

  /** A restart address is left over from run to run, and read only once it was set. */
  ghost predicate SameButAddress(r: Run, s: Run) {
    r.(restartAddress := 0) == s.(restartAddress := 0)
  }

  /** The next run on the same state goes as a run on a fresh one: whatever ran before, its outcome
      depends on the rule, the class table and the line table only. */
  lemma {:induction false} NextRunIsFresh(e: Env, left: Run, rule: FaultRule, classes: seq<Class<FaultRule>>, n: nat)
    requires left.hk == NO_HANDLES && !left.restart && e.mode.FaultMode?
    ensures var r := Steps(e, SetUp(e, left, rule, classes), n);
            var s := Steps(e, Launched(e, rule, left.lines, classes), n);
            s == r.(restartAddress := s.restartAddress) && (r.restart ==> s.restartAddress == r.restartAddress)
  {
    hide Steps, SetUp, NO_HANDLES;
    SetUpIsLaunched(e, left, rule, classes);
    LaunchedNoStats(e, rule, left.lines, classes);
    var r, s := SetUp(e, left, rule, classes), Launched(e, rule, left.lines, classes);
    TwinSteps(true, e, r, s, n);
  }

  /** A fault run on what another has left: it goes as on a fresh state, and leaves the state as clean
      as it found it, so the next one can follow. */
  lemma {:induction false} RunsAreIndependent(e: Env, left: Run, trace: seq<Cpu>, rule: FaultRule,
                                              classes: seq<Class<FaultRule>>, t: nat, n: nat)
    requires left.hk == NO_HANDLES && !left.restart
    requires HasItsLine(e, trace, rule, left.lines) && Accepts(rule)
    requires RestoresCheckpoint(e, rule, left.lines) ==> RestoresAt(e, trace, rule, left.lines, t)
    requires var r := Steps(e, SetUp(e, left, rule, classes), n);
             r.phase.Ended? && !r.control.Aborted?
    ensures var r := Steps(e, SetUp(e, left, rule, classes), n);
            var c := Close(r);
            && r.(restartAddress := 0) == Steps(e, Launched(e, rule, left.lines, classes), n).(restartAddress := 0)
            && c.hk == NO_HANDLES && (forall i :: 0 <= i < |c.hooks| ==> c.hooks[i].deletions == 1)
            && !c.restart && c.lines == left.lines && c.classes == r.classes
  {
    assert e.mode.FaultMode?;
    hide Steps, SetUp, HasItsLine, Accepts, RestoresAt, RestoresCheckpoint, NO_HANDLES, Tidy, Close, Launched;
    NextRunIsFresh(e, left, rule, classes, n);
    var r, s := Steps(e, SetUp(e, left, rule, classes), n), Steps(e, Launched(e, rule, left.lines, classes), n);
    assert NonePending(s) by { EndsTidily(e, trace, rule, left.lines, classes, t, n); }
    RunLeavesNothing(e, trace, rule, left.lines, classes, t, n);
    LaunchedNoStats(e, rule, left.lines, classes);
    StepsKeepLines(e, Launched(e, rule, left.lines, classes), n);
    SameTidy(s, r);
    CloseDeletesAll(r);
  }

  // ----- all runs of a work item -----

  /** A rule for one of the recorded lines, whose checkpoint, if it has one, can be resumed. */
  ghost predicate CanRun(e: Env, trace: seq<Cpu>, rule: FaultRule, lines: seq<Line>) {
    && HasItsLine(e, trace, rule, lines) && Accepts(rule)
    && (RestoresCheckpoint(e, rule, lines) ==> exists t: nat :: RestoresAt(e, trace, rule, lines, t))
  }

  /** The runs of the rules in order, on one state: each is set up on what the one before has left, with
      the class table the one before has left, goes on to its end, and is closed. */
  ghost function RunAll(e: Env, left: Run, rules: seq<FaultRule>): Run {
    if rules == [] then left
    else
      var last := |rules| - 1;
      Close(Outcome(e, Started(e, RunAll(e, left, rules[..last]), rules[last])))
  }

  function Started(e: Env, left: Run, rule: FaultRule): Run {
    SetUp(e, left, rule, left.classes)
  }

  /** The run of rule k, before it is closed. */
  ghost function RunOf(e: Env, left: Run, rules: seq<FaultRule>, k: nat): Run
    requires k < |rules|
  {
    Outcome(e, Started(e, RunAll(e, left, rules[..k]), rules[k]))
  }

  /** In every run each segment ends, and none ends the process. */
  ghost predicate AllEnd(e: Env, left: Run, rules: seq<FaultRule>) {
    forall k :: 0 <= k < |rules| ==>
      SegmentsEnd(e, Started(e, RunAll(e, left, rules[..k]), rules[k])) && !RunOf(e, left, rules, k).control.Aborted?
  }

  /** A state with nothing left of a run. */
  ghost predicate IsClean(r: Run) {
    r.hk == NO_HANDLES && !r.restart
  }

  lemma {:induction false} PrefixEnds(e: Env, left: Run, rules: seq<FaultRule>, n: nat)
    requires AllEnd(e, left, rules) && n <= |rules|
    ensures AllEnd(e, left, rules[..n])
  {
    hide SegmentsEnd, Outcome, Started, RunAll;
    forall k | 0 <= k < n
      ensures SegmentsEnd(e, Started(e, RunAll(e, left, rules[..n][..k]), rules[..n][k]))
      ensures !RunOf(e, left, rules[..n], k).control.Aborted?
    {
      assert rules[..n][..k] == rules[..k];
      assert !RunOf(e, left, rules, k).control.Aborted?;
    }
  }

  /** However many runs came before: the state is clean, every hook of the last run was deleted once,
      and the line table is as it was. */
  lemma {:induction false} RunsLeaveNothing(e: Env, left: Run, trace: seq<Cpu>, rules: seq<FaultRule>)
    requires IsClean(left) && AllEnd(e, left, rules)
    requires forall rule :: rule in rules ==> CanRun(e, trace, rule, left.lines)
    ensures var c := RunAll(e, left, rules);
            && IsClean(c) && c.lines == left.lines
            && (rules != [] ==> forall i :: 0 <= i < |c.hooks| ==> c.hooks[i].deletions == 1)
  {
    hide CanRun, Outcome, SetUp, Close, NO_HANDLES, SegmentsEnd;
    if rules != [] {
      var last := |rules| - 1;
      PrefixEnds(e, left, rules, last);
      assert forall rule :: rule in rules[..last] ==> rule in rules;
      RunsLeaveNothing(e, left, trace, rules[..last]);
      var before := RunAll(e, left, rules[..last]);
      assert !RunOf(e, left, rules, last).control.Aborted? && rules[last] in rules;
      OneMoreRun(e, before, trace, rules[last], before.classes);
    }
  }

  /** A run on a clean state ends if its segments do, and comes to what it comes to on a fresh one. */
  lemma {:induction false} RunEnds(e: Env, left: Run, rule: FaultRule, classes: seq<Class<FaultRule>>) returns (n: nat)
    requires IsClean(left) && SegmentsEnd(e, SetUp(e, left, rule, classes))
    ensures var r := Steps(e, SetUp(e, left, rule, classes), n);
            r.phase.Ended? && Outcome(e, SetUp(e, left, rule, classes)) == r
  {
    hide Steps, NO_HANDLES;
    SetUpIsLaunched(e, left, rule, classes);
    LaunchedIsWithin(e, rule, left.lines, classes);
    AddressIsFree(Launched(e, rule, left.lines, classes), left.restartAddress, 2 + rule.lifespan.count);
    hide SetUp, SegmentsEnd, Launched, IsWithin, Outcome;
    n := EndsFrom(e, SetUp(e, left, rule, classes), 2 + rule.lifespan.count, 0);
    OutcomeIs(e, SetUp(e, left, rule, classes), n);
  }

  lemma {:induction false} AddressIsFree(r: Run, a: nat, budget: nat)
    requires IsWithin(r, budget)
    ensures IsWithin(r.(restartAddress := a), budget)
  {
  }

  lemma {:induction false} OneMoreRun(e: Env, left: Run, trace: seq<Cpu>, rule: FaultRule,
                                      classes: seq<Class<FaultRule>>)
    requires IsClean(left) && CanRun(e, trace, rule, left.lines)
    requires SegmentsEnd(e, SetUp(e, left, rule, classes))
    requires !Outcome(e, SetUp(e, left, rule, classes)).control.Aborted?
    ensures var r := Outcome(e, SetUp(e, left, rule, classes));
            var c := Close(r);
            && r.phase.Ended? && IsClean(c) && (forall i :: 0 <= i < |c.hooks| ==> c.hooks[i].deletions == 1)
            && c.lines == left.lines && c.classes == r.classes
            && r.(restartAddress := 0) == Outcome(e, Launched(e, rule, left.lines, classes)).(restartAddress := 0)
  {
    hide HasItsLine, Accepts, RestoresAt, RestoresCheckpoint, Steps, SetUp, Close, NO_HANDLES, Launched, SegmentsEnd,
         Outcome;
    var t: nat := 0;
    if RestoresCheckpoint(e, rule, left.lines) {
      t :| RestoresAt(e, trace, rule, left.lines, t);
    }
    var n := RunEnds(e, left, rule, classes);
    RunsAreIndependent(e, left, trace, rule, classes, t, n);
    SameEnd(Steps(e, SetUp(e, left, rule, classes), n), Steps(e, Launched(e, rule, left.lines, classes), n));
    OutcomeIs(e, Launched(e, rule, left.lines, classes), n);
  }

  lemma {:induction false} SameEnd(r: Run, s: Run)
    requires r.(restartAddress := 0) == s.(restartAddress := 0)
    ensures r.phase == s.phase
  {
  }

  /** Every run of a sequence goes as on a fresh state: what it comes to depends on its rule, the line
      table and the class table only.  A new work item starts from an empty class table, and so from
      another clean state. */
  lemma {:induction false} AllRunsAreIndependent(e: Env, left: Run, trace: seq<Cpu>, rules: seq<FaultRule>, k: nat)
    requires IsClean(left) && AllEnd(e, left, rules) && k < |rules|
    requires forall rule :: rule in rules ==> CanRun(e, trace, rule, left.lines)
    ensures var before := RunAll(e, left, rules[..k]);
            && IsClean(before) && before.lines == left.lines && RunOf(e, left, rules, k).phase.Ended?
            && RunOf(e, left, rules, k).(restartAddress := 0)
                 == Outcome(e, Launched(e, rules[k], left.lines, before.classes)).(restartAddress := 0)
            && RunAll(e, left, rules[..k + 1]).classes == RunOf(e, left, rules, k).classes
  {
    hide CanRun, Outcome, SetUp, Close, NO_HANDLES, Launched, IsClean, SegmentsEnd;
    PrefixEnds(e, left, rules, k);
    assert forall rule :: rule in rules[..k] ==> rule in rules;
    RunsLeaveNothing(e, left, trace, rules[..k]);
    var before := RunAll(e, left, rules[..k]);
    assert rules[k] in rules && !RunOf(e, left, rules, k).control.Aborted?;
    OneMoreRun(e, before, trace, rules[k], before.classes);
    assert rules[..k + 1][..k] == rules[..k];
  }
}
