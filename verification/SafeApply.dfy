/** The commit-confirm commands of fnc: apply a network change for 90 seconds, then confirm it or let
    it be undone. Every command may be cut off before any of its system calls. */
module SafeApply {
  import opened Wrappers
  import opened Rpcd
  import opened NetworkChange

  datatype Exit = Crashed | Returned(code: int)

  /** What the environment does at each system call of a run. */
  type Script = nat -> Step

  ghost predicate BenignBetween(script: Script, from: nat, end: nat) {
    forall k: nat :: from <= k < end ==> Benign(script(k))
  }

  // ---------- what commands leave alone ----------

  /** The pending apply stays, unless it is undone. */
  predicate OnlyEnded(w: World, x: World) {
    (x.pending == w.pending && x.active == w.active) || x.pending.None?
  }

  /** What no reservation touches: history, staged deltas and the next session id. */
  ghost predicate Undone(w: World, x: World) {
    && x.confirmed == w.confirmed && x.committed == w.committed && x.nextSid == w.nextSid
    && x.staged == w.staged && x.now >= w.now && OnlyEnded(w, x)
  }

  /** What an undo or a destroy leaves alone. */
  ghost predicate UndoKept(w: World, x: World) {
    && Inv(x) && Undone(w, x)
    && x.record == w.record && x.baseline == w.baseline && x.sessions <= w.sessions
  }

  /** What stays as it is while an apply is being prepared. */
  ghost predicate Preparing(w: World, x: World) {
    && Inv(x) && x.confirmed == w.confirmed && x.committed == w.committed
    && x.now >= w.now && x.nextSid >= w.nextSid && OnlyEnded(w, x)
  }

  /** Nothing but the timer and the undoing of the recorded change. */
  ghost predicate OnlyUndone(w: World, x: World) {
    && x.confirmed == w.confirmed && x.committed == w.committed && OnlyEnded(w, x)
    && (x.record == w.record || (x.record == Absent && x.pending.None?))
  }

  /** A record that a new reservation may reclaim. */
  ghost predicate Stale(w: World) {
    w.record.Recorded? && w.now > w.record.deadline + 2
  }

  /** Whatever is pending is what the record names. */
  ghost predicate Answerable(w: World) {
    w.record.Recorded? && !Stranded(w)
  }

  /** A session id that no earlier apply has used. */
  ghost predicate NewSid(w: World, sid: Sid) {
    && sid < w.nextSid && sid in w.baseline && w.baseline[sid] == w.confirmed
    && sid !in w.committed && sid !in w.staged
    && (w.pending.Some? ==> w.pending.value.sid != sid)
  }

  /** Ready for the apply itself: the record is on disk and not ahead of the clock. */
  ghost predicate InFlight(w: World, sid: Sid) {
    && w.record.Recorded? && w.record.sid == sid
    && w.record.deadline <= w.now + APPLY_TIMEOUT && sid !in w.committed
    && (w.pending.Some? ==> w.pending.value.sid != sid)
  }

  // ---------- when a change is stranded, and when a committed one keeps its record ----------

  /** The timer of an apply does not fire during so many steps. */
  predicate Waits(now: nat, expiry: int, script: Script, from: nat, steps: nat)
    decreases steps
  {
    steps == 0
    || (var s := script(from);
        && !(s.fireTimer && now + s.advance >= expiry)
        && Waits(now + s.advance, expiry, script, from + 1, steps - 1))
  }

  /** The process dies before one of four calls. */
  predicate CrashesWithin(script: Script, k: nat) {
    script(k).crash || script(k + 1).crash || script(k + 2).crash || script(k + 3).crash
  }

  /** The apply request, call k of the run, is carried out but not answered; the rollback that follows does
      not get through; neither a crash nor the timer prevents the removal of the record, four calls on. */
  predicate Strands(w: World, script: Script, k: nat, sid: Sid) {
    var s := script(k);
    var here := Elapse(w, s);
    && !s.crash && s.outcome in {Lost, Late} && sid in here.sessions && here.pending.None?
    && script(k + 1).outcome == Fail
    && !CrashesWithin(script, k + 1)
    && Waits(here.now, here.now + APPLY_TIMEOUT, script, k + 1, 4)
  }

  /** What an apply did: the call that created its session, the one that requested the apply and the state
      then, if it came to that, and the first call of the clean-up. */
  datatype Attempt = Attempt(created: nat, requested: Option<nat>, armed: World, cleanup: nat)

  predicate IsStranding(t: Attempt, script: Script, sid: Sid) {
    t.requested.Some? && Strands(t.armed, script, t.requested.value, sid)
  }

  /** The id of a session that was created did not arrive, or its end did not get through. */
  predicate Leaks(t: Attempt, script: Script) {
    script(t.created).outcome in {Lost, Garbled} || script(t.cleanup + 2).outcome == Fail
  }

  /** Two calls in a row, the first carried out but not answered, the second not carried out. */
  predicate IsLossThenFailure(script: Script, k: nat) {
    script(k).outcome in {Lost, Late} && script(k + 1).outcome == Fail
  }

  ghost predicate NoLossThenFailure(script: Script, from: nat, end: nat) {
    forall k: nat :: from <= k < end ==> !IsLossThenFailure(script, k)
  }

  lemma StrandingIsLoss(t: Attempt, script: Script, sid: Sid)
    requires t.requested.Some?
    ensures IsStranding(t, script, sid) ==> IsLossThenFailure(script, t.requested.value)
  {
  }

  /** A request to confirm that is carried out. */
  predicate Commits(w: World, s: Step, sid: Sid) {
    var here := Elapse(w, s);
    !s.crash && s.outcome != Fail && here.pending.Some? && here.pending.value.sid == sid
  }

  /** A confirmation is carried out, but its answer does not arrive, or the command dies before it has
      removed the record. */
  predicate ConfirmationIsLost(w: World, script: Script, k: nat) {
    var asked := Elapse(w, script(k));
    && w.record.Recorded? && !script(k).crash && script(k).outcome == Deliver && asked.now <= w.record.deadline
    && Commits(asked, script(k + 1), w.record.sid)
    && (script(k + 1).outcome in {Lost, Late} || script(k + 2).crash || script(k + 3).crash)
  }

  /** A confirmation reads the clock before the deadline is over, and reaches rpcd before the timer has fired. */
  predicate IsInTime(w: World, script: Script, k: nat) {
    var asked := Elapse(w, script(k));
    w.record.Recorded? && asked.now <= w.record.deadline && Commits(asked, script(k + 1), w.record.sid)
  }

  /** No command is cut off, and no answer gets lost. */
  ghost predicate NothingLost(script: Script, from: nat, end: nat) {
    forall k: nat :: from <= k < end ==> !script(k).crash && script(k).outcome !in {Lost, Late}
  }

  // ---------- the commands ----------

  /** Changes that are staged with a single request. */
  predicate IsSimple(change: Change) {
    !change.Dhcp? && !change.RouteDel?
  }

  class Fnc {
    var w: World
    const script: Script
    var next: nat

    constructor (start: World, script: Script)
      ensures w == start && this.script == script && next == 0
    {
      w := start;
      this.script := script;
      next := 0;
    }

    /** One request over ubus; crashed when the process dies before it. */
    method Call(r: Request) returns (crashed: bool, code: int)
      modifies this
      ensures next == old(next) + 1
      ensures var s := script(old(next));
        && crashed == s.crash
        && (crashed ==> w == Elapse(old(w), s))
        && (!crashed ==> (w, code) == Transmit(old(w), s, r))
    {
      var s := script(next);
      next := next + 1;
      crashed, code := s.crash, TIMEOUT;
      if crashed {
        w := Elapse(w, s);
      } else {
        var (after, status) := Transmit(w, s, r);
        w, code := after, status;
      }
    }

    /** A system call that is not for rpcd; done when it succeeds. */
    method Local() returns (crashed: bool, done: bool)
      modifies this
      ensures next == old(next) + 1
      ensures var s := script(old(next));
        w == Elapse(old(w), s) && crashed == s.crash && done == (!s.crash && s.outcome == Deliver)
    {
      var s := script(next);
      next := next + 1;
      w := Elapse(w, s);
      crashed, done := s.crash, !s.crash && s.outcome == Deliver;
    }

    /** monotonic_seconds: the time, or -1 when the clock cannot be read. */
    method Clock() returns (crashed: bool, now: int)
      modifies this
      ensures next == old(next) + 1
      ensures var s := script(old(next));
        w == Elapse(old(w), s) && crashed == s.crash && now == (if !s.crash && s.outcome == Deliver then w.now else -1)
    {
      var done;
      crashed, done := Local();
      now := if done then w.now else -1;
    }

    /** unlink: the record is gone, unless the process dies before. */
    method Unlink() returns (crashed: bool)
      requires Inv(w)
      modifies this
      ensures next == old(next) + 1 && crashed == script(old(next)).crash
      ensures Inv(w) && UndoKept(old(w).(record := w.record), w)
      ensures w.record == if crashed then old(w.record) else Absent
      ensures w.pending == if Fires(old(w), script(old(next))) then None else old(w.pending)
    {
      ElapseUndo(w, script(next));
      var done;
      crashed, done := Local();
      if !crashed {
        RecordChanged(w, Absent);
        w := w.(record := Absent);
      }
    }

    /** Ends the session of a change that is no longer pending and removes its record. */
    method Close(sid: Sid) returns (crashed: bool)
      requires Inv(w) && w.pending.None?
      modifies this
      ensures Inv(w) && UndoKept(old(w).(record := w.record), w)
      ensures w.record == if crashed then old(w.record) else Absent
      ensures w.pending.None? && w.active == old(w.active)
      ensures !crashed && script(old(next)).outcome != Fail ==> sid !in w.sessions
      ensures crashed == (script(old(next)).crash || script(old(next) + 1).crash)
      ensures next == old(next) + (if script(old(next)).crash then 1 else 2)
    {
      hide Inv;
      NothingPending(w);
      UndoKeeps(w, script(next), Destroy(sid));
      UndoNarrows(w, script(next), Destroy(sid));
      var ret;
      crashed, ret := Call(Destroy(sid));
      if !crashed {
        crashed := Unlink();
      }
      NothingPending(w);
    }

    /** Undoes the change of the record and removes the record; the pending change of any other session stays. */
    method Undo() returns (crashed: bool, undone: bool)
      requires Inv(w) && w.record.Recorded?
      modifies this
      ensures Inv(w) && UndoKept(old(w).(record := w.record), w) && (crashed ==> !undone) && old(next) < next
      ensures w.record == if undone then Absent else old(w.record)
      ensures undone ==> w.pending.None? && w.active == w.confirmed
      ensures BenignBetween(script, old(next), next) && !Stranded(old(w)) ==> undone && old(w.record).sid !in w.sessions
    {
      hide Inv;
      var sid := w.record.sid;
      UndoKeeps(w, script(next), Rollback(sid));
      var ret;
      crashed, ret := Call(Rollback(sid));
      undone := false;
      if crashed || (ret != OK && ret != NO_DATA) {
        return;
      }
      crashed := Close(sid);
      undone := !crashed;
      NothingPending(w);
    }

    // ---------- reserve_state ----------

    /** The part of the reservation that deals with a record in the way: a stale one is undone and
        removed; anything else stays. */
    method Reclaim() returns (crashed: bool, freed: bool)
      requires Inv(w) && w.record != Absent
      modifies this
      ensures Inv(w) && Undone(old(w), w) && (crashed ==> !freed) && old(next) < next
      ensures freed ==> w.record == Absent && w.pending.None?
      ensures freed ==> old(w.record).Recorded? && w.now > old(w.record).deadline + 2
      ensures !freed ==> w.record == old(w.record)
      ensures !freed && (old(w.record) == Malformed || w.now <= old(w.record).deadline + 2) ==> OnlyElapsed(old(w), w)
      ensures BenignBetween(script, old(next), next) && !Stranded(old(w)) && Stale(old(w)) ==> freed
    {
      hide Inv;
      freed := false;
      var now;
      ElapseUndo(w, script(next));
      crashed, now := Clock();
      if crashed {
        return;
      }
      if !w.record.Recorded? || now < 0 || now <= w.record.deadline + 2 {
        return;
      }
      crashed, freed := Undo();
    }

    /** Creates the record file. A record in the way is reclaimed once it is stale; anything else in
        the way, or an undo that cannot be had, refuses the reservation. */
    method ReserveState() returns (crashed: bool, reserved: bool)
      requires Inv(w)
      modifies this
      ensures Inv(w) && Undone(old(w), w) && (crashed ==> !reserved) && old(next) < next
      ensures reserved ==> w.record == Malformed
      ensures reserved && !Stranded(old(w)) ==> w.pending.None?
      ensures (Stranded(w) <==> Stranded(old(w)) && w.pending == old(w.pending)) && (Settled(old(w)) ==> Settled(w))
      ensures !reserved ==> w.record == old(w.record) || (w.record == Absent && w.pending.None?)
      ensures old(w.record) == Malformed ==> !reserved && OnlyElapsed(old(w), w)
      ensures old(w.record).Recorded? && w.now <= old(w.record).deadline + 2 ==> !reserved && OnlyElapsed(old(w), w)
      ensures BenignBetween(script, old(next), next) && !Stranded(old(w)) && (old(w.record).Absent? || Stale(old(w)))
        ==> reserved
      ensures old(w.record).Absent? && Benign(script(old(next))) ==> reserved && next == old(next) + 1
    {
      hide Inv;
      crashed, reserved := false, false;
      for attempt := 0 to 2
        invariant !crashed && !reserved && attempt < 2
        invariant Inv(w) && Undone(old(w), w) && old(next) <= next
        invariant attempt == 0 ==> w == old(w) && next == old(next)
        invariant attempt > 0 ==>
          && old(next) < next && w.record == Absent && w.pending.None?
          && old(w.record).Recorded? && w.now > old(w.record).deadline + 2
      {
        ElapseUndo(w, script(next));
        var done;
        crashed, done := Local();
        if crashed {
          return;
        }
        if w.record == Absent {
          if !done {
            return;
          }
          RecordChanged(w, Malformed);
          w := w.(record := Malformed);
          reserved := true;
          return;
        }
        ghost var here, at := w, next;
        var freed;
        crashed, freed := Reclaim();
        assert BenignBetween(script, old(next), next) ==> BenignBetween(script, at, next);
        if !freed {
          return;
        }
      }
    }

    // ---------- fnc_safe_apply ----------

    method CreateSession() returns (crashed: bool, ret: int, sid: Option<Sid>)
      requires Inv(w)
      modifies this
      ensures next == old(next) + 1
      ensures Preparing(old(w), w) && w.record == old(w.record) && w.staged == old(w.staged)
      ensures sid.Some? ==> sid.value == old(w.nextSid) && w.nextSid == sid.value + 1 && NewSid(w, sid.value)
      ensures !crashed && ret == OK && sid.Some? ==> sid.value in w.sessions
      ensures sid.None? && !(script(old(next)).outcome in {Lost, Garbled}) ==> w.sessions <= old(w.sessions)
      ensures Benign(script(old(next))) ==> !crashed && ret == OK && sid.Some?
    {
      var s := script(next);
      sid := if !s.crash && IdArrives(s) then Some(w.nextSid) else None;
      PrepareKeeps(w, s, Request.CreateSession);
      crashed, ret := Call(Request.CreateSession);
    }

    method GrantNetwork(sid: Sid) returns (crashed: bool, ret: int)
      requires Inv(w)
      modifies this
      ensures next == old(next) + 1
      ensures Preparing(old(w), w) && w.record == old(w.record) && w.staged == old(w.staged)
      ensures w.nextSid == old(w.nextSid) && w.baseline == old(w.baseline) && w.sessions <= old(w.sessions)
      ensures Benign(script(old(next))) && sid in old(w.sessions) ==>
        !crashed && ret == OK && sid in w.sessions && sid in w.granted
    {
      PrepareKeeps(w, script(next), Grant(sid));
      crashed, ret := Call(Grant(sid));
    }

    /** The file descriptor is written once; what does not get through whole is no record. */
    method WriteState(sid: Sid, deadline: int) returns (crashed: bool, ok: bool)
      requires Inv(w) && w.record == Malformed && NewSid(w, sid)
      modifies this
      ensures next == old(next) + 1
      ensures Preparing(old(w), w) && w.staged == old(w.staged) && w.nextSid == old(w.nextSid)
      ensures w.sessions <= old(w.sessions) && w.granted == old(w.granted)
      ensures w.record == if ok then Recorded(sid, deadline) else Malformed
      ensures crashed ==> !ok
      ensures Benign(script(old(next))) ==> ok && w.sessions == old(w.sessions)
    {
      ElapseUndo(w, script(next));
      crashed, ok := Local();
      if ok {
        w := w.(record := Recorded(sid, deadline));
      }
    }

    /** stage_change: one or two requests, and a look at the configuration where the change needs it. */
    method StageChange(sid: Sid, change: Change) returns (crashed: bool, ret: int)
      requires Inv(w) && sid < w.nextSid && sid !in w.staged
      modifies this
      ensures old(next) < next
      ensures Preparing(old(w), w) && w.record == old(w.record) && w.nextSid == old(w.nextSid)
      ensures w.baseline == old(w.baseline) && w.sessions <= old(w.sessions)
      ensures forall s :: s in w.staged && s != sid ==> s in old(w.staged)
      ensures !crashed && ret == OK && old(w.pending).None? ==>
        Plan(change, w.confirmed).Some? && StagedOps(w, sid) == Plan(change, w.confirmed).value
      ensures BenignBetween(script, old(next), next) && sid in old(w.sessions) ==> sid in w.sessions
      ensures (BenignBetween(script, old(next), next) && sid in old(w.sessions) && sid in old(w.granted)
               && old(w.pending).None? && Plan(change, w.confirmed).Some?) ==> !crashed && ret == OK
      ensures IsSimple(change) ==> next == old(next) + 1
    {
      hide Inv, Elapse, Transmit, Serve, Meaning, ApplyOps;
      match change
      case Address(s, a) =>
        crashed, ret := StageOne(sid, SetOptions(s, map["proto" := "static", "ipaddr" := a]));
      case Dhcp(s) =>
        crashed, ret := StageOne(sid, SetOptions(s, map["proto" := "dhcp"]));
        if crashed || ret != OK {
          return;
        }
        var readable;
        crashed, readable := ReadConfig();
        if crashed || !readable || !HasSection(w.active, s) {
          return crashed, -1;
        }
        if OptionExists(w.active, s, "ipaddr") {
          crashed, ret := StageOne(sid, DeleteOption(s, "ipaddr"));
        }
      case Up(s) =>
        crashed, ret := StageOne(sid, SetOptions(s, map["disabled" := "0"]));
      case Down(s) =>
        crashed, ret := StageOne(sid, SetOptions(s, map["disabled" := "1"]));
      case RouteAdd(t, g, m, i) =>
        crashed, ret := StageOne(sid, AddSection("route", RouteValues(t, g, m, i)));
      case RouteDel(t, g) =>
        var readable;
        crashed, readable := ReadConfig();
        if crashed || !readable {
          return crashed, -1;
        }
        var name := FindRoute(w.active, t, g);
        if name.None? {
          return false, -1;
        }
        crashed, ret := StageOne(sid, DeleteSection(name.value));
    }

    method StageOne(sid: Sid, op: Op) returns (crashed: bool, ret: int)
      requires Inv(w) && sid < w.nextSid
      modifies this
      ensures next == old(next) + 1
      ensures Preparing(old(w), w) && w.record == old(w.record) && w.nextSid == old(w.nextSid)
      ensures w.baseline == old(w.baseline) && w.sessions <= old(w.sessions) && w.granted == old(w.granted)
      ensures forall s :: s in w.staged && s != sid ==> s in old(w.staged)
      ensures !crashed && ret == OK ==> StagedOps(w, sid) == StagedOps(old(w), sid) + [op]
      ensures !crashed && ret == OK && old(w.pending).None? ==> Stageable(w.confirmed, op)
      ensures Benign(script(old(next))) ==> w.sessions == old(w.sessions)
      ensures (Benign(script(old(next))) && sid in old(w.sessions) && sid in old(w.granted)
               && old(w.pending).None? && Stageable(w.confirmed, op)) ==> !crashed && ret == OK
    {
      hide Inv;
      PrepareKeeps(w, script(next), Stage(sid, op));
      StageKeeps(w, script(next), sid, op);
      crashed, ret := Call(Stage(sid, op));
    }

    /** Loads the configuration files, which may fail. */
    method ReadConfig() returns (crashed: bool, readable: bool)
      requires Inv(w)
      modifies this
      ensures next == old(next) + 1
      ensures Preparing(old(w), w) && w.record == old(w.record) && w.nextSid == old(w.nextSid)
      ensures w.baseline == old(w.baseline) && w.staged == old(w.staged)
      ensures w.sessions <= old(w.sessions) && w.granted == old(w.granted)
      ensures w.pending.None? ==> w.active == w.confirmed
      ensures Benign(script(old(next))) ==> !crashed && readable && w.sessions == old(w.sessions)
    {
      ElapseUndo(w, script(next));
      crashed, readable := Local();
    }

    /** The clean-up after a failed apply. The pending change of the session is left in force exactly when the
        rollback does not get through and the timer waits until the record has been removed. */
    method Abort(sid: Option<Sid>) returns (crashed: bool)
      requires Inv(w)
      modifies this
      ensures Inv(w) && OnlyEnded(old(w), w)
      ensures w.confirmed == old(w.confirmed) && w.committed == old(w.committed) && w.nextSid == old(w.nextSid)
      ensures w.now >= old(w.now) && old(next) < next
      ensures w.record == if crashed then old(w.record) else Absent
      ensures old(w.pending).None? || Some(old(w.pending).value.sid) != sid ==>
        (Stranded(w) <==> w.pending.Some? && (crashed ==> Stranded(old(w))))
      ensures Settled(old(w)) ==> Settled(w)
      ensures w.sessions <= old(w.sessions) && forall s :: s in w.staged ==> s in old(w.staged)
      ensures !crashed && sid.Some? && script(old(next) + 1).outcome != Fail ==> sid.value !in w.staged
      ensures !crashed && sid.Some? && script(old(next) + 2).outcome != Fail ==> sid.value !in w.sessions
      ensures crashed == if sid.None? then script(old(next)).crash else CrashesWithin(script, old(next))
      ensures !crashed && sid.Some? && old(w.pending).Some? && old(w.pending).value.sid == sid.value ==>
        (w.pending.Some? <==> script(old(next)).outcome == Fail
                              && Waits(old(w.now), old(w.pending).value.expiry, script, old(next), 4))
    {
      hide Inv, Waits, Fires, Elapse, Transmit, Serve;
      ghost var at, start := next, w;
      if sid.Some? {
        UndoKeeps(w, script(next), Rollback(sid.value));
        UndoNarrows(w, script(next), Rollback(sid.value));
        var ret;
        crashed, ret := Call(Rollback(sid.value));
        if crashed {
          return;
        }
        ghost var w1 := w;
        RevertKeeps(w, script(next), sid.value);
        crashed, ret := Call(Revert(sid.value));
        if crashed {
          return;
        }
        ghost var w2 := w;
        UndoKeeps(w, script(next), Destroy(sid.value));
        UndoNarrows(w, script(next), Destroy(sid.value));
        crashed, ret := Call(Destroy(sid.value));
        if crashed {
          return;
        }
        ghost var w3 := w;
        crashed := Unlink();
        FourCalls(start, w1, w2, w3, w, script, at, sid.value);
      } else {
        crashed := Unlink();
      }
    }

    /** fnc_safe_apply. */
    method Apply(change: Change, wireless: bool) returns (exit: Exit, ghost t: Attempt)
      requires Inv(w)
      modifies this
      ensures Inv(w) && old(next) <= next && w.now >= old(w.now)
      ensures w.confirmed == old(w.confirmed) && w.committed == old(w.committed)
      ensures exit in {Crashed, Returned(0), Returned(-1)}
      // success: the change is in force, under a timer that outlasts the recorded deadline, which leaves the whole
      // time for a confirmation
      ensures exit == Returned(0) ==>
        && w.record.Recorded? && w.record.sid >= old(w.nextSid)
        && w.pending.Some? && w.pending.value.sid == w.record.sid && w.pending.value.snapshot == w.confirmed
        && old(w.now) + APPLY_TIMEOUT <= w.record.deadline <= w.pending.value.expiry
      ensures exit == Returned(0) && !Stranded(old(w)) ==>
        && Plan(change, w.confirmed).Some?
        && w.active == ApplyOps(w.confirmed, Plan(change, w.confirmed).value)
      // failure: no record of this apply, no session, nothing staged
      ensures exit == Returned(-1) ==> w.record == Absent || w.record == old(w.record)
      ensures exit == Returned(-1) && !Leaks(t, script) ==> forall s :: s in w.sessions ==> s < old(w.nextSid)
      ensures exit == Returned(-1) && script(t.cleanup + 1).outcome != Fail ==> forall s :: s in w.staged ==> s in old(w.staged)
      // a change is pending without its record exactly when it was before, or this apply has stranded its own
      ensures Stranded(w) <==> (Stranded(old(w)) && w.pending == old(w.pending)) || IsStranding(t, script, old(w.nextSid))
      ensures IsStranding(t, script, old(w.nextSid)) ==>
        && exit == Returned(-1) && w.record == Absent
        && w.pending.value.sid == old(w.nextSid) && w.pending.value.snapshot == w.confirmed
      ensures IsStranding(t, script, old(w.nextSid)) && !Stranded(old(w)) ==>
        Plan(change, w.confirmed).Some? && w.active == ApplyOps(w.confirmed, Plan(change, w.confirmed).value)
      ensures t.requested.Some? ==>
        && old(next) <= t.requested.value < next && t.cleanup == t.requested.value + 1
        && InFlight(t.armed, old(w.nextSid)) && OnlyEnded(old(w), t.armed)
      ensures exit == Returned(-1) && !IsStranding(t, script, old(w.nextSid)) ==> w.pending in {old(w.pending), None}
      // the record kept for a committed change is none of this apply's
      ensures Settled(old(w)) ==> Settled(w)
      // a record in the way
      ensures old(w.record) == Malformed ==> exit != Returned(0) && OnlyElapsed(old(w), w)
      ensures old(w.record).Recorded? && w.now <= old(w.record).deadline + 2 ==>
        exit != Returned(0) && OnlyElapsed(old(w), w)
      // progress
      ensures BenignBetween(script, old(next), next) && !Stranded(old(w)) && (old(w.record).Absent? || Stale(old(w)))
        && !((change.Up? || change.Down?) && wireless) && Plan(change, old(w.confirmed)).Some?
        ==> exit == Returned(0)
      ensures old(w.record).Absent? && !Stranded(old(w)) && IsSimple(change) && BenignBetween(script, old(next), old(next) + 6)
        && !((change.Up? || change.Down?) && wireless) && Plan(change, old(w.confirmed)).Some?
        ==> t.requested == Some(old(next) + 6) && old(w.nextSid) in t.armed.sessions && t.armed.pending.None?
    {
      hide Inv, Strands, Stranded, Settled, Plan, ApplyOps, InFlight, Leaks, Benign, IsSimple;
      t := Attempt(next, None, w, next);
      FreshSid(w);
      RecordFacts(w);
      assert BenignBetween(script, next, next + 6) ==> Benign(script(next));
      if (change.Up? || change.Down?) && wireless {
        return Returned(-1), t;
      }
      var crashed, reserved := ReserveState();
      FreshSid(w);
      if crashed {
        return Crashed, t;
      }
      if !reserved {
        return Returned(-1), t;
      }
      ghost var at := next;
      exit, t := Proceed(change);
      assert BenignBetween(script, old(next), next) ==> BenignBetween(script, at, next);
      assert at == old(next) + 1 && BenignBetween(script, old(next), old(next) + 6) ==> BenignBetween(script, at, at + 5);
    }

    /** The apply once the record file has been created. */
    method Proceed(change: Change) returns (exit: Exit, ghost t: Attempt)
      requires Inv(w) && w.record == Malformed
      modifies this
      ensures Inv(w) && old(next) < next && w.now >= old(w.now)
      ensures w.confirmed == old(w.confirmed) && w.committed == old(w.committed)
      ensures exit in {Crashed, Returned(0), Returned(-1)}
      ensures exit == Returned(0) ==>
        && w.record.Recorded? && w.record.sid >= old(w.nextSid)
        && w.pending.Some? && w.pending.value.sid == w.record.sid && w.pending.value.snapshot == w.confirmed
        && old(w.now) + APPLY_TIMEOUT <= w.record.deadline <= w.pending.value.expiry
      ensures exit == Returned(0) && old(w.pending).None? ==>
        && Plan(change, w.confirmed).Some?
        && w.active == ApplyOps(w.confirmed, Plan(change, w.confirmed).value)
      ensures exit == Returned(-1) ==> w.record == Absent
      ensures w.record.Recorded? ==> w.record.sid >= old(w.nextSid)
      ensures exit == Returned(-1) && !Leaks(t, script) ==> forall s :: s in w.sessions ==> s < old(w.nextSid)
      ensures exit == Returned(-1) && script(t.cleanup + 1).outcome != Fail ==> forall s :: s in w.staged ==> s in old(w.staged)
      ensures Stranded(w) <==> (Stranded(old(w)) && w.pending == old(w.pending)) || IsStranding(t, script, old(w.nextSid))
      ensures IsStranding(t, script, old(w.nextSid)) ==>
        exit == Returned(-1) && w.pending.value.sid == old(w.nextSid) && w.pending.value.snapshot == w.confirmed
      ensures IsStranding(t, script, old(w.nextSid)) && old(w.pending).None? ==>
        Plan(change, w.confirmed).Some? && w.active == ApplyOps(w.confirmed, Plan(change, w.confirmed).value)
      ensures t.requested.Some? ==>
        && old(next) <= t.requested.value < next && t.cleanup == t.requested.value + 1
        && InFlight(t.armed, old(w.nextSid)) && OnlyEnded(old(w), t.armed)
      ensures exit == Returned(-1) && !IsStranding(t, script, old(w.nextSid)) ==> w.pending in {old(w.pending), None}
      ensures Settled(w)
      ensures w.pending.Some? ==> w.pending == old(w.pending) || w.pending.value.sid == old(w.nextSid)
      ensures BenignBetween(script, old(next), next) && old(w.pending).None? && Plan(change, w.confirmed).Some?
        ==> exit == Returned(0)
      ensures (IsSimple(change) && BenignBetween(script, old(next), old(next) + 5) && old(w.pending).None?
               && Plan(change, w.confirmed).Some?) ==>
        t.requested == Some(old(next) + 5) && old(w.nextSid) in t.armed.sessions && t.armed.pending.None?
    {
      hide Inv, Strands, Settled, Plan, ApplyOps, StagedOps, Benign;
      FreshSid(w);
      t := Attempt(next, None, w, next);
      var crashed, ok, sid := Prepare(change);
      t := t.(cleanup := next);
      if crashed {
        return Crashed, t;
      }
      FreshSid(w);
      if ok {
        t := t.(requested := Some(next), armed := w, cleanup := next + 1);
        exit := RequestApply(sid.value);
      } else {
        crashed := Abort(sid);
        exit := if crashed then Crashed else Returned(-1);
      }
    }

    /** The apply request for a recorded change, and the clean-up if it fails. */
    method RequestApply(sid: Sid) returns (exit: Exit)
      requires Inv(w) && InFlight(w, sid)
      modifies this
      ensures Inv(w) && old(next) < next && w.now >= old(w.now)
      ensures w.confirmed == old(w.confirmed) && w.committed == old(w.committed)
      ensures exit in {Crashed, Returned(0), Returned(-1)} && Settled(w)
      ensures w.pending.Some? ==> w.pending == old(w.pending) || w.pending.value.sid == sid
      ensures w.record == if exit == Returned(-1) then Absent else old(w.record)
      ensures exit == Returned(0) ==>
        && w.pending.Some? && w.pending.value.sid == sid && w.pending.value.snapshot == w.confirmed
        && w.record.deadline <= w.pending.value.expiry && w.active == ApplyOps(w.confirmed, StagedOps(old(w), sid))
      ensures w.sessions <= old(w.sessions) && forall s :: s in w.staged ==> s in old(w.staged)
      ensures exit == Returned(-1) && script(old(next) + 2).outcome != Fail ==> sid !in w.staged
      ensures exit == Returned(-1) && script(old(next) + 3).outcome != Fail ==> sid !in w.sessions
      ensures Stranded(w) <==> (Stranded(old(w)) && w.pending == old(w.pending)) || Strands(old(w), script, old(next), sid)
      ensures Strands(old(w), script, old(next), sid) ==>
        && exit == Returned(-1) && w.pending.Some? && w.pending.value.sid == sid && w.pending.value.snapshot == w.confirmed
        && w.active == ApplyOps(w.confirmed, StagedOps(old(w), sid))
      ensures exit == Returned(-1) && !Strands(old(w), script, old(next), sid) ==> w.pending in {old(w.pending), None}
      ensures Benign(script(old(next))) && old(w.pending).None? && sid in old(w.sessions) ==> exit == Returned(0)
    {
      hide Inv, Waits, ApplyOps;
      ghost var at := next;
      ApplyKeeps(w, script(next), sid);
      var crashed, ret := Call(Request.Apply(sid));
      if crashed {
        return Crashed;
      }
      if ret == OK {
        return Returned(0);
      }
      ghost var asked := w;
      crashed := Abort(Some(sid));
      Stranding(old(w), asked, w, script, at, sid, crashed);
      exit := if crashed then Crashed else Returned(-1);
    }

    /** From the new session to the staged change; ok when the apply itself may follow. */
    method Prepare(change: Change) returns (crashed: bool, ok: bool, sid: Option<Sid>)
      requires Inv(w) && w.record == Malformed
      modifies this
      ensures Preparing(old(w), w) && (crashed ==> !ok) && old(next) < next
      ensures w.record == Malformed ||
        (w.record.Recorded? && sid == Some(w.record.sid) && w.record.deadline >= old(w.now) + APPLY_TIMEOUT)
      ensures sid.Some? ==> sid.value == old(w.nextSid) && w.nextSid == sid.value + 1
      ensures sid.Some? && w.pending.Some? ==> w.pending.value.sid != sid.value
      ensures (Stranded(w) <==> Stranded(old(w)) && w.pending == old(w.pending)) && Settled(w)
      ensures forall s :: s in w.staged && Some(s) != sid ==> s in old(w.staged)
      ensures sid.None? ==> w.staged == old(w.staged)
      ensures sid.None? && !(script(old(next)).outcome in {Lost, Garbled}) ==> w.sessions <= old(w.sessions)
      ensures ok ==> sid.Some? && InFlight(w, sid.value)
      ensures ok && old(w.pending).None? ==>
        Plan(change, w.confirmed).Some? && StagedOps(w, sid.value) == Plan(change, w.confirmed).value
      ensures BenignBetween(script, old(next), next) && old(w.pending).None? && Plan(change, w.confirmed).Some? ==>
        ok && sid.value in w.sessions
      ensures (IsSimple(change) && BenignBetween(script, old(next), old(next) + 5) && old(w.pending).None?
               && Plan(change, w.confirmed).Some?) ==> ok && sid.value in w.sessions && next == old(next) + 5
    {
      hide Inv;
      FreshSid(w);
      ok := false;
      var ret;
      crashed, ret, sid := CreateSession();
      if crashed || ret != OK || sid.None? {
        return;
      }
      crashed, ret := GrantNetwork(sid.value);
      if crashed || ret != OK {
        return;
      }
      var now;
      ElapseUndo(w, script(next));
      crashed, now := Clock();
      if crashed || now + APPLY_TIMEOUT < APPLY_TIMEOUT {
        return;
      }
      var deadline := now + APPLY_TIMEOUT;
      crashed, ok := WriteState(sid.value, deadline);
      if !ok {
        return;
      }
      crashed, ret := StageChange(sid.value, change);
      ok := !crashed && ret == OK;
    }

    // ---------- confirm and rollback ----------

    /** finish: readAt is what the clock said, or -1. */
    method Finish(confirm: bool) returns (exit: Exit, ghost readAt: int)
      requires Inv(w)
      modifies this
      ensures Inv(w) && old(next) < next
      ensures exit in {Crashed, Returned(0), Returned(-1)}
      ensures w.now >= old(w.now)
      ensures !old(w.record).Recorded? ==> exit != Returned(0) && OnlyElapsed(old(w), w)
      // a confirmation that succeeds was in time, and what was pending is now confirmed
      ensures confirm && exit == Returned(0) ==>
        && old(w.record).Recorded? && old(w.pending).Some? && old(w.pending).value.sid == old(w.record).sid
        && old(w.now) <= readAt <= old(w.record).deadline <= old(w.pending).value.expiry
        && w.committed == old(w.committed) + {old(w.record).sid} && old(w.record).sid !in old(w.committed)
        && w.confirmed == old(w.active) && w.active == old(w.active) && w.pending.None? && w.record == Absent
      // past the deadline a confirmation only undoes
      ensures old(w.record).Recorded? && readAt > old(w.record).deadline ==>
        w.confirmed == old(w.confirmed) && w.committed == old(w.committed) && (confirm ==> exit != Returned(0))
      // a rollback never commits; one that succeeds leaves the configuration from before the change, exactly
      // unless that change was committed already
      ensures !confirm ==> w.confirmed == old(w.confirmed) && w.committed == old(w.committed)
      ensures !confirm && exit == Returned(0) ==>
        && old(w.record).Recorded? && w.record == Absent && w.pending.None? && w.active == w.confirmed
        && old(w.record).sid in old(w.baseline)
        && (w.active == old(w.baseline)[old(w.record).sid]
            <==> old(w.record).sid !in old(w.committed) || old(w.active) == old(w.baseline)[old(w.record).sid])
      // in every other case nothing but this session can have been committed
      ensures w.committed == old(w.committed)
        || (confirm && old(w.record).Recorded? && w.committed == old(w.committed) + {old(w.record).sid})
      // the record goes only when nothing is pending, so no change is stranded
      ensures w.record == old(w.record) || (w.record == Absent && w.pending.None?)
      ensures w.pending in {old(w.pending), None} && (!confirm ==> OnlyEnded(old(w), w))
      // a committed change keeps its record exactly when the answer was lost, or the command died behind it
      ensures Settled(old(w)) ==> (Settled(w) <==> !(confirm && ConfirmationIsLost(old(w), script, old(next))))
      ensures confirm && ConfirmationIsLost(old(w), script, old(next)) ==> !NothingLost(script, old(next), next)
      // progress
      ensures old(w.record).Recorded? && Benign(script(old(next))) ==> old(next) + 1 < next
      ensures BenignBetween(script, old(next), next) && Answerable(old(w)) && !confirm ==> exit == Returned(0)
      ensures BenignBetween(script, old(next), next) && old(w.record).Recorded? && confirm ==>
        (exit == Returned(0) <==> IsInTime(old(w), script, old(next)))
      ensures BenignBetween(script, old(next), next) && Answerable(old(w)) ==>
        w.record == Absent && w.pending.None? && old(w.record).sid !in w.sessions
      ensures !confirm && exit == Returned(-1) ==> w.record == old(w.record)
    {
      hide Inv;
      RecordFacts(w);
      ElapseUndo(w, script(next));
      var crashed, now := Clock();
      readAt := now;
      if crashed {
        return Crashed, readAt;
      }
      if !w.record.Recorded? || now < 0 {
        return Returned(-1), readAt;
      }
      RecordFacts(w);
      if !confirm || now > w.record.deadline {
        var undone;
        crashed, undone := Undo();
        return if crashed then Crashed else if undone && !confirm then Returned(0) else Returned(-1), readAt;
      }
      var ret;
      crashed, ret := Commit();
      exit := if crashed then Crashed else if ret == OK then Returned(0) else Returned(-1);
    }

    /** Confirms the change of the record, and removes the record. */
    method Commit() returns (crashed: bool, ret: int)
      requires Inv(w) && w.record.Recorded?
      modifies this
      ensures Inv(w) && w.now >= old(w.now) && old(next) < next <= old(next) + 3
      ensures w.record == old(w.record) || (w.record == Absent && w.pending.None?)
      ensures w.pending in {old(w.pending), None}
      ensures var sid := old(w.record).sid;
        if Commits(old(w), script(old(next)), sid) then
          && w.committed == old(w.committed) + {sid} && w.confirmed == old(w.active) && w.active == old(w.active) && w.pending.None?
          && (w.record.Recorded? <==>
               script(old(next)).outcome in {Lost, Late} || script(old(next) + 1).crash || script(old(next) + 2).crash)
          && (w.record.Recorded? ==> !NothingLost(script, old(next), next))
        else
          w.committed == old(w.committed) && w.confirmed == old(w.confirmed)
      ensures !crashed && ret == OK ==> Commits(old(w), script(old(next)), old(w.record).sid) && w.record == Absent
      ensures BenignBetween(script, old(next), next) && Commits(old(w), script(old(next)), old(w.record).sid) ==>
        !crashed && ret == OK
      ensures BenignBetween(script, old(next), next) && Answerable(old(w)) ==>
        w.record == Absent && w.pending.None? && old(w.record).sid !in w.sessions
    {
      hide Inv;
      var sid := w.record.sid;
      ConfirmKeeps(w, script(next), sid);
      ghost var at := next;
      crashed, ret := Call(Confirm(sid));
      if crashed || (ret != OK && ret != NO_DATA) {
        assert script(at).crash || script(at).outcome in {Lost, Late} || !Commits(old(w), script(at), sid);
        return;
      }
      crashed := Close(sid);
      assert crashed ==> script(next - 1).crash;
    }

    // ---------- pending ----------

    /** fnc pending: shows the remaining time, or undoes a change whose time is over. */
    method ShowPending() returns (exit: Exit, ghost readAt: int)
      requires Inv(w)
      modifies this
      ensures Inv(w) && OnlyUndone(old(w), w) && old(next) < next
      ensures exit in {Crashed, Returned(0), Returned(-1)}
      ensures Settled(old(w)) ==> Settled(w)
      ensures !(old(w.record).Recorded? && readAt > old(w.record).deadline) ==> OnlyElapsed(old(w), w)
      ensures w.now >= old(w.now) && readAt <= w.now
      ensures exit == Returned(0) && old(w.record).Recorded? && readAt > old(w.record).deadline ==>
        w.record == Absent && w.active == w.confirmed
      ensures BenignBetween(script, old(next), next) && !Stranded(old(w)) ==> exit == Returned(0)
    {
      hide Inv;
      ElapseUndo(w, script(next));
      var crashed, now := Clock();
      readAt := now;
      if crashed {
        return Crashed, readAt;
      }
      if !w.record.Recorded? {
        return Returned(0), readAt;
      }
      if now < 0 {
        return Returned(-1), readAt;
      }
      if now > w.record.deadline {
        ghost var later;
        exit, later := Finish(false);
        return exit, readAt;
      }
      exit := Returned(0);
    }

    /** Whether a change is waiting: 0 for none, 1 for one, or for something that cannot be read. The answer
        is 0 with a change pending exactly when there was no record of it. */
    method HasPending() returns (exit: Exit, ghost readAt: int)
      requires Inv(w)
      modifies this
      ensures Inv(w) && OnlyUndone(old(w), w) && old(next) < next
      ensures exit in {Crashed, Returned(0), Returned(1)}
      ensures Settled(old(w)) ==> Settled(w)
      ensures exit != Crashed ==> (exit == Returned(0) <==> w.record == Absent)
      ensures exit == Returned(0) && w.pending.None? ==> w.active == w.confirmed
      ensures BenignBetween(script, old(next), next) && Answerable(old(w)) && readAt > old(w.record).deadline ==> exit == Returned(0)
      ensures exit == Returned(0) && w.pending.Some? <==>
        var s := script(old(next));
        old(w.record) == Absent && old(w.pending).Some? && !Fires(old(w), s) && !s.crash
      ensures !(old(w.record).Recorded? && readAt > old(w.record).deadline) ==> OnlyElapsed(old(w), w)
      ensures w.now >= old(w.now) && readAt <= w.now
    {
      hide Inv;
      ElapseUndo(w, script(next));
      var crashed, now := Clock();
      readAt := now;
      NothingPending(w);
      if crashed {
        return Crashed, readAt;
      }
      if w.record == Absent {
        return Returned(0), readAt;
      }
      if !w.record.Recorded? || now < 0 {
        return Returned(1), readAt;
      }
      if now > w.record.deadline {
        ghost var later;
        exit, later := Finish(false);
        NothingPending(w);
        exit := if exit.Crashed? then Crashed else if exit == Returned(0) then Returned(0) else Returned(1);
        return exit, readAt;
      }
      exit := Returned(1);
    }

    // ---------- whole runs ----------

    /** Any sequence of commands, each possibly cut off, under any behaviour of the environment. */
    method Run(commands: seq<Command>)
      requires Inv(w)
      modifies this
      ensures Inv(w) && old(next) <= next
      // nothing is ever committed but by a confirm command
      ensures (forall c :: c in commands ==> c != ConfirmChange) ==>
        w.confirmed == old(w.confirmed) && w.committed == old(w.committed)
      // the configuration in force is the confirmed one, or one that its timer will take back to it
      ensures IsSafe(w)
      // and it is the change that the record names, unless an apply lost its answer and then its rollback
      ensures !Stranded(old(w)) && NoLossThenFailure(script, old(next), next) ==> !Stranded(w) && IsNamed(w)
      // a record is of a change that is not committed, unless a command was cut off or an answer lost
      ensures Settled(old(w)) && NothingLost(script, old(next), next) ==> Settled(w)
      // an unreadable record stays, and then no command changes anything
      ensures old(w.record) == Malformed ==> w.record == Malformed && OnlyElapsed(old(w), w)
    {
      hide Inv, IsLossThenFailure;
      for k := 0 to |commands|
        invariant Inv(w) && old(next) <= next
        invariant (forall c :: c in commands ==> c != ConfirmChange) ==>
          w.confirmed == old(w.confirmed) && w.committed == old(w.committed)
        invariant !Stranded(old(w)) && NoLossThenFailure(script, old(next), next) ==> !Stranded(w)
        invariant Settled(old(w)) && NothingLost(script, old(next), next) ==> Settled(w)
        invariant old(w.record) == Malformed ==> w.record == Malformed && OnlyElapsed(old(w), w)
      {
        assert commands[k] in commands;
        Execute(commands[k]);
      }
      SafeState(w);
    }

    /** One command. */
    method Execute(command: Command)
      requires Inv(w)
      modifies this
      ensures Inv(w) && old(next) <= next
      ensures command != ConfirmChange ==> w.confirmed == old(w.confirmed) && w.committed == old(w.committed)
      ensures !Stranded(old(w)) && NoLossThenFailure(script, old(next), next) ==> !Stranded(w)
      ensures Settled(old(w)) && NothingLost(script, old(next), next) ==> Settled(w)
      ensures old(w.record) == Malformed ==> w.record == Malformed && OnlyElapsed(old(w), w)
    {
      hide Inv;
      var exit;
      match command
      case ApplyChange(change, wireless) => {
        ghost var t;
        exit, t := Apply(change, wireless);
        if t.requested.Some? {
          StrandingIsLoss(t, script, old(w.nextSid));
        }
      }
      case ConfirmChange => { ghost var at; exit, at := Finish(true); }
      case RollbackChange => { ghost var at; exit, at := Finish(false); }
      case Show => { ghost var at; exit, at := ShowPending(); }
      case Query => { ghost var at; exit, at := HasPending(); }
    }
  }

  datatype Command =
    | ApplyChange(change: Change, wireless: bool)
    | ConfirmChange
    | RollbackChange
    | Show
    | Query

  // ---------- the configuration over whole runs ----------

  /** The configuration in force is the confirmed one, or a change that the timer takes back to it. */
  ghost predicate IsSafe(w: World) {
    w.active == w.confirmed || (w.pending.Some? && w.pending.value.snapshot == w.confirmed)
  }

  /** And the record names that change, with a deadline that is not after the end of its timer. */
  ghost predicate IsNamed(w: World) {
    || (w.active == w.confirmed && w.pending.None?)
    || (w.pending.Some? && w.pending.value.snapshot == w.confirmed && w.record.Recorded?
        && w.record.sid == w.pending.value.sid && w.record.deadline <= w.pending.value.expiry)
  }

  lemma SafeState(w: World)
    requires Inv(w)
    ensures IsSafe(w) && (!Stranded(w) ==> IsNamed(w))
  {
  }

  /** Every state that commands can reach from the start. */
  method ConfigurationSafe(start: World, script: Script, commands: seq<Command>) returns (f: Fnc)
    requires IsStart(start)
    ensures fresh(f) && f.script == script && Inv(f.w) && IsSafe(f.w)
    ensures NoLossThenFailure(script, 0, f.next) ==> IsNamed(f.w)
    ensures NothingLost(script, 0, f.next) ==> Settled(f.w)
    ensures (forall c :: c in commands ==> c != ConfirmChange) ==> f.w.confirmed == start.active
  {
    hide Inv, IsSafe, IsNamed;
    StartIsSafe(start);
    f := new Fnc(start, script);
    f.Run(commands);
  }

  /** Six calls that get through, an apply request without an answer, and a rollback that fails. */
  const StrandingScript: Script := (k: nat) => Quiet.(outcome := if k == 6 then Lost else if k == 7 then Fail else Deliver)

  /** A change that the record does not name: the apply says that it has failed, its change is in force, and
      nothing is said to be pending. */
  method StrandedChange(start: World, section: string) returns (f: Fnc, exit: Exit, answer: Exit)
    requires IsStart(start) && HasSection(start.active, section)
    ensures exit == Returned(-1) && f.w.record == Absent && Stranded(f.w)
    ensures f.w.pending.value.snapshot == start.active
    ensures f.w.active == ApplyOps(start.active, [SetOptions(section, map["disabled" := "0"])])
    ensures answer == Returned(0)
  {
    hide Inv;
    StartIsSafe(start);
    f := new Fnc(start, StrandingScript);
    ghost var t, at;
    exit, t := f.Apply(Up(section), false);
    answer, at := f.HasPending();
  }

  /** A confirmation whose answer is lost commits the change but leaves its record. */
  lemma LostConfirmation(w: World)
    requires Inv(w) && w.record.Recorded? && w.pending.Some? && w.pending.value.sid == w.record.sid
    ensures var x := Transmit(w, Quiet.(outcome := Lost), Request.Confirm(w.record.sid)).0;
      && Inv(x) && x.record == w.record && !Settled(x) && x.active == w.active && x.pending.None?
  {
    ConfirmKeeps(w, Quiet.(outcome := Lost), w.record.sid);
  }

  /** After it, a rollback reports success although the change stays in force. */
  method RollbackAfterLostConfirmation(f: Fnc) returns (exit: Exit)
    requires Inv(f.w) && forall k: nat :: Benign(f.script(k))
    requires f.w.record.Recorded? && !Settled(f.w)
    requires f.w.active != f.w.baseline[f.w.record.sid]
    modifies f
    ensures exit == Returned(0) && f.w.active == old(f.w.active)
    ensures f.w.active != old(f.w.baseline)[old(f.w.record).sid]
  {
    RecordFacts(f.w);
    hide Inv;
    ghost var at;
    exit, at := f.Finish(false);
  }

  // ---------- a change that is kept ----------

  /** A change that is applied, looked at and confirmed in time is kept, when all calls get through and the clock
      has not gone on by the whole timeout when the confirmation reaches rpcd. */
  method ApplyThenConfirm(f: Fnc, change: Change, wireless: bool, looks: seq<Command>)
    returns (applied: Exit, confirmed: Exit, ghost before: World, ghost at: nat)
    requires Inv(f.w) && !Stranded(f.w) && (f.w.record.Absent? || Stale(f.w))
    requires Plan(change, f.w.confirmed).Some? && !((change.Up? || change.Down?) && wireless)
    requires forall c :: c in looks ==> c in {Show, Query}
    modifies f
    ensures Inv(f.w) && old(f.next) <= at < f.next
    ensures BenignBetween(f.script, old(f.next), f.next) ==> applied == Returned(0)
    ensures (BenignBetween(f.script, old(f.next), f.next)
             && Elapse(before, f.script(at)).now + f.script(at + 1).advance < old(f.w).now + APPLY_TIMEOUT) ==>
      && confirmed == Returned(0) && f.w.record == Absent && f.w.pending.None?
      && f.w.active == f.w.confirmed == ApplyOps(old(f.w).confirmed, Plan(change, old(f.w).confirmed).value)
      && exists sid :: sid >= old(f.w).nextSid && f.w.committed == old(f.w).committed + {sid}
  {
    hide Inv, Plan, ApplyOps, Benign;
    ghost var t;
    applied, t := f.Apply(change, wireless);
    ghost var there, here := f.w, f.next;
    for k := 0 to |looks|
      invariant Inv(f.w) && here <= f.next && there.now <= f.w.now
      invariant there.record.Recorded? && f.w.now <= there.record.deadline ==> OnlyElapsed(there, f.w)
    {
      assert looks[k] in looks;
      Look(f, looks[k]);
    }
    before, at := f.w, f.next;
    ghost var readAt;
    confirmed, readAt := f.Finish(true);
    if BenignBetween(f.script, old(f.next), f.next)
       && Elapse(before, f.script(at)).now + f.script(at + 1).advance < old(f.w).now + APPLY_TIMEOUT {
      TwoCalls(f.script, old(f.next), f.next, at);
      assert before.record == there.record;
      assert Benign(f.script(at + 1));
      StillWaiting(there, before, f.script, at, old(f.w).now);
      assert f.w.committed == old(f.w).committed + {there.record.sid};
    }
  }

  lemma TwoCalls(script: Script, from: nat, end: nat, at: nat)
    requires BenignBetween(script, from, end) && from <= at < end
    ensures Benign(script(at)) && (at + 1 < end ==> Benign(script(at + 1)))
  {
    hide Benign;
  }

  /** A change that has only waited since it was applied is confirmed in time. */
  lemma StillWaiting(there: World, before: World, script: Script, at: nat, start: nat)
    requires Benign(script(at)) && Benign(script(at + 1))
    requires there.record.Recorded? && there.pending.Some? && there.pending.value.sid == there.record.sid
    requires start + APPLY_TIMEOUT <= there.record.deadline <= there.pending.value.expiry
    requires Elapse(before, script(at)).now + script(at + 1).advance < start + APPLY_TIMEOUT
    requires before.now <= there.record.deadline ==> OnlyElapsed(there, before)
    ensures OnlyElapsed(there, before) && before.pending == there.pending && before.active == there.active
    ensures IsInTime(before, script, at)
  {
  }

  /** A look at the pending change undoes nothing before the deadline. */
  method Look(f: Fnc, command: Command)
    requires Inv(f.w) && command in {Show, Query}
    modifies f
    ensures Inv(f.w) && old(f.next) <= f.next && old(f.w).now <= f.w.now
    ensures old(f.w).record.Recorded? && f.w.now <= old(f.w).record.deadline ==> OnlyElapsed(old(f.w), f.w)
  {
    hide Inv;
    var exit;
    ghost var readAt;
    if command == Show {
      exit, readAt := f.ShowPending();
    } else {
      exit, readAt := f.HasPending();
    }
  }

  // ---------- single calls ----------

  lemma NothingPending(w: World)
    requires Inv(w)
    ensures w.pending.None? ==> w.active == w.confirmed
  {
  }

  /** The record file may always go, or be emptied. */
  lemma RecordChanged(w: World, r: Record)
    requires Inv(w) && !r.Recorded?
    ensures Inv(w.(record := r))
  {
  }

  lemma ServeUndo(w: World, r: Request)
    requires Inv(w) && (r.Rollback? || r.Destroy?)
    ensures UndoKept(w, Serve(w, r).0)
    ensures r.Rollback? && Serve(w, r).1 in {OK, NO_DATA} ==> Serve(w, r).0.pending.None?
    ensures r.Rollback? && (w.pending.Some? ==> w.pending.value.sid == r.sid) ==> Serve(w, r).1 in {OK, NO_DATA}
  {
    ServeKeepsInv(w, r);
    hide Inv;
  }

  lemma ElapseUndo(w: World, s: Step)
    requires Inv(w)
    ensures UndoKept(w, Elapse(w, s)) && OnlyElapsed(w, Elapse(w, s))
    ensures Elapse(w, s).pending == if Fires(w, s) then None else w.pending
    ensures Benign(s) ==> Elapse(w, s).sessions == w.sessions
  {
    ElapseKeepsInv(w, s);
    hide Inv;
  }

  /** However an undo or a destroy fares, this is what it leaves alone. */
  lemma UndoKeeps(w: World, s: Step, r: Request)
    requires Inv(w) && (r.Rollback? || r.Destroy?)
    ensures UndoKept(w, if s.crash then Elapse(w, s) else Transmit(w, s, r).0)
    ensures r.Rollback? && !s.crash && Transmit(w, s, r).1 in {OK, NO_DATA} ==> Transmit(w, s, r).0.pending.None?
    ensures Benign(s) && r.Rollback? && (w.pending.Some? ==> w.pending.value.sid == r.sid)
      ==> Transmit(w, s, r).1 in {OK, NO_DATA}
  {
    ElapseUndo(w, s);
    ServeUndo(Elapse(w, s), r);
    hide Inv, Elapse, Serve;
  }

  lemma PrepareKeeps(w: World, s: Step, r: Request)
    requires Inv(w)
    requires r.CreateSession? || r.Grant? || (r.Stage? && r.sid < w.nextSid)
    ensures var x := if s.crash then Elapse(w, s) else Transmit(w, s, r).0;
      Preparing(w, x) && x.record == w.record
  {
    ElapseUndo(w, s);
    var here := Elapse(w, s);
    ServeKeepsInv(here, r);
    ServePrepare(here, r);
    hide Inv, Serve;
  }

  lemma ServePrepare(w: World, r: Request)
    requires r.CreateSession? || r.Grant? || r.Stage?
    ensures var x := Serve(w, r).0;
      && x.record == w.record && x.confirmed == w.confirmed && x.committed == w.committed && x.active == w.active
      && x.now == w.now && x.nextSid >= w.nextSid && x.pending == w.pending
  {
  }

  lemma FreshSid(w: World)
    requires Inv(w)
    ensures w.nextSid !in w.committed && w.nextSid !in w.staged && w.nextSid !in w.sessions
    ensures w.pending.Some? ==> w.pending.value.sid < w.nextSid
    ensures w.record.Recorded? ==> w.record.sid < w.nextSid
    ensures forall s :: s in w.sessions ==> s < w.nextSid
  {
  }

  lemma ServeStage(w: World, sid: Sid, op: Op)
    ensures var (x, code) := Serve(w, Stage(sid, op));
      && x.nextSid == w.nextSid && x.baseline == w.baseline && x.sessions == w.sessions && x.granted == w.granted
      && (forall s :: s in x.staged && s != sid ==> s in w.staged)
      && (code == OK ==> StagedOps(x, sid) == StagedOps(w, sid) + [op])
      && (code == OK <==> sid in w.sessions && sid in w.granted && Stageable(w.active, op))
  {
  }

  lemma StageKeeps(w: World, s: Step, sid: Sid, op: Op)
    requires Inv(w)
    ensures var x := if s.crash then Elapse(w, s) else Transmit(w, s, Stage(sid, op)).0;
      && x.nextSid == w.nextSid && x.baseline == w.baseline && x.sessions <= w.sessions && x.granted == w.granted
      && (forall t :: t in x.staged && t != sid ==> t in w.staged)
      && (Benign(s) ==> x.sessions == w.sessions)
      && (!s.crash && Transmit(w, s, Stage(sid, op)).1 == OK ==>
           && StagedOps(x, sid) == StagedOps(w, sid) + [op]
           && (w.pending.None? ==> Stageable(w.confirmed, op)))
    ensures Benign(s) && sid in w.sessions && sid in w.granted && w.pending.None? && Stageable(w.confirmed, op)
      ==> Transmit(w, s, Stage(sid, op)).1 == OK
  {
    ElapseUndo(w, s);
    ServeStage(Elapse(w, s), sid, op);
    hide Serve, Stageable;
  }

  lemma ServeApply(w: World, sid: Sid)
    requires Inv(w) && InFlight(w, sid)
    ensures var (x, code) := Serve(w, Request.Apply(sid));
      && Inv(x) && x.record == w.record && x.confirmed == w.confirmed && x.committed == w.committed
      && x.nextSid == w.nextSid && x.sessions == w.sessions && x.now == w.now
      && (forall s :: s in x.staged ==> s in w.staged)
      && (code == OK ==>
           && x.pending == Some(Pending(sid, w.confirmed, w.now + APPLY_TIMEOUT))
           && x.active == ApplyOps(w.confirmed, StagedOps(w, sid)))
      && (code != OK ==> x == w)
      && (code == OK <==> sid in w.sessions && w.pending.None?)
  {
    ServeKeepsInv(w, Request.Apply(sid));
  }

  /** However the apply fares: what it leaves alone, what its success means, and when it is carried out. */
  lemma ApplyKeeps(w: World, s: Step, sid: Sid)
    requires Inv(w) && InFlight(w, sid)
    ensures var x := if s.crash then Elapse(w, s) else Transmit(w, s, Request.Apply(sid)).0;
      && Inv(x) && x.record == w.record && x.confirmed == w.confirmed && x.committed == w.committed
      && x.nextSid == w.nextSid && x.sessions <= w.sessions && x.now == Elapse(w, s).now
      && (forall s :: s in x.staged ==> s in w.staged)
      && (!s.crash && Transmit(w, s, Request.Apply(sid)).1 == OK ==>
           && x.pending.Some? && x.pending.value.sid == sid && x.pending.value.snapshot == w.confirmed
           && w.record.deadline <= x.pending.value.expiry
           && x.active == ApplyOps(w.confirmed, StagedOps(w, sid)))
      && (var here := Elapse(w, s);
          if !s.crash && s.outcome != Fail && sid in here.sessions && here.pending.None?
          then x.pending == Some(Pending(sid, w.confirmed, here.now + APPLY_TIMEOUT))
               && x.active == ApplyOps(w.confirmed, StagedOps(w, sid))
          else OnlyEnded(w, x) && x.pending == here.pending)
    ensures Benign(s) && w.pending.None? && sid in w.sessions ==> Transmit(w, s, Request.Apply(sid)).1 == OK
  {
    ElapseUndo(w, s);
    ServeApply(Elapse(w, s), sid);
    hide Inv, Serve, ApplyOps;
  }

  /** What an unsuccessful request and its clean-up leave pending. */
  lemma Stranding(w: World, asked: World, after: World, script: Script, k: nat, sid: Sid, crashed: bool)
    requires InFlight(w, sid) && !script(k).crash && asked.record == w.record && asked.now == Elapse(w, script(k)).now
    requires Transmit(w, script(k), Request.Apply(sid)).1 != OK
    requires var here := Elapse(w, script(k));
      if script(k).outcome != Fail && sid in here.sessions && here.pending.None?
      then asked.pending == Some(Pending(sid, w.confirmed, here.now + APPLY_TIMEOUT))
      else asked.pending == here.pending
    requires OnlyEnded(asked, after) && after.record == if crashed then w.record else Absent
    requires crashed == CrashesWithin(script, k + 1)
    requires !crashed && asked.pending.Some? && asked.pending.value.sid == sid ==>
      (after.pending.Some? <==> script(k + 1).outcome == Fail
                                && Waits(asked.now, asked.pending.value.expiry, script, k + 1, 4))
    ensures Stranded(after) <==> (Stranded(w) && after.pending == w.pending) || Strands(w, script, k, sid)
    ensures Strands(w, script, k, sid) ==>
      && !crashed && after.pending.Some? && after.pending == asked.pending && after.active == asked.active
      && after.pending.value.sid == sid && after.pending.value.snapshot == w.confirmed
    ensures !crashed && !Strands(w, script, k, sid) ==> after.pending in {w.pending, None}
  {
    hide Waits;
  }

  /** An undo that reaches rpcd leaves nothing of the session pending; a destroy ends the session. */
  lemma UndoNarrows(w: World, s: Step, r: Request)
    requires r.Rollback? || r.Destroy?
    ensures var x := if s.crash then Elapse(w, s) else Transmit(w, s, r).0;
      && x.sessions <= w.sessions && x.now == w.now + s.advance
      && (!s.crash && s.outcome != Fail && r.Destroy? ==> r.sid !in x.sessions)
      && (w.pending.Some? && w.pending.value.sid == r.sid ==>
           x.pending == if Fires(w, s) || (!s.crash && s.outcome != Fail && r.Rollback?) then None else w.pending)
  {
  }

  lemma RevertKeeps(w: World, s: Step, sid: Sid)
    requires Inv(w)
    ensures var x := if s.crash then Elapse(w, s) else Transmit(w, s, Revert(sid)).0;
      && Inv(x) && OnlyEnded(w, x)
      && x.record == w.record && x.confirmed == w.confirmed && x.committed == w.committed
      && x.nextSid == w.nextSid && x.sessions <= w.sessions && x.now == w.now + s.advance
      && x.pending == (if Fires(w, s) then None else w.pending)
      && (forall s :: s in x.staged ==> s in w.staged)
      && (!s.crash && s.outcome != Fail ==> sid !in x.staged)
  {
    ElapseUndo(w, s);
    ServeKeepsInv(Elapse(w, s), Revert(sid));
    hide Inv;
  }

  /** What is left pending behind the four calls of the clean-up. */
  lemma FourCalls(w0: World, w1: World, w2: World, w3: World, w4: World, script: Script, at: nat, sid: Sid)
    requires var s := script(at);
      && !s.crash && w1.now == w0.now + s.advance
      && (w0.pending.Some? && w0.pending.value.sid == sid ==>
           w1.pending == if Fires(w0, s) || s.outcome != Fail then None else w0.pending)
    requires w2.now == w1.now + script(at + 1).advance
    requires w2.pending == if Fires(w1, script(at + 1)) then None else w1.pending
    requires w3.now == w2.now + script(at + 2).advance
    requires w2.pending.Some? && w2.pending.value.sid == sid ==>
      w3.pending == if Fires(w2, script(at + 2)) then None else w2.pending
    requires w2.pending.None? ==> w3.pending.None?
    requires w4.pending == if Fires(w3, script(at + 3)) then None else w3.pending
    ensures w0.pending.Some? && w0.pending.value.sid == sid ==>
      (w4.pending.Some? <==> script(at).outcome == Fail && Waits(w0.now, w0.pending.value.expiry, script, at, 4))
  {
  }

  lemma RecordFacts(w: World)
    requires Inv(w)
    ensures w.pending.None? ==> w.active == w.confirmed
    ensures w.pending.Some? ==> w.pending.value.sid !in w.committed
    ensures w.record.Recorded? ==>
      && w.record.sid in w.baseline
      && (w.record.sid !in w.committed ==> w.baseline[w.record.sid] == w.confirmed)
      && (w.record.sid in w.committed ==> w.pending.None?)
      && (w.pending.Some? && w.pending.value.sid == w.record.sid ==> w.record.deadline <= w.pending.value.expiry)
  {
  }

  lemma ServeConfirm(w: World, sid: Sid)
    requires Inv(w) && w.record.Recorded? && w.record.sid == sid
    ensures var (x, code) := Serve(w, Request.Confirm(sid));
      && Inv(x) && x.record == w.record && x.now == w.now
      && (code == OK <==> w.pending.Some? && w.pending.value.sid == sid)
      && (code == NO_DATA <==> w.pending.None?)
      && (code == OK ==>
           && x.pending.None? && x.active == w.active && x.confirmed == w.active
           && x.committed == w.committed + {sid})
      && (code != OK ==> x == w)
  {
    ServeKeepsInv(w, Request.Confirm(sid));
  }

  /** However a confirmation fares. */
  lemma ConfirmKeeps(w: World, s: Step, sid: Sid)
    requires Inv(w) && w.record.Recorded? && w.record.sid == sid
    ensures var x := if s.crash then Elapse(w, s) else Transmit(w, s, Request.Confirm(sid)).0;
      && Inv(x) && x.record == w.record && x.now >= w.now && x.pending in {w.pending, None}
      && (if Commits(w, s, sid)
          then x.committed == w.committed + {sid} && x.confirmed == w.active && x.active == w.active && x.pending.None?
          else x.committed == w.committed && x.confirmed == w.confirmed)
      && (!s.crash && Transmit(w, s, Request.Confirm(sid)).1 == OK ==> s.outcome in {Deliver, Garbled} && Commits(w, s, sid))
      && (!s.crash && Transmit(w, s, Request.Confirm(sid)).1 == NO_DATA ==> x.pending.None? && !Commits(w, s, sid))
      && (Commits(w, s, sid) && s.outcome in {Deliver, Garbled} ==> Transmit(w, s, Request.Confirm(sid)).1 == OK)
    ensures Benign(s) && (w.pending.Some? ==> w.pending.value.sid == sid) ==>
      Transmit(w, s, Request.Confirm(sid)).1 in {OK, NO_DATA}
  {
    ElapseUndo(w, s);
    ServeConfirm(Elapse(w, s), sid);
    hide Inv, Serve;
  }
}
