/** The upgrade reconciler's durable record (src/main.rs, `apply_upgrade`; src/upgrade.rs): phases
    written one by one, and a flag that remembers that a daemon has to be restarted. */
module Upgrade {
  import opened Wrappers

  datatype Phase =
    | Starting
    | ExternalDaemonActionRequired
    | DaemonStopped
    | ReconcilingAuthority
    | AuthorityCommitted
    | AuthorityVerificationFailed
    | InstallingReranker
    | LocalStateReconciled
    | DaemonRestartFailed
    | Complete

  datatype UpgradeState = UpgradeState(target: string, phase: Phase, priorRunning: bool, previousVersion: Option<string>,
                                       backup: Option<string>, schema: Option<int>)

  datatype Doctor = Doctor(binaryVersion: string, lifecycleOwner: string, schema: int)

  datatype Probe = Unreachable | ProbeError | Reached(doctor: Doctor)

  datatype Verification = NotVerified | Verification(ok: bool)

  datatype Store = NoStore | OpenFails | Opened(backup: Option<string>, schema: int, verification: Verification)

  datatype Restart = StartFails | WaitFails | Answered(doctor: Doctor)

  /** Everything one attempt learns from the outside, in the order it asks. */
  datatype Attempt = Attempt(probe: Probe, legacyWasRunning: bool, previousVersion: Option<string>, explicitEndpoint: bool,
                             stopFails: bool, lockHeld: bool, store: Store, rerankerWanted: bool, restart: Restart)

  /** What an attempt leaves in the log: durable writes of the record, and the facts it established. */
  datatype Event =
    | Begin
    | Write(state: UpgradeState)
    | StoreAbsent
    | StoreVerified(ok: bool)
    | HealthPassed

  datatype Outcome = Success | PostCommit | Failure

  const SCHEMA_VERSION := 5
  const OWNER := "memoree"

  predicate Resumable(version: string, r: UpgradeState) {
    r.target == version && r.phase != Complete
  }

  function FirstSome(a: Option<string>, b: Option<string>): Option<string> {
    if a.Some? then a else b
  }

  function PreviousVersion(record: Option<UpgradeState>, a: Attempt): Option<string> {
    FirstSome(a.previousVersion,
      FirstSome(if a.probe.Reached? && a.probe.doctor.binaryVersion != "" then Some(a.probe.doctor.binaryVersion) else None,
        if record.Some? then record.value.previousVersion else None))
  }

  /** The record an attempt starts from: what it observes, merged with an unfinished attempt for the same version. */
  function InitialState(version: string, record: Option<UpgradeState>, a: Attempt): UpgradeState {
    var resumed := record.Some? && Resumable(version, record.value);
    UpgradeState(version, Starting,
      a.probe.Reached? || a.legacyWasRunning || (resumed && record.value.priorRunning),
      PreviousVersion(record, a),
      if resumed then record.value.backup else None,
      if resumed then record.value.schema else None)
  }

  predicate MayStop(record: Option<UpgradeState>, a: Attempt)
    requires a.probe.Reached?
  {
    var version := PreviousVersion(record, a);
    || a.probe.doctor.lifecycleOwner == OWNER
    || (a.probe.doctor.binaryVersion == "" && a.legacyWasRunning && version.Some? && IsLegacy(version.value))
  }

  function TrimV(s: string): string {
    if s != [] && s[0] == 'v' then TrimV(s[1..]) else s
  }

  predicate IsLegacy(version: string) {
    "0.2." <= TrimV(version)
  }

  predicate Healthy(version: string, doctor: Doctor) {
    doctor.binaryVersion == version && doctor.schema == SCHEMA_VERSION && doctor.lifecycleOwner == OWNER
  }

  // ----- The trace of one uninterrupted attempt, in three stages

  function At(s: UpgradeState, phase: Phase): Event {
    Write(s.(phase := phase))
  }

  /** The attempt gets as far as holding the data directory's lock. */
  predicate Proceeds(record: Option<UpgradeState>, a: Attempt) {
    && !a.probe.ProbeError?
    && !a.explicitEndpoint
    && (a.probe.Reached? ==> MayStop(record, a) && !a.stopFails)
    && !a.lockHeld
  }

  function StartTrace(record: Option<UpgradeState>, s: UpgradeState, a: Attempt): seq<Event> {
    if a.probe.ProbeError? then [Begin] else [Begin, At(s, Starting)] + ClaimTrace(record, s, a)
  }

  /** How an attempt comes to hold the lock, or not. */
  function ClaimTrace(record: Option<UpgradeState>, s: UpgradeState, a: Attempt): seq<Event> {
    if a.explicitEndpoint || (a.probe.Reached? && !MayStop(record, a)) then [At(s, ExternalDaemonActionRequired)]
    else if a.probe.Reached? && a.stopFails then []
    else
      (if a.probe.Reached? then [At(s, DaemonStopped)] else [])
      + (if a.lockHeld then [At(s, ExternalDaemonActionRequired)] else [])
  }

  function AfterStore(s: UpgradeState, store: Store): UpgradeState {
    if store.Opened? then s.(backup := FirstSome(store.backup, s.backup), schema := Some(store.schema)) else s
  }

  /** There is no store, or it opened and verified. */
  predicate StoreIsSafe(store: Store) {
    store.NoStore? || (store.Opened? && store.verification == Verification(true))
  }

  function StoreTrace(s: UpgradeState, a: Attempt): seq<Event> {
    match a.store
    case NoStore => [StoreAbsent]
    case OpenFails => [At(s, ReconcilingAuthority)]
    case Opened(_, _, verification) =>
      var s' := AfterStore(s, a.store);
      [At(s, ReconcilingAuthority), At(s', AuthorityCommitted)]
      + match verification
        case NotVerified => []
        case Verification(ok) =>
          if !ok then [StoreVerified(false), At(s', AuthorityVerificationFailed)]
          else if a.rerankerWanted then [StoreVerified(true), At(s', InstallingReranker)]
          else [StoreVerified(true)]
  }

  function RestartTrace(version: string, s: UpgradeState, restart: Restart): seq<Event> {
    if !s.priorRunning then [At(s, LocalStateReconciled), At(s, Complete)]
    else match restart
      case StartFails => [At(s, LocalStateReconciled), At(s, DaemonRestartFailed)]
      case WaitFails => [At(s, LocalStateReconciled), At(s, DaemonRestartFailed), At(s, DaemonRestartFailed)]
      case Answered(doctor) =>
        if doctor.binaryVersion != version then [At(s, LocalStateReconciled)]
        else if !Healthy(version, doctor) then
          [At(s, LocalStateReconciled), At(s, DaemonRestartFailed), At(s, DaemonRestartFailed)]
        else [At(s, LocalStateReconciled), HealthPassed, At(s, Complete)]
  }

  function Trace(version: string, record: Option<UpgradeState>, a: Attempt): seq<Event> {
    TraceFrom(version, record, InitialState(version, record, a), a)
  }

  function TraceFrom(version: string, record: Option<UpgradeState>, s: UpgradeState, a: Attempt): seq<Event> {
    StartTrace(record, s, a)
    + if !Proceeds(record, a) then []
      else StoreTrace(s, a) + if !StoreIsSafe(a.store) then [] else RestartTrace(version, AfterStore(s, a.store), a.restart)
  }

  predicate RestartSucceeds(version: string, priorRunning: bool, restart: Restart) {
    priorRunning ==> restart.Answered? && Healthy(version, restart.doctor)
  }

  /** When an attempt closes the record: the data directory is free, the store safe, and the daemon,
      if one has to be restarted, healthy. */
  predicate SucceedsFrom(version: string, record: Option<UpgradeState>, s: UpgradeState, a: Attempt) {
    && Proceeds(record, a)
    && StoreIsSafe(a.store)
    && RestartSucceeds(version, s.priorRunning, a.restart)
  }

  // When an attempt ends with an error, rather than with the exit code for what is left to do.

  predicate StartBreaks(record: Option<UpgradeState>, a: Attempt) {
    a.probe.ProbeError? || (!a.explicitEndpoint && a.probe.Reached? && MayStop(record, a) && a.stopFails)
  }

  predicate StoreBreaks(store: Store) {
    store.OpenFails? || (store.Opened? && store.verification.NotVerified?)
  }

  predicate RestartBreaks(version: string, priorRunning: bool, restart: Restart) {
    priorRunning && restart.Answered? && restart.doctor.binaryVersion != version
  }

  predicate BreaksFrom(version: string, record: Option<UpgradeState>, s: UpgradeState, a: Attempt) {
    || StartBreaks(record, a)
    || (Proceeds(record, a) && StoreBreaks(a.store))
    || (Proceeds(record, a) && StoreIsSafe(a.store) && RestartBreaks(version, s.priorRunning, a.restart))
  }

  // ----- What one attempt leaves

  /** Only the program's own daemon is stopped, or one of version 0.2 that says nothing about itself. */
  ghost predicate OwnDaemon(record: Option<UpgradeState>, a: Attempt)
    requires a.probe.Reached?
  {
    || a.probe.doctor.lifecycleOwner == "memoree"
    || (a.probe.doctor.binaryVersion == "" && a.legacyWasRunning
        && match a.previousVersion
           case Some(v) => IsVersion02(v)
           case None => record.Some? && record.value.previousVersion.Some? && IsVersion02(record.value.previousVersion.value))
  }

  ghost predicate IsVersion02(version: string) {
    exists n :: 0 <= n <= |version| && (forall i :: 0 <= i < n ==> version[i] == 'v') && "0.2." <= version[n..]
  }

  lemma {:induction false} LegacyIsVersion02(version: string)
    ensures IsLegacy(version) <==> IsVersion02(version)
  {
    if version != [] && version[0] == 'v' {
      LegacyIsVersion02(version[1..]);
      if IsVersion02(version[1..]) {
        var n :| 0 <= n <= |version[1..]| && (forall i :: 0 <= i < n ==> version[1..][i] == 'v') && "0.2." <= version[1..][n..];
        assert version[1..][n..] == version[n + 1..];
        assert forall i :: 0 <= i < n + 1 ==> version[i] == 'v';
      }
      if IsVersion02(version) {
        var n :| 0 <= n <= |version| && (forall i :: 0 <= i < n ==> version[i] == 'v') && "0.2." <= version[n..];
        assert n > 0 by { assert version[0..][0] == 'v'; }
        assert version[1..][n - 1..] == version[n..];
      }
    } else {
      if IsVersion02(version) {
        var n :| 0 <= n <= |version| && (forall i :: 0 <= i < n ==> version[i] == 'v') && "0.2." <= version[n..];
        assert n == 0;
        assert version[0..] == version;
      } else {
        assert version[0..] == version;
      }
    }
  }

  lemma OnlyOwnDaemonsStop(record: Option<UpgradeState>, a: Attempt)
    requires a.probe.Reached?
    ensures MayStop(record, a) <==> OwnDaemon(record, a)
  {
    if PreviousVersion(record, a).Some? {
      LegacyIsVersion02(PreviousVersion(record, a).value);
    }
  }

  /** The phase recorded at the end of an attempt that is not cut off; none if the daemon's answer
      could not be read. */
  ghost function FinalPhase(version: string, record: Option<UpgradeState>, a: Attempt): Option<Phase> {
    if a.probe.ProbeError? then None
    else if a.explicitEndpoint || (a.probe.Reached? && !OwnDaemon(record, a)) then Some(ExternalDaemonActionRequired)
    else if a.probe.Reached? && a.stopFails then Some(Starting)
    else if a.lockHeld then Some(ExternalDaemonActionRequired)
    else match a.store
      case OpenFails => Some(ReconcilingAuthority)
      case Opened(_, _, NotVerified) => Some(AuthorityCommitted)
      case Opened(_, _, Verification(false)) => Some(AuthorityVerificationFailed)
      case _ =>
        if !WasRunning(version, record, a) then Some(Complete)
        else match a.restart
          case Answered(doctor) =>
            if doctor.binaryVersion != version then Some(LocalStateReconciled)
            else if doctor.schema == 5 && doctor.lifecycleOwner == "memoree" then Some(Complete)
            else Some(DaemonRestartFailed)
          case _ => Some(DaemonRestartFailed)
  }

  /** A daemon answers, was seen before, or is remembered by an unfinished attempt for this version. */
  predicate WasRunning(version: string, record: Option<UpgradeState>, a: Attempt) {
    || a.probe.Reached? || a.legacyWasRunning
    || (record.Some? && record.value.target == version && record.value.phase != Complete && record.value.priorRunning)
  }

  ghost function Authority(version: string, record: Option<UpgradeState>, a: Attempt): (Option<string>, Option<int>) {
    var resumed := record.Some? && record.value.target == version && record.value.phase != Complete;
    var (backup, schema) := (if resumed then record.value.backup else None, if resumed then record.value.schema else None);
    if ReachesStore(record, a) && a.store.Opened? then (if a.store.backup.Some? then a.store.backup else backup, Some(a.store.schema))
    else (backup, schema)
  }

  ghost predicate ReachesStore(record: Option<UpgradeState>, a: Attempt) {
    && !a.probe.ProbeError? && !a.explicitEndpoint && !a.lockHeld
    && (a.probe.Reached? ==> OwnDaemon(record, a) && !a.stopFails)
  }

  /** What the last record of an attempt says. A backup and a schema are those of the store if it was
      opened, or else those an unfinished attempt for this version has left. */
  lemma AttemptLeaves(version: string, record: Option<UpgradeState>, a: Attempt)
    ensures var last := LastRecord(record, Trace(version, record, a));
            match FinalPhase(version, record, a)
            case None => last == record
            case Some(phase) =>
              && last.Some? && last.value.phase == phase && last.value.target == version
              && last.value.priorRunning == WasRunning(version, record, a)
              && last.value.previousVersion == PreviousVersion(record, a)
              && (last.value.backup, last.value.schema) == Authority(version, record, a)
  {
    var s := InitialState(version, record, a);
    if a.probe.Reached? {
      OnlyOwnDaemonsStop(record, a);
    }
    if Proceeds(record, a) {
      LastRecordAppends(record, StartTrace(record, s, a), StoreTrace(s, a) + if !StoreIsSafe(a.store) then [] else RestartTrace(version, AfterStore(s, a.store), a.restart));
      StoreLeaves(version, LastRecord(record, StartTrace(record, s, a)), s, a);
    } else {
      assert Trace(version, record, a) == StartTrace(record, s, a);
      StartLeaves(record, s, a);
    }
  }

  lemma StartLeaves(record: Option<UpgradeState>, s: UpgradeState, a: Attempt)
    requires !Proceeds(record, a)
    ensures LastRecord(record, StartTrace(record, s, a)) ==
            if a.probe.ProbeError? then record
            else Some(s.(phase := if !a.explicitEndpoint && a.probe.Reached? && MayStop(record, a) && a.stopFails then Starting
                                  else ExternalDaemonActionRequired))
  {
    var t := StartTrace(record, s, a);
    if a.probe.ProbeError? {
      assert t[..0] == [];
    } else {
      assert t[|t| - 1].Write?;
    }
  }

  lemma StoreLeaves(version: string, before: Option<UpgradeState>, s: UpgradeState, a: Attempt)
    requires s.phase == Starting
    ensures var t := StoreTrace(s, a) + if !StoreIsSafe(a.store) then [] else RestartTrace(version, AfterStore(s, a.store), a.restart);
            var now := AfterStore(s, a.store);
            LastRecord(before, t) == Some(
              match a.store
              case OpenFails => s.(phase := ReconcilingAuthority)
              case Opened(_, _, NotVerified) => now.(phase := AuthorityCommitted)
              case Opened(_, _, Verification(false)) => now.(phase := AuthorityVerificationFailed)
              case _ =>
                now.(phase := if !s.priorRunning || (a.restart.Answered? && Healthy(version, a.restart.doctor)) then Complete
                              else if a.restart.Answered? && a.restart.doctor.binaryVersion != version then LocalStateReconciled
                              else DaemonRestartFailed))
  {
    if StoreIsSafe(a.store) {
      var r := RestartTrace(version, AfterStore(s, a.store), a.restart);
      LastRecordAppends(before, StoreTrace(s, a), r);
      assert r[|r| - 1].Write?;
    } else {
      var t := StoreTrace(s, a);
      assert t + [] == t && t[|t| - 1].Write?;
    }
  }

  // ----- The reconciler itself

  /** The record left by a log. */
  function LastRecord(initial: Option<UpgradeState>, log: seq<Event>): Option<UpgradeState> {
    if log == [] then initial
    else if log[|log| - 1].Write? then Some(log[|log| - 1].state)
    else LastRecord(initial, log[..|log| - 1])
  }

  lemma {:induction false} LastRecordAppends(initial: Option<UpgradeState>, a: seq<Event>, b: seq<Event>)
    ensures LastRecord(initial, a + b) == LastRecord(LastRecord(initial, a), b)
    decreases |b|
  {
    if b == [] {
      assert a + b == a;
    } else {
      assert (a + b)[..|a + b| - 1] == a + b[..|b| - 1];
      LastRecordAppends(initial, a, b[..|b| - 1]);
    }
  }

  class Reconciler {
    const version: string
    const initial: Option<UpgradeState>
    var record: Option<UpgradeState>
    var log: seq<Event>

    /** The durable record is the last one written. */
    ghost predicate Valid()
      reads this
    {
      record == LastRecord(initial, log)
    }

    constructor (version: string, record: Option<UpgradeState>)
      ensures Valid() && this.version == version && initial == record && log == []
    {
      this.version := version;
      this.initial := record;
      this.record := record;
      log := [];
    }

    /** `write_upgrade_state`: atomic and durable. */
    method WriteState(s: UpgradeState)
      modifies this
      ensures Valid() && record == Some(s) && log == old(log) + [Write(s)]
    {
      record := Some(s);
      log := log + [Write(s)];
    }

    method Note(e: Event)
      requires Valid() && !e.Write?
      modifies this`log
      ensures Valid() && log == old(log) + [e]
    {
      log := log + [e];
      assert log[..|log| - 1] == old(log);
    }

    /** `apply_upgrade` up to the lock on the data directory. */
    method Start(previous: Option<UpgradeState>, state: UpgradeState, a: Attempt) returns (daemonStopped: bool, stop: Option<Outcome>)
      requires Valid() && state.phase == Starting
      modifies this
      ensures Valid() && log == old(log) + StartTrace(previous, state, a)
      ensures stop.None? <==> Proceeds(previous, a)
      ensures stop != Some(Success) && (stop == Some(Failure) <==> StartBreaks(previous, a))
      ensures stop.None? ==> (daemonStopped <==> a.probe.Reached?)
    {
      Note(Begin);
      if a.probe.ProbeError? {
        return false, Some(Failure);
      }
      WriteState(state);
      assert Write(state) == At(state, Starting) && log == old(log) + [Begin, At(state, Starting)];
      daemonStopped, stop := Claim(previous, state, a);
      Regroup(old(log), [Begin, At(state, Starting)], ClaimTrace(previous, state, a), []);
    }

    /** From the first record to the lock: an own daemon is stopped. */
    method Claim(previous: Option<UpgradeState>, state: UpgradeState, a: Attempt) returns (daemonStopped: bool, stop: Option<Outcome>)
      requires Valid() && state.phase == Starting && !a.probe.ProbeError?
      modifies this
      ensures Valid() && log == old(log) + ClaimTrace(previous, state, a)
      ensures stop.None? <==> Proceeds(previous, a)
      ensures stop != Some(Success) && (stop == Some(Failure) <==> StartBreaks(previous, a))
      ensures stop.None? ==> (daemonStopped <==> a.probe.Reached?)
    {
      daemonStopped := false;
      if a.explicitEndpoint {
        WriteState(state.(phase := ExternalDaemonActionRequired));
        return false, Some(PostCommit);
      }
      if a.probe.Reached? {
        if !MayStop(previous, a) {
          WriteState(state.(phase := ExternalDaemonActionRequired));
          return false, Some(PostCommit);
        }
        if a.stopFails {
          return false, Some(Failure);
        }
        daemonStopped := true;
        WriteState(state.(phase := DaemonStopped));
      }
      if a.lockHeld {
        WriteState(state.(phase := ExternalDaemonActionRequired));
        return daemonStopped, Some(PostCommit);
      }
      stop := None;
    }

    /** Its middle: open and verify the store, if there is one. */
    method OpenStore(s: UpgradeState, a: Attempt) returns (state: UpgradeState, stop: Option<Outcome>)
      requires Valid()
      modifies this
      ensures Valid() && log == old(log) + StoreTrace(s, a)
      ensures stop.None? <==> StoreIsSafe(a.store)
      ensures stop != Some(Success) && (stop == Some(Failure) <==> StoreBreaks(a.store))
      ensures stop.None? ==> state == AfterStore(s, a.store)
    {
      state := s;
      match a.store {
        case NoStore =>
          Note(StoreAbsent);
        case OpenFails =>
          WriteState(state.(phase := ReconcilingAuthority));
          return state, Some(Failure);
        case Opened(_, _, verification) =>
          WriteState(state.(phase := ReconcilingAuthority));
          state := AfterStore(state, a.store);
          WriteState(state.(phase := AuthorityCommitted));
          if verification == NotVerified {
            return state, Some(Failure);
          }
          Note(StoreVerified(verification.ok));
          if !verification.ok {
            WriteState(state.(phase := AuthorityVerificationFailed));
            return state, Some(PostCommit);
          }
          if a.rerankerWanted {
            WriteState(state.(phase := InstallingReranker));
          }
      }
      stop := None;
    }

    /** Its end: restart the daemon that was running before, and close the record. */
    method RestartDaemon(s: UpgradeState, a: Attempt, daemonStopped: bool) returns (outcome: Outcome)
      requires Valid()
      requires daemonStopped <==> a.probe.Reached?
      requires a.probe.Reached? ==> s.priorRunning
      modifies this
      ensures Valid() && log == old(log) + RestartTrace(version, s, a.restart)
      ensures outcome == Success <==> RestartSucceeds(version, s.priorRunning, a.restart)
      ensures outcome == Failure <==> RestartBreaks(version, s.priorRunning, a.restart)
    {
      WriteState(s.(phase := LocalStateReconciled));
      var shouldRestart := s.priorRunning && (daemonStopped || !a.probe.Reached?);
      var failed := false;
      if shouldRestart {
        match a.restart {
          case StartFails =>
            WriteState(s.(phase := DaemonRestartFailed));
            return PostCommit;
          case WaitFails =>
            WriteState(s.(phase := DaemonRestartFailed));
            failed := true;
          case Answered(doctor) =>
            if doctor.binaryVersion != version {
              return Failure;
            }
            if doctor.schema != SCHEMA_VERSION || doctor.lifecycleOwner != OWNER {
              WriteState(s.(phase := DaemonRestartFailed));
              failed := true;
            } else {
              Note(HealthPassed);
            }
        }
      } else if a.probe.Reached? {
        assert false; // a daemon that was observed has been stopped by now: `already_current` is never reported
      }
      WriteState(s.(phase := if failed then DaemonRestartFailed else Complete));
      outcome := if failed then PostCommit else Success;
    }

    /** `apply_upgrade` once the starting record is known. */
    method Continue(previous: Option<UpgradeState>, initialState: UpgradeState, a: Attempt) returns (outcome: Outcome)
      requires Valid() && initialState.phase == Starting && (a.probe.Reached? ==> initialState.priorRunning)
      modifies this
      ensures Valid() && log == old(log) + TraceFrom(version, previous, initialState, a)
      ensures outcome == Success <==> SucceedsFrom(version, previous, initialState, a)
      ensures outcome == Failure <==> BreaksFrom(version, previous, initialState, a)
    {
      var state := initialState;
      var daemonStopped, stop := Start(previous, state, a);
      if stop.Some? {
        NothingMore(old(log), StartTrace(previous, initialState, a));
        return stop.value;
      }
      state, stop := OpenStore(state, a);
      if stop.Some? {
        Regroup(old(log), StartTrace(previous, initialState, a), StoreTrace(initialState, a), []);
        return stop.value;
      }
      outcome := RestartDaemon(state, a, daemonStopped);
      Regroup(old(log), StartTrace(previous, initialState, a), StoreTrace(initialState, a), RestartTrace(version, state, a.restart));
    }

    /** `apply_upgrade`. */
    method Apply(a: Attempt) returns (outcome: Outcome)
      requires Valid()
      modifies this
      ensures Valid() && log == old(log) + Trace(version, old(record), a)
      ensures outcome == Success <==> SucceedsFrom(version, old(record), InitialState(version, old(record), a), a)
      ensures outcome == Failure <==> BreaksFrom(version, old(record), InitialState(version, old(record), a), a)
    {
      outcome := Continue(record, InitialState(version, record, a), a);
    }
  }

  lemma NothingMore(log: seq<Event>, x: seq<Event>)
    ensures log + x == log + (x + [])
  {
  }

  lemma Regroup(log: seq<Event>, x: seq<Event>, y: seq<Event>, z: seq<Event>)
    ensures log + x + y + z == log + (x + (y + z))
    ensures log + x + y == log + x + y + []
  {
  }

  // ----- Many attempts, each cut off anywhere

  /** An attempt and how many of its events happened before it was cut off. */
  datatype Cut = Cut(attempt: Attempt, events: nat)

  function Prefix(t: seq<Event>, n: nat): seq<Event> {
    if n <= |t| then t[..n] else t
  }

  /** The log of a series of attempts for one target version, starting from whatever record there was. */
  function Log(version: string, initial: Option<UpgradeState>, cuts: seq<Cut>): seq<Event> {
    if cuts == [] then
      if initial.Some? then [Write(initial.value)] else []
    else
      var before := Log(version, initial, cuts[..|cuts| - 1]);
      var last := cuts[|cuts| - 1];
      before + Prefix(Trace(version, LastRecord(None, before), last.attempt), last.events)
  }

  predicate IsComplete(e: Event) {
    e.Write? && e.state.phase == Complete
  }

  predicate Remembers(version: string, e: Event) {
    e.Write? && e.state.target == version && e.state.priorRunning
  }

  /** The flag is still set in the later of two writes, or some completion lies between. */
  ghost predicate FlagKept(log: seq<Event>, i: nat, j: nat)
    requires i < j < |log| && log[j].Write?
  {
    (exists k :: i <= k < j && IsComplete(log[k])) || log[j].state.priorRunning
  }

  /** Between two writes without a completion from the first on, the flag is not lost. */
  ghost predicate FlagSurvives(version: string, log: seq<Event>) {
    forall i, j | 0 <= i < j < |log| && Remembers(version, log[i]) && log[j].Write? :: FlagKept(log, i, j)
  }

  /** Since the attempt began, `e` happened before position `j`. */
  ghost predicate Earlier(log: seq<Event>, j: int, e: Event) {
    exists i :: 0 <= i < j <= |log| && log[i] == e && NoBegin(log, i, j)
  }

  ghost predicate NoBegin(log: seq<Event>, i: int, j: int) {
    forall k :: 0 <= i <= k < j <= |log| ==> log[k] != Begin
  }

  /** Completion is recorded only in an attempt that found the store absent or verified, and, with
      the flag set, only after the restarted daemon passed its health check. */
  ghost predicate Earned(log: seq<Event>, j: int)
    requires 0 <= j < |log|
  {
    IsComplete(log[j]) ==>
      && (Earlier(log, j, StoreAbsent) || Earlier(log, j, StoreVerified(true)))
      && (log[j].state.priorRunning ==> Earlier(log, j, HealthPassed))
  }

  ghost predicate CompletionIsEarned(log: seq<Event>, from: nat) {
    forall j :: from <= j < |log| ==> Earned(log, j)
  }

  // ----- One trace

  /** What all writes of one attempt share. */
  ghost predicate Uniform(t: seq<Event>, version: string, flag: bool) {
    forall e :: e in t && e.Write? ==> e.state.target == version && e.state.priorRunning == flag
  }

  ghost predicate Quiet(t: seq<Event>) {
    forall e :: e in t ==> !IsComplete(e)
  }

  lemma StartFacts(record: Option<UpgradeState>, s: UpgradeState, a: Attempt)
    ensures var t := StartTrace(record, s, a);
            && t != [] && t[0] == Begin && Begin !in t[1..]
            && Quiet(t) && Uniform(t, s.target, s.priorRunning)
  {
  }

  lemma StoreFacts(s: UpgradeState, a: Attempt)
    ensures var t := StoreTrace(s, a);
            && Begin !in t && Quiet(t) && Uniform(t, s.target, s.priorRunning)
            && (StoreIsSafe(a.store) ==> StoreAbsent in t || StoreVerified(true) in t)
  {
  }

  lemma RestartFacts(version: string, s: UpgradeState, restart: Restart)
    ensures var t := RestartTrace(version, s, restart);
            && Begin !in t && Uniform(t, s.target, s.priorRunning)
            && (forall i :: 0 <= i < |t| && IsComplete(t[i]) && s.priorRunning ==> 1 < i && t[1] == HealthPassed)
  {
  }

  lemma TraceIsUniform(version: string, record: Option<UpgradeState>, s: UpgradeState, a: Attempt)
    ensures Uniform(TraceFrom(version, record, s, a), s.target, s.priorRunning)
    ensures TraceFrom(version, record, s, a)[0] == Begin
  {
    StartFacts(record, s, a);
    StoreFacts(s, a);
    RestartFacts(version, AfterStore(s, a.store), a.restart);
  }

  /** An event and a later position in the same attempt. */
  lemma EarlierFrom(t: seq<Event>, i: nat, j: nat, e: Event)
    requires 0 < i < j <= |t| && t[i] == e && Begin !in t[1..]
    ensures Earlier(t, j, e)
  {
  }

  lemma TraceIsEarned(version: string, record: Option<UpgradeState>, s: UpgradeState, a: Attempt)
    ensures CompletionIsEarned(TraceFrom(version, record, s, a), 0)
  {
    var t := TraceFrom(version, record, s, a);
    StartFacts(record, s, a);
    if Proceeds(record, a) && StoreIsSafe(a.store) {
      var x, y, z := StartTrace(record, s, a), StoreTrace(s, a), RestartTrace(version, AfterStore(s, a.store), a.restart);
      StoreFacts(s, a);
      RestartFacts(version, AfterStore(s, a.store), a.restart);
      StagesAreEarned(x, y, z, s.priorRunning);
      assert t == x + (y + z);
    } else {
      StoreFacts(s, a);
      assert Quiet(t);
    }
  }

  lemma StagesAreEarned(x: seq<Event>, y: seq<Event>, z: seq<Event>, flag: bool)
    requires x != [] && x[0] == Begin && Begin !in x[1..] && Quiet(x)
    requires Begin !in y && Quiet(y) && (StoreAbsent in y || StoreVerified(true) in y)
    requires Begin !in z && (forall e :: e in z && e.Write? ==> e.state.priorRunning == flag)
    requires forall i :: 0 <= i < |z| && IsComplete(z[i]) && flag ==> 1 < i && z[1] == HealthPassed
    ensures CompletionIsEarned(x + (y + z), 0)
  {
    var t := x + (y + z);
    assert t[1..] == x[1..] + (y + z);
    assert Begin !in t[1..];
    var safe := if StoreAbsent in y then StoreAbsent else StoreVerified(true);
    var at :| 0 <= at < |y| && y[at] == safe;
    assert t[|x| + at] == safe;
    forall j | 0 <= j < |x| + |y| ensures !IsComplete(t[j]) {
      assert t[j] in x || t[j] in y;
    }
    forall j | |x| + |y| <= j < |t| && IsComplete(t[j]) ensures Earned(t, j) {
      EarlierFrom(t, |x| + at, j, safe);
      var i := j - |x| - |y|;
      assert t[j] == z[i];
      if flag {
        assert t[|x| + |y| + 1] == HealthPassed;
        EarlierFrom(t, |x| + |y| + 1, j, HealthPassed);
      }
    }
  }

  // ----- Every series of attempts

  lemma EarlierShifts(before: seq<Event>, p: seq<Event>, j: nat, e: Event)
    requires Earlier(p, j, e) && j <= |p|
    ensures Earlier(before + p, |before| + j, e)
  {
    var i :| 0 <= i < j <= |p| && p[i] == e && NoBegin(p, i, j);
    var t := before + p;
    forall k | |before| + i <= k < |before| + j ensures t[k] != Begin {
      assert t[k] == p[k - |before|];
    }
    assert NoBegin(t, |before| + i, |before| + j);
    assert t[|before| + i] == e;
  }

  lemma EarlierStays(before: seq<Event>, p: seq<Event>, j: nat, e: Event)
    requires Earlier(before, j, e) && j <= |before|
    ensures Earlier(before + p, j, e)
  {
    var i :| 0 <= i < j <= |before| && before[i] == e && NoBegin(before, i, j);
    var t := before + p;
    forall k | i <= k < j ensures t[k] != Begin {
      assert t[k] == before[k];
    }
    assert NoBegin(t, i, j);
  }

  lemma EarnedAppends(before: seq<Event>, p: seq<Event>, from: nat)
    requires CompletionIsEarned(before, from) && CompletionIsEarned(p, 0)
    ensures CompletionIsEarned(before + p, from)
  {
    var t := before + p;
    forall j | from <= j < |t| && IsComplete(t[j]) ensures Earned(t, j) {
      var log, at := if j < |before| then before else p, if j < |before| then j else j - |before|;
      assert t[j] == log[at] && Earned(log, at);
      var safe := if Earlier(log, at, StoreAbsent) then StoreAbsent else StoreVerified(true);
      if j < |before| {
        EarlierStays(before, p, at, safe);
        if t[j].state.priorRunning { EarlierStays(before, p, at, HealthPassed); }
      } else {
        EarlierShifts(before, p, at, safe);
        if t[j].state.priorRunning { EarlierShifts(before, p, at, HealthPassed); }
      }
    }
  }

  lemma EarnedOfPrefix(t: seq<Event>, n: nat)
    requires CompletionIsEarned(t, 0)
    ensures CompletionIsEarned(Prefix(t, n), 0)
  {
    var p := Prefix(t, n);
    forall j | 0 <= j < |p| && IsComplete(p[j]) ensures Earned(p, j) {
      assert Earned(t, j);
      var safe := if Earlier(t, j, StoreAbsent) then StoreAbsent else StoreVerified(true);
      EarlierOfPrefix(t, n, j, safe);
      if p[j].state.priorRunning { EarlierOfPrefix(t, n, j, HealthPassed); }
    }
  }

  lemma EarlierOfPrefix(t: seq<Event>, n: nat, j: nat, e: Event)
    requires Earlier(t, j, e) && j < |Prefix(t, n)|
    ensures Earlier(Prefix(t, n), j, e)
  {
  }

  /** Whatever attempts are made and wherever each is cut off, every recorded completion was earned
      in its own attempt. (Position 0 is the record found at the start, if there was one.) */
  lemma {:induction false} CompletionsAreEarned(version: string, initial: Option<UpgradeState>, cuts: seq<Cut>)
    ensures CompletionIsEarned(Log(version, initial, cuts), if initial.Some? then 1 else 0)
    decreases |cuts|
  {
    if cuts != [] {
      var before := Log(version, initial, cuts[..|cuts| - 1]);
      var last := cuts[|cuts| - 1];
      var record := LastRecord(None, before);
      CompletionsAreEarned(version, initial, cuts[..|cuts| - 1]);
      TraceIsEarned(version, record, InitialState(version, record, last.attempt), last.attempt);
      EarnedOfPrefix(Trace(version, record, last.attempt), last.events);
      EarnedAppends(before, Prefix(Trace(version, record, last.attempt), last.events), if initial.Some? then 1 else 0);
    }
  }

  /** The last record is that of the last write. */
  lemma {:induction false} LastWrite(log: seq<Event>, i: nat) returns (l: nat)
    requires i < |log| && log[i].Write?
    ensures i <= l < |log| && log[l].Write? && LastRecord(None, log) == Some(log[l].state)
    decreases |log|
  {
    l := |log| - 1;
    if !log[l].Write? {
      assert log[..l][i] == log[i];
      l := LastWrite(log[..l], i);
    }
  }

  lemma FlagKeptBefore(version: string, before: seq<Event>, p: seq<Event>, i: nat, j: nat)
    requires FlagSurvives(version, before) && i < j < |before| && Remembers(version, before[i]) && before[j].Write?
    ensures FlagKept(before + p, i, j)
  {
    var t := before + p;
    assert t[i] == before[i] && t[j] == before[j];
    if k :| i <= k < j && IsComplete(before[k]) {
      assert IsComplete(t[k]);
    }
  }

  lemma FlagKeptAcross(version: string, before: seq<Event>, p: seq<Event>, flag: bool, i: nat, j: nat)
    requires FlagSurvives(version, before) && Targets(before, version) && Uniform(p, version, flag)
    requires var r := LastRecord(None, before); r.Some? && Resumable(version, r.value) && r.value.priorRunning ==> flag
    requires i < |before| <= j < |before + p| && Remembers(version, before[i]) && (before + p)[j].Write?
    ensures FlagKept(before + p, i, j)
  {
    var t := before + p;
    assert t[j] in p;
    var l := LastWrite(before, i);
    assert t[l] == before[l] && t[i] == before[i];
    if i < l {
      FlagKeptBefore(version, before, p, i, l);
      if k :| i <= k < l && IsComplete(t[k]) {
        assert i <= k < j;
      }
    }
    assert IsComplete(t[l]) || t[j].state.priorRunning || exists k :: i <= k < j && IsComplete(t[k]);
  }

  lemma FlagAppends(version: string, before: seq<Event>, p: seq<Event>, flag: bool)
    requires FlagSurvives(version, before) && Uniform(p, version, flag)
    requires var r := LastRecord(None, before); r.Some? && Resumable(version, r.value) && r.value.priorRunning ==> flag
    requires Targets(before, version)
    ensures FlagSurvives(version, before + p)
  {
    var t := before + p;
    forall i, j | 0 <= i < j < |t| && Remembers(version, t[i]) && t[j].Write? ensures FlagKept(t, i, j) {
      if j < |before| {
        FlagKeptBefore(version, before, p, i, j);
      } else if i < |before| {
        FlagKeptAcross(version, before, p, flag, i, j);
      } else {
        assert t[i] in p && t[j] in p;
      }
    }
  }

  lemma PrefixIsUniform(version: string, record: Option<UpgradeState>, a: Attempt, n: nat)
    ensures Uniform(Prefix(Trace(version, record, a), n), version, InitialState(version, record, a).priorRunning)
  {
    TraceIsUniform(version, record, InitialState(version, record, a), a);
    assert forall e :: e in Prefix(Trace(version, record, a), n) ==> e in Trace(version, record, a);
  }

  /** All but perhaps the record found at the start are for this version. */
  ghost predicate Targets(log: seq<Event>, version: string) {
    forall i :: 0 < i < |log| && log[i].Write? ==> log[i].state.target == version
  }

  lemma TargetsAppend(before: seq<Event>, p: seq<Event>, version: string, flag: bool)
    requires Targets(before, version) && Uniform(p, version, flag)
    ensures Targets(before + p, version)
  {
  }

  lemma {:induction false} LogTargets(version: string, initial: Option<UpgradeState>, cuts: seq<Cut>)
    ensures Targets(Log(version, initial, cuts), version)
    decreases |cuts|
  {
    if cuts != [] {
      var before := Log(version, initial, cuts[..|cuts| - 1]);
      var last := cuts[|cuts| - 1];
      var record := LastRecord(None, before);
      LogTargets(version, initial, cuts[..|cuts| - 1]);
      PrefixIsUniform(version, record, last.attempt, last.events);
      TargetsAppend(before, Prefix(Trace(version, record, last.attempt), last.events), version,
                    InitialState(version, record, last.attempt).priorRunning);
    }
  }

  /** ... and a recorded `prior_daemon_running` is still set in every later record until a run
      records completion. */
  lemma {:induction false} FlagIsNotLost(version: string, initial: Option<UpgradeState>, cuts: seq<Cut>)
    ensures FlagSurvives(version, Log(version, initial, cuts))
    decreases |cuts|
  {
    if cuts != [] {
      var before := Log(version, initial, cuts[..|cuts| - 1]);
      var last := cuts[|cuts| - 1];
      var record := LastRecord(None, before);
      FlagIsNotLost(version, initial, cuts[..|cuts| - 1]);
      LogTargets(version, initial, cuts[..|cuts| - 1]);
      PrefixIsUniform(version, record, last.attempt, last.events);
      FlagAppends(version, before, Prefix(Trace(version, record, last.attempt), last.events),
                  InitialState(version, record, last.attempt).priorRunning);
    }
  }
}
