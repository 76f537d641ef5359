/** The environment of the commit-confirm commands: the record file, the clock, and rpcd's sessions,
    staged deltas and timed apply. What can go wrong around each call is data: a script of steps. */
module Rpcd {
  import opened Wrappers

  type Sid = nat

  // ---------- the network configuration ----------

  datatype Section = Section(name: string, kind: string, options: map<string, string>)

  type Config = seq<Section>

  datatype Op =
    | SetOptions(section: string, values: map<string, string>)
    | DeleteOption(section: string, option: string)
    | DeleteSection(section: string)
    | AddSection(kind: string, values: map<string, string>)

  function Index(c: Config, name: string): (i: nat)
    ensures i <= |c|
    ensures i < |c| ==> c[i].name == name
    ensures forall k :: 0 <= k < i ==> c[k].name != name
  {
    if c == [] || c[0].name == name then 0 else 1 + Index(c[1..], name)
  }

  predicate HasSection(c: Config, name: string) {
    Index(c, name) < |c|
  }

  function FreshName(c: Config): string {
    seq(Longest(c) + 1, _ => 'c')
  }

  function Longest(c: Config): nat {
    if c == [] then 0
    else if |c[0].name| > Longest(c[1..]) then |c[0].name| else Longest(c[1..])
  }

  function ApplyOp(c: Config, op: Op): Config {
    match op
    case SetOptions(s, values) =>
      var i := Index(c, s);
      if i < |c| then c[i := c[i].(options := c[i].options + values)] else c
    case DeleteOption(s, o) =>
      var i := Index(c, s);
      if i < |c| then c[i := c[i].(options := c[i].options - {o})] else c
    case DeleteSection(s) =>
      var i := Index(c, s);
      if i < |c| then c[..i] + c[i + 1..] else c
    case AddSection(kind, values) => c + [Section(FreshName(c), kind, values)]
  }

  function ApplyOps(c: Config, ops: seq<Op>): Config {
    if ops == [] then c else ApplyOp(ApplyOps(c, ops[..|ops| - 1]), ops[|ops| - 1])
  }

  // ---------- the state ----------

  /** The record file: absent, not a record (empty or cut short), or a session id and a deadline. */
  datatype Record = Absent | Malformed | Recorded(sid: Sid, deadline: int)

  /** An apply that waits for its confirmation. */
  datatype Pending = Pending(sid: Sid, snapshot: Config, expiry: int)

  /** now to nextSid are the system; the rest is history that no command reads. granted are the sessions
      that may write the network configuration. */
  datatype World = World(
    now: nat,
    record: Record,
    sessions: set<Sid>,
    granted: set<Sid>,
    staged: map<Sid, seq<Op>>,
    active: Config,
    pending: Option<Pending>,
    nextSid: Sid,
    confirmed: Config,
    committed: set<Sid>,
    baseline: map<Sid, Config>)

  /** Before the first command. */
  ghost predicate IsStart(w: World) {
    && w.record == Absent && w.pending == None && w.active == w.confirmed
    && w.sessions == {} && w.granted == {} && w.staged == map[] && w.nextSid == 0
    && w.committed == {} && w.baseline == map[]
  }

  // ---------- the environment ----------

  /** How a call fares: carried out and answered; not carried out; carried out without an answer;
      answered without the data; answered with the data but with an error at the end. */
  datatype Outcome = Deliver | Fail | Lost | Garbled | Late

  /** What happens up to and during one system call of a command. */
  datatype Step = Step(advance: nat, fireTimer: bool, expired: set<Sid>, crash: bool, outcome: Outcome)

  const Quiet: Step := Step(0, false, {}, false, Deliver)

  predicate Benign(s: Step) {
    !s.crash && s.outcome == Deliver && s.expired == {}
  }

  /** An apply that is due, and whose timer fires. */
  predicate Fires(w: World, s: Step) {
    s.fireTimer && w.pending.Some? && w.now + s.advance >= w.pending.value.expiry
  }

  /** Time passes, sessions run out, and the timer of an apply may fire once it is due. */
  function Elapse(w: World, s: Step): World {
    var later := w.(now := w.now + s.advance, sessions := w.sessions - s.expired);
    if Fires(w, s) then later.(active := w.pending.value.snapshot, pending := None) else later
  }

  // ---------- rpcd ----------

  const APPLY_TIMEOUT := 90
  const OK := 0
  const NOT_FOUND := 4
  const NO_DATA := 5
  const PERMISSION_DENIED := 6
  const TIMEOUT := 7

  datatype Request =
    | CreateSession
    | Grant(sid: Sid)
    | Stage(sid: Sid, op: Op)
    | Apply(sid: Sid)
    | Confirm(sid: Sid)
    | Rollback(sid: Sid)
    | Revert(sid: Sid)
    | Destroy(sid: Sid)

  function StagedOps(w: World, sid: Sid): seq<Op> {
    if sid in w.staged then w.staged[sid] else []
  }

  predicate Stageable(c: Config, op: Op) {
    op.AddSection? || HasSection(c, op.section)
  }

  /** What rpcd does with a request that reaches it, and the status it answers. */
  function Serve(w: World, r: Request): (World, int) {
    match r
    case CreateSession =>
      (w.(sessions := w.sessions + {w.nextSid}, nextSid := w.nextSid + 1,
          baseline := w.baseline[w.nextSid := w.confirmed]), OK)
    case Grant(sid) =>
      if sid !in w.sessions then (w, NOT_FOUND) else (w.(granted := w.granted + {sid}), OK)
    case Stage(sid, op) =>
      if sid !in w.sessions || sid !in w.granted then (w, PERMISSION_DENIED)
      else if !Stageable(w.active, op) then (w, NOT_FOUND)
      else (w.(staged := w.staged[sid := StagedOps(w, sid) + [op]]), OK)
    case Apply(sid) =>
      if sid !in w.sessions || w.pending.Some? then (w, PERMISSION_DENIED)
      else (w.(active := ApplyOps(w.active, StagedOps(w, sid)), staged := w.staged - {sid},
               pending := Some(Pending(sid, w.active, w.now + APPLY_TIMEOUT))), OK)
    case Confirm(sid) =>
      if w.pending.None? then (w, NO_DATA)
      else if w.pending.value.sid != sid then (w, PERMISSION_DENIED)
      else (w.(pending := None, confirmed := w.active, committed := w.committed + {sid}), OK)
    case Rollback(sid) =>
      if w.pending.None? then (w, NO_DATA)
      else if w.pending.value.sid != sid then (w, PERMISSION_DENIED)
      else (w.(active := w.pending.value.snapshot, pending := None), OK)
    case Revert(sid) => (w.(staged := w.staged - {sid}), OK)
    case Destroy(sid) => (w.(sessions := w.sessions - {sid}), OK)
  }

  // ---------- what holds of every reachable state ----------

  /** The configuration in force is the confirmed one, or a pending apply holds the confirmed one in
      its snapshot; and the record, where there is one, is about the right session. */
  ghost predicate Inv(w: World) {
    && (w.pending.None? ==> w.active == w.confirmed)
    && (w.pending.Some? ==>
         w.pending.value.snapshot == w.confirmed && w.pending.value.sid < w.nextSid && w.pending.value.sid !in w.committed)
    && (w.record.Recorded? ==>
         var sid := w.record.sid;
         && sid < w.nextSid && sid in w.baseline
         && (sid !in w.committed ==> w.baseline[sid] == w.confirmed)
         && (sid in w.committed ==> w.pending.None?)
         && (w.pending.Some? && w.pending.value.sid == sid ==> w.record.deadline <= w.pending.value.expiry))
    && (forall s :: s in w.committed || s in w.staged || s in w.sessions || s in w.baseline ==> s < w.nextSid)
  }

  /** A change is pending that the record does not name. */
  predicate Stranded(w: World) {
    w.pending.Some? && !(w.record.Recorded? && w.record.sid == w.pending.value.sid)
  }

  /** The change that is recorded has not been committed yet. */
  predicate Settled(w: World) {
    w.record.Recorded? ==> w.record.sid !in w.committed
  }

  lemma StartIsSafe(w: World)
    requires IsStart(w)
    ensures Inv(w) && !Stranded(w) && Settled(w)
  {
  }

  lemma ElapseKeepsInv(w: World, s: Step)
    requires Inv(w)
    ensures Inv(Elapse(w, s))
  {
  }

  /** Nothing a command could have done happened between w and x; only the environment moved. */
  ghost predicate OnlyElapsed(w: World, x: World) {
    && w.now <= x.now
    && x.record == w.record && x.sessions <= w.sessions && x.granted == w.granted && x.staged == w.staged
    && x.nextSid == w.nextSid && x.confirmed == w.confirmed && x.committed == w.committed && x.baseline == w.baseline
    && ((x.pending == w.pending && x.active == w.active)
        || (w.pending.Some? && x.now >= w.pending.value.expiry && x.pending.None? && x.active == w.pending.value.snapshot))
  }

  /** Every request keeps the invariant, given that an apply or a confirm is for the recorded session
      and that the recorded deadline is not after the end of the apply. */
  lemma ServeKeepsInv(w: World, r: Request)
    requires Inv(w)
    requires r.Apply? ==> w.record.Recorded? && w.record.sid == r.sid && r.sid !in w.committed
                          && w.record.deadline <= w.now + APPLY_TIMEOUT
    requires r.Stage? ==> r.sid < w.nextSid
    requires r.Confirm? ==> w.record.Recorded? && w.record.sid == r.sid
    ensures Inv(Serve(w, r).0)
  {
  }

  /** A request as the caller sees it: what the environment does first, whether rpcd carries the
      request out, and the status that comes back. */
  function Transmit(w: World, s: Step, r: Request): (World, int)
    requires !s.crash
  {
    var here := Elapse(w, s);
    match s.outcome
    case Deliver => Serve(here, r)
    case Garbled => Serve(here, r)
    case Fail => (here, TIMEOUT)
    case Lost => (Serve(here, r).0, TIMEOUT)
    case Late => (Serve(here, r).0, TIMEOUT)
  }

  /** Whether the caller learns the id of a session it creates. */
  predicate IdArrives(s: Step) {
    s.outcome == Deliver || s.outcome == Late
  }

  /** Whatever the timer has not yet undone, it undoes when it fires. */
  lemma TimerRestores(w: World, s: Step)
    requires Inv(w) && Fires(w, s)
    ensures Elapse(w, s).active == w.confirmed && Elapse(w, s).pending.None?
  {
  }
}
