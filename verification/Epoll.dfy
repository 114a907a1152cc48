/** What epoll is told about each connection and which of its events reach the connection:
    registrations carry the version the connection had, and an event with another is dropped. */
module Epoll {
  import opened Common

  datatype Event = In | Out | RdHup | Err | Hup

  datatype Registration = Registration(events: set<Event>, conn: nat, version: nat)

  datatype Conn = Conn(
    version: nat,             // m_version
    curEvents: set<Event>,    // m_epollCurEvents
    curVersion: nat,          // m_epollCurVersion
    readActive: bool,         // m_readEvent->m_flagActive
    writeActive: bool,
    pendingEof: bool,
    fd: Option<nat>)          // the open socket

  datatype State = State(conns: seq<Conn>, kernel: map<nat, Registration>)

  // ---------- epoll_ctl ----------

  /** `ok` is whether the call would succeed on its own; on top of that, a socket is added
      once and changed or deleted only while it is there. */
  function CtlAdd(kernel: map<nat, Registration>, fd: Option<nat>, r: Registration, ok: bool)
    : Option<map<nat, Registration>>
  {
    if ok && fd.Some? && fd.value !in kernel then Some(kernel[fd.value := r]) else None
  }

  function CtlMod(kernel: map<nat, Registration>, fd: Option<nat>, r: Registration, ok: bool)
    : Option<map<nat, Registration>>
  {
    if ok && fd.Some? && fd.value in kernel then Some(kernel[fd.value := r]) else None
  }

  function CtlDel(kernel: map<nat, Registration>, fd: Option<nat>, ok: bool): Option<map<nat, Registration>> {
    if ok && fd.Some? && fd.value in kernel then Some(kernel - {fd.value}) else None
  }

  // ---------- the operations ----------

  function Target(c: Conn, add: bool, events: set<Event>): set<Event> {
    if add then c.curEvents + events else c.curEvents - events
  }

  function Told(c: Conn, events: set<Event>): Conn {
    c.(curEvents := events, curVersion := c.version,
       readActive := In in events || RdHup in events, writeActive := Out in events)
  }

  /** modify_connection; nothing is asked of epoll when it knows already. */
  function Modify(s: State, id: nat, add: bool, events: set<Event>, ok: bool): (t: State)
    requires id < |s.conns|
    ensures |t.conns| == |s.conns|
  {
    var c := s.conns[id];
    var target := Target(c, add, events);
    if Knows(c, target) then s else
    var k := Asked(s, id, target, ok);
    if k.None? then s else State(s.conns[id := Told(c, target)], k.value)
  }

  /** Epoll is not asked for what it was told in this use already. */
  predicate Knows(c: Conn, target: set<Event>) {
    target == c.curEvents && c.curVersion == c.version
  }

  /** The call that is made, and what epoll then holds if it takes it. */
  function Asked(s: State, id: nat, target: set<Event>, ok: bool): Option<map<nat, Registration>>
    requires id < |s.conns|
  {
    var c := s.conns[id];
    var r := Registration(target, id, c.version);
    if c.curEvents == {} then CtlAdd(s.kernel, c.fd, r, ok)
    else if target == {} then CtlDel(s.kernel, c.fd, ok)
    else CtlMod(s.kernel, c.fd, r, ok)
  }

  /** modify_connection returns CO_OK. */
  predicate Took(s: State, id: nat, add: bool, events: set<Event>, ok: bool)
    requires id < |s.conns|
  {
    var target := Target(s.conns[id], add, events);
    Knows(s.conns[id], target) || Asked(s, id, target, ok).Some?
  }

  /** del_connection */
  function Delete(s: State, id: nat, ok: bool): State
    requires id < |s.conns|
  {
    var c := s.conns[id];
    if c.curEvents == {} then s else
    var k := CtlDel(s.kernel, c.fd, ok);
    if k.None? then s
    else State(s.conns[id := c.(curEvents := {}, curVersion := 0, readActive := false, writeActive := false)], k.value)
  }

  /** CoConnection::reset as far as epoll goes. */
  function Reset(c: Conn): Conn {
    c.(version := c.version + 1, readActive := false, writeActive := false, pendingEof := false)
  }

  function Renewed(s: State, id: nat): State
    requires id < |s.conns|
  {
    s.(conns := s.conns[id := Reset(s.conns[id])])
  }

  /** A client connection kept open waits for the next request. */
  function KeepServer(s: State, id: nat, inOk: bool, outOk: bool): State
    requires id < |s.conns|
  {
    Modify(Modify(Renewed(s, id), id, true, {In}, inOk), id, false, {Out}, outOk)
  }

  /** An upstream connection kept open is watched for a hang-up only. */
  function KeepUpstream(s: State, id: nat, ok: bool): State
    requires id < |s.conns|
  {
    Modify(Renewed(s, id), id, false, {In, Out}, ok)
  }

  /** Closing a socket takes it out of epoll whatever del_connection did. */
  function Close(s: State, id: nat, ok: bool): State
    requires id < |s.conns|
  {
    var t := Delete(s, id, ok);
    var c := t.conns[id];
    State(t.conns[id := Reset(c).(fd := None)], if c.fd.Some? then t.kernel - {c.fd.value} else t.kernel)
  }

  function Open(s: State, id: nat, fd: nat): State
    requires id < |s.conns|
  {
    s.(conns := s.conns[id := s.conns[id].(fd := Some(fd))])
  }

  datatype Action =
    | DoModify(id: nat, add: bool, events: set<Event>, ok: bool)
    | DoKeepServer(id: nat, inOk: bool, outOk: bool)
    | DoKeepUpstream(id: nat, ok: bool)
    | DoClose(id: nat, ok: bool)
    | DoOpen(id: nat, fd: nat)

  /** A new socket is one nobody has open. */
  predicate Enabled(s: State, a: Action) {
    && a.id < |s.conns|
    && (a.DoOpen? ==>
          && s.conns[a.id].fd.None? && a.fd !in s.kernel
          && forall other :: 0 <= other < |s.conns| ==> s.conns[other].fd != Some(a.fd))
    && (a.DoKeepServer? || a.DoKeepUpstream? ==> s.conns[a.id].fd.Some?)
  }

  function Do(s: State, a: Action): State
    requires Enabled(s, a)
  {
    match a
    case DoModify(id, add, events, ok) => Modify(s, id, add, events, ok)
    case DoKeepServer(id, inOk, outOk) => KeepServer(s, id, inOk, outOk)
    case DoKeepUpstream(id, ok) => KeepUpstream(s, id, ok)
    case DoClose(id, ok) => Close(s, id, ok)
    case DoOpen(id, fd) => Open(s, id, fd)
  }

  // ---------- agreement ----------

  /** The connection's own record is what epoll holds for its socket. */
  predicate Agrees(s: State, id: nat)
    requires id < |s.conns|
  {
    var c := s.conns[id];
    if c.curEvents == {} then c.fd.Some? ==> c.fd.value !in s.kernel
    else c.fd.Some? && c.fd.value in s.kernel
         && s.kernel[c.fd.value] == Registration(c.curEvents, id, c.curVersion)
  }

  /** Only what epoll was told in this use makes an event active. */
  predicate FlagsFit(c: Conn) {
    && c.curVersion <= c.version
    && c.readActive == (c.curVersion == c.version && (In in c.curEvents || RdHup in c.curEvents))
    && c.writeActive == (c.curVersion == c.version && Out in c.curEvents)
  }

  ghost predicate OwnSockets(s: State) {
    forall i, j :: 0 <= i < j < |s.conns| && s.conns[i].fd.Some? ==> s.conns[i].fd != s.conns[j].fd
  }

  ghost predicate AllFlagsFit(s: State) {
    forall id :: 0 <= id < |s.conns| ==> FlagsFit(s.conns[id])
  }

  ghost predicate AllAgree(s: State) {
    forall id :: 0 <= id < |s.conns| ==> Agrees(s, id)
  }

  ghost predicate Inv(s: State) {
    OwnSockets(s) && AllFlagsFit(s) && AllAgree(s)
  }

  /** Asked to watch for nothing on a socket epoll does not hold, the program adds it, and
      records that it did not. */
  predicate AddsNothing(c: Conn, add: bool, events: set<Event>, ok: bool) {
    c.curEvents == {} && Target(c, add, events) == {} && c.curVersion != c.version && c.fd.Some? && ok
  }

  /** The steps after which a connection's record is wrong. */
  predicate Derails(s: State, a: Action)
    requires Enabled(s, a)
  {
    var c := s.conns[a.id];
    match a
    case DoModify(_, add, events, ok) => AddsNothing(c, add, events, ok)
    case DoKeepServer(_, inOk, outOk) => c.curEvents == {} && !inOk && outOk
    case DoKeepUpstream(_, ok) => c.curEvents == {} && ok
    case DoClose(_, ok) => c.curEvents != {} && !ok
    case DoOpen(_, _) => false
  }

  /** A step that touches one connection and its socket leaves the others in agreement. */
  lemma OthersAgree(s: State, t: State, id: nat)
    requires OwnSockets(s) && AllAgree(s) && id < |s.conns| == |t.conns|
    requires forall j :: 0 <= j < |s.conns| && j != id ==> t.conns[j] == s.conns[j]
    requires t.conns[id].fd == s.conns[id].fd || t.conns[id].fd.None?
    requires s.conns[id].fd.None? ==> t.kernel == s.kernel
    requires forall fd :: Some(fd) != s.conns[id].fd ==>
      (fd in t.kernel <==> fd in s.kernel) && (fd in s.kernel ==> t.kernel[fd] == s.kernel[fd])
    ensures OwnSockets(t)
    ensures AllAgree(t) <==> Agrees(t, id)
  {
    forall j | 0 <= j < |t.conns| && j != id ensures Agrees(t, j) {
      assert Agrees(s, j);
    }
  }

  lemma ModifyKeeps(s: State, id: nat, add: bool, events: set<Event>, ok: bool)
    requires Inv(s) && id < |s.conns|
    ensures var t := Modify(s, id, add, events, ok);
      OwnSockets(t) && AllFlagsFit(t)
      && (AllAgree(t) <==> !AddsNothing(s.conns[id], add, events, ok))
  {
    var t := Modify(s, id, add, events, ok);
    assert Agrees(s, id);
    assert AllFlagsFit(t);
    OthersAgree(s, t, id);
  }

  /** What one call asks of epoll and what the connection then holds. */
  lemma ModifyIs(s: State, id: nat, add: bool, events: set<Event>, ok: bool)
    requires Inv(s) && id < |s.conns| && s.conns[id].fd.Some?
    ensures var c, d := s.conns[id], Modify(s, id, add, events, ok).conns[id];
      var target := Target(c, add, events);
      d == if ok || (target == c.curEvents && c.curVersion == c.version) then Told(c, target) else c
  {
    assert Agrees(s, id);
  }

  lemma RenewedKeeps(s: State, id: nat)
    requires Inv(s) && id < |s.conns|
    ensures Inv(Renewed(s, id))
  {
    var t := Renewed(s, id);
    assert Agrees(s, id) && FlagsFit(s.conns[id]);
    OthersAgree(s, t, id);
  }

  lemma KeepServerKeeps(s: State, id: nat, inOk: bool, outOk: bool)
    requires Inv(s) && id < |s.conns| && s.conns[id].fd.Some?
    ensures Inv(KeepServer(s, id, inOk, outOk)) <==> !(s.conns[id].curEvents == {} && !inOk && outOk)
  {
    var t := Renewed(s, id);
    RenewedKeeps(s, id);
    var c := t.conns[id];
    assert FlagsFit(s.conns[id]);
    ModifyKeeps(t, id, true, {In}, inOk);
    ModifyIs(t, id, true, {In}, inOk);
    var u := Modify(t, id, true, {In}, inOk);
    assert In in Target(c, true, {In});
    assert Inv(u);
    ModifyKeeps(u, id, false, {Out}, outOk);
    assert In in u.conns[id].curEvents ==> In in Target(u.conns[id], false, {Out});
  }

  lemma KeepUpstreamKeeps(s: State, id: nat, ok: bool)
    requires Inv(s) && id < |s.conns| && s.conns[id].fd.Some?
    ensures Inv(KeepUpstream(s, id, ok)) <==> !(s.conns[id].curEvents == {} && ok)
  {
    var t := Renewed(s, id);
    RenewedKeeps(s, id);
    assert FlagsFit(s.conns[id]);
    ModifyKeeps(t, id, false, {In, Out}, ok);
  }

  lemma CloseKeeps(s: State, id: nat, ok: bool)
    requires Inv(s) && id < |s.conns|
    ensures Inv(Close(s, id, ok)) <==> !(s.conns[id].curEvents != {} && !ok)
  {
    var t := Close(s, id, ok);
    assert Agrees(s, id) && FlagsFit(s.conns[id]);
    assert AllFlagsFit(t);
    OthersAgree(s, t, id);
  }

  lemma OpenKeeps(s: State, id: nat, fd: nat)
    requires Inv(s) && Enabled(s, DoOpen(id, fd))
    ensures Inv(Open(s, id, fd))
  {
    var t := Open(s, id, fd);
    assert Agrees(s, id);
    forall j | 0 <= j < |t.conns| ensures Agrees(t, j) && FlagsFit(t.conns[j]) {
      assert Agrees(s, j) && FlagsFit(s.conns[j]);
    }
  }

  /** The record of every connection stays right through every step but those that derail. */
  lemma KeptIff(s: State, a: Action)
    requires Inv(s) && Enabled(s, a)
    ensures Inv(Do(s, a)) <==> !Derails(s, a)
  {
    hide AllAgree, OwnSockets, AllFlagsFit;
    match a {
      case DoModify(id, add, events, ok) => ModifyKeeps(s, id, add, events, ok);
      case DoKeepServer(id, inOk, outOk) => KeepServerKeeps(s, id, inOk, outOk);
      case DoKeepUpstream(id, ok) => KeepUpstreamKeeps(s, id, ok);
      case DoClose(id, ok) => CloseKeeps(s, id, ok);
      case DoOpen(id, fd) => OpenKeeps(s, id, fd);
    }
  }

  ghost predicate Run(s: State, acts: seq<Action>)
    decreases |acts|
  {
    acts == [] || (Enabled(s, acts[0]) && Run(Do(s, acts[0]), acts[1..]))
  }

  ghost function After(s: State, acts: seq<Action>): State
    requires Run(s, acts)
    decreases |acts|
  {
    if acts == [] then s else After(Do(s, acts[0]), acts[1..])
  }

  ghost predicate NeverDerails(s: State, acts: seq<Action>)
    requires Run(s, acts)
    decreases |acts|
  {
    acts == [] || (!Derails(s, acts[0]) && NeverDerails(Do(s, acts[0]), acts[1..]))
  }

  lemma {:induction false} RunAgrees(s: State, acts: seq<Action>)
    requires Inv(s) && Run(s, acts) && NeverDerails(s, acts)
    ensures Inv(After(s, acts))
    decreases |acts|
  {
    if acts != [] {
      KeptIff(s, acts[0]);
      hide Inv, Do, Derails, Enabled;
      RunAgrees(Do(s, acts[0]), acts[1..]);
    }
  }

  /** The events of a socket that is gone: epoll_ctl is asked to change what it lacks. */
  predicate Poisoned(s: State, id: nat)
    requires id < |s.conns|
  {
    s.conns[id].curEvents != {} && (s.conns[id].fd.Some? ==> s.conns[id].fd.value !in s.kernel)
  }

  lemma FailedDeletePoisons(s: State, id: nat)
    requires Inv(s) && id < |s.conns| && s.conns[id].curEvents != {}
    ensures Poisoned(Close(s, id, false), id) && !Poisoned(Close(s, id, true), id)
  {
    assert Agrees(s, id);
  }

  lemma ModifyPoisoned(s: State, id: nat, other: nat, add: bool, events: set<Event>, ok: bool)
    requires OwnSockets(s) && id < |s.conns| && Poisoned(s, id) && other < |s.conns|
    ensures var t := Modify(s, other, add, events, ok); OwnSockets(t) && Poisoned(t, id)
  {
  }

  lemma RenewedPoisoned(s: State, id: nat, other: nat)
    requires OwnSockets(s) && id < |s.conns| && Poisoned(s, id) && other < |s.conns|
    ensures var t := Renewed(s, other); OwnSockets(t) && Poisoned(t, id)
  {
  }

  /** A connection closed while epoll_ctl failed keeps the events of the socket it lost: no
      later socket of it is ever registered, and no later step puts that right. */
  lemma PoisonedForEver(s: State, id: nat, a: Action)
    requires OwnSockets(s) && id < |s.conns| && Enabled(s, a) && Poisoned(s, id)
    ensures var t := Do(s, a); OwnSockets(t) && Poisoned(t, id)
  {
    hide Modify;
    match a {
      case DoModify(other, add, events, ok) => ModifyPoisoned(s, id, other, add, events, ok);
      case DoKeepServer(other, inOk, outOk) =>
        RenewedPoisoned(s, id, other);
        ModifyPoisoned(Renewed(s, other), id, other, true, {In}, inOk);
        ModifyPoisoned(Modify(Renewed(s, other), other, true, {In}, inOk), id, other, false, {Out}, outOk);
      case DoKeepUpstream(other, ok) =>
        RenewedPoisoned(s, id, other);
        ModifyPoisoned(Renewed(s, other), id, other, false, {In, Out}, ok);
      case DoClose(other, ok) =>
      case DoOpen(other, fd) =>
    }
  }

  // ---------- what an idle connection hears ----------

  /** Epoll would report `e` on the socket, and the report would not be dropped as stale. */
  predicate Hears(s: State, id: nat, e: Event)
    requires id < |s.conns|
  {
    var c := s.conns[id];
    c.fd.Some? && c.fd.value in s.kernel && var r := s.kernel[c.fd.value];
    r.conn == id && r.version == c.version && e in r.events
  }

  lemma HearsWhen(s: State, id: nat, e: Event)
    requires Inv(s) && id < |s.conns|
    ensures Hears(s, id, e) <==> e in s.conns[id].curEvents && s.conns[id].curVersion == s.conns[id].version
  {
    assert Agrees(s, id) && FlagsFit(s.conns[id]);
  }

  lemma WaitingServer(s: State, id: nat, inOk: bool, outOk: bool)
    requires Inv(s) && id < |s.conns| && s.conns[id].fd.Some?
    ensures var c, d := s.conns[id], KeepServer(s, id, inOk, outOk).conns[id];
      d.version == c.version + 1 && d.fd == c.fd
      && d.curEvents == (if inOk then c.curEvents + {In} else c.curEvents) - (if outOk then {Out} else {})
      && (d.curVersion == d.version <==> inOk || outOk)
      && d.writeActive == (inOk && !outOk && Out in c.curEvents)
  {
    var t := Renewed(s, id);
    RenewedKeeps(s, id);
    assert FlagsFit(s.conns[id]);
    ModifyKeeps(t, id, true, {In}, inOk);
    ModifyIs(t, id, true, {In}, inOk);
    var u := Modify(t, id, true, {In}, inOk);
    assert In in Target(t.conns[id], true, {In});
    assert Inv(u);
    ModifyIs(u, id, false, {Out}, outOk);
  }

  /** A client connection kept open hears the next request, its first byte being reported
      under the new version, exactly if epoll took the new registration; one such call is
      enough when reading was watched for already. */
  lemma KeptServerHears(s: State, id: nat, inOk: bool, outOk: bool)
    requires Inv(s) && id < |s.conns| && s.conns[id].fd.Some?
    requires !Derails(s, DoKeepServer(id, inOk, outOk))
    ensures Hears(KeepServer(s, id, inOk, outOk), id, In) <==>
      inOk || (outOk && In in s.conns[id].curEvents)
  {
    WaitingServer(s, id, inOk, outOk);
    KeepServerKeeps(s, id, inOk, outOk);
    HearsWhen(KeepServer(s, id, inOk, outOk), id, In);
  }

  /** An upstream connection kept open hears its peer hang up exactly if epoll took the one
      call made; then, and only then, its next user finds its read event active and takes it
      for connected already. */
  lemma KeptUpstreamHears(s: State, id: nat, ok: bool)
    requires Inv(s) && id < |s.conns| && s.conns[id].fd.Some? && RdHup in s.conns[id].curEvents
    ensures var t := KeepUpstream(s, id, ok);
      (Hears(t, id, RdHup) <==> ok) && (t.conns[id].readActive <==> ok)
      && !Hears(t, id, In) && !Hears(t, id, Out) && !t.conns[id].writeActive
  {
    var t := Renewed(s, id);
    RenewedKeeps(s, id);
    assert FlagsFit(s.conns[id]);
    KeepUpstreamKeeps(s, id, ok);
    ModifyIs(t, id, false, {In, Out}, ok);
    forall e: Event ensures Hears(KeepUpstream(s, id, ok), id, e) <==>
      var d := KeepUpstream(s, id, ok).conns[id]; e in d.curEvents && d.curVersion == d.version
    {
      HearsWhen(KeepUpstream(s, id, ok), id, e);
    }
  }

  /** Closing, even while epoll_ctl fails, takes the socket out of epoll: nothing more is heard of
      that use, and a later one hears nothing before it has told epoll something. */
  lemma ClosedIsSilent(s: State, id: nat, ok: bool, e: Event)
    requires id < |s.conns|
    ensures var t := Close(s, id, ok);
      && t.conns[id].fd.None? && !Hears(t, id, e)
      && !t.conns[id].readActive && !t.conns[id].writeActive
      && (s.conns[id].fd.Some? ==> s.conns[id].fd.value !in t.kernel)
      && forall fd :: fd in s.kernel && Some(fd) != s.conns[id].fd ==> fd in t.kernel && t.kernel[fd] == s.kernel[fd]
  {
  }

  // ---------- what process_events passes on ----------

  datatype Report = Report(conn: nat, version: nat, events: set<Event>)

  /** An error reported alone wakes whoever is watching. */
  function Effective(events: set<Event>): set<Event> {
    if (Err in events || Hup in events) && In !in events && Out !in events then events + {In, Out} else events
  }

  predicate Passes(s: State, e: Report) {
    e.conn < |s.conns| && s.conns[e.conn].version == e.version
  }

  predicate WakesReader(s: State, e: Report)
    requires e.conn < |s.conns|
  {
    (In in Effective(e.events) || RdHup in e.events) && s.conns[e.conn].readActive
  }

  predicate WakesWriter(s: State, e: Report)
    requires e.conn < |s.conns|
  {
    Out in Effective(e.events) && s.conns[e.conn].writeActive
  }

  predicate Ends(a: Action, id: nat) {
    !a.DoModify? && !a.DoOpen? && a.id == id
  }

  /** One step changes the version of one connection, and only by ending its use. */
  lemma StepVersion(s: State, a: Action, id: nat)
    requires Enabled(s, a) && id < |s.conns|
    ensures var t := Do(s, a);
      |t.conns| == |s.conns|
      && t.conns[id].version == s.conns[id].version + (if Ends(a, id) then 1 else 0)
      && (a.id != id ==> t.conns[id] == s.conns[id])
      && (a.DoOpen? ==> t.conns[id].writeActive == s.conns[id].writeActive)
  {
  }

  ghost function Endings(acts: seq<Action>, id: nat): (n: nat)
    ensures n == 0 <==> forall i :: 0 <= i < |acts| ==> !Ends(acts[i], id)
  {
    if acts == [] then 0 else (if Ends(acts[0], id) then 1 else 0) + Endings(acts[1..], id)
  }

  lemma {:induction false} VersionCountsEndings(s: State, acts: seq<Action>, id: nat)
    requires Run(s, acts) && id < |s.conns|
    ensures |After(s, acts).conns| == |s.conns|
    ensures After(s, acts).conns[id].version == s.conns[id].version + Endings(acts, id)
    decreases |acts|
  {
    if acts != [] {
      StepVersion(s, acts[0], id);
      hide Do, Enabled;
      VersionCountsEndings(Do(s, acts[0]), acts[1..], id);
    }
  }

  /** A report fetched while a connection was in some use is passed on exactly as long as that
      use has not ended, whatever was handled in between. */
  lemma PassesIffUseGoesOn(s: State, acts: seq<Action>, e: Report)
    requires Run(s, acts) && Passes(s, e)
    ensures Passes(After(s, acts), e) <==> forall i :: 0 <= i < |acts| ==> !Ends(acts[i], e.conn)
  {
    VersionCountsEndings(s, acts, e.conn);
  }

  /** What a coroutine may still do with a connection it has closed: take it again with a new
      socket, as a retry does that gets the connection just closed, read from it, and hand it
      back again. */
  predicate AfterClosing(a: Action) {
    a.DoOpen? || a.DoClose? || a.DoKeepUpstream? || (a.DoModify? && (a.add ==> Out !in a.events))
  }

  /** With a connection it has kept open for the next use it does nothing more. */
  ghost predicate EndsLast(acts: seq<Action>, id: nat) {
    forall i, j :: 0 <= i < j < |acts| && Ends(acts[i], id) ==>
      acts[j].id != id || acts[j].DoOpen? || (acts[i].DoClose? && AfterClosing(acts[j]))
  }

  /** Giving the connection back, epoll took the call that adds reading and refused the one
      that ends writing. */
  predicate LeavesWriting(s: State, a: Action, id: nat)
    requires id < |s.conns|
  {
    a.DoKeepServer? && a.id == id && Out in s.conns[id].curEvents
    && var t := Renewed(s, id);
       Took(t, id, true, {In}, a.inOk)
       && !Took(Modify(t, id, true, {In}, a.inOk), id, false, {Out}, a.outOk)
  }

  ghost predicate KeepsWriting(s: State, acts: seq<Action>, id: nat)
    requires Run(s, acts) && id < |s.conns|
    decreases |acts|
  {
    acts != [] &&
    (LeavesWriting(s, acts[0], id)
     || (StepVersion(s, acts[0], id); KeepsWriting(Do(s, acts[0]), acts[1..], id)))
  }

  /** What every step keeps, derailing ones included. */
  ghost predicate Sane(s: State) {
    OwnSockets(s) && AllFlagsFit(s)
  }

  lemma ModifySane(s: State, id: nat, add: bool, events: set<Event>, ok: bool)
    requires Sane(s) && id < |s.conns|
    ensures Sane(Modify(s, id, add, events, ok))
  {
    assert FlagsFit(s.conns[id]);
  }

  lemma StepSane(s: State, a: Action)
    requires Sane(s) && Enabled(s, a)
    ensures Sane(Do(s, a))
  {
    hide Modify;
    assert FlagsFit(s.conns[a.id]);
    match a {
      case DoModify(id, add, events, ok) => ModifySane(s, id, add, events, ok);
      case DoKeepServer(id, inOk, outOk) =>
        ModifySane(Renewed(s, id), id, true, {In}, inOk);
        ModifySane(Modify(Renewed(s, id), id, true, {In}, inOk), id, false, {Out}, outOk);
      case DoKeepUpstream(id, ok) => ModifySane(Renewed(s, id), id, false, {In, Out}, ok);
      case DoClose(id, ok) =>
      case DoOpen(id, fd) =>
    }
  }

  /** Not writing, and not to be told to write by a call that leaves writing as it is. */
  predicate Quiet(s: State, id: nat)
    requires id < |s.conns|
  {
    !s.conns[id].writeActive && (Out in s.conns[id].curEvents ==> Poisoned(s, id))
  }

  lemma CloseIsQuiet(s: State, id: nat, ok: bool)
    requires id < |s.conns|
    ensures Quiet(Close(s, id, ok), id)
  {
  }

  lemma QuietStays(s: State, id: nat, a: Action)
    requires Sane(s) && id < |s.conns| && Quiet(s, id) && Enabled(s, a)
    requires a.id != id || AfterClosing(a)
    ensures id < |Do(s, a).conns| && Quiet(Do(s, a), id)
  {
    if a.id != id {
      StepVersion(s, a, id);
      if Poisoned(s, id) {
        PoisonedForEver(s, id, a);
      }
    } else if a.DoClose? {
      CloseIsQuiet(s, id, a.ok);
    } else if a.DoModify? {
      if Out in s.conns[id].curEvents {
        ModifyPoisoned(s, id, id, a.add, a.events, a.ok);
      }
    } else if a.DoKeepUpstream? {
      if Out in s.conns[id].curEvents {
        PoisonedForEver(s, id, a);
      }
      EndedWriting(s, a);
    }
  }

  lemma EndedWriting(s: State, a: Action)
    requires Sane(s) && Enabled(s, a) && Ends(a, a.id)
    ensures Do(s, a).conns[a.id].writeActive <==> LeavesWriting(s, a, a.id)
  {
    assert FlagsFit(s.conns[a.id]);
  }

  /** Nothing is done with a connection kept open. */
  lemma {:induction false} Untouched(s: State, acts: seq<Action>, id: nat)
    requires Run(s, acts) && id < |s.conns|
    requires forall i :: 0 <= i < |acts| ==> acts[i].id != id || acts[i].DoOpen?
    ensures |After(s, acts).conns| == |s.conns|
    ensures After(s, acts).conns[id].version == s.conns[id].version
    ensures After(s, acts).conns[id].writeActive == s.conns[id].writeActive
    ensures !KeepsWriting(s, acts, id)
    decreases |acts|
  {
    if acts != [] {
      StepVersion(s, acts[0], id);
      hide Do, Enabled, Took, Modify, Renewed;
      Untouched(Do(s, acts[0]), acts[1..], id);
    }
  }

  /** Whatever is done with a connection that was closed, it is not woken to write. */
  lemma {:induction false} StaysQuiet(s: State, acts: seq<Action>, id: nat)
    requires Sane(s) && Run(s, acts) && id < |s.conns| && Quiet(s, id)
    requires forall i :: 0 <= i < |acts| ==> acts[i].id != id || AfterClosing(acts[i])
    ensures |After(s, acts).conns| == |s.conns|
    ensures !After(s, acts).conns[id].writeActive && !KeepsWriting(s, acts, id)
    decreases |acts|
  {
    if acts != [] {
      StepVersion(s, acts[0], id);
      StepSane(s, acts[0]);
      QuietStays(s, id, acts[0]);
      hide Do, Enabled, Sane, Took, Modify, Renewed;
      StaysQuiet(Do(s, acts[0]), acts[1..], id);
    }
  }

  /** One report may wake a connection twice, for reading and then for writing, without its
      version being looked at again. The second time meets a later use of the connection
      only in that one case of a refused call. */
  lemma {:induction false} SecondWakeUp(s: State, acts: seq<Action>, e: Report)
    requires Sane(s) && Run(s, acts) && Passes(s, e) && EndsLast(acts, e.conn)
    ensures e.conn < |After(s, acts).conns|
    ensures var t := After(s, acts);
      WakesWriter(t, e) && !Passes(t, e) <==> Out in Effective(e.events) && KeepsWriting(s, acts, e.conn)
    decreases |acts|
  {
    if acts != [] {
      var id, t, rest := e.conn, Do(s, acts[0]), acts[1..];
      StepVersion(s, acts[0], id);
      StepSane(s, acts[0]);
      if Ends(acts[0], id) {
        EndedWriting(s, acts[0]);
        if acts[0].DoClose? {
          CloseIsQuiet(s, id, acts[0].ok);
          hide Do, Enabled, Sane, LeavesWriting, Quiet;
          StaysQuiet(t, rest, id);
        } else {
          hide Do, Enabled, Sane, LeavesWriting;
          Untouched(t, rest, id);
        }
      } else {
        assert !LeavesWriting(s, acts[0], id);
        hide Do, Enabled, Sane, LeavesWriting;
        assert EndsLast(rest, id);
        SecondWakeUp(t, rest, e);
      }
    }
  }
}
