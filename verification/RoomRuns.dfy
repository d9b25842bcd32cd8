/** The room under every interleaving: handlers are cut where they wait for a
    proof to be checked or for the registry, and anything may happen in between. */
module RoomRuns {
  import opened Options
  import opened RoomLogic
  import opened RoomTables
  import opened Rooms

  /** A handler that gave way, and what it waits for. */
  datatype Task =
    | CheckingCreate(ws: nat, identity: nat)
    | ListingRoom(ws: nat, identity: nat)
    | RoomListed(ws: nat, identity: nat)
    | CheckingHello(ws: nat, identity: nat, token: Option<nat>)
    | MarkingExpired

  /** `created` counts the rows ever put in meta. */
  datatype System = System(room: Contents, listing: Listing, tasks: multiset<Task>, created: nat)

  datatype Event =
    | Connects(ws: nat)
    | Closes(ws: nat)
    | Gone(ws: nat)
    | AsksCreate(ws: nat, identity: nat)
    | AsksHello(ws: nat, identity: nat, token: Option<nat>)
    | ProofChecked(task: Task, holds: bool)
    | RegistryAnswers(task: Task)
    | CallFails(task: Task)
    | CreateResumes(task: Task, newToken: nat, expiresAt: int)
    | Writes(ws: nat, kind: EntryKind, payload: string, now: int)
    | AsksToJoin(ws: nat, identity: nat, keyPackage: string, now: int)
    | Approves(ws: nat, identity: nat)
    | Denies(ws: nat, identity: nat)
    | Expels(ws: nat, identity: nat)
    | SendsWelcome(ws: nat, to: nat, payload: string)
    | AlarmFires

  function Forget(s: System, t: Task): System {
    s.(tasks := s.tasks - multiset{t})
  }

  function Wait(s: System, t: Task): System {
    s.(tasks := s.tasks + multiset{t})
  }

  /** A proof held or not; the room is asked again, because the check gave way. */
  function AfterProof(s: System, t: Task, holds: bool): System {
    var rest := Forget(s, t);
    match t
    case CheckingCreate(ws, identity) =>
      if holds && MayCreateRoom(StateOf(s.room)) then Wait(rest, ListingRoom(ws, identity)) else rest
    case CheckingHello(ws, identity, token) =>
      if holds then rest.(room := Hello(s.room, ws, identity, token).0) else rest
    case _ => s
  }

  /** The registry's write lands, and its caller goes on. */
  function AfterRegistry(s: System, t: Task): System {
    match t
    case ListingRoom(ws, identity) => Wait(Forget(s, t), RoomListed(ws, identity)).(listing := ListedLive)
    case MarkingExpired => Forget(s, t).(listing := ListedExpired)
    case _ => s
  }

  function Resume(s: System, t: Task, token: nat, expiresAt: int): System {
    match t
    case RoomListed(ws, identity) =>
      var (room, reply) := Create(s.room, ws, identity, token, expiresAt);
      Forget(s, t).(room := room, created := if reply == Done then s.created + 1 else s.created)
    case _ => s
  }

  /** An alarm exists only from the room's creation on; it runs again if it failed. */
  function Fire(s: System): System {
    if StateOf(s.room) == Absent then s else
    var (room, mark) := Expire(s.room);
    var next := s.(room := room);
    if mark then Wait(next, MarkingExpired) else next
  }

  function SetSocket(c: Contents, ws: nat, socket: Socket): Contents {
    c.(sockets := c.sockets[ws := socket])
  }

  function Step(s: System, e: Event): System {
    match e
    case Connects(ws) =>
      if ws in s.room.sockets then s else s.(room := SetSocket(s.room, ws, Socket(None, false, Never, Never, true)))
    case Closes(ws) =>
      if ws in s.room.sockets then s.(room := SetSocket(s.room, ws, s.room.sockets[ws].(open := false))) else s
    case Gone(ws) => s.(room := s.room.(sockets := s.room.sockets - {ws}))
    case AsksCreate(ws, identity) =>
      if ws in s.room.sockets && MayCreateRoom(StateOf(s.room)) then Wait(s, CheckingCreate(ws, identity)) else s
    case AsksHello(ws, identity, token) =>
      if ws in s.room.sockets && s.room.meta.Some? then Wait(s, CheckingHello(ws, identity, token)) else s
    case ProofChecked(t, holds) => if t in s.tasks then AfterProof(s, t, holds) else s
    case RegistryAnswers(t) => if t in s.tasks then AfterRegistry(s, t) else s
    case CallFails(t) => if t in s.tasks then Forget(s, t) else s
    case CreateResumes(t, token, expiresAt) => if t in s.tasks then Resume(s, t, token, expiresAt) else s
    case Writes(ws, kind, payload, now) => s.(room := Mls(s.room, ws, kind, payload, now).0)
    case AsksToJoin(ws, identity, keyPackage, now) => s.(room := AskToJoin(s.room, ws, identity, keyPackage, now).0)
    case Approves(ws, identity) => s.(room := Approve(s.room, ws, identity).0)
    case Denies(ws, identity) => s.(room := Deny(s.room, ws, identity).0)
    case Expels(ws, identity) => s.(room := Expel(s.room, ws, identity).0)
    case SendsWelcome(ws, to, payload) => s.(room := PutWelcome(s.room, ws, to, payload).0)
    case AlarmFires => Fire(s)
  }

  const Start := System(Contents(None, false, false, [], map[], map[], {}, map[]), Unlisted, multiset{}, 0)

  function Run(s: System, es: seq<Event>): System
    decreases |es|
  {
    if es == [] then s else Run(Step(s, es[0]), es[1..])
  }

  // ---- the life of the room ----

  ghost predicate LifeOk(s: System) {
    && EmptyUnlessLive(s.room)
    && !(s.room.meta.Some? && s.room.tombstoned)
    && s.created == (if StateOf(s.room) == Absent then 0 else 1)
    && (s.room.meta.Some? ==> s.listing == ListedLive)
    && (StateOf(s.room) == Absent ==> s.listing != ListedExpired)
    && (forall t | t in s.tasks && t.RoomListed? && StateOf(s.room) == Absent :: s.listing == ListedLive)
    && (MarkingExpired in s.tasks ==> StateOf(s.room) == Tombstoned)
  }

  /** Handlers other than the last piece of onCreate and the alarm leave the room's life alone. */
  ghost predicate SameLife(c: Contents, d: Contents) {
    && d.meta == c.meta && d.tombstoned == c.tombstoned && d.named == c.named
    && (c.meta.None? ==> d.log == c.log && d.pending == c.pending && d.mailbox == c.mailbox && d.ledger == c.ledger)
  }

  lemma {:induction false} SameLifeKeeps(s: System, room: Contents)
    requires LifeOk(s) && SameLife(s.room, room)
    ensures LifeOk(s.(room := room))
  {
  }

  lemma {:induction false} ForgetKeeps(s: System, t: Task)
    requires LifeOk(s)
    ensures LifeOk(Forget(s, t))
  {
    forall u | u in Forget(s, t).tasks ensures u in s.tasks {}
  }

  lemma {:induction false} HandlersKeepLife(c: Contents, e: Event)
    requires EmptyUnlessLive(c)
    ensures SameLife(c, Handled(c, e))
  {
    hide HighWater, Bytes, CountApplications, ClassifyMlsWrite, ClassifyJoinRequest, Reachable;
  }

  /** What a handler that does not give way leaves of the room. */
  function Handled(c: Contents, e: Event): Contents {
    match e
    case Writes(ws, kind, payload, now) => Mls(c, ws, kind, payload, now).0
    case AsksToJoin(ws, identity, keyPackage, now) => AskToJoin(c, ws, identity, keyPackage, now).0
    case Approves(ws, identity) => Approve(c, ws, identity).0
    case Denies(ws, identity) => Deny(c, ws, identity).0
    case Expels(ws, identity) => Expel(c, ws, identity).0
    case SendsWelcome(ws, to, payload) => PutWelcome(c, ws, to, payload).0
    case _ => c
  }

  predicate IsTask(e: Event) {
    e.ProofChecked? || e.RegistryAnswers? || e.CallFails? || e.CreateResumes?
  }

  lemma {:induction false} WaitKeeps(s: System, t: Task)
    requires LifeOk(s) && !t.RoomListed? && !t.MarkingExpired?
    ensures LifeOk(Wait(s, t))
  {
    forall u | u in Wait(s, t).tasks && u != t ensures u in s.tasks {}
  }

  lemma {:induction false} ProofKeepsLife(s: System, t: Task, holds: bool)
    requires LifeOk(s) && t in s.tasks
    ensures LifeOk(AfterProof(s, t, holds))
  {
    hide Reachable, LifeOk;
    ForgetKeeps(s, t);
    match t
    case CheckingCreate(ws, identity) => WaitKeeps(Forget(s, t), ListingRoom(ws, identity));
    case CheckingHello(ws, identity, token) =>
      if holds { SameLifeKeeps(Forget(s, t), Hello(s.room, ws, identity, token).0); }
    case _ =>
  }

  lemma {:induction false} RegistryKeepsLife(s: System, t: Task)
    requires LifeOk(s) && t in s.tasks
    ensures LifeOk(AfterRegistry(s, t))
  {
    ForgetKeeps(s, t);
    forall u | u in Forget(s, t).tasks ensures u in s.tasks {}
  }

  lemma {:induction false} ResumeKeepsLife(s: System, t: Task, token: nat, expiresAt: int)
    requires LifeOk(s) && t in s.tasks
    ensures LifeOk(Resume(s, t, token, expiresAt))
  {
    ForgetKeeps(s, t);
    forall u | u in Forget(s, t).tasks ensures u in s.tasks {}
  }

  lemma {:induction false} TaskKeepsLife(s: System, e: Event)
    requires LifeOk(s) && IsTask(e)
    ensures LifeOk(Step(s, e))
  {
    hide LifeOk, AfterProof, AfterRegistry, Resume, Forget;
    match e
    case ProofChecked(t, holds) => if t in s.tasks { ProofKeepsLife(s, t, holds); }
    case RegistryAnswers(t) => if t in s.tasks { RegistryKeepsLife(s, t); }
    case CallFails(t) => if t in s.tasks { ForgetKeeps(s, t); }
    case CreateResumes(t, token, expiresAt) => if t in s.tasks { ResumeKeepsLife(s, t, token, expiresAt); }
    case _ =>
  }

  lemma {:induction false} LifeStep(s: System, e: Event)
    requires LifeOk(s)
    ensures LifeOk(Step(s, e))
  {
    hide Mls, AskToJoin, PutWelcome, Approve, Deny, Expel, AfterProof, AfterRegistry, Resume;
    if IsTask(e) {
      TaskKeepsLife(s, e);
    } else if e.AlarmFires? || e.AsksCreate? || e.AsksHello? {
    } else if e.Connects? || e.Closes? || e.Gone? {
      SameLifeKeeps(s, Step(s, e).room);
    } else {
      HandlersKeepLife(s.room, e);
      SameLifeKeeps(s, Handled(s.room, e));
    }
  }

  /** In every run a meta row is put in at most once ever, a live room is listed
      as live, and outside its life the room holds no group data. */
  lemma {:induction false} RoomLife(s: System, es: seq<Event>)
    requires LifeOk(s)
    ensures LifeOk(Run(s, es)) && Run(s, es).created <= 1
    decreases |es|
  {
    hide LifeOk, Step;
    if es != [] {
      LifeStep(s, es[0]);
      RoomLife(Step(s, es[0]), es[1..]);
    }
    CreatedOnce(Run(s, es));
  }

  lemma {:induction false} CreatedOnce(s: System)
    ensures LifeOk(s) ==> s.created <= 1
  {
  }

  lemma {:induction false} StartOk()
    ensures LifeOk(Start) && DataOk(Start.room)
  {
  }

  lemma {:induction false} DeadStep(s: System, e: Event)
    requires LifeOk(s) && StateOf(s.room) == Tombstoned
    ensures StateOf(Step(s, e).room) == Tombstoned
  {
    match e
    case ProofChecked(t, holds) =>
    case _ =>
  }

  /** An expired room never lives again. */
  lemma {:induction false} DeadForever(s: System, es: seq<Event>)
    requires LifeOk(s) && StateOf(s.room) == Tombstoned
    ensures StateOf(Run(s, es).room) == Tombstoned
    decreases |es|
  {
    hide LifeOk, Step;
    if es != [] {
      LifeStep(s, es[0]);
      DeadStep(s, es[0]);
      DeadForever(Step(s, es[0]), es[1..]);
    }
  }

  // ---- the alarm's call of the registry ----

  /** The alarm asks for the registry's row to be marked exactly when it finds
      the room alive; a second run, after the first call failed, no longer knows the name. */
  lemma {:induction false} AlarmMarksIff(s: System)
    requires LifeOk(s)
    ensures MarkingExpired in (Step(s, AlarmFires).tasks - s.tasks) <==> StateOf(s.room) == Live
  {
    if StateOf(s.room) == Live {
      assert Step(s, AlarmFires).tasks == s.tasks + multiset{MarkingExpired};
      assert Step(s, AlarmFires).tasks - s.tasks == multiset{MarkingExpired};
    } else {
      assert Step(s, AlarmFires).tasks == s.tasks;
      assert s.tasks - s.tasks == multiset{};
    }
  }

  /** A call of the registry that has not landed yet. */
  predicate CallPending(s: System) {
    exists t | t in s.tasks :: t.ListingRoom? || t.MarkingExpired?
  }

  lemma {:induction false} FrozenStep(s: System, e: Event)
    requires LifeOk(s) && StateOf(s.room) == Tombstoned && !CallPending(s)
    ensures Step(s, e).listing == s.listing && !CallPending(Step(s, e))
  {
    hide Mls, AskToJoin, PutWelcome, Approve, Deny, Expel, Hello, Create;
    forall t | t in Step(s, e).tasks ensures !t.ListingRoom? && !t.MarkingExpired? {
      if t !in s.tasks { DeadStep(s, e); }
    }
  }

  /** Once a room has expired and no call is on its way, nothing in any run changes its listing. */
  lemma {:induction false} ListingFrozen(s: System, es: seq<Event>)
    requires LifeOk(s) && StateOf(s.room) == Tombstoned && !CallPending(s)
    ensures Run(s, es).listing == s.listing && StateOf(Run(s, es).room) == Tombstoned
    decreases |es|
  {
    hide LifeOk, Step, CallPending, StateOf;
    if es != [] {
      LifeStep(s, es[0]);
      DeadStep(s, es[0]);
      FrozenStep(s, es[0]);
      ListingFrozen(Step(s, es[0]), es[1..]);
    }
  }

  /** What a call of the registry that lands with this event writes. */
  function Landed(s: System, e: Event): Option<Listing> {
    if !e.RegistryAnswers? || e.task !in s.tasks then None
    else if e.task.ListingRoom? then Some(ListedLive)
    else if e.task.MarkingExpired? then Some(ListedExpired)
    else None
  }

  function LastLanded(s: System, es: seq<Event>): Option<Listing>
    decreases |es|
  {
    if es == [] then None else
    var rest := LastLanded(Step(s, es[0]), es[1..]);
    if rest.Some? then rest else Landed(s, es[0])
  }

  /** The registry says what the last call to land wrote, in every run. Nothing
      orders a `markLive` before the `markExpired` of the same room. */
  lemma {:induction false} ListingIsLastLanded(s: System, es: seq<Event>)
    ensures Run(s, es).listing == if LastLanded(s, es).Some? then LastLanded(s, es).value else s.listing
    decreases |es|
  {
    hide Step, Landed;
    if es != [] {
      ListingStep(s, es[0]);
      ListingIsLastLanded(Step(s, es[0]), es[1..]);
    }
  }

  lemma {:induction false} ListingStep(s: System, e: Event)
    ensures Step(s, e).listing == if Landed(s, e).Some? then Landed(s, e).value else s.listing
  {
    hide Mls, AskToJoin, PutWelcome, Approve, Deny, Expel, Hello, Create, Expire;
  }

  /** The first way an expired room is listed live: the alarm's call fails, and the
      alarm's retry makes none. From then on nothing changes it, whatever happens. */
  lemma {:induction false} FailedMarkStaysLive(s: System, es: seq<Event>)
    requires LifeOk(s) && StateOf(s.room) == Live && !CallPending(s)
    ensures var r := Run(s, [AlarmFires, CallFails(MarkingExpired), AlarmFires] + es);
      StateOf(r.room) == Tombstoned && r.listing == ListedLive
  {
    var fired := Step(s, AlarmFires);
    var failed := Step(fired, CallFails(MarkingExpired));
    var retried := Step(failed, AlarmFires);
    assert fired.tasks == s.tasks + multiset{MarkingExpired} && MarkingExpired !in s.tasks;
    assert failed.tasks == s.tasks && retried.tasks == s.tasks;
    LifeStep(s, AlarmFires);
    LifeStep(fired, CallFails(MarkingExpired));
    LifeStep(failed, AlarmFires);
    RunThree(s, AlarmFires, CallFails(MarkingExpired), AlarmFires, es);
    ListingFrozen(retried, es);
  }

  lemma {:induction false} RunThree(s: System, a: Event, b: Event, c: Event, es: seq<Event>)
    ensures Run(s, [a, b, c] + es) == Run(Step(Step(Step(s, a), b), c), es)
  {
    hide Step;
    RunFirst(s, a, [b, c] + es);
    RunFirst(Step(s, a), b, [c] + es);
    RunFirst(Step(Step(s, a), b), c, es);
    assert [a] + ([b, c] + es) == [a, b, c] + es && [b] + ([c] + es) == [b, c] + es;
  }

  lemma {:induction false} RunFirst(s: System, e: Event, es: seq<Event>)
    ensures Run(s, [e] + es) == Run(Step(s, e), es)
  {
    hide Step;
    assert ([e] + es)[1..] == es;
  }

  /** The second way: a `markLive` sent for a second create, before the first one made
      the room, lands after the alarm's `markExpired`. */
  lemma {:induction false} LateListing(s: System, t: Task, es: seq<Event>)
    requires LifeOk(s) && StateOf(s.room) == Tombstoned && t in s.tasks && t.ListingRoom? && !CallPending(Forget(s, t))
    ensures var r := Run(s, [RegistryAnswers(t)] + es); StateOf(r.room) == Tombstoned && r.listing == ListedLive
  {
    var late := Step(s, RegistryAnswers(t));
    LifeStep(s, RegistryAnswers(t));
    forall u | u in late.tasks ensures !u.ListingRoom? && !u.MarkingExpired? {
      if !u.RoomListed? { assert u in Forget(s, t).tasks; }
    }
    RunFirst(s, RegistryAnswers(t), es);
    ListingFrozen(late, es);
  }

  lemma {:induction false} RunSplit(s: System, es: seq<Event>, r: System)
    requires |es| == 10
    requires r == Step(Step(Step(Step(Step(Step(Step(Step(Step(Step(s, es[0]), es[1]), es[2]), es[3]), es[4]), es[5]),
      es[6]), es[7]), es[8]), es[9])
    ensures Run(s, es) == r
  {
    hide Step;
    var a := Step(Step(Step(s, es[0]), es[1]), es[2]);
    var b := Step(Step(Step(a, es[3]), es[4]), es[5]);
    var c := Step(Step(Step(b, es[6]), es[7]), es[8]);
    assert es == [es[0], es[1], es[2]] + es[3..];
    RunThree(s, es[0], es[1], es[2], es[3..]);
    assert es[3..] == [es[3], es[4], es[5]] + es[6..];
    RunThree(a, es[3], es[4], es[5], es[6..]);
    assert es[6..] == [es[6], es[7], es[8]] + es[9..];
    RunThree(b, es[6], es[7], es[8], es[9..]);
    assert es[9..] == [es[9]] + [];
    RunFirst(c, es[9], []);
  }

  /** Two sockets that ask to create one room at once bring this about. */
  const TwoCreates: seq<Event> := [
    Connects(0), Connects(1), AsksCreate(0, 7), AsksCreate(1, 8),
    ProofChecked(CheckingCreate(0, 7), true), ProofChecked(CheckingCreate(1, 8), true),
    RegistryAnswers(ListingRoom(0, 7)), CreateResumes(RoomListed(0, 7), 3, 100),
    AlarmFires, RegistryAnswers(MarkingExpired)]

  lemma {:induction false} TwoAsk()
    ensures var s := Step(Step(Step(Step(Start, Connects(0)), Connects(1)), AsksCreate(0, 7)), AsksCreate(1, 8));
      StateOf(s.room) == Absent && s.tasks == multiset{CheckingCreate(0, 7), CheckingCreate(1, 8)} &&
        s.listing == Unlisted
  {
    var two := Step(Step(Start, Connects(0)), Connects(1));
    assert 0 in two.room.sockets && 1 in two.room.sockets;
    assert two.tasks == multiset{};
    assert Step(two, AsksCreate(0, 7)).tasks == multiset{CheckingCreate(0, 7)};
  }

  lemma {:induction false} BothChecked(s: System)
    requires StateOf(s.room) == Absent && s.tasks == multiset{CheckingCreate(0, 7), CheckingCreate(1, 8)}
    ensures var n := Step(
        Step(Step(s, ProofChecked(CheckingCreate(0, 7), true)), ProofChecked(CheckingCreate(1, 8), true)),
        RegistryAnswers(ListingRoom(0, 7)));
      StateOf(n.room) == Absent && n.tasks == multiset{RoomListed(0, 7), ListingRoom(1, 8)} && n.listing == ListedLive
  {
    var one := Step(s, ProofChecked(CheckingCreate(0, 7), true));
    assert one.tasks == multiset{ListingRoom(0, 7), CheckingCreate(1, 8)};
    var two := Step(one, ProofChecked(CheckingCreate(1, 8), true));
    assert two.tasks == multiset{ListingRoom(0, 7), ListingRoom(1, 8)};
  }

  lemma {:induction false} MadeAndExpired(s: System)
    requires StateOf(s.room) == Absent && s.tasks == multiset{RoomListed(0, 7), ListingRoom(1, 8)}
    ensures var n := Step(Step(Step(s, CreateResumes(RoomListed(0, 7), 3, 100)), AlarmFires),
      RegistryAnswers(MarkingExpired));
      StateOf(n.room) == Tombstoned && n.tasks == multiset{ListingRoom(1, 8)} && n.listing == ListedExpired
  {
    var made := Step(s, CreateResumes(RoomListed(0, 7), 3, 100));
    assert made.tasks == multiset{ListingRoom(1, 8)} && StateOf(made.room) == Live;
    var fired := Step(made, AlarmFires);
    assert fired.tasks == multiset{ListingRoom(1, 8), MarkingExpired};
  }

  lemma {:induction false} TwoCreatesReachIt()
    ensures var s := Run(Start, TwoCreates);
      && LifeOk(s) && StateOf(s.room) == Tombstoned && s.listing == ListedExpired
      && s.tasks == multiset{ListingRoom(1, 8)}
  {
    hide Step, LifeOk, StateOf;
    var es := TwoCreates;
    var asked := Step(Step(Step(Step(Start, es[0]), es[1]), es[2]), es[3]);
    TwoAsk();
    BothChecked(asked);
    var listed := Step(Step(Step(asked, es[4]), es[5]), es[6]);
    MadeAndExpired(listed);
    RunSplit(Start, es, Step(Step(Step(listed, es[7]), es[8]), es[9]));
    StartOk();
    RoomLife(Start, es);
  }

  // ---- what the tables hold ----

  lemma {:induction false} SocketsKeepData(s: System, e: Event)
    requires DataOk(s.room) && (e.Connects? || e.Closes? || e.Gone?)
    ensures DataOk(Step(s, e).room) && Step(s, e).room.log == s.room.log
  {
    hide CountApplications, Bytes, Dense;
  }

  lemma {:induction false} DataStep(s: System, e: Event)
    requires LifeOk(s) && DataOk(s.room)
    ensures DataOk(Step(s, e).room)
    ensures StateOf(s.room) == Live && StateOf(Step(s, e).room) == Live ==> s.room.log <= Step(s, e).room.log
  {
    hide DataOk, Mls, AskToJoin, PutWelcome, Approve, Deny, Expel, Hello, Create, Expire;
    match e
    case ProofChecked(t, holds) =>
      if t in s.tasks && t.CheckingHello? && holds { HelloKeepsData(s.room, t.ws, t.identity, t.token); }
    case CreateResumes(t, token, expiresAt) =>
      if t in s.tasks && t.RoomListed? {
        CreateKeepsData(s.room, t.ws, t.identity, token, expiresAt);
        CreateKeepsLog(s.room, t.ws, t.identity, token, expiresAt);
      }
    case Writes(ws, kind, payload, now) => MlsKeepsData(s.room, ws, kind, payload, now);
    case AsksToJoin(ws, identity, keyPackage, now) =>
      JoinKeepsData(s.room, ws, identity, keyPackage, now);
      OthersKeepLog(s.room, e);
    case SendsWelcome(ws, to, payload) => WelcomeKeepsData(s.room, ws, to, payload);
    case AlarmFires =>
      ExpireKeepsData(s.room);
      ExpireEnds(s.room);
    case Approves(ws, identity) => ApproveKeepsData(s.room, ws, identity);
    case Denies(ws, identity) => DenyKeepsData(s.room, ws, identity);
    case Expels(ws, identity) => ExpelKeepsData(s.room, ws, identity);
    case _ => if e.Connects? || e.Closes? || e.Gone? { SocketsKeepData(s, e); }
  }

  lemma {:induction false} ExpireEnds(c: Contents)
    ensures StateOf(Expire(c).0) == Tombstoned
  {
  }

  lemma {:induction false} CreateKeepsLog(c: Contents, ws: nat, identity: nat, token: nat, expiresAt: int)
    ensures Create(c, ws, identity, token, expiresAt).0.log == c.log
  {
  }

  lemma {:induction false} OthersKeepLog(c: Contents, e: Event)
    requires !e.Writes? && !e.SendsWelcome?
    ensures Handled(c, e).log == c.log
  {
  }

  /** In every reachable state the log is numbered 1 to n with nothing missing,
      every stored Welcome's numbers are right, the caps hold, and only the creator's
      commits are in the log; while the room lives the log only grows. */
  lemma {:induction false} RoomData(s: System, es: seq<Event>)
    requires LifeOk(s) && DataOk(s.room)
    ensures DataOk(Run(s, es).room)
    ensures StateOf(s.room) == Live && StateOf(Run(s, es).room) == Live ==> s.room.log <= Run(s, es).room.log
    decreases |es|
  {
    hide LifeOk, DataOk, Step, StateOf;
    if es != [] {
      LifeStep(s, es[0]);
      DataStep(s, es[0]);
      RoomData(Step(s, es[0]), es[1..]);
      if StateOf(s.room) == Live && StateOf(Step(s, es[0]).room) != Live { LiveThenDead(s, es); }
    }
  }

  /** From a room id nobody has used, after anything at all. */
  lemma {:induction false} EveryReachableRoom(es: seq<Event>)
    ensures var r := Run(Start, es);
      && LifeOk(r) && DataOk(r.room) && r.created <= 1
      && (StateOf(r.room) == Live ==> r.listing == ListedLive)
      && r.listing == if LastLanded(Start, es).Some? then LastLanded(Start, es).value else Unlisted
  {
    hide Run, LastLanded;
    StartOk();
    RoomLife(Start, es);
    RoomData(Start, es);
    ListingIsLastLanded(Start, es);
  }

  /** A room that stopped living does not live at the end of the run either. */
  lemma {:induction false} LiveThenDead(s: System, es: seq<Event>)
    requires LifeOk(s) && es != [] && StateOf(s.room) == Live && StateOf(Step(s, es[0]).room) != Live
    ensures StateOf(Run(s, es).room) == Tombstoned
  {
    hide DataOk;
    LifeStep(s, es[0]);
    NeverAbsentAgain(s, es[0]);
    DeadForever(Step(s, es[0]), es[1..]);
  }

  lemma {:induction false} NeverAbsentAgain(s: System, e: Event)
    requires LifeOk(s) && StateOf(s.room) != Absent
    ensures StateOf(Step(s, e).room) != Absent
  {
    hide Step, StateOf;
    LifeStep(s, e);
    CountNeverFalls(s, e);
    LifeCount(s);
    LifeCount(Step(s, e));
  }

  lemma {:induction false} LifeCount(s: System)
    requires LifeOk(s)
    ensures s.created == if StateOf(s.room) == Absent then 0 else 1
  {
  }

  lemma {:induction false} CountNeverFalls(s: System, e: Event)
    ensures Step(s, e).created >= s.created
  {
    hide Mls, AskToJoin, PutWelcome, Approve, Deny, Expel, Hello, Create, Expire;
  }
}
