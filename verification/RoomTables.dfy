/** The tables of the demo's room and what each handler does to them as one piece
    (example-realistic-demo/index.ts). */
module RoomTables {
  import opened Options
  import opened RoomLogic

  datatype Meta = Meta(expiresAt: int, creator: nat, token: nat)

  datatype Mail = Mail(payload: string, cursor: nat, priorCount: nat)

  datatype JoinRequest = JoinRequest(keyPackage: string, requestedAt: int)

  datatype Status = Admitted | Expelled

  /** `identity` is None until the socket proved one. */
  datatype Socket = Socket(identity: Option<nat>, isCreator: bool, lastJoin: Moment, lastMls: Moment, open: bool)

  datatype Reply =
    | Done | NoRoom | RoomExists | BadProof | BadMessage | NotCreator | NotMember | CommitNotCreator
    | WriteRefused(write: WriteVerdict) | JoinRefused(join: JoinVerdict)

  /** The tables and the sockets. */
  datatype Contents = Contents(
    meta: Option<Meta>,
    tombstoned: bool,
    named: bool,
    log: seq<LogEntry>,
    pending: map<nat, JoinRequest>,
    mailbox: map<nat, Mail>,
    ledger: set<(nat, Status)>,
    sockets: map<nat, Socket>)

  datatype RoomState = Absent | Live | Tombstoned

  function StateOf(c: Contents): RoomState {
    if c.meta.Some? then Live else if c.tombstoned then Tombstoned else Absent
  }

  predicate MayCreateRoom(s: RoomState) {
    s == Absent
  }

  // ---- reading ----

  function HighWater(log: seq<LogEntry>): (h: nat)
    ensures forall e | e in log :: e.seqNo <= h
  {
    if log == [] then 0 else
    var h := HighWater(log[1..]);
    if log[0].seqNo > h then log[0].seqNo else h
  }

  function Bytes(log: seq<LogEntry>): nat {
    if log == [] then 0 else Bytes(log[..|log| - 1]) + |log[|log| - 1].payload|
  }

  function Known(c: Contents, ws: nat): Option<Socket> {
    if ws in c.sockets && c.sockets[ws].identity.Some? then Some(c.sockets[ws]) else None
  }

  predicate IsCreator(c: Contents, ws: nat) {
    Known(c, ws).Some? && c.sockets[ws].isCreator
  }

  /** An open socket that proved `identity`. */
  predicate Reachable(c: Contents, identity: nat) {
    exists ws | ws in c.sockets :: c.sockets[ws].open && c.sockets[ws].identity == Some(identity)
  }

  // ---- what each handler does to the room, as one piece ----

  /** attach: the throttles stay the socket's own. */
  function Attach(c: Contents, ws: nat, identity: nat, isCreator: bool): Contents {
    if ws !in c.sockets then c else
    c.(sockets := c.sockets[ws := c.sockets[ws].(identity := Some(identity), isCreator := isCreator)])
  }

  /** replaceExistingSocket: other sockets that proved the identity are closed. */
  function Replace(c: Contents, ws: nat, identity: nat): Contents {
    c.(sockets := map w | w in c.sockets ::
      if w != ws && c.sockets[w].identity == Some(identity) then c.sockets[w].(open := false) else c.sockets[w])
  }

  /** The last piece of onCreate: after the proof and the registry, if the id is still free. */
  function Create(c: Contents, ws: nat, identity: nat, token: nat, expiresAt: int): (Contents, Reply) {
    if !MayCreateRoom(StateOf(c)) then (c, RoomExists)
    else (Attach(c.(meta := Some(Meta(expiresAt, identity, token)), named := true), ws, identity, true), Done)
  }

  /** deliverMailbox: a Welcome goes to one open socket and is forgotten. */
  function Deliver(c: Contents, identity: nat): Contents {
    if identity in c.mailbox && Reachable(c, identity) then c.(mailbox := c.mailbox - {identity}) else c
  }

  /** The last piece of onHello, after the proof. */
  function Hello(c: Contents, ws: nat, identity: nat, token: Option<nat>): (Contents, Reply) {
    if c.meta.None? then (c, NoRoom) else
    var isCreator := token == Some(c.meta.value.token) && identity == c.meta.value.creator;
    (Deliver(Attach(Replace(c, ws, identity), ws, identity, isCreator), identity), Done)
  }

  function Mls(c: Contents, ws: nat, kind: EntryKind, payload: string, now: int): (Contents, Reply) {
    if Known(c, ws).None? then (c, BadMessage)
    else if c.meta.None? then (c, NoRoom)
    else
      var s := c.sockets[ws];
      var who := s.identity.value;
      if !MayWriteLog(s.isCreator, (who, Admitted) in c.ledger, (who, Expelled) in c.ledger) then (c, NotMember)
      else if !MayWriteKind(kind, s.isCreator) then (c, CommitNotCreator)
      else
        var verdict := ClassifyMlsWrite(|payload|, |c.log|, Bytes(c.log), s.lastMls, now);
        if verdict != WriteOk then (c, WriteRefused(verdict))
        else
          (c.(log := c.log + [LogEntry(NextSeq(HighWater(c.log)), who, kind, payload)],
              sockets := c.sockets[ws := s.(lastMls := At(now))]), Done)
  }

  function AskToJoin(c: Contents, ws: nat, identity: nat, keyPackage: string, now: int): (Contents, Reply) {
    if c.meta.None? then (c, NoRoom)
    else if Known(c, ws).None? || c.sockets[ws].identity != Some(identity) then (c, BadProof)
    else
      var verdict := ClassifyJoinRequest(|keyPackage|, |c.pending|, identity in c.pending, c.sockets[ws].lastJoin, now);
      if verdict != JoinOk then (c, JoinRefused(verdict))
      else
        (c.(pending := c.pending[identity := JoinRequest(keyPackage, now)],
            sockets := c.sockets[ws := c.sockets[ws].(lastJoin := At(now))]), Done)
  }

  function Approve(c: Contents, ws: nat, identity: nat): (Contents, Reply) {
    if c.meta.None? then (c, NoRoom)
    else if !IsCreator(c, ws) then (c, NotCreator)
    else (c.(ledger := c.ledger + {(identity, Admitted)} - {(identity, Expelled)}, pending := c.pending - {identity}),
      Done)
  }

  function Deny(c: Contents, ws: nat, identity: nat): (Contents, Reply) {
    if c.meta.None? then (c, NoRoom)
    else if !IsCreator(c, ws) then (c, NotCreator)
    else (c.(pending := c.pending - {identity}, mailbox := c.mailbox - {identity}), Done)
  }

  function Expel(c: Contents, ws: nat, identity: nat): (Contents, Reply) {
    if c.meta.None? then (c, NoRoom)
    else if !IsCreator(c, ws) then (c, NotCreator)
    else (c.(ledger := c.ledger + {(identity, Expelled)}, mailbox := c.mailbox - {identity}), Done)
  }

  /** onWelcome: the room, not the client, stamps where the newcomer comes in. */
  function PutWelcome(c: Contents, ws: nat, to: nat, payload: string): (Contents, Reply) {
    if c.meta.None? then (c, NoRoom)
    else if !IsCreator(c, ws) then (c, NotCreator)
    else
      var cursor := HighWater(c.log);
      (Deliver(c.(mailbox := c.mailbox[to := Mail(payload, cursor, CountApplications(c.log, cursor))]), to), Done)
  }

  /** alarm, up to its call of the registry; true when there is a name to mark expired. */
  function Expire(c: Contents): (Contents, bool) {
    (Contents(None, true, false, [], map[], map[], {},
       map ws | ws in c.sockets :: c.sockets[ws].(open := false)),
     c.named)
  }

  // ---- what the tables hold ----

  /** Group data exists only while the room lives. */
  ghost predicate EmptyUnlessLive(c: Contents) {
    && (c.named <==> c.meta.Some?)
    && (c.meta.None? ==> c.log == [] && c.pending == map[] && c.mailbox == map[] && c.ledger == {})
  }

  /** A stored Welcome names a place in the log and the messages up to it. */
  ghost predicate MailOk(c: Contents) {
    forall to | to in c.mailbox ::
      c.mailbox[to].cursor <= |c.log| && c.mailbox[to].priorCount == CountApplications(c.log, c.mailbox[to].cursor)
  }

  ghost predicate BoundsOk(c: Contents) {
    |c.log| <= MAX_LOG_ROWS && Bytes(c.log) <= MAX_LOG_BYTES && |c.pending| <= MAX_PENDING_REQUESTS
  }

  /** The creator's sockets proved the creator's identity, and only those write commits. */
  ghost predicate CreatorOk(c: Contents) {
    && (StateOf(c) == Absent ==> forall ws | ws in c.sockets :: !c.sockets[ws].isCreator)
    && (c.meta.Some? ==> forall ws | ws in c.sockets && c.sockets[ws].isCreator ::
      c.sockets[ws].identity == Some(c.meta.value.creator))
    && (c.meta.Some? ==> forall e | e in c.log && e.kind == CommitEntry :: e.sender == c.meta.value.creator)
  }

  ghost predicate DataOk(c: Contents) {
    Dense(c.log) && MailOk(c) && BoundsOk(c) && CreatorOk(c)
  }

  lemma {:induction false} DenseHighWater(log: seq<LogEntry>, k: nat)
    requires forall i | 0 <= i < |log| :: log[i].seqNo == k + i + 1
    ensures HighWater(log) == if log == [] then 0 else k + |log|
    decreases |log|
  {
    if log != [] {
      var rest := log[1..];
      assert forall i | 0 <= i < |rest| :: rest[i].seqNo == k + 1 + i + 1;
      DenseHighWater(rest, k + 1);
    }
  }

  lemma {:induction false} AppendKeeps(c: Contents, d: Contents, e: LogEntry)
    requires Dense(c.log) && MailOk(c) && BoundsOk(c)
    requires d.log == c.log + [e] && e.seqNo == |c.log| + 1 && d.mailbox == c.mailbox && d.pending == c.pending
    requires |c.log| < MAX_LOG_ROWS && Bytes(c.log) + |e.payload| <= MAX_LOG_BYTES
    ensures Dense(d.log) && MailOk(d) && BoundsOk(d)
  {
    hide CountApplications;
    assert d.log[..|c.log|] == c.log;
    forall to | to in d.mailbox ensures d.mailbox[to].priorCount == CountApplications(d.log, d.mailbox[to].cursor) {
      CountStable(c.log, e, c.mailbox[to].cursor);
    }
  }

  lemma {:induction false} AppendCreator(c: Contents, d: Contents, ws: nat, e: LogEntry)
    requires CreatorOk(c) && ws in c.sockets && c.sockets[ws].identity == Some(e.sender)
    requires e.kind == CommitEntry ==> c.sockets[ws].isCreator
    requires d.log == c.log + [e] && d.meta == c.meta && d.tombstoned == c.tombstoned
    requires ws in d.sockets && d.sockets == c.sockets[ws := c.sockets[ws].(lastMls := d.sockets[ws].lastMls)]
    ensures CreatorOk(d)
  {
  }

  lemma {:induction false} MlsKeepsData(c: Contents, ws: nat, kind: EntryKind, payload: string, now: int)
    requires DataOk(c)
    ensures DataOk(Mls(c, ws, kind, payload, now).0)
    ensures c.log <= Mls(c, ws, kind, payload, now).0.log
  {
    hide ClassifyMlsWrite, CountApplications, MailOk, BoundsOk, CreatorOk, Bytes;
    var (d, reply) := Mls(c, ws, kind, payload, now);
    if reply == Done {
      DenseHighWater(c.log, 0);
      var e := d.log[|c.log|];
      WriteFits(|payload|, |c.log|, Bytes(c.log), c.sockets[ws].lastMls, now);
      AppendKeeps(c, d, e);
      AppendCreator(c, d, ws, e);
    }
  }

  lemma {:induction false} WriteFits(payloadLength: nat, logRows: nat, logBytes: nat, lastMls: Moment, now: int)
    ensures ClassifyMlsWrite(payloadLength, logRows, logBytes, lastMls, now) == WriteOk ==>
      logRows < MAX_LOG_ROWS && logBytes + payloadLength <= MAX_LOG_BYTES
  {
  }

  lemma {:induction false} OneMorePending(a: map<nat, JoinRequest>, k: nat, r: JoinRequest)
    ensures |a[k := r]| == if k in a then |a| else |a| + 1
  {
    var b := a[k := r];
    assert b.Keys == a.Keys + {k};
    assert |b| == |b.Keys| && |a| == |a.Keys|;
    if k in a { assert b.Keys == a.Keys; }
  }

  lemma {:induction false} JoinFits(
      keyPackageLength: nat, pendingCount: nat, alreadyPending: bool, lastRequest: Moment, now: int)
    ensures ClassifyJoinRequest(keyPackageLength, pendingCount, alreadyPending, lastRequest, now) == JoinOk ==>
      alreadyPending || pendingCount < MAX_PENDING_REQUESTS
  {
  }

  lemma {:induction false} TablesKeepData(c: Contents, d: Contents)
    requires DataOk(c) && d == c.(pending := d.pending, mailbox := d.mailbox, ledger := d.ledger)
    requires |d.pending| <= MAX_PENDING_REQUESTS
    requires forall to | to in d.mailbox :: to in c.mailbox && d.mailbox[to] == c.mailbox[to]
    ensures DataOk(d)
  {
    hide CountApplications, Bytes, Dense, HighWater;
  }

  lemma {:induction false} ThrottleKeepsData(c: Contents, ws: nat, at: Moment)
    requires DataOk(c) && ws in c.sockets
    ensures DataOk(c.(sockets := c.sockets[ws := c.sockets[ws].(lastJoin := at)]))
  {
    hide CountApplications, Bytes, Dense, HighWater;
  }

  lemma {:induction false} JoinKeepsData(c: Contents, ws: nat, identity: nat, keyPackage: string, now: int)
    requires DataOk(c)
    ensures DataOk(AskToJoin(c, ws, identity, keyPackage, now).0)
  {
    hide DataOk, ClassifyJoinRequest;
    var (d, reply) := AskToJoin(c, ws, identity, keyPackage, now);
    if reply == Done {
      JoinFits(|keyPackage|, |c.pending|, identity in c.pending, c.sockets[ws].lastJoin, now);
      OneMorePending(c.pending, identity, JoinRequest(keyPackage, now));
      PendingBound(c);
      TablesKeepData(c, c.(pending := d.pending));
      ThrottleKeepsData(c.(pending := d.pending), ws, At(now));
    }
  }

  lemma {:induction false} PendingBound(c: Contents)
    requires DataOk(c)
    ensures |c.pending| <= MAX_PENDING_REQUESTS
  {
  }

  lemma {:induction false} FewerPending(a: map<nat, JoinRequest>, k: nat)
    ensures |a - {k}| <= |a|
  {
    assert (a - {k}).Keys == a.Keys - {k};
    assert |a - {k}| == |(a - {k}).Keys| && |a| == |a.Keys|;
  }

  lemma {:induction false} DropPending(d: Contents, c: Contents, identity: nat)
    requires DataOk(c) && d == c.(ledger := d.ledger)
    ensures DataOk(d.(pending := d.pending - {identity}))
  {
    hide DataOk;
    PendingBound(c);
    FewerPending(c.pending, identity);
    var e := d.(pending := d.pending - {identity});
    assert e == c.(pending := e.pending, mailbox := e.mailbox, ledger := e.ledger);
    TablesKeepData(c, e);
  }

  lemma {:induction false} ApproveKeepsData(c: Contents, ws: nat, identity: nat)
    requires DataOk(c)
    ensures DataOk(Approve(c, ws, identity).0) && Approve(c, ws, identity).0.log == c.log
  {
    hide DataOk, IsCreator;
    var ledger := c.ledger + {(identity, Admitted)} - {(identity, Expelled)};
    DropPending(c.(ledger := ledger), c, identity);
  }

  lemma {:induction false} DenyKeepsData(c: Contents, ws: nat, identity: nat)
    requires DataOk(c)
    ensures DataOk(Deny(c, ws, identity).0) && Deny(c, ws, identity).0.log == c.log
  {
    hide DataOk, IsCreator;
    var d := c.(mailbox := c.mailbox - {identity});
    PendingBound(c);
    TablesKeepData(c, d);
    DropPending(d, d, identity);
  }

  lemma {:induction false} ExpelKeepsData(c: Contents, ws: nat, identity: nat)
    requires DataOk(c)
    ensures DataOk(Expel(c, ws, identity).0) && Expel(c, ws, identity).0.log == c.log
  {
    hide DataOk, IsCreator;
    PendingBound(c);
    TablesKeepData(c, Expel(c, ws, identity).0);
  }

  lemma {:induction false} DeliverKeepsData(c: Contents, identity: nat)
    requires DataOk(c)
    ensures DataOk(Deliver(c, identity)) && Deliver(c, identity).log == c.log
  {
    hide CountApplications, Bytes, Dense, Reachable;
  }

  lemma {:induction false} WelcomeKeepsData(c: Contents, ws: nat, to: nat, payload: string)
    requires DataOk(c)
    ensures DataOk(PutWelcome(c, ws, to, payload).0) && PutWelcome(c, ws, to, payload).0.log == c.log
  {
    hide CountApplications, Bytes, Deliver;
    DenseHighWater(c.log, 0);
    var cursor := HighWater(c.log);
    DeliverKeepsData(c.(mailbox := c.mailbox[to := Mail(payload, cursor, CountApplications(c.log, cursor))]), to);
  }

  lemma {:induction false} AttachKeepsData(c: Contents, ws: nat, identity: nat, isCreator: bool)
    requires DataOk(c) && c.meta.Some? && (isCreator ==> identity == c.meta.value.creator)
    ensures var n := Attach(Replace(c, ws, identity), ws, identity, isCreator); DataOk(n) && n.log == c.log
  {
    hide CountApplications, Bytes, Dense, MailOk;
    var n := Attach(Replace(c, ws, identity), ws, identity, isCreator);
    assert MailOk(n) by { SameMail(c, n); }
  }

  lemma {:induction false} SameMail(c: Contents, n: Contents)
    requires MailOk(c) && n.log == c.log && n.mailbox == c.mailbox
    ensures MailOk(n)
  {
  }

  lemma {:induction false} HelloKeepsData(c: Contents, ws: nat, identity: nat, token: Option<nat>)
    requires DataOk(c)
    ensures DataOk(Hello(c, ws, identity, token).0) && Hello(c, ws, identity, token).0.log == c.log
  {
    hide Deliver, Attach, Replace, DataOk;
    if c.meta.Some? {
      var isCreator := token == Some(c.meta.value.token) && identity == c.meta.value.creator;
      AttachKeepsData(c, ws, identity, isCreator);
      DeliverKeepsData(Attach(Replace(c, ws, identity), ws, identity, isCreator), identity);
    }
  }

  lemma {:induction false} CreateKeepsData(c: Contents, ws: nat, identity: nat, token: nat, expiresAt: int)
    requires DataOk(c) && EmptyUnlessLive(c)
    ensures DataOk(Create(c, ws, identity, token, expiresAt).0)
  {
    hide CountApplications, Bytes, Dense;
  }

  lemma {:induction false} ExpireKeepsData(c: Contents)
    ensures DataOk(Expire(c).0)
  {
  }

  // ---- what the class keeps ----

  ghost predicate RoomOk(c: Contents) {
    DataOk(c) && EmptyUnlessLive(c) && !(c.meta.Some? && c.tombstoned)
  }

  lemma {:induction false} LiveStaysOk(c: Contents, d: Contents)
    requires RoomOk(c) && DataOk(d) && c.meta.Some?
    requires d.meta == c.meta && d.tombstoned == c.tombstoned && d.named == c.named
    ensures RoomOk(d)
  {
  }

  /** The application entries of the log. */
  function Applications(log: seq<LogEntry>): set<nat> {
    set i: nat | i < |log| && log[i].kind == ApplicationEntry
  }

  lemma {:induction false} ApplicationsLast(log: seq<LogEntry>)
    requires log != []
    ensures var n := |log| - 1;
      |Applications(log)| == |Applications(log[..n])| + (if log[n].kind == ApplicationEntry then 1 else 0)
  {
    var n := |log| - 1;
    if log[n].kind == ApplicationEntry {
      assert Applications(log) == Applications(log[..n]) + {n} && n !in Applications(log[..n]);
    } else {
      assert Applications(log) == Applications(log[..n]);
    }
  }

  lemma {:induction false} CountIsApplications(log: seq<LogEntry>, cursor: int)
    requires forall e | e in log :: e.seqNo <= cursor
    ensures CountApplications(log, cursor) == |Applications(log)|
  {
    if log != [] {
      var n := |log| - 1;
      var rest := log[..n];
      forall e | e in rest ensures e.seqNo <= cursor { assert e in log; }
      assert log[n] in log;
      CountIsApplications(rest, cursor);
      ApplicationsLast(log);
    }
  }

  /** Who a write is from and what it is decide, with the two caps and the throttle,
      whether it is taken. */
  predicate WriteTaken(c: Contents, ws: nat, kind: EntryKind, payload: string, now: int) {
    && c.meta.Some? && ws in c.sockets && c.sockets[ws].identity.Some?
    && (var s := c.sockets[ws];
        && (s.isCreator || ((s.identity.value, Admitted) in c.ledger && (s.identity.value, Expelled) !in c.ledger))
        && (kind == CommitEntry ==> s.isCreator)
        && |c.log| < MAX_LOG_ROWS && Bytes(c.log) + |payload| <= MAX_LOG_BYTES
        && (s.lastMls.At? ==> now < s.lastMls.ms || now >= s.lastMls.ms + MLS_WRITE_INTERVAL_MS))
  }

  lemma {:induction false} TakenIff(c: Contents, ws: nat, kind: EntryKind, payload: string, now: int)
    ensures Mls(c, ws, kind, payload, now).1 == Done <==> WriteTaken(c, ws, kind, payload, now)
    ensures Mls(c, ws, kind, payload, now).1 != Done ==> Mls(c, ws, kind, payload, now).0 == c
  {
    hide Bytes, HighWater;
  }

  /** An ask to join is taken from a socket under the identity it proved, within the
      size and the throttle, while there is room or it replaces an earlier ask. */
  predicate AskTaken(c: Contents, ws: nat, identity: nat, keyPackage: string, now: int) {
    && c.meta.Some? && ws in c.sockets && c.sockets[ws].identity == Some(identity)
    && |keyPackage| <= MAX_KEY_PACKAGE_LENGTH
    && (identity in c.pending || |c.pending| < MAX_PENDING_REQUESTS)
    && (var last := c.sockets[ws].lastJoin;
        last.At? ==> now < last.ms || now >= last.ms + JOIN_REQUEST_INTERVAL_MS)
  }

  lemma {:induction false} AskIff(c: Contents, ws: nat, identity: nat, keyPackage: string, now: int)
    ensures AskToJoin(c, ws, identity, keyPackage, now).1 == Done <==> AskTaken(c, ws, identity, keyPackage, now)
  {
  }

  /** What a write that is taken changes. */
  lemma {:induction false} TakenMeans(c: Contents, ws: nat, kind: EntryKind, payload: string, now: int)
    requires RoomOk(c) && Mls(c, ws, kind, payload, now).1 == Done
    ensures ws in c.sockets && c.sockets[ws].identity.Some?
    ensures var s := c.sockets[ws];
      Mls(c, ws, kind, payload, now).0 == c.(
        log := c.log + [LogEntry(|c.log| + 1, s.identity.value, kind, payload)],
        sockets := c.sockets[ws := s.(lastMls := At(now))])
    ensures c.meta.Some? && (kind == CommitEntry ==> c.sockets[ws].identity == Some(c.meta.value.creator))
    ensures RoomOk(Mls(c, ws, kind, payload, now).0)
  {
    hide Bytes, ClassifyMlsWrite, MailOk, BoundsOk;
    DenseHighWater(c.log, 0);
    MlsKeepsData(c, ws, kind, payload, now);
    LiveStaysOk(c, Mls(c, ws, kind, payload, now).0);
  }

  /** The sockets a hello leaves: the newcomer's proved, no other open under the identity. */
  lemma {:induction false} AttachedSockets(c: Contents, ws: nat, identity: nat, isCreator: bool)
    ensures var e := Attach(Replace(c, ws, identity), ws, identity, isCreator);
      && e == c.(sockets := e.sockets) && e.sockets.Keys == c.sockets.Keys
      && (ws in e.sockets ==> e.sockets[ws].identity == Some(identity) && e.sockets[ws].isCreator == isCreator)
      && (forall w | w in e.sockets && w != ws && e.sockets[w].open :: e.sockets[w].identity != Some(identity))
      && (Reachable(e, identity) <==> ws in e.sockets && e.sockets[ws].open)
  {
    var e := Attach(Replace(c, ws, identity), ws, identity, isCreator);
    if ws in e.sockets && e.sockets[ws].open { assert e.sockets[ws].identity == Some(identity); }
  }

  lemma {:induction false} HelloOk(c: Contents, ws: nat, identity: nat, token: Option<nat>)
    requires RoomOk(c) && c.meta.Some?
    ensures RoomOk(Hello(c, ws, identity, token).0)
  {
    hide DataOk, EmptyUnlessLive, Reachable;
    HelloKeepsData(c, ws, identity, token);
    LiveStaysOk(c, Hello(c, ws, identity, token).0);
  }

  /** What a hello that is taken changes. */
  lemma {:induction false} HelloMeans(c: Contents, ws: nat, identity: nat, token: Option<nat>)
    requires c.meta.Some?
    ensures var d := Hello(c, ws, identity, token).0;
      && (ws in d.sockets ==>
            && d.sockets[ws].identity == Some(identity)
            && (d.sockets[ws].isCreator <==> token == Some(c.meta.value.token) && identity == c.meta.value.creator))
      && (forall w | w in d.sockets && w != ws && d.sockets[w].open :: d.sockets[w].identity != Some(identity))
      && d.mailbox == (if ws in d.sockets && d.sockets[ws].open then c.mailbox - {identity} else c.mailbox)
      && d.meta == c.meta && d.log == c.log && d.pending == c.pending && d.ledger == c.ledger
  {
    hide Reachable, Attach, Replace;
    AttachedSockets(c, ws, identity, token == Some(c.meta.value.token) && identity == c.meta.value.creator);
    if identity !in c.mailbox { assert c.mailbox - {identity} == c.mailbox; }
  }

  /** The stamp a Welcome gets: the end of the log and the application messages in it. */
  lemma {:induction false} StampIs(c: Contents)
    requires RoomOk(c)
    ensures HighWater(c.log) == |c.log| && CountApplications(c.log, HighWater(c.log)) == |Applications(c.log)|
  {
    hide HighWater, CountApplications, MailOk, BoundsOk, CreatorOk, Applications, EmptyUnlessLive;
    DenseHighWater(c.log, 0);
    CountIsApplications(c.log, HighWater(c.log));
  }

  lemma {:induction false} WelcomeOk(c: Contents, ws: nat, to: nat, payload: string)
    requires RoomOk(c)
    ensures RoomOk(PutWelcome(c, ws, to, payload).0)
  {
    hide DataOk, HighWater, CountApplications, IsCreator, Reachable, EmptyUnlessLive;
    WelcomeKeepsData(c, ws, to, payload);
    if c.meta.Some? { LiveStaysOk(c, PutWelcome(c, ws, to, payload).0); }
  }

  /** What a Welcome that is taken changes. */
  lemma {:induction false} WelcomeMeans(c: Contents, ws: nat, to: nat, payload: string)
    requires RoomOk(c) && c.meta.Some? && IsCreator(c, ws)
    ensures var d := PutWelcome(c, ws, to, payload).0;
      && d.mailbox == (if Reachable(c, to) then c.mailbox - {to}
                       else c.mailbox[to := Mail(payload, |c.log|, |Applications(c.log)|)])
      && d.meta == c.meta && d.log == c.log && d.pending == c.pending && d.ledger == c.ledger
      && d.sockets == c.sockets
  {
    hide RoomOk, HighWater, CountApplications, Reachable, Applications, IsCreator;
    StampIs(c);
    var put := c.(mailbox := c.mailbox[to := Mail(payload, |c.log|, |Applications(c.log)|)]);
    SameReach(c, put, to);
    assert put.mailbox - {to} == c.mailbox - {to};
  }

  lemma {:induction false} SameReach(c: Contents, d: Contents, identity: nat)
    requires d.sockets == c.sockets
    ensures Reachable(c, identity) <==> Reachable(d, identity)
  {
  }

  lemma {:induction false} ExpireIsOk(c: Contents)
    requires RoomOk(c)
    ensures var (d, mark) := Expire(c);
      RoomOk(d) && StateOf(d) == Tombstoned && (mark <==> StateOf(c) == Live)
  {
    hide DataOk;
    ExpireKeepsData(c);
  }

  lemma {:induction false} OkBounds(c: Contents)
    requires RoomOk(c)
    ensures |c.log| <= MAX_LOG_ROWS && Bytes(c.log) <= MAX_LOG_BYTES
  {
  }
}
