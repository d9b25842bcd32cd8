/** The demo's Room and RoomRegistry as classes (example-realistic-demo/index.ts): a
    small delivery service whose handlers give way at every await that is not storage. */
module Rooms {
  import opened Options
  import opened RoomLogic
  import opened RoomTables

  /** What the registry says of an id. */
  datatype Listing = Unlisted | ListedLive | ListedExpired

  class Room {
    var meta: Option<Meta>
    var tombstoned: bool
    var named: bool
    var log: seq<LogEntry>
    var pending: map<nat, JoinRequest>
    var mailbox: map<nat, Mail>
    var ledger: set<(nat, Status)>
    var sockets: map<nat, Socket>

    function All(): Contents
      reads this
    {
      Contents(meta, tombstoned, named, log, pending, mailbox, ledger, sockets)
    }

    ghost predicate Valid()
      reads this
    {
      RoomOk(All())
    }

    constructor ()
      ensures Valid() && StateOf(All()) == Absent && sockets == map[]
      ensures All() == Contents(None, false, false, [], map[], map[], {}, map[])
    {
      meta, tombstoned, named, log, pending, mailbox, ledger, sockets := None, false, false, [], map[], map[], {},
      map[];
    }

    /** The mail is gone exactly when an open socket could be handed it. */
    method DeliverMailbox(identity: nat)
      modifies this`mailbox
      ensures All() == Deliver(old(All()), identity)
      ensures identity in mailbox <==>
        identity in old(mailbox) &&
          !(exists ws | ws in sockets :: sockets[ws].open && sockets[ws].identity == Some(identity))
    {
      if identity !in mailbox { return; }
      var left := sockets.Keys;
      while left != {}
        invariant mailbox == old(mailbox) && left <= sockets.Keys
        invariant forall ws | ws in sockets && ws !in left ::
          !(sockets[ws].open && sockets[ws].identity == Some(identity))
        decreases left
      {
        var ws :| ws in left;
        left := left - {ws};
        if !sockets[ws].open { continue; }
        if sockets[ws].identity != Some(identity) { continue; }
        mailbox := mailbox - {identity};
        return;
      }
    }

    /** Afterwards no socket but `incoming` is open under the identity. */
    method ReplaceExistingSocket(incoming: nat, identity: nat)
      modifies this`sockets
      ensures All() == Replace(old(All()), incoming, identity)
      ensures forall w | w in sockets && w != incoming && sockets[w].open :: sockets[w].identity != Some(identity)
    {
      var left := sockets.Keys;
      while left != {}
        invariant left <= sockets.Keys == old(sockets).Keys
        invariant forall w | w in sockets &&
          (w in left || w == incoming || old(sockets)[w].identity != Some(identity)) ::
          sockets[w] == old(sockets)[w]
        invariant forall w | w in sockets && w !in left && w != incoming &&
          old(sockets)[w].identity == Some(identity) ::
          sockets[w] == old(sockets)[w].(open := false)
        decreases left
      {
        var peer :| peer in left;
        left := left - {peer};
        if peer == incoming || sockets[peer].identity != Some(identity) { continue; }
        sockets := sockets[peer := sockets[peer].(open := false)];
      }
    }

    /** The room is made exactly when its id was never used; its creator's socket, if
        it is still there, is the only creator's. */
    method FinishCreate(ws: nat, identity: nat, token: nat, expiresAt: int) returns (reply: Reply)
      requires Valid()
      modifies this
      ensures Valid() && (All(), reply) == Create(old(All()), ws, identity, token, expiresAt)
      ensures reply == Done <==> old(StateOf(All())) == Absent
      ensures reply == Done ==>
        && StateOf(All()) == Live && meta.value.creator == identity
        && log == [] && pending == map[] && mailbox == map[] && ledger == {}
        && sockets.Keys == old(sockets).Keys && forall w | w in sockets :: sockets[w].isCreator <==> w == ws
      ensures reply != Done ==> All() == old(All())
    {
      CreateKeepsData(All(), ws, identity, token, expiresAt);
      if !MayCreateRoom(StateOf(All())) { return RoomExists; }
      named := true;
      meta := Some(Meta(expiresAt, identity, token));
      if ws in sockets {
        sockets := sockets[ws := sockets[ws].(identity := Some(identity), isCreator := true)];
      }
      return Done;
    }

    /** The socket takes the identity over from every other one, is the creator's only
        with the creator's identity and token both, and gets the mail if it is open. */
    method FinishHello(ws: nat, identity: nat, token: Option<nat>) returns (reply: Reply)
      requires Valid()
      modifies this
      ensures Valid() && (All(), reply) == Hello(old(All()), ws, identity, token)
      ensures reply == Done <==> old(meta).Some?
      ensures reply == Done ==>
        && (ws in sockets ==>
              && sockets[ws].identity == Some(identity)
              && (sockets[ws].isCreator <==> token == Some(meta.value.token) && identity == meta.value.creator))
        && (forall w | w in sockets && w != ws && sockets[w].open :: sockets[w].identity != Some(identity))
        && mailbox == (if ws in sockets && sockets[ws].open then old(mailbox) - {identity} else old(mailbox))
        && meta == old(meta) && log == old(log) && pending == old(pending) && ledger == old(ledger)
      ensures reply != Done ==> All() == old(All())
    {
      hide RoomOk, Replace, Deliver;
      if meta.None? { return NoRoom; }
      HelloOk(All(), ws, identity, token);
      HelloMeans(All(), ws, identity, token);
      var isCreator := token == Some(meta.value.token) && identity == meta.value.creator;
      ReplaceExistingSocket(ws, identity);
      if ws in sockets {
        sockets := sockets[ws := sockets[ws].(identity := Some(identity), isCreator := isCreator)];
      }
      DeliverMailbox(identity);
      return Done;
    }

    /** A write is taken exactly when `WriteTaken` says; then the log has one more entry,
        under the next number, and nothing else but the writer's throttle changed. */
    method OnMls(ws: nat, kind: EntryKind, payload: string, now: int) returns (reply: Reply)
      requires Valid()
      modifies this
      ensures Valid() && (All(), reply) == Mls(old(All()), ws, kind, payload, now)
      ensures reply == Done <==> WriteTaken(old(All()), ws, kind, payload, now)
      ensures reply == Done ==>
        && log == old(log) + [LogEntry(|old(log)| + 1, old(sockets)[ws].identity.value, kind, payload)]
        && |log| <= MAX_LOG_ROWS && Bytes(log) <= MAX_LOG_BYTES
        && (kind == CommitEntry ==> old(sockets)[ws].identity == Some(meta.value.creator))
        && meta == old(meta) && pending == old(pending) && mailbox == old(mailbox) && ledger == old(ledger)
        && sockets == old(sockets)[ws := old(sockets)[ws].(lastMls := At(now))]
      ensures reply != Done ==> All() == old(All())
    {
      hide HighWater, Bytes, ClassifyMlsWrite, WriteTaken, RoomOk;
      TakenIff(All(), ws, kind, payload, now);
      if Mls(All(), ws, kind, payload, now).1 == Done {
        TakenMeans(All(), ws, kind, payload, now);
        OkBounds(Mls(All(), ws, kind, payload, now).0);
      }
      if ws !in sockets || sockets[ws].identity.None? { return BadMessage; }
      if meta.None? { return NoRoom; }
      var state := sockets[ws];
      var who := state.identity.value;
      if !MayWriteLog(state.isCreator, (who, Admitted) in ledger, (who, Expelled) in ledger) { return NotMember; }
      if !MayWriteKind(kind, state.isCreator) { return CommitNotCreator; }
      var verdict := ClassifyMlsWrite(|payload|, |log|, Bytes(log), state.lastMls, now);
      if verdict != WriteOk { return WriteRefused(verdict); }
      log := log + [LogEntry(NextSeq(HighWater(log)), who, kind, payload)];
      sockets := sockets[ws := state.(lastMls := At(now))];
      return Done;
    }

    /** A request is queued only under the identity its socket proved; asking again
        replaces the first ask. */
    method OnJoinRequest(ws: nat, identity: nat, keyPackage: string, now: int) returns (reply: Reply)
      requires Valid()
      modifies this
      ensures Valid() && (All(), reply) == AskToJoin(old(All()), ws, identity, keyPackage, now)
      ensures reply == Done <==> AskTaken(old(All()), ws, identity, keyPackage, now)
      ensures reply == Done ==>
        && pending == old(pending)[identity := JoinRequest(keyPackage, now)] && |pending| <= MAX_PENDING_REQUESTS
        && sockets == old(sockets)[ws := old(sockets)[ws].(lastJoin := At(now))]
        && meta == old(meta) && log == old(log) && mailbox == old(mailbox) && ledger == old(ledger)
      ensures reply != Done ==> All() == old(All())
    {
      JoinKeepsData(All(), ws, identity, keyPackage, now);
      AskIff(All(), ws, identity, keyPackage, now);
      if meta.None? { return NoRoom; }
      if ws !in sockets || sockets[ws].identity != Some(identity) { return BadProof; }
      var verdict := ClassifyJoinRequest(|keyPackage|, |pending|, identity in pending, sockets[ws].lastJoin, now);
      if verdict != JoinOk { return JoinRefused(verdict); }
      pending := pending[identity := JoinRequest(keyPackage, now)];
      sockets := sockets[ws := sockets[ws].(lastJoin := At(now))];
      LiveStaysOk(old(All()), All());
      return Done;
    }

    /** Only the creator admits. Whoever is admitted may write to the log, even after
        an expulsion, and no longer waits; nobody else's standing changes. */
    method OnApprove(ws: nat, identity: nat) returns (reply: Reply)
      requires Valid()
      modifies this
      ensures Valid() && (All(), reply) == Approve(old(All()), ws, identity)
      ensures reply == Done <==> old(meta).Some? && old(IsCreator(All(), ws))
      ensures reply == Done ==>
        && MayWriteLog(false, (identity, Admitted) in ledger, (identity, Expelled) in ledger)
        && pending == old(pending) - {identity}
        && (forall other, status | other != identity :: (other, status) in ledger <==> (other, status) in old(ledger))
        && meta == old(meta) && log == old(log) && mailbox == old(mailbox) && sockets == old(sockets)
      ensures reply != Done ==> All() == old(All())
    {
      ApproveKeepsData(All(), ws, identity);
      if meta.None? { return NoRoom; }
      if !IsCreator(All(), ws) { return NotCreator; }
      ledger := ledger + {(identity, Admitted)};
      ledger := ledger - {(identity, Expelled)};
      pending := pending - {identity};
      LiveStaysOk(old(All()), All());
      return Done;
    }

    /** A denial forgets the request and any mail and leaves the standing alone. */
    method OnDeny(ws: nat, identity: nat) returns (reply: Reply)
      requires Valid()
      modifies this
      ensures Valid() && (All(), reply) == Deny(old(All()), ws, identity)
      ensures reply == Done <==> old(meta).Some? && old(IsCreator(All(), ws))
      ensures reply == Done ==>
        && pending == old(pending) - {identity} && mailbox == old(mailbox) - {identity}
        && meta == old(meta) && log == old(log) && ledger == old(ledger) && sockets == old(sockets)
      ensures reply != Done ==> All() == old(All())
    {
      DenyKeepsData(All(), ws, identity);
      if meta.None? { return NoRoom; }
      if !IsCreator(All(), ws) { return NotCreator; }
      pending := pending - {identity};
      mailbox := mailbox - {identity};
      LiveStaysOk(old(All()), All());
      return Done;
    }

    /** Whoever is expelled may not write, except as the creator, until admitted again. */
    method OnRemoved(ws: nat, identity: nat) returns (reply: Reply)
      requires Valid()
      modifies this
      ensures Valid() && (All(), reply) == Expel(old(All()), ws, identity)
      ensures reply == Done <==> old(meta).Some? && old(IsCreator(All(), ws))
      ensures reply == Done ==>
        && !MayWriteLog(false, (identity, Admitted) in ledger, (identity, Expelled) in ledger)
        && identity !in mailbox && mailbox == old(mailbox) - {identity}
        && (forall other, status | other != identity :: (other, status) in ledger <==> (other, status) in old(ledger))
        && meta == old(meta) && log == old(log) && pending == old(pending) && sockets == old(sockets)
      ensures reply != Done ==> All() == old(All())
    {
      ExpelKeepsData(All(), ws, identity);
      if meta.None? { return NoRoom; }
      if !IsCreator(All(), ws) { return NotCreator; }
      ledger := ledger + {(identity, Expelled)};
      mailbox := mailbox - {identity};
      LiveStaysOk(old(All()), All());
      return Done;
    }

    /** The Welcome is stamped with the length of the log and the number of application
        entries in it, and waits exactly when its recipient has no open socket. */
    method OnWelcome(ws: nat, to: nat, payload: string) returns (reply: Reply)
      requires Valid()
      modifies this
      ensures Valid() && (All(), reply) == PutWelcome(old(All()), ws, to, payload)
      ensures reply == Done <==> old(meta).Some? && old(IsCreator(All(), ws))
      ensures reply == Done ==>
        && mailbox == (if old(Reachable(All(), to)) then old(mailbox) - {to}
                       else old(mailbox)[to := Mail(payload, |log|, |Applications(log)|)])
        && meta == old(meta) && log == old(log) && pending == old(pending)
        && ledger == old(ledger) && sockets == old(sockets)
      ensures reply != Done ==> All() == old(All())
    {
      hide RoomOk, HighWater, CountApplications, Deliver, Reachable, Applications;
      if meta.None? { return NoRoom; }
      if !IsCreator(All(), ws) { return NotCreator; }
      WelcomeOk(All(), ws, to, payload);
      WelcomeMeans(All(), ws, to, payload);
      var cursor := HighWater(log);
      mailbox := mailbox[to := Mail(payload, cursor, CountApplications(log, cursor))];
      DeliverMailbox(to);
      return Done;
    }

    /** The room ends: every table empty, every socket closed, the id spent for good. The
        registry is to be called exactly when this run of the alarm found the room live. */
    method Alarm() returns (markExpired: bool)
      requires Valid()
      modifies this
      ensures Valid() && (All(), markExpired) == Expire(old(All()))
      ensures StateOf(All()) == Tombstoned
      ensures log == [] && pending == map[] && mailbox == map[] && ledger == {}
      ensures sockets.Keys == old(sockets).Keys && forall ws | ws in sockets :: !sockets[ws].open
      ensures markExpired <==> old(StateOf(All())) == Live
    {
      hide RoomOk, StateOf;
      ExpireIsOk(All());
      sockets := map ws | ws in sockets :: sockets[ws].(open := false);
      markExpired := named;
      meta, tombstoned, named, log, pending, mailbox, ledger := None, false, false, [], map[], map[], {};
      tombstoned := true;
    }
  }

  class RoomRegistry {
    var rows: map<nat, Listing>

    constructor ()
      ensures forall id :: Lookup(id) == Unlisted
    {
      rows := map[];
    }

    function Lookup(id: nat): Listing
      reads this
    {
      if id in rows then rows[id] else Unlisted
    }

    /** The row is written again whatever it said: a late call undoes an earlier one. */
    method Write(id: nat, status: Listing)
      modifies this
      ensures Lookup(id) == status
      ensures forall other | other != id :: Lookup(other) == old(Lookup(other))
    {
      rows := rows[id := status];
    }

    method MarkLive(id: nat)
      modifies this
      ensures Lookup(id) == ListedLive
      ensures forall other | other != id :: Lookup(other) == old(Lookup(other))
    {
      Write(id, ListedLive);
    }

    method MarkExpired(id: nat)
      modifies this
      ensures Lookup(id) == ListedExpired
      ensures forall other | other != id :: Lookup(other) == old(Lookup(other))
    {
      Write(id, ListedExpired);
    }
  }
}
