/** The demo room's rules and its paged replay (example-realistic-demo/room-logic.ts). */
module RoomLogic {

  datatype EntryKind = CommitEntry | ProposalEntry | ApplicationEntry

  datatype LogEntry = LogEntry(seqNo: nat, sender: nat, kind: EntryKind, payload: string)

  function NextSeq(highWater: int): (n: nat)
    ensures n >= 1 && n > highWater
  {
    (if highWater > 0 then highWater else 0) + 1
  }

  // ---- what a cursor has not seen ----

  function After(entries: seq<LogEntry>, cursor: int): seq<LogEntry> {
    if entries == [] then []
    else (if entries[0].seqNo > cursor then [entries[0]] else []) + After(entries[1..], cursor)
  }

  function InsertBySeq(e: LogEntry, sorted: seq<LogEntry>): seq<LogEntry> {
    if sorted == [] || e.seqNo <= sorted[0].seqNo then [e] + sorted
    else [sorted[0]] + InsertBySeq(e, sorted[1..])
  }

  function SortBySeq(entries: seq<LogEntry>): seq<LogEntry> {
    if entries == [] then [] else InsertBySeq(entries[0], SortBySeq(entries[1..]))
  }

  function EntriesAfter(entries: seq<LogEntry>, cursor: int): seq<LogEntry> {
    SortBySeq(After(entries, cursor))
  }

  ghost predicate Ordered(entries: seq<LogEntry>) {
    forall i, j | 0 <= i < j < |entries| :: entries[i].seqNo <= entries[j].seqNo
  }

  /** The log as the room keeps it: entry `i` has sequence number `i + 1`. */
  ghost predicate Dense(log: seq<LogEntry>) {
    forall i | 0 <= i < |log| :: log[i].seqNo == i + 1
  }

  lemma {:induction false} OrderedCons(e: LogEntry, rest: seq<LogEntry>)
    requires Ordered(rest) && forall x | x in rest :: e.seqNo <= x.seqNo
    ensures Ordered([e] + rest)
  {
    var s := [e] + rest;
    forall i, j | 0 <= i < j < |s| ensures s[i].seqNo <= s[j].seqNo {
      assert s[j] == rest[j - 1];
      if i > 0 { assert s[i] == rest[i - 1]; } else { assert s[j] in rest; }
    }
  }

  lemma {:induction false} InsertSorts(e: LogEntry, sorted: seq<LogEntry>)
    requires Ordered(sorted)
    ensures Ordered(InsertBySeq(e, sorted)) && multiset(InsertBySeq(e, sorted)) == multiset(sorted) + multiset{e}
  {
    if sorted == [] || e.seqNo <= sorted[0].seqNo {
      OrderedCons(e, sorted);
    } else {
      var first, rest := sorted[0], sorted[1..];
      assert sorted == [first] + rest;
      InsertSorts(e, rest);
      var r := InsertBySeq(e, rest);
      forall x | x in r ensures first.seqNo <= x.seqNo {
        assert x in multiset(r);
        if x != e { assert x in multiset(rest) && x in rest; }
      }
      hide Ordered;
      OrderedCons(first, r);
    }
  }

  /** Whatever order storage returned, the replay is what the cursor has not seen, in order. */
  lemma {:induction false} ReplayInOrder(entries: seq<LogEntry>, cursor: int)
    ensures Ordered(EntriesAfter(entries, cursor))
    ensures multiset(EntriesAfter(entries, cursor)) == multiset(After(entries, cursor))
    ensures forall e :: e in EntriesAfter(entries, cursor) <==> e in entries && e.seqNo > cursor
  {
    SortSorts(After(entries, cursor));
    AfterIs(entries, cursor);
    forall e ensures e in EntriesAfter(entries, cursor) <==> e in After(entries, cursor) {
      assert e in multiset(EntriesAfter(entries, cursor)) <==> e in multiset(After(entries, cursor));
    }
  }

  lemma {:induction false} SortSorts(entries: seq<LogEntry>)
    ensures Ordered(SortBySeq(entries)) && multiset(SortBySeq(entries)) == multiset(entries)
  {
    if entries != [] {
      SortSorts(entries[1..]);
      InsertSorts(entries[0], SortBySeq(entries[1..]));
      assert entries == [entries[0]] + entries[1..];
    }
  }

  lemma {:induction false} AfterIs(entries: seq<LogEntry>, cursor: int)
    ensures forall e :: e in After(entries, cursor) <==> e in entries && e.seqNo > cursor
  {
    if entries != [] {
      AfterIs(entries[1..], cursor);
      assert entries == [entries[0]] + entries[1..];
    }
  }

  lemma {:induction false} SortedStays(entries: seq<LogEntry>)
    requires Ordered(entries)
    ensures SortBySeq(entries) == entries
  {
    if entries != [] {
      SortedStays(entries[1..]);
      assert entries == [entries[0]] + entries[1..];
    }
  }

  /** Over a dense log a cursor has not seen exactly the entries from its own index on. */
  lemma {:induction false} DenseAfter(log: seq<LogEntry>, cursor: nat)
    requires Dense(log)
    ensures EntriesAfter(log, cursor) == if cursor <= |log| then log[cursor..] else []
  {
    AfterDense(log, 0, cursor);
    var after := After(log, cursor);
    assert log[0..] == log;
    assert Ordered(after);
    SortedStays(after);
  }

  lemma {:induction false} AfterDense(log: seq<LogEntry>, i: nat, cursor: nat)
    requires Dense(log) && i <= |log|
    ensures After(log[i..], cursor) == if cursor <= |log| then (if i <= cursor then log[cursor..] else log[i..]) else []
    decreases |log| - i
  {
    if i < |log| {
      AfterDense(log, i + 1, cursor);
      assert log[i..] == [log[i]] + log[i + 1..];
    }
  }

  // ---- one page ----

  /** The length of the page as a JSON array: brackets, entries, commas. `json` is one entry's length. */
  function ArrayLength(json: LogEntry -> nat, entries: seq<LogEntry>): nat {
    if entries == [] then 2
    else ArrayLength(json, entries[..|entries| - 1]) + json(entries[|entries| - 1]) + (if |entries| > 1 then 1 else 0)
  }

  datatype ReplayPage = ReplayPage(entries: seq<LogEntry>, more: bool)

  /** `n` entries make the page: as many as fit, or one that does not. */
  ghost predicate PageOf(json: LogEntry -> nat, after: seq<LogEntry>, budget: nat, n: nat) {
    && n <= |after| && (after != [] ==> n > 0)
    && (n > 1 ==> ArrayLength(json, after[..n]) <= budget)
    && (n < |after| ==> ArrayLength(json, after[..n + 1]) > budget)
  }

  method Page(json: LogEntry -> nat, entries: seq<LogEntry>, cursor: int, budget: nat) returns (page: ReplayPage)
    ensures PageOf(json, EntriesAfter(entries, cursor), budget, |page.entries|)
    ensures page.entries <= EntriesAfter(entries, cursor)
    ensures page.more <==> |page.entries| < |EntriesAfter(entries, cursor)|
  {
    var after := EntriesAfter(entries, cursor);
    var size, count := 2, 0;
    while count < |after|
      invariant 0 <= count <= |after|
      invariant size == ArrayLength(json, after[..count])
      invariant count > 1 ==> size <= budget
    {
      var next := size + json(after[count]) + (if count > 0 then 1 else 0);
      assert after[..count + 1][..count] == after[..count];
      if count > 0 && next > budget { break; }
      size := next;
      count := count + 1;
    }
    assert count < |after| ==> after[..count + 1][..count] == after[..count];
    return ReplayPage(after[..count], count < |after|);
  }

  lemma {:induction false} LongerIsLonger(json: LogEntry -> nat, after: seq<LogEntry>, n: nat, m: nat)
    requires n <= m <= |after|
    ensures ArrayLength(json, after[..n]) <= ArrayLength(json, after[..m])
    decreases m
  {
    if n < m {
      assert after[..m][..m - 1] == after[..m - 1];
      LongerIsLonger(json, after, n, m - 1);
    }
  }

  /** The page is the longest that fits, so there is only one. */
  lemma {:induction false} PageUnique(json: LogEntry -> nat, after: seq<LogEntry>, budget: nat, n: nat, m: nat)
    requires PageOf(json, after, budget, n) && PageOf(json, after, budget, m)
    ensures n == m
  {
    if n < m { LongerIsLonger(json, after, n + 1, m); }
    if m < n { LongerIsLonger(json, after, m + 1, n); }
  }

  // ---- a whole replay ----

  ghost predicate IsPage(json: LogEntry -> nat, log: seq<LogEntry>, cursor: nat, budget: nat, page: ReplayPage) {
    var after := EntriesAfter(log, cursor);
    && PageOf(json, after, budget, |page.entries|) && page.entries <= after
    && (page.more <==> |page.entries| < |after|)
  }

  function LastSeq(page: ReplayPage, cursor: nat): nat {
    if page.entries == [] then cursor else page.entries[|page.entries| - 1].seqNo
  }

  /** The client asks from the last entry it got until nothing is left; the log it asks may have grown. */
  ghost predicate Replay(
      json: LogEntry -> nat, logs: seq<seq<LogEntry>>, cursor: nat, budget: nat, pages: seq<ReplayPage>)
    decreases |pages|
  {
    && pages != [] && |logs| == |pages| && IsPage(json, logs[0], cursor, budget, pages[0])
    && (pages[0].more <==> |pages| > 1)
    && (pages[0].more ==> Replay(json, logs[1..], LastSeq(pages[0], cursor), budget, pages[1..]))
  }

  ghost predicate Growing(logs: seq<seq<LogEntry>>) {
    && (forall i | 0 <= i < |logs| :: Dense(logs[i]))
    && (forall i, j | 0 <= i <= j < |logs| :: logs[i] <= logs[j])
  }

  function Concat(pages: seq<ReplayPage>): seq<LogEntry> {
    if pages == [] then [] else pages[0].entries + Concat(pages[1..])
  }

  lemma {:induction false} PageMoves(
      json: LogEntry -> nat, log: seq<LogEntry>, cursor: nat, budget: nat, page: ReplayPage)
    requires Dense(log) && cursor <= |log| && IsPage(json, log, cursor, budget, page)
    ensures LastSeq(page, cursor) == cursor + |page.entries| <= |log|
    ensures page.entries == log[cursor..LastSeq(page, cursor)]
    ensures page.more <==> LastSeq(page, cursor) < |log|
    ensures page.more ==> LastSeq(page, cursor) > cursor
  {
    DenseAfter(log, cursor);
    var n := |page.entries|;
    assert page.entries == log[cursor..][..n];
    if n > 0 { assert page.entries[n - 1] == log[cursor + n - 1]; }
  }

  /** The pages are together exactly what the cursor had not seen of the log the
      last one was read from: nothing missing, nothing twice, in order. */
  lemma {:induction false} ReplayComplete(
      json: LogEntry -> nat, logs: seq<seq<LogEntry>>, cursor: nat, budget: nat, pages: seq<ReplayPage>)
    requires Replay(json, logs, cursor, budget, pages) && Growing(logs) && cursor <= |logs[0]|
    ensures Concat(pages) == EntriesAfter(logs[|logs| - 1], cursor)
    decreases |pages|
  {
    hide IsPage, EntriesAfter, Dense;
    var page, log, last := pages[0], logs[0], logs[|logs| - 1];
    PageMoves(json, log, cursor, budget, page);
    DenseAfter(last, cursor);
    var next := LastSeq(page, cursor);
    assert log <= last;
    assert page.entries == last[cursor..next];
    if page.more {
      var rest := logs[1..];
      forall i, j | 0 <= i <= j < |rest| ensures rest[i] <= rest[j] { assert logs[i + 1] <= logs[j + 1]; }
      assert logs[0] <= logs[1];
      ReplayComplete(json, rest, next, budget, pages[1..]);
      DenseAfter(last, next);
      assert last[cursor..] == last[cursor..next] + last[next..];
    } else {
      assert pages[1..] == [] && Concat(pages) == page.entries + [];
      assert logs == [log] && last == log;
    }
  }

  /** Asking a log that does not change ends, with the whole of it. */
  method ReplayAll(
      json: LogEntry -> nat, log: seq<LogEntry>, cursor: nat, budget: nat) returns (received: seq<LogEntry>)
    requires Dense(log) && cursor <= |log|
    ensures received == EntriesAfter(log, cursor)
  {
    DenseAfter(log, cursor);
    received := [];
    var at, more := cursor, true;
    while more
      invariant cursor <= at <= |log| && received == log[cursor..at]
      invariant !more ==> at == |log|
      decreases |log| - at, more
    {
      var page := Page(json, log, at, budget);
      PageMoves(json, log, at, budget, page);
      assert log[cursor..at] + log[at..LastSeq(page, at)] == log[cursor..LastSeq(page, at)];
      received, at, more := received + page.entries, LastSeq(page, at), page.more;
    }
  }

  // ---- the numbers a Welcome carries ----

  function CountApplications(log: seq<LogEntry>, cursor: int): nat {
    if log == [] then 0 else
    CountApplications(log[..|log| - 1], cursor)
      + (if log[|log| - 1].kind == ApplicationEntry && log[|log| - 1].seqNo <= cursor then 1 else 0)
  }

  /** An entry numbered past the cursor leaves the count as it was. */
  lemma {:induction false} CountStable(log: seq<LogEntry>, e: LogEntry, cursor: int)
    requires e.seqNo > cursor
    ensures CountApplications(log + [e], cursor) == CountApplications(log, cursor)
  {
    assert (log + [e])[..|log|] == log;
  }

  // ---- what may be written ----

  datatype WriteVerdict = WriteOk | WriteRateLimited | LogFull | LogTooLarge

  const MLS_WRITE_INTERVAL_MS := 50
  const MAX_LOG_ROWS := 10000
  const MAX_LOG_BYTES := 32 * 1024 * 1024

  /** When a socket last did something. */
  datatype Moment = Never | At(ms: int)

  function ClassifyMlsWrite(payloadLength: nat, logRows: nat, logBytes: nat, lastMls: Moment, now: int): WriteVerdict {
    if lastMls.At? && 0 <= now - lastMls.ms < MLS_WRITE_INTERVAL_MS then WriteRateLimited
    else if logRows >= MAX_LOG_ROWS then LogFull
    else if logBytes + payloadLength > MAX_LOG_BYTES then LogTooLarge
    else WriteOk
  }

  datatype JoinVerdict = JoinOk | KeyPackageTooLarge | TooManyPending | JoinRateLimited

  const MAX_PENDING_REQUESTS := 64
  const MAX_KEY_PACKAGE_LENGTH := 16 * 1024
  const JOIN_REQUEST_INTERVAL_MS := 1000

  function ClassifyJoinRequest(
      keyPackageLength: nat, pendingCount: nat, alreadyPending: bool, lastRequest: Moment, now: int): JoinVerdict {
    if keyPackageLength > MAX_KEY_PACKAGE_LENGTH then KeyPackageTooLarge
    else if lastRequest.At? && 0 <= now - lastRequest.ms < JOIN_REQUEST_INTERVAL_MS then JoinRateLimited
    else if !alreadyPending && pendingCount >= MAX_PENDING_REQUESTS then TooManyPending
    else JoinOk
  }

  predicate MayWriteLog(isCreator: bool, admitted: bool, removed: bool) {
    isCreator || (!removed && admitted)
  }

  predicate MayWriteKind(kind: EntryKind, isCreator: bool) {
    kind != CommitEntry || isCreator
  }
}
