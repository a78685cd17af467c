/** The MySQL event store: a lease per read group (`event_locks`), a cursor per
    read group (`event_offsets`) and the event log (`events`), kept here as two
    maps and a sequence. Time is a number of seconds passed in by the caller;
    the outcome of each statement the database could reject is a scripted
    fault flag. */
module MySQLDriver {
  import opened Results
  import opened Types

  const DefaultLockTimeoutSec := 20

  /** What NewMySQLEventDriver appends to the data source name. */
  const ParseTimeOption := "?parseTime=true"

  const ExecError := "exec failed"
  const QueryError := "query failed"
  const TransactionError := "transaction failed"
  const HandlerError := "handler failed"

  /** A row of `event_locks`: the node holding the lease and when it last renewed it. */
  datatype Lease = Lease(lockBy: string, lastSeen: int)

  /** Which statements of one Fetch the database rejects; `rowsFailAt` is the
      number of rows after which reading the result set breaks off, if it does. */
  datatype FetchFaults = FetchFaults(lockExec: bool, lockCount: bool, offsetRead: bool, query: bool,
                                     rowsFailAt: Option<nat>)

  /** Which steps of one CommitInTrans the database rejects. */
  datatype CommitFaults = CommitFaults(begin: bool, exec: bool, commit: bool)

  /** A parameter bound to an INSERT placeholder. */
  datatype Param = Text(s: string) | Json(data: JSON) | Time(at: Option<int>)

  // ---------------------------------------------------------------------------
  // The data source name

  function DataSourceName(config: DBConfig): (dsn: string)
    ensures |dsn| >= |ParseTimeOption| && dsn[|dsn| - |ParseTimeOption|..] == ParseTimeOption
  {
    ToDSN(config) + ParseTimeOption
  }

  /** The configuration can be read back from the data source name once the
      option is stripped. */
  lemma DataSourceNameRoundTrip(config: DBConfig)
    requires ':' !in config.user && '@' !in config.password && ':' !in config.host
    ensures var dsn := DataSourceName(config);
            ParseDSN(dsn[..|dsn| - |ParseTimeOption|]) == Some(config)
  {
    var dsn := DataSourceName(config);
    assert dsn[..|dsn| - |ParseTimeOption|] == ToDSN(config);
    ToDSNRoundTrip(config);
  }

  // ---------------------------------------------------------------------------
  // The lease

  /** The conditional upsert of `lock`. Without a row one is inserted. With one,
      MySQL applies the assignments left to right: the holder is replaced when
      the lease is older than the timeout, and then `last_seen` is renewed when
      the (new) holder is the caller. */
  function Upsert(locks: map<string, Lease>, name: string, node: string, now: int, timeoutSec: int)
    : (r: map<string, Lease>)
    ensures r.Keys == locks.Keys + {name}
  {
    if name !in locks then locks[name := Lease(node, now)]
    else
      var row := locks[name];
      var lockBy := if row.lastSeen < now - timeoutSec then node else row.lockBy;
      var lastSeen := if lockBy == node then now else row.lastSeen;
      locks[name := Lease(lockBy, lastSeen)]
  }

  /** `node` holds the lease `name`: the count query finds its row. */
  predicate Holds(locks: map<string, Lease>, name: string, node: string)
  {
    name in locks && locks[name].lockBy == node
  }

  /** A name nobody held is taken by the caller, with the current time. */
  lemma UpsertInserts(locks: map<string, Lease>, name: string, node: string, now: int, timeoutSec: int)
    requires name !in locks
    ensures Upsert(locks, name, node, now, timeoutSec)[name] == Lease(node, now)
    ensures Holds(Upsert(locks, name, node, now, timeoutSec), name, node)
  {
  }

  /** A fresh lease of another node is left exactly as it was, and the caller
      does not get it. */
  lemma FreshLeaseKept(locks: map<string, Lease>, name: string, node: string, now: int, timeoutSec: int)
    requires name in locks && locks[name].lockBy != node && locks[name].lastSeen >= now - timeoutSec
    ensures Upsert(locks, name, node, now, timeoutSec) == locks
    ensures !Holds(Upsert(locks, name, node, now, timeoutSec), name, node)
  {
  }

  /** A stale lease passes to the caller, renewed to the current time. */
  lemma StaleTakeover(locks: map<string, Lease>, name: string, node: string, now: int, timeoutSec: int)
    requires name in locks && locks[name].lastSeen < now - timeoutSec
    ensures Upsert(locks, name, node, now, timeoutSec)[name] == Lease(node, now)
  {
  }

  /** The holder's own call renews its lease, stale or not. */
  lemma RenewOwnLease(locks: map<string, Lease>, name: string, node: string, now: int, timeoutSec: int)
    requires Holds(locks, name, node)
    ensures Upsert(locks, name, node, now, timeoutSec)[name] == Lease(node, now)
  {
  }

  /** The caller holds the lease after the upsert exactly when there was no row,
      the row was its own, or the row was stale; and whoever holds it then was
      renewed now if it is the caller, and is untouched otherwise. */
  lemma UpsertHolds(locks: map<string, Lease>, name: string, node: string, now: int, timeoutSec: int)
    ensures var after := Upsert(locks, name, node, now, timeoutSec);
            && (Holds(after, name, node) <==>
                  name !in locks || locks[name].lockBy == node || locks[name].lastSeen < now - timeoutSec)
            && (Holds(after, name, node) ==> after[name].lastSeen == now)
            && (!Holds(after, name, node) ==> after[name] == locks[name])
  {
  }

  /** The upsert changes no other lease. */
  lemma UpsertOnlyTouchesName(locks: map<string, Lease>, name: string, node: string, now: int, timeoutSec: int, other: string)
    requires other != name
    ensures other in Upsert(locks, name, node, now, timeoutSec) <==> other in locks
    ensures other in locks ==> Upsert(locks, name, node, now, timeoutSec)[other] == locks[other]
  {
  }

  /** Mutual exclusion: once `a` got the lease at `now1`, another node calling
      no later than the timeout afterwards does not get it, and `a` keeps it. */
  lemma MutualExclusion(locks: map<string, Lease>, name: string, a: string, b: string,
                        now1: int, now2: int, timeoutSec: int)
    requires a != b && timeoutSec >= 0 && now1 <= now2 <= now1 + timeoutSec
    requires Holds(Upsert(locks, name, a, now1, timeoutSec), name, a)
    ensures var after := Upsert(Upsert(locks, name, a, now1, timeoutSec), name, b, now2, timeoutSec);
            !Holds(after, name, b) && Holds(after, name, a)
  {
    UpsertHolds(locks, name, a, now1, timeoutSec);
    var first := Upsert(locks, name, a, now1, timeoutSec);
    FreshLeaseKept(first, name, b, now2, timeoutSec);
  }

  /** Another node's lease changes hands only when it had gone stale. */
  lemma TakeoverOnlyWhenStale(locks: map<string, Lease>, name: string, node: string, now: int, timeoutSec: int)
    requires name in locks && locks[name].lockBy != node
    requires Holds(Upsert(locks, name, node, now, timeoutSec), name, node)
    ensures locks[name].lastSeen < now - timeoutSec
  {
    UpsertHolds(locks, name, node, now, timeoutSec);
  }

  // ---------------------------------------------------------------------------
  // The cursor

  /** The offset row of a read group; a group without a row starts at 0. */
  function CurrentOffset(offsets: map<string, nat>, readGroup: string, readFails: bool): (r: Result<nat>)
    ensures r.Err? <==> readFails
    ensures r.Ok? && readGroup !in offsets ==> r.value == 0
    ensures r.Ok? && readGroup in offsets ==> r.value == offsets[readGroup]
  {
    if readFails then Err(QueryError)
    else if readGroup in offsets then Ok(offsets[readGroup])
    else Ok(0)
  }

  /** The offset table after CommitInTrans: the group's row is written only when
      the transaction commits. */
  function CommitOffsets(offsets: map<string, nat>, readGroup: string, eventId: nat, handlerOk: bool,
                         faults: CommitFaults): (r: map<string, nat>)
  {
    if !faults.begin && !faults.exec && handlerOk && !faults.commit then offsets[readGroup := eventId]
    else offsets
  }

  /** After a committed transaction the group's cursor is the event's id, even when
      it was ahead of it; every other group reads what it read before. */
  lemma CommitSetsCursor(offsets: map<string, nat>, readGroup: string, eventId: nat, faults: CommitFaults, other: string)
    requires !faults.begin && !faults.exec && !faults.commit
    requires other != readGroup
    ensures CurrentOffset(CommitOffsets(offsets, readGroup, eventId, true, faults), readGroup, false) == Ok(eventId)
    ensures CurrentOffset(CommitOffsets(offsets, readGroup, eventId, true, faults), other, false)
         == CurrentOffset(offsets, other, false)
  {
  }

  /** A failing handler, or a failing statement, leaves every cursor where it was. */
  lemma FailedCommitKeepsCursors(offsets: map<string, nat>, readGroup: string, eventId: nat, handlerOk: bool,
                                 faults: CommitFaults)
    requires !handlerOk || faults.begin || faults.exec || faults.commit
    ensures CommitOffsets(offsets, readGroup, eventId, handlerOk, faults) == offsets
  {
  }

  // ---------------------------------------------------------------------------
  // Reading events

  /** The rows with an id above `offset`, in table order. */
  function Above(events: seq<Event>, offset: nat): (r: seq<Event>)
    ensures |r| <= |events|
    ensures forall i :: 0 <= i < |r| ==> r[i] in events && r[i].id > offset
  {
    if events == [] then []
    else
      var n := |events| - 1;
      Above(events[..n], offset) + if events[n].id > offset then [events[n]] else []
  }

  /** The first `limit` elements (all of them when there are fewer). */
  function Take(s: seq<Event>, limit: nat): (r: seq<Event>)
    ensures |r| == if limit < |s| then limit else |s|
    ensures r == s[..|r|]
  {
    if limit < |s| then s[..limit] else s
  }

  /** A row whose `data` column JSON.Scan accepts. The column gives back the
      bytes Value wrote, or NULL for empty data. */
  predicate Readable(e: Event)
  {
    ScanOutcomeOf(Value(e.data).value, Ok(e.data)).Assigned?
  }

  /** Every row of a result set scans. */
  predicate AllReadable(rows: seq<Event>)
  {
    forall i :: 0 <= i < |rows| ==> Readable(rows[i])
  }

  /** Only the rows stored with empty data are refused. */
  lemma ReadableIffData(e: Event)
    ensures Readable(e) <==> |e.data| > 0
  {
  }

  /** How many rows `rows.Next` yields: the LIMIT, or fewer when reading the
      result set breaks off. The loop does not consult `rows.Err`. */
  function ReadCap(limit: nat, rowsFailAt: Option<nat>): (n: nat)
    ensures n <= limit
    ensures rowsFailAt.None? ==> n == limit
    ensures rowsFailAt.Some? ==> n <= rowsFailAt.value
  {
    if rowsFailAt.Some? && rowsFailAt.value < limit then rowsFailAt.value else limit
  }

  /** `getEvents`: `SELECT ... FROM events WHERE id > ? LIMIT ?`, then every row
      yielded is scanned. A negative limit is rejected; a row with NULL data fails
      its scan and the whole read fails; a read that breaks off returns the rows
      scanned so far. */
  function QueryEvents(events: seq<Event>, offset: nat, limit: int, queryFails: bool, rowsFailAt: Option<nat>)
    : Result<seq<Event>>
  {
    if queryFails || limit < 0 then Err(QueryError)
    else
      var rows := Take(Above(events, offset), ReadCap(limit, rowsFailAt));
      if AllReadable(rows) then Ok(rows) else Err(ScanRejected)
  }

  lemma {:induction false} AboveComplete(events: seq<Event>, offset: nat, e: Event)
    requires e in events && e.id > offset
    ensures e in Above(events, offset)
  {
    var n := |events| - 1;
    if e != events[n] {
      assert e in events[..n] by {
        var i :| 0 <= i < |events| && events[i] == e;
        assert events[..n][i] == e;
      }
      AboveComplete(events[..n], offset, e);
    }
  }

  lemma {:induction false} AbovePrefix(events: seq<Event>, offset: nat, k: nat)
    requires k <= |events|
    ensures var r := Above(events, offset);
            |Above(events[..k], offset)| <= |r| && Above(events[..k], offset) == r[..|Above(events[..k], offset)|]
    decreases |events|
  {
    if k < |events| {
      var n := |events| - 1;
      assert events[..n][..k] == events[..k];
      AbovePrefix(events[..n], offset, k);
    } else {
      assert events[..k] == events;
    }
  }

  /** What a read returns. It fails when the query does, and succeeds when no row
      above the cursor has empty data. A successful read holds at most `limit`
      rows, every one of them a row of the table above the cursor with data; and
      unless the read broke off, no fewer than `limit` unless that is all the rows
      above the cursor. */
  lemma QueryEventsResult(events: seq<Event>, offset: nat, limit: int, queryFails: bool, rowsFailAt: Option<nat>)
    ensures var r := QueryEvents(events, offset, limit, queryFails, rowsFailAt);
            && (queryFails || limit < 0 ==> r == Err(QueryError))
            && (!queryFails && limit >= 0 && (forall e :: e in events && e.id > offset ==> |e.data| > 0) ==> r.Ok?)
            && (r.Ok? ==> |r.value| <= limit)
            && (r.Ok? ==> forall e :: e in r.value ==> e in events && e.id > offset && |e.data| > 0)
            && (r.Ok? && |r.value| < limit && rowsFailAt.None? ==>
                  forall e :: e in events && e.id > offset ==> e in r.value)
  {
    var r := QueryEvents(events, offset, limit, queryFails, rowsFailAt);
    if !queryFails && limit >= 0 {
      var rows := Take(Above(events, offset), ReadCap(limit, rowsFailAt));
      forall i | 0 <= i < |rows|
        ensures Readable(rows[i]) <==> |rows[i].data| > 0
      {
        ReadableIffData(rows[i]);
      }
    }
    if r.Ok? {
      var above := Above(events, offset);
      forall e | e in r.value
        ensures e in events && e.id > offset
      {
        var i :| 0 <= i < |r.value| && r.value[i] == e;
        assert e == above[i];
        ReadableIffData(r.value[i]);
      }
      if |r.value| < limit && rowsFailAt.None? {
        forall e | e in events && e.id > offset
          ensures e in r.value
        {
          AboveComplete(events, offset, e);
        }
      }
    }
  }

  /** A row stored with empty data, among the rows a read yields, fails the
      whole read. */
  lemma EmptyDataFailsRead(events: seq<Event>, offset: nat, limit: int, rowsFailAt: Option<nat>, j: nat)
    requires limit >= 0 && j < |Above(events, offset)| && j < ReadCap(limit, rowsFailAt)
    requires |Above(events, offset)[j].data| == 0
    ensures QueryEvents(events, offset, limit, false, rowsFailAt) == Err(ScanRejected)
  {
    var rows := Take(Above(events, offset), ReadCap(limit, rowsFailAt));
    assert rows[j] == Above(events, offset)[j];
    ReadableIffData(rows[j]);
  }

  /** The loop of `getEvents` meets a row it cannot scan before it has yielded
      as many rows as it may: the read fails. */
  lemma ScanErrorEndsRead(events: seq<Event>, offset: nat, limit: int, rowsFailAt: Option<nat>, k: nat)
    requires limit >= 0 && k < |events| && events[k].id > offset && !Readable(events[k])
    requires |Above(events[..k], offset)| < ReadCap(limit, rowsFailAt)
    ensures QueryEvents(events, offset, limit, false, rowsFailAt) == Err(ScanRejected)
  {
    var j := |Above(events[..k], offset)|;
    assert events[..k + 1][..k] == events[..k];
    AbovePrefix(events, offset, k + 1);
    assert Above(events, offset)[j] == events[k];
    ReadableIffData(events[k]);
    EmptyDataFailsRead(events, offset, limit, rowsFailAt, j);
  }

  /** The loop of `getEvents` stops, after `k` rows of the table, at the end of
      the table or once it has yielded as many rows as it may, having scanned all
      of them: the read returns them. */
  lemma ReadEnds(events: seq<Event>, offset: nat, limit: int, rowsFailAt: Option<nat>, k: nat)
    requires limit >= 0 && k <= |events|
    requires |Above(events[..k], offset)| <= ReadCap(limit, rowsFailAt)
    requires k == |events| || |Above(events[..k], offset)| == ReadCap(limit, rowsFailAt)
    requires AllReadable(Above(events[..k], offset))
    ensures QueryEvents(events, offset, limit, false, rowsFailAt) == Ok(Above(events[..k], offset))
  {
    AbovePrefix(events, offset, k);
    if k == |events| {
      assert events[..k] == events;
    }
    assert Above(events[..k], offset) == Take(Above(events, offset), ReadCap(limit, rowsFailAt));
  }

  /** A read that breaks off before its first row looks like an empty result,
      whatever rows there are above the cursor. */
  lemma ReadErrorLooksEmpty(events: seq<Event>, offset: nat, limit: int)
    requires limit >= 0
    ensures QueryEvents(events, offset, limit, false, Some(0)) == Ok([])
  {
  }

  // ---------------------------------------------------------------------------
  // Fetch as a function of the tables

  /** The reply of Fetch, given the lease table after its `lock` step. */
  function FetchReply(locks: map<string, Lease>, offsets: map<string, nat>, events: seq<Event>,
                      readGroup: string, nodeId: string, limit: int, faults: FetchFaults): Result<seq<Event>>
  {
    if faults.lockExec || faults.lockCount then Err(if faults.lockExec then ExecError else QueryError)
    else if !Holds(locks, readGroup, nodeId) then Ok([])
    else match CurrentOffset(offsets, readGroup, faults.offsetRead)
      case Err(e) => Err(e)
      case Ok(offset) => QueryEvents(events, offset, limit, faults.query, faults.rowsFailAt)
  }

  /** The lease table after the `lock` step of Fetch. */
  function FetchLocks(locks: map<string, Lease>, readGroup: string, nodeId: string, now: int, timeoutSec: int,
                      faults: FetchFaults): map<string, Lease>
  {
    if faults.lockExec then locks else Upsert(locks, readGroup, nodeId, now, timeoutSec)
  }

  /** A node without the lease gets nothing and no error, whatever the state of
      the cursor and the event tables. */
  lemma FetchWithoutLeaseIsEmpty(locks: map<string, Lease>, offsets: map<string, nat>, events: seq<Event>,
                                 readGroup: string, nodeId: string, limit: int, faults: FetchFaults)
    requires !faults.lockExec && !faults.lockCount && !Holds(locks, readGroup, nodeId)
    ensures FetchReply(locks, offsets, events, readGroup, nodeId, limit, faults) == Ok([])
  {
  }

  /** While one node's lease is fresh, another node's Fetch returns no events. */
  lemma FetchExcludesOtherNodes(locks: map<string, Lease>, offsets: map<string, nat>, events: seq<Event>,
                                readGroup: string, a: string, b: string, now1: int, now2: int, timeoutSec: int,
                                limit: int, faults: FetchFaults)
    requires a != b && timeoutSec >= 0 && now1 <= now2 <= now1 + timeoutSec
    requires Holds(Upsert(locks, readGroup, a, now1, timeoutSec), readGroup, a)
    ensures var first := Upsert(locks, readGroup, a, now1, timeoutSec);
            var r := FetchReply(FetchLocks(first, readGroup, b, now2, timeoutSec, faults), offsets, events,
                                readGroup, b, limit, faults);
            r.Err? || r == Ok([])
  {
    MutualExclusion(locks, readGroup, a, b, now1, now2, timeoutSec);
  }

  /** Every event a Fetch returns is a row of the table above the group's cursor,
      and there are at most `limit` of them. */
  lemma FetchAboveCursor(locks: map<string, Lease>, offsets: map<string, nat>, events: seq<Event>,
                         readGroup: string, nodeId: string, limit: int, faults: FetchFaults)
    ensures var r := FetchReply(locks, offsets, events, readGroup, nodeId, limit, faults);
            var cursor := if readGroup in offsets then offsets[readGroup] else 0;
            && (r.Ok? ==> |r.value| <= limit || r.value == [])
            && (r.Ok? ==> forall e :: e in r.value ==> e in events && e.id > cursor)
  {
    if !faults.lockExec && !faults.lockCount && Holds(locks, readGroup, nodeId) && !faults.offsetRead {
      var cursor := if readGroup in offsets then offsets[readGroup] else 0;
      QueryEventsResult(events, cursor, limit, faults.query, faults.rowsFailAt);
    }
  }

  /** A group whose first event above the cursor was stored with empty data gets
      an error from every Fetch that reads it, and a failing Fetch leaves the
      cursor where it is: the group cannot get past that event. */
  lemma EmptyDataBlocksFetch(locks: map<string, Lease>, offsets: map<string, nat>, events: seq<Event>,
                             readGroup: string, nodeId: string, limit: int, faults: FetchFaults)
    requires !faults.lockExec && !faults.lockCount && !faults.offsetRead && !faults.query
    requires Holds(locks, readGroup, nodeId) && limit > 0
    requires faults.rowsFailAt.None? || faults.rowsFailAt.value > 0
    requires var cursor := if readGroup in offsets then offsets[readGroup] else 0;
             |Above(events, cursor)| > 0 && |Above(events, cursor)[0].data| == 0
    ensures FetchReply(locks, offsets, events, readGroup, nodeId, limit, faults) == Err(ScanRejected)
  {
    var cursor := if readGroup in offsets then offsets[readGroup] else 0;
    EmptyDataFailsRead(events, cursor, limit, faults.rowsFailAt, 0);
  }

  // ---------------------------------------------------------------------------
  // Cursor and log together

  /** Ids grow along the table, as AUTO_INCREMENT hands them out. */
  predicate Ascending(events: seq<Event>)
  {
    forall i, j :: 0 <= i < j < |events| ==> events[i].id < events[j].id
  }

  /** The ids AUTO_INCREMENT has handed out: positive, ascending and below its counter. */
  predicate IdsIssued(events: seq<Event>, nextId: nat)
  {
    && 0 < nextId
    && Ascending(events)
    && forall i :: 0 <= i < |events| ==> 0 < events[i].id < nextId
  }

  /** Storing a batch under the next ids keeps the ids issued. */
  lemma StoredIdsIssued(events: seq<Event>, nextId: nat, batch: seq<Event>)
    requires IdsIssued(events, nextId)
    ensures IdsIssued(events + Stored(batch, nextId), nextId + |batch|)
  {
    var all := events + Stored(batch, nextId);
    forall i | 0 <= i < |all|
      ensures 0 < all[i].id < nextId + |batch|
    {
      if i >= |events| {
        assert all[i] == Stored(batch, nextId)[i - |events|];
      }
    }
    forall i, j | 0 <= i < j < |all|
      ensures all[i].id < all[j].id
    {
      if j >= |events| {
        assert all[j] == Stored(batch, nextId)[j - |events|];
        if i >= |events| {
          assert all[i] == Stored(batch, nextId)[i - |events|];
        }
      }
    }
  }

  lemma AboveNone(events: seq<Event>, offset: nat)
    requires forall i :: 0 <= i < |events| ==> events[i].id <= offset
    ensures Above(events, offset) == []
  {
    if events != [] {
      AboveNone(events[..|events| - 1], offset);
    }
  }

  /** In an ascending log, moving the cursor to the j-th row above it leaves
      exactly the rows after that one. */
  lemma {:induction false} AboveAfter(events: seq<Event>, offset: nat, j: nat)
    requires Ascending(events) && j < |Above(events, offset)|
    ensures Above(events, Above(events, offset)[j].id) == Above(events, offset)[j + 1..]
  {
    var n := |events| - 1;
    var init := events[..n];
    var e := events[n];
    var before := Above(init, offset);
    var x := Above(events, offset)[j];
    assert Ascending(init);
    if e.id > offset {
      if j < |before| {
        assert x == before[j];
        AboveAfter(init, offset, j);
        assert x in init;
        assert x.id < e.id;
      } else {
        assert x == e;
        AboveNone(init, e.id);
      }
    } else {
      assert false;
    }
  }

  /** Committing the j-th event of a fetched batch moves the cursor just past it:
      the next read starts with the (j+1)-th, so no event is skipped or read twice. */
  lemma CommitResumesAfterEvent(events: seq<Event>, offsets: map<string, nat>, readGroup: string, limit: nat, j: nat,
                                faults: CommitFaults)
    requires Ascending(events) && !faults.begin && !faults.exec && !faults.commit
    requires var cursor := if readGroup in offsets then offsets[readGroup] else 0;
             j < |Take(Above(events, cursor), limit)|
    ensures var cursor := if readGroup in offsets then offsets[readGroup] else 0;
            var batch := Take(Above(events, cursor), limit);
            var after := CommitOffsets(offsets, readGroup, batch[j].id, true, faults);
            CurrentOffset(after, readGroup, false) == Ok(batch[j].id) &&
            Above(events, after[readGroup]) == Above(events, cursor)[j + 1..]
  {
    var cursor := if readGroup in offsets then offsets[readGroup] else 0;
    AboveAfter(events, cursor, j);
  }

  // ---------------------------------------------------------------------------
  // Writing events

  /** The statement head, in pieces small enough to be searched for placeholders one at a time. */
  const InsertPrefix := "INSERT INTO events \n\t" + "(type, aggregate_type, " + "aggregate_id, data, " + "created_at) VALUES "
  const RowPlaceholder := "(?, ?, ?, ?, ?)"

  /** The five parameters of one row, in column order. */
  function RowParams(e: Event): (p: seq<Param>)
    ensures |p| == 5
  {
    [Text(e.eventType), Text(e.aggregateType), Text(e.aggregateId), Json(e.data), Time(e.createdAt)]
  }

  function ParamsOf(batch: seq<Event>): (p: seq<Param>)
    ensures |p| == 5 * |batch|
  {
    if batch == [] then [] else ParamsOf(batch[..|batch| - 1]) + RowParams(batch[|batch| - 1])
  }

  /** `strings.Join`. */
  function Join(parts: seq<string>, sep: string): string
  {
    if parts == [] then ""
    else if |parts| == 1 then parts[0]
    else Join(parts[..|parts| - 1], sep) + sep + parts[|parts| - 1]
  }

  function CountChar(s: string, c: char): nat
  {
    if s == [] then 0 else CountChar(s[..|s| - 1], c) + if s[|s| - 1] == c then 1 else 0
  }

  lemma {:induction false} CountCharAppend(s: string, t: string, c: char)
    ensures CountChar(s + t, c) == CountChar(s, c) + CountChar(t, c)
    decreases |t|
  {
    if t == [] {
      assert s + t == s;
    } else {
      var n := |t| - 1;
      assert (s + t)[..|s + t| - 1] == s + t[..n];
      assert (s + t)[|s + t| - 1] == t[n];
      CountCharAppend(s, t[..n], c);
    }
  }

  lemma {:induction false} CountCharAbsent(s: string, c: char)
    requires c !in s
    ensures CountChar(s, c) == 0
  {
    if s != [] {
      CountCharAbsent(s[..|s| - 1], c);
    }
  }

  lemma {:induction false} CountCharMultiplicity(s: string, c: char)
    ensures CountChar(s, c) == multiset(s)[c]
  {
    if s != [] {
      var n := |s| - 1;
      assert s == s[..n] + [s[n]];
      CountCharMultiplicity(s[..n], c);
    }
  }

  lemma {:induction false} JoinedPlaceholders(n: nat)
    ensures CountChar(Join(seq(n, _ => RowPlaceholder), ","), '?') == 5 * n
  {
    var parts := seq(n, _ => RowPlaceholder);
    CountCharMultiplicity(RowPlaceholder, '?');
    CountCharAbsent(",", '?');
    if n > 1 {
      assert parts[..n - 1] == seq(n - 1, _ => RowPlaceholder);
      JoinedPlaceholders(n - 1);
      CountCharAppend(Join(parts[..n - 1], ","), ",", '?');
      CountCharAppend(Join(parts[..n - 1], ",") + ",", RowPlaceholder, '?');
    }
  }

  /** The INSERT has one placeholder per parameter, so every parameter is bound. */
  lemma InsertPlaceholders(batch: seq<Event>)
    ensures CountChar(InsertPrefix + Join(seq(|batch|, _ => RowPlaceholder), ","), '?') == |ParamsOf(batch)|
  {
    var a, b, c, d := "INSERT INTO events \n\t", "(type, aggregate_type, ", "aggregate_id, data, ", "created_at) VALUES ";
    CountCharAbsent(a, '?');
    CountCharAbsent(b, '?');
    CountCharAbsent(c, '?');
    CountCharAbsent(d, '?');
    CountCharAppend(a, b, '?');
    CountCharAppend(a + b, c, '?');
    CountCharAppend(a + b + c, d, '?');
    JoinedPlaceholders(|batch|);
    CountCharAppend(InsertPrefix, Join(seq(|batch|, _ => RowPlaceholder), ","), '?');
  }

  /** The row one group of five parameters inserts, under the id it is given. */
  function BindRow(p: seq<Param>, id: nat): Option<Event>
    requires |p| == 5
  {
    match (p[0], p[1], p[2], p[3], p[4])
    case (Text(t), Text(at), Text(aid), Json(d), Time(c)) => Some(Event(id, t, at, aid, d, c))
    case _ => None
  }

  /** The rows an INSERT with these parameters adds, with ids from `firstId` on. */
  function BindRows(params: seq<Param>, firstId: nat): Option<seq<Event>>
  {
    if params == [] then Some([])
    else if |params| < 5 then None
    else
      var n := |params| - 5;
      match BindRows(params[..n], firstId)
      case None => None
      case Some(rows) =>
        match BindRow(params[n..], firstId + |rows|)
        case None => None
        case Some(row) => Some(rows + [row])
  }

  /** The batch as stored: each event under the next AUTO_INCREMENT id. */
  function Stored(batch: seq<Event>, firstId: nat): (rows: seq<Event>)
    ensures |rows| == |batch|
  {
    seq(|batch|, i requires 0 <= i < |batch| => batch[i].(id := firstId + i))
  }

  lemma BindRowParams(e: Event, id: nat)
    ensures BindRow(RowParams(e), id) == Some(e.(id := id))
  {
  }

  /** Every event of the batch carries a creation time. */
  predicate Dated(batch: seq<Event>)
  {
    forall i :: 0 <= i < |batch| ==> batch[i].createdAt.Some?
  }

  /** Binding the parameters Create builds gives back every event of the batch,
      field by field, under consecutive ids. */
  lemma {:induction false} BindParamsOf(batch: seq<Event>, firstId: nat)
    ensures BindRows(ParamsOf(batch), firstId) == Some(Stored(batch, firstId))
  {
    if batch != [] {
      var n := |batch| - 1;
      var params := ParamsOf(batch);
      assert params[..5 * n] == ParamsOf(batch[..n]);
      assert params[5 * n..] == RowParams(batch[n]);
      BindParamsOf(batch[..n], firstId);
      BindRowParams(batch[n], firstId + n);
      assert BindRows(params, firstId) == Some(Stored(batch[..n], firstId) + [batch[n].(id := firstId + n)]);
      assert Stored(batch, firstId) == Stored(batch[..n], firstId) + [batch[n].(id := firstId + n)];
    }
  }

  // ---------------------------------------------------------------------------
  // The driver

  class MySQLStoreConfig {
    var nodeId: string
    var lockTimeoutSec: int

    constructor (nodeId: string, lockTimeoutSec: int)
      ensures this.nodeId == nodeId && this.lockTimeoutSec == lockTimeoutSec
    {
      this.nodeId := nodeId;
      this.lockTimeoutSec := lockTimeoutSec;
    }
  }

  class MySQLDriver {
    const config: MySQLStoreConfig
    const dataSourceName: string
    /** `event_locks`, keyed by read group. */
    var locks: map<string, Lease>
    /** `event_offsets`, keyed by read group. */
    var offsets: map<string, nat>
    /** `events`, in table order. */
    var events: seq<Event>
    /** The next AUTO_INCREMENT id of `events`. */
    var nextId: nat

    predicate Valid()
      reads this
    {
      IdsIssued(events, nextId)
    }

    /** NewMySQLEventDriver, over empty tables: a zero lock timeout in the
        caller's configuration is replaced by the default, in place. */
    constructor (dbConfig: DBConfig, config: MySQLStoreConfig)
      modifies config
      ensures this.config == config && dataSourceName == DataSourceName(dbConfig)
      ensures config.nodeId == old(config.nodeId)
      ensures config.lockTimeoutSec ==
        if old(config.lockTimeoutSec) == 0 then DefaultLockTimeoutSec else old(config.lockTimeoutSec)
      ensures locks == map[] && offsets == map[] && events == [] && nextId == 1
      ensures Valid()
    {
      if config.lockTimeoutSec == 0 {
        config.lockTimeoutSec := DefaultLockTimeoutSec;
      }
      this.config := config;
      dataSourceName := DataSourceName(dbConfig);
      locks := map[];
      offsets := map[];
      events := [];
      nextId := 1;
    }

    /** `lock`: the upsert, then the count of rows of `name` held by `nodeId`.
        A failing upsert changes nothing; a failing count comes after the upsert. */
    method Lock(name: string, nodeId: string, now: int, execFails: bool, countFails: bool) returns (r: Result<bool>)
      modifies this`locks
      ensures locks == if execFails then old(locks) else Upsert(old(locks), name, nodeId, now, config.lockTimeoutSec)
      ensures execFails ==> r == Err(ExecError)
      ensures !execFails && countFails ==> r == Err(QueryError)
      ensures !execFails && !countFails ==> r == Ok(Holds(locks, name, nodeId))
    {
      if execFails {
        return Err(ExecError);
      }
      locks := Upsert(locks, name, nodeId, now, config.lockTimeoutSec);
      if countFails {
        return Err(QueryError);
      }
      var count := if Holds(locks, name, nodeId) then 1 else 0;
      if count > 0 {
        return Ok(true);
      }
      return Ok(false);
    }

    /** `getEvents`: one pass over the table yields the rows above the cursor
        until `limit` of them are found or reading breaks off, scanning each. */
    method GetEvents(offset: nat, limit: int, queryFails: bool, rowsFailAt: Option<nat>)
      returns (r: Result<seq<Event>>)
      ensures r == QueryEvents(events, offset, limit, queryFails, rowsFailAt)
    {
      if queryFails || limit < 0 {
        return Err(QueryError);
      }
      var cap := ReadCap(limit, rowsFailAt);
      var rows: seq<Event> := [];
      var k := 0;
      while k < |events| && |rows| < cap
        invariant 0 <= k <= |events|
        invariant rows == Above(events[..k], offset)
        invariant |rows| <= cap
        invariant AllReadable(rows)
      {
        assert events[..k + 1][..k] == events[..k];
        if events[k].id > offset {
          if !Readable(events[k]) {
            ScanErrorEndsRead(events, offset, limit, rowsFailAt, k);
            return Err(ScanRejected);
          }
          rows := rows + [events[k]];
        }
        k := k + 1;
      }
      ReadEnds(events, offset, limit, rowsFailAt, k);
      return Ok(rows);
    }

    /** `Fetch`: take or renew the lease, then read the cursor and the events
        above it; without the lease nothing more is read. */
    method Fetch(readGroup: string, limit: int, now: int, faults: FetchFaults) returns (r: Result<seq<Event>>)
      modifies this`locks
      ensures locks == FetchLocks(old(locks), readGroup, config.nodeId, now, config.lockTimeoutSec, faults)
      ensures r == FetchReply(locks, offsets, events, readGroup, config.nodeId, limit, faults)
    {
      var success := Lock(readGroup, config.nodeId, now, faults.lockExec, faults.lockCount);
      if success.Err? {
        return Err(success.error);
      }
      if !success.value {
        return Ok([]);
      }
      var offset := CurrentOffset(offsets, readGroup, faults.offsetRead);
      if offset.Err? {
        return Err(offset.error);
      }
      r := GetEvents(offset.value, limit, faults.query, faults.rowsFailAt);
    }

    /** `CommitInTrans`: write the group's cursor inside a transaction, run the
        handler, and commit; the cursor moves only when all of it succeeds. */
    method CommitInTrans(readGroup: string, event: Event, handlerOk: bool, faults: CommitFaults)
      returns (r: Status, handlerCalled: bool)
      modifies this`offsets
      ensures handlerCalled <==> !faults.begin && !faults.exec
      ensures r.Done? <==> handlerCalled && handlerOk && !faults.commit
      ensures offsets == CommitOffsets(old(offsets), readGroup, event.id, handlerOk, faults)
    {
      handlerCalled := false;
      if faults.begin {
        return Failed(TransactionError), handlerCalled;
      }
      // The offset row written inside the transaction, visible only once it commits.
      var pending := offsets[readGroup := event.id];
      if faults.exec {
        return Failed(ExecError), handlerCalled;
      }
      handlerCalled := true;
      if !handlerOk {
        return Failed(HandlerError), handlerCalled;
      }
      if faults.commit {
        return Failed(TransactionError), handlerCalled;
      }
      offsets := pending;
      return Done, handlerCalled;
    }

    /** The statement and parameters of `Create`: one placeholder group and five
        parameters per event. */
    method BuildInsert(batch: seq<Event>) returns (query: string, params: seq<Param>)
      ensures query == InsertPrefix + Join(seq(|batch|, _ => RowPlaceholder), ",")
      ensures params == ParamsOf(batch)
    {
      var inserts: seq<string> := [];
      params := [];
      var i := 0;
      while i < |batch|
        invariant 0 <= i <= |batch|
        invariant inserts == seq(i, _ => RowPlaceholder)
        invariant params == ParamsOf(batch[..i])
      {
        assert batch[..i + 1][..i] == batch[..i];
        inserts := inserts + [RowPlaceholder];
        params := params + RowParams(batch[i]);
        i := i + 1;
      }
      assert batch[..i] == batch;
      query := InsertPrefix + Join(inserts, ",");
    }

    /** `Create`: one INSERT for the whole batch. An empty batch leaves the
        VALUES list empty, and a NULL `created_at` breaks the column's NOT NULL
        constraint; MySQL rejects the statement in both cases. */
    method Create(batch: seq<Event>, execFails: bool) returns (r: Status)
      requires Valid()
      modifies this`events, this`nextId
      ensures Valid()
      ensures r.Done? <==> batch != [] && !execFails && Dated(batch)
      ensures r.Done? ==> events == old(events) + Stored(batch, old(nextId)) && nextId == old(nextId) + |batch|
      ensures r.Failed? ==> events == old(events) && nextId == old(nextId)
    {
      var query, params := BuildInsert(batch);
      InsertPlaceholders(batch);
      if batch == [] || execFails || CountChar(query, '?') != |params| {
        return Failed(ExecError);
      }
      BindParamsOf(batch, nextId);
      StoredIdsIssued(events, nextId, batch);
      var rows := BindRows(params, nextId);
      if rows.None? {
        return Failed(ExecError);
      }
      assert forall i :: 0 <= i < |batch| ==> rows.value[i].createdAt == batch[i].createdAt;
      if exists i :: 0 <= i < |rows.value| && rows.value[i].createdAt.None? {
        return Failed(ExecError);
      }
      events := events + rows.value;
      nextId := nextId + |rows.value|;
      return Done;
    }
  }
}
