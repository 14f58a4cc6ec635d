/**
  The Idempotency-Key protocol of the partner API: reserve the key, run, then store the response. One key
  row, any number of callers, one database write at a time.
*/
module Idempotency {
  import opened Options

  type Json = string

  datatype KeyRow = KeyRow(hash: string, response: Option<Json>)

  /** A caller with its body hash. `Reserved`, `Ran` and `Failing` hold the reservation. */
  datatype Call =
    | Arrived(hash: string)
    | Lost(hash: string)
    | Reserved(hash: string)
    | Ran(hash: string, result: Json)
    | Failing(hash: string)
    | Answered(hash: string, result: Json)
    | Rejected
    | Crashed

  /** `runs` is the history of the results of successful `run`s. */
  datatype Sys = Sys(row: Option<KeyRow>, calls: seq<Call>, runs: seq<Json>)

  datatype Action =
    | Arrive(hash: string)
    | Insert(call: nat)
    | Lookup(call: nat)
    | RunSucceeds(call: nat, result: Json)
    | RunThrows(call: nat)
    | Release(call: nat, deleted: bool)
    | Store(call: nat, updated: bool)
    | Crash(call: nat)

  const EMPTY: Sys := Sys(None, [], [])

  /** A caller that lost the insert: another body is a mismatch, a stored response is returned, else wait. */
  function LookupCall(row: Option<KeyRow>, hash: string): Call {
    if row.Some? && row.value.hash != hash then Rejected
    else if row.Some? && row.value.response.Some? then Answered(hash, row.value.response.value)
    else Rejected
  }

  function StoredRow(row: Option<KeyRow>, result: Json): Option<KeyRow> {
    match row
    case None => None
    case Some(r) => Some(r.(response := Some(result)))
  }

  function Step(s: Sys, a: Action): Sys {
    match a
    case Arrive(hash) => s.(calls := s.calls + [Arrived(hash)])
    case Insert(c) =>
      if c < |s.calls| && s.calls[c].Arrived? then
        var hash := s.calls[c].hash;
        if s.row.None? then s.(row := Some(KeyRow(hash, None)), calls := s.calls[c := Reserved(hash)])
        else s.(calls := s.calls[c := Lost(hash)])
      else s
    case Lookup(c) =>
      if c < |s.calls| && s.calls[c].Lost? then s.(calls := s.calls[c := LookupCall(s.row, s.calls[c].hash)]) else s
    case RunSucceeds(c, result) =>
      if c < |s.calls| && s.calls[c].Reserved? then
        s.(calls := s.calls[c := Ran(s.calls[c].hash, result)], runs := s.runs + [result])
      else s
    case RunThrows(c) =>
      if c < |s.calls| && s.calls[c].Reserved? then s.(calls := s.calls[c := Failing(s.calls[c].hash)]) else s
    case Release(c, deleted) =>
      if c < |s.calls| && s.calls[c].Failing? then
        s.(row := if deleted then None else s.row, calls := s.calls[c := Rejected])
      else s
    case Store(c, updated) =>
      if c < |s.calls| && s.calls[c].Ran? then
        s.(row := if updated then StoredRow(s.row, s.calls[c].result) else s.row,
           calls := s.calls[c := Answered(s.calls[c].hash, s.calls[c].result)])
      else s
    case Crash(c) =>
      if c < |s.calls| && !s.calls[c].Answered? then s.(calls := s.calls[c := Crashed]) else s
  }

  function Run(s: Sys, actions: seq<Action>): Sys {
    if actions == [] then s else Step(Run(s, actions[..|actions| - 1]), actions[|actions| - 1])
  }

  // --------------------------------------------------------------- invariant

  predicate Holds(c: Call) {
    c.Reserved? || c.Ran? || c.Failing?
  }

  /** The reservation has at most one holder, and the row carries the holder's hash and no response yet. */
  ghost predicate OneHolder(s: Sys) {
    && (forall b, c :: 0 <= b < c < |s.calls| && Holds(s.calls[b]) ==> !Holds(s.calls[c]))
    && (forall c :: 0 <= c < |s.calls| && Holds(s.calls[c]) ==> s.row == Some(KeyRow(s.calls[c].hash, None)))
  }

  /** After the one successful run the row stays, and whatever is stored or returned is its result. */
  ghost predicate OneResult(s: Sys) {
    && |s.runs| <= 1
    && (s.row.Some? && s.row.value.response.Some? ==> s.runs == [s.row.value.response.value])
    && (s.runs != [] ==> s.row.Some?)
    && (forall c :: 0 <= c < |s.calls| && (s.calls[c].Reserved? || s.calls[c].Failing?) ==> s.runs == [])
    && (forall c :: 0 <= c < |s.calls| && s.calls[c].Ran? ==> s.runs == [s.calls[c].result])
    && (forall c :: 0 <= c < |s.calls| && s.calls[c].Answered? ==>
          s.runs == [s.calls[c].result] && s.row.value.hash == s.calls[c].hash)
  }

  lemma HolderKept(s: Sys, a: Action)
    requires OneHolder(s)
    ensures OneHolder(Step(s, a))
  {
    match a
    case Arrive(_) =>
    case Insert(_) =>
    case Lookup(_) =>
    case _ =>
  }

  lemma ResultKept(s: Sys, a: Action)
    requires OneHolder(s) && OneResult(s)
    ensures OneResult(Step(s, a))
  {
    match a
    case Arrive(_) =>
    case Insert(_) =>
    case Lookup(_) =>
    case _ =>
  }

  lemma StepKeeps(s: Sys, a: Action)
    requires OneHolder(s) && OneResult(s)
    ensures OneHolder(Step(s, a)) && OneResult(Step(s, a))
  {
    HolderKept(s, a);
    ResultKept(s, a);
  }

  /**
    Over every interleaving, crashes and failed releases or stores included: at most one `run` succeeds;
    every caller that gets a result gets that run's result and had the same body hash as all other such
    callers; and while no run has succeeded the key is either free or still reserved without a response.
  */
  lemma {:induction false} AtMostOneRun(actions: seq<Action>)
    ensures var s := Run(EMPTY, actions);
      && OneHolder(s) && OneResult(s) && |s.runs| <= 1
      && (forall c :: 0 <= c < |s.calls| && s.calls[c].Answered? ==> s.runs == [s.calls[c].result])
      && (forall b, c :: 0 <= b < c < |s.calls| && s.calls[b].Answered? && s.calls[c].Answered? ==>
            s.calls[b].hash == s.calls[c].hash)
      && (s.runs == [] ==> s.row.None? || s.row.value.response.None?)
  {
    if actions != [] {
      var n := |actions| - 1;
      AtMostOneRun(actions[..n]);
      StepKeeps(Run(EMPTY, actions[..n]), actions[n]);
    }
  }

  /** Once a run has succeeded no further reservation is made, whatever happens afterwards. */
  lemma {:induction false} SuccessIsFinal(s: Sys, actions: seq<Action>)
    requires OneHolder(s) && OneResult(s) && s.runs != []
    ensures Run(s, actions).runs == s.runs
    ensures OneHolder(Run(s, actions)) && OneResult(Run(s, actions))
  {
    if actions != [] {
      var n := |actions| - 1;
      SuccessIsFinal(s, actions[..n]);
      StepKeeps(Run(s, actions[..n]), actions[n]);
    }
  }

  /** All steps of one caller in a row: arrive, insert, look up, run, then store or release. */
  function CallRun(s: Sys, hash: string, result: Option<Json>, deleted: bool, updated: bool): Sys {
    var c := |s.calls|;
    var looked := Step(Step(Step(s, Arrive(hash)), Insert(c)), Lookup(c));
    match result
    case None => Step(Step(looked, RunThrows(c)), Release(c, deleted))
    case Some(value) => Step(Step(looked, RunSucceeds(c, value)), Store(c, updated))
  }

  /**
    An undisturbed caller runs exactly if the key is free, and then its result is stored, or its key released,
    as far as those writes succeed; otherwise it changes nothing and gets the stored response if there is one
    and its body is the same.
  */
  lemma CallRunExactly(s: Sys, hash: string, result: Option<Json>, deleted: bool, updated: bool)
    ensures var t := CallRun(s, hash, result, deleted, updated); var c := |s.calls|;
      && |t.calls| == c + 1
      && (s.row.None? ==>
            && t.runs == s.runs + (if result.Some? then [result.value] else [])
            && t.row == (if result.None? && deleted then None else Some(KeyRow(hash, if updated then result else None)))
            && t.calls[c] == (if result.Some? then Answered(hash, result.value) else Rejected))
      && (s.row.Some? ==>
            && t.row == s.row && t.runs == s.runs
            && t.calls[c] == (if s.row.value.hash == hash && s.row.value.response.Some?
                              then Answered(hash, s.row.value.response.value) else Rejected))
  {
    var c := |s.calls|;
    var looked := Step(Step(Step(s, Arrive(hash)), Insert(c)), Lookup(c));
    assert |looked.calls| == c + 1 && looked.runs == s.runs;
    assert s.row.None? ==> looked.calls[c] == Reserved(hash) && looked.row == Some(KeyRow(hash, None));
    assert s.row.Some? ==> looked.calls[c] == LookupCall(s.row, hash) && looked.row == s.row;
  }

  // --------------------------------------------------------------- which row

  const KEY_LENGTH: nat := 100

  function Sliced(idemKey: string): string {
    if |idemKey| <= KEY_LENGTH then idemKey else idemKey[..KEY_LENGTH]
  }

  /** The stored key: the API key's id and the first 100 characters of the header. */
  function RowKey(keyId: string, idemKey: string): string {
    keyId + ":" + Sliced(idemKey)
  }

  /**
    Two callers share a row exactly when their API keys are the same and so are their headers, of which only
    the first 100 characters count.
  */
  lemma SameRowExactly(keyId: string, idemKey: string, keyId': string, idemKey': string)
    requires ':' !in keyId && ':' !in keyId'
    ensures var same := RowKey(keyId, idemKey) == RowKey(keyId', idemKey');
      && (|idemKey| <= 100 && |idemKey'| <= 100 ==> (same <==> keyId == keyId' && idemKey == idemKey'))
      && (|idemKey| >= 100 && |idemKey'| >= 100 ==> (same <==> keyId == keyId' && idemKey[..100] == idemKey'[..100]))
      && (|idemKey| <= 100 <= |idemKey'| ==> (same <==> keyId == keyId' && idemKey == idemKey'[..100]))
  {
    SamePartsExactly(keyId, idemKey, keyId', idemKey');
    hide RowKey;
  }

  lemma SamePartsExactly(keyId: string, idemKey: string, keyId': string, idemKey': string)
    requires ':' !in keyId && ':' !in keyId'
    ensures RowKey(keyId, idemKey) == RowKey(keyId', idemKey') <==>
      keyId == keyId' && Sliced(idemKey) == Sliced(idemKey')
  {
    var a, b := RowKey(keyId, idemKey), RowKey(keyId', idemKey');
    if a == b {
      NotShorter(keyId, Sliced(idemKey), keyId', Sliced(idemKey'));
      NotShorter(keyId', Sliced(idemKey'), keyId, Sliced(idemKey));
      assert a[..|keyId|] == keyId && b[..|keyId|] == keyId';
      assert a[|keyId| + 1..] == Sliced(idemKey) && b[|keyId| + 1..] == Sliced(idemKey');
    }
  }

  /** The first colon cannot come before the end of a prefix that has none. */
  lemma NotShorter(x: string, s: string, y: string, t: string)
    requires x + ":" + s == y + ":" + t && ':' !in y
    ensures |x| >= |y|
  {
    assert (x + ":" + s)[|x|] == ':';
    assert forall i | 0 <= i < |y| :: (y + ":" + t)[i] == y[i] != ':';
  }

  // ------------------------------------------------------------- the service

  datatype Outcome = Response(value: Json) | Mismatch | InProgress | RunError

  class KeyTable {
    /** Key rows by tenant and row key. */
    var rows: map<(string, string), KeyRow>
    /** How often `run` was started. */
    var started: nat

    constructor ()
      ensures rows == map[] && started == 0
    {
      rows, started := map[], 0;
    }

    /**
      `withIdempotency` without interference. `result` is what `run` returns, `None` when it throws; the
      delete and the update may fail silently. Without a header, with an empty one, or with a test key, `run` is
      just called.
    */
    method WithIdempotency(tenant: string, keyId: string, idemKey: Option<string>, testMode: bool, hash: string,
                           result: Option<Json>, deleted: bool, updated: bool) returns (r: Outcome)
      modifies this
      ensures idemKey.None? || idemKey.value == "" || testMode ==>
        && rows == old(rows) && started == old(started) + 1
        && r == (if result.Some? then Response(result.value) else RunError)
      ensures idemKey.Some? && idemKey.value != "" && !testMode ==>
        var k := (tenant, RowKey(keyId, idemKey.value));
        && rows - {k} == old(rows) - {k}
        && (k in old(rows) ==>
              && rows == old(rows) && started == old(started)
              && r == (if old(rows)[k].hash != hash then Mismatch
                       else if old(rows)[k].response.Some? then Response(old(rows)[k].response.value)
                       else InProgress))
        && (k !in old(rows) ==>
              && started == old(started) + 1
              && r == (if result.Some? then Response(result.value) else RunError)
              && (k !in rows <==> result.None? && deleted)
              && (k in rows ==> rows[k] == KeyRow(hash, if updated then result else None)))
    {
      if idemKey.None? || idemKey.value == "" || testMode {
        started := started + 1;
        return if result.Some? then Response(result.value) else RunError;
      }
      var k := (tenant, RowKey(keyId, idemKey.value));
      var reserved := false;
      if k !in rows {
        rows := rows[k := KeyRow(hash, None)];
        reserved := true;
      }
      if !reserved {
        var existing := rows[k];
        if existing.hash != hash { return Mismatch; }
        if existing.response.Some? { return Response(existing.response.value); }
        return InProgress;
      }
      started := started + 1;
      if result.None? {
        if deleted { rows := rows - {k}; }
        return RunError;
      }
      if updated { rows := rows[k := KeyRow(hash, result)]; }
      return Response(result.value);
    }
  }

  /**
    A request repeated with the same key. After a first run that succeeded, the second never runs: it gets the
    first response if its body is the same and the response was stored. After one that failed it runs again
    exactly if the key could be released. An empty key protects nothing: both run.
  */
  method Replay(table: KeyTable, tenant: string, keyId: string, idemKey: string, hash: string, hash': string,
                first: Option<Json>, second: Option<Json>, deleted: bool, updated: bool)
    returns (r1: Outcome, r2: Outcome)
    requires (tenant, RowKey(keyId, idemKey)) !in table.rows
    modifies table
    ensures idemKey == "" ==>
      && table.started == old(table.started) + 2
      && r2 == if second.Some? then Response(second.value) else RunError
    ensures r1 == if first.Some? then Response(first.value) else RunError
    ensures idemKey != "" && first.Some? ==>
      && table.started == old(table.started) + 1
      && r2 == if hash' != hash then Mismatch else if updated then Response(first.value) else InProgress
    ensures idemKey != "" && first.None? && deleted ==>
      && table.started == old(table.started) + 2
      && r2 == if second.Some? then Response(second.value) else RunError
    ensures idemKey != "" && first.None? && !deleted ==>
      && table.started == old(table.started) + 1
      && r2 == if hash' != hash then Mismatch else InProgress
  {
    r1 := table.WithIdempotency(tenant, keyId, Some(idemKey), false, hash, first, deleted, updated);
    r2 := table.WithIdempotency(tenant, keyId, Some(idemKey), false, hash', second, deleted, updated);
  }

  /**
    Two requests with different keys of at most 100 characters, or with different API keys, both run whatever
    their bodies, and the second leaves the row of the first as it was.
  */
  method DifferentKeys(table: KeyTable, tenant: string, keyId: string, idemKey: string, keyId': string,
                       idemKey': string, hash: string, hash': string, first: Option<Json>, second: Option<Json>,
                       deleted: bool, updated: bool)
    returns (r1: Outcome, r2: Outcome)
    requires ':' !in keyId && ':' !in keyId' && 1 <= |idemKey| <= 100 && 1 <= |idemKey'| <= 100
    requires keyId != keyId' || idemKey != idemKey'
    requires (tenant, RowKey(keyId, idemKey)) !in table.rows && (tenant, RowKey(keyId', idemKey')) !in table.rows
    modifies table
    ensures r1 == if first.Some? then Response(first.value) else RunError
    ensures r2 == if second.Some? then Response(second.value) else RunError
    ensures table.started == old(table.started) + 2
    ensures var k := (tenant, RowKey(keyId, idemKey));
      && (k in table.rows <==> first.Some? || !deleted)
      && (k in table.rows ==> table.rows[k] == KeyRow(hash, if updated then first else None))
  {
    hide RowKey;
    SameRowExactly(keyId, idemKey, keyId', idemKey');
    ghost var k, k' := (tenant, RowKey(keyId, idemKey)), (tenant, RowKey(keyId', idemKey'));
    assert k' !in table.rows - {k};
    r1 := table.WithIdempotency(tenant, keyId, Some(idemKey), false, hash, first, deleted, updated);
    assert k' !in table.rows - {k};
    ghost var rows := table.rows;
    assert k in rows - {k'} <==> k in rows;
    r2 := table.WithIdempotency(tenant, keyId', Some(idemKey'), false, hash', second, deleted, updated);
    assert k in table.rows - {k'} <==> k in table.rows;
  }
}
