/** The durable command ledger: idempotency keys with a time to live, acknowledgement nonces, and an event log. */
module Ledger {
  import opened Options

  datatype Status = DuplicateSkip | AckOk | SendFailed | AutoRollback | AutoRollbackFailed

  datatype CommandEvent = CommandEvent(ts: real, subject: string, commandId: string, key: string, status: Status)

  /** Expiry time by idempotency key. */
  type Keys = map<string, real>

  function Purged(keys: Keys, now: real): Keys {
    map k | k in keys && keys[k] >= now :: keys[k]
  }

  predicate Duplicate(keys: Keys, now: real, key: string) {
    key in Purged(keys, now)
  }

  class CommandLedger {
    var keys: Keys
    var nonces: map<string, int>
    var events: seq<CommandEvent>

    constructor ()
      ensures keys == map[] && nonces == map[] && events == []
    {
      keys, nonces, events := map[], map[], [];
    }

    method IsDuplicateIdempotencyKey(key: string, now: real) returns (duplicate: bool)
      modifies this`keys
      ensures keys == Purged(old(keys), now)
      ensures duplicate <==> Duplicate(old(keys), now, key)
    {
      var expired := set k | k in keys && keys[k] < now;
      keys := keys - expired;
      duplicate := key in keys;
    }

    method MarkIdempotencyKey(key: string, ttl: real, now: real)
      modifies this`keys
      ensures keys == old(keys)[key := now + ttl]
    {
      keys := keys[key := now + ttl];
    }

    method GetLastAckNonce(vehicle: string) returns (nonce: Option<int>)
      ensures nonce == if vehicle in nonces then Some(nonces[vehicle]) else None
    {
      nonce := if vehicle in nonces then Some(nonces[vehicle]) else None;
    }

    method UpdateLastAckNonce(vehicle: string, nonce: int)
      modifies this`nonces
      ensures nonces == old(nonces)[vehicle := nonce]
    {
      nonces := nonces[vehicle := nonce];
    }

    method AppendCommandEvent(event: CommandEvent)
      modifies this`events
      ensures events == old(events) + [event]
    {
      events := events + [event];
    }
  }

  // ---------- The purged table refines the full history ----------

  datatype KeyOp = Query(now: real, key: string) | Mark(now: real, key: string, ttl: real)

  /** The table as the ledger keeps it: every query first deletes what has expired. */
  function Table(ops: seq<KeyOp>): Keys {
    if ops == [] then map[]
    else
      var before := Table(ops[..|ops| - 1]);
      match ops[|ops| - 1]
      case Query(now, _) => Purged(before, now)
      case Mark(now, key, ttl) => before[key := now + ttl]
  }

  /** `i` is the last mark of the key in the whole history, nothing ever deleted. */
  ghost predicate LastMark(ops: seq<KeyOp>, i: nat, key: string) {
    && i < |ops| && ops[i].Mark? && ops[i].key == key
    && forall j | i < j < |ops| :: !(ops[j].Mark? && ops[j].key == key)
  }

  ghost predicate DuplicateInHistory(ops: seq<KeyOp>, now: real, key: string) {
    exists i: nat :: LastMark(ops, i, key) && ops[i].now + ops[i].ttl >= now
  }

  ghost predicate Sequential(ops: seq<KeyOp>, now: real) {
    && (forall i, j | 0 <= i < j < |ops| :: ops[i].now <= ops[j].now)
    && (forall i | 0 <= i < |ops| :: ops[i].now <= now)
  }

  /** An operation that does not mark the key leaves its last mark where it was. */
  lemma LastMarkStays(ops: seq<KeyOp>, op: KeyOp, key: string, i: nat)
    requires !(op.Mark? && op.key == key)
    ensures LastMark(ops + [op], i, key) <==> LastMark(ops, i, key)
  {
    assert forall j | 0 <= j < |ops| :: (ops + [op])[j] == ops[j];
  }

  lemma {:induction false} TableHoldsLastMarks(ops: seq<KeyOp>, now: real, key: string)
    requires Sequential(ops, now)
    ensures key in Table(ops) ==>
      exists i: nat :: LastMark(ops, i, key) && ops[i].now + ops[i].ttl == Table(ops)[key]
    ensures key !in Table(ops) ==> !DuplicateInHistory(ops, now, key)
  {
    if ops != [] {
      var n := |ops| - 1;
      var before, op := ops[..n], ops[n];
      assert ops == before + [op];
      TableHoldsLastMarks(before, op.now, key);
      if op.Mark? && op.key == key {
        assert LastMark(ops, n, key);
      } else {
        forall i: nat
          ensures LastMark(ops, i, key) <==> LastMark(before, i, key)
        {
          LastMarkStays(before, op, key, i);
        }
        LastMarkIsUnique(before, key);
        if key in Table(before) {
          var i: nat :| LastMark(before, i, key) && before[i].now + before[i].ttl == Table(before)[key];
          assert LastMark(ops, i, key);
        }
      }
    }
  }

  lemma LastMarkIsUnique(ops: seq<KeyOp>, key: string)
    ensures forall i: nat, j: nat :: LastMark(ops, i, key) && LastMark(ops, j, key) ==> i == j
  {
  }

  /** With a clock that never runs backwards, purging never changes an answer. */
  lemma PurgingIsInvisible(ops: seq<KeyOp>, now: real, key: string)
    requires Sequential(ops, now)
    ensures Duplicate(Table(ops), now, key) <==> DuplicateInHistory(ops, now, key)
  {
    TableHoldsLastMarks(ops, now, key);
    LastMarkIsUnique(ops, key);
  }
}
