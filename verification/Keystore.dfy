/**
 The one record a browser keeps, written through transactions that commit in
 the order they were issued (or abort and change nothing), and the counter of
 how often this page load was told to forget it.
 */
module Keystore {
  import opened Base
  import opened Crypto
  import opened Accounts
  import opened EncryptionState

  /** Which page load issued a write, and the forget count its ceremony began under. */
  datatype Writer = Writer(page: nat, forgets: nat)

  /** The stored record. `writer` is history: nothing reads it. */
  datatype Record = Record(user: Account, dek: Dek, writer: Writer)

  datatype Op = Put(id: nat, record: Record) | Clear(id: nat, issuer: Writer)

  function IssuedBy(op: Op): Writer {
    match op
    case Put(_, record) => record.writer
    case Clear(_, issuer) => issuer
  }

  datatype Store = Store(record: Option<Record>, queue: seq<Op>, committed: set<nat>, nextOp: nat) {

    function Issued(op: Op): Store {
      this.(queue := queue + [op], nextOp := nextOp + 1)
    }

    /** The oldest transaction completes. */
    function Committed(): Store
      requires queue != []
    {
      this.(record := if queue[0].Put? then Some(queue[0].record) else None,
            committed := committed + {queue[0].id}, queue := queue[1..])
    }

    /** The oldest transaction fails and leaves no trace. */
    function Aborted(): Store
      requires queue != []
    {
      this.(queue := queue[1..])
    }

    /** The key stored for `user`; another account's record is never handed out. */
    function Found(user: Account): Option<Dek> {
      if record.Some? && record.value.user == user then Some(record.value.dek) else None
    }

    predicate Discards(user: Account) {
      record.Some? && record.value.user != user
    }

    /** Reading a record that is somebody else's also issues its removal. */
    function AfterGet(user: Account, reader: Writer): Store {
      if Discards(user) then Issued(Clear(nextOp, reader)) else this
    }

    predicate Settled(op: nat) {
      op < nextOp && forall i :: 0 <= i < |queue| ==> queue[i].id != op
    }
  }

  const EmptyStore := Store(None, [], {}, 0)

  class Forgets {
    var count: nat

    constructor ()
      ensures count == 0
    {
      count := 0;
    }

    method Record()
      modifies this
      ensures count == old(count) + 1
    {
      count := count + 1;
    }

    /** Any forget since a capture makes it stale, for good. */
    method StillCurrent(captured: nat) returns (yes: bool)
      ensures yes <==> captured == count
    {
      yes := captured == count;
    }
  }

  class Keystore {
    var record: Option<Record>
    var queue: seq<Op>
    var committed: set<nat>
    var nextOp: nat

    ghost function View(): Store
      reads this
    {
      Store(record, queue, committed, nextOp)
    }

    constructor ()
      ensures View() == EmptyStore
    {
      record, queue, committed, nextOp := None, [], {}, 0;
    }

    method PutIn(record: Record) returns (op: nat)
      modifies this`queue, this`nextOp
      ensures op == old(nextOp) && View() == old(View()).Issued(Put(op, record))
    {
      op := nextOp;
      queue := queue + [Put(op, record)];
      nextOp := nextOp + 1;
    }

    method DeleteFrom(issuer: Writer) returns (op: nat)
      modifies this`queue, this`nextOp
      ensures op == old(nextOp) && View() == old(View()).Issued(Clear(op, issuer))
    {
      op := nextOp;
      queue := queue + [Clear(op, issuer)];
      nextOp := nextOp + 1;
    }

    method GetFrom(user: Account, reader: Writer) returns (found: Option<Dek>)
      modifies this`queue, this`nextOp
      ensures found == old(View()).Found(user)
      ensures View() == old(View()).AfterGet(user, reader)
    {
      if record.None? {
        return None;
      }
      if record.value.user != user {
        var _ := DeleteFrom(reader);
        return None;
      }
      found := Some(record.value.dek);
    }

    method CompleteOldest()
      requires queue != []
      modifies this
      ensures View() == old(View()).Committed()
    {
      match queue[0]
      case Put(id, r) =>
        record, committed, queue := Some(r), committed + {id}, queue[1..];
      case Clear(id, _) =>
        record, committed, queue := None, committed + {id}, queue[1..];
    }

    method AbortOldest()
      requires queue != []
      modifies this`queue
      ensures View() == old(View()).Aborted()
    {
      queue := queue[1..];
    }
  }

  /** `SessionKey::remember`: nothing is issued once a forget has overtaken the ceremony. */
  method Remember(key: SessionKey, page: nat, forgets: Forgets, store: Keystore) returns (op: Option<nat>)
    modifies store
    ensures key.forgets != forgets.count ==> op.None? && store.View() == old(store.View())
    ensures key.forgets == forgets.count ==>
      && op == Some(old(store.nextOp))
      && store.View() == old(store.View()).Issued(Put(op.value, Record(key.user, key.dek, Writer(page, key.forgets))))
  {
    var current := forgets.StillCurrent(key.forgets);
    if !current {
      return None;
    }
    var n := store.PutIn(Record(key.user, key.dek, Writer(page, key.forgets)));
    op := Some(n);
  }

  /** `forget_device_key`: the count first, then the delete. */
  method ForgetDeviceKey(page: nat, forgets: Forgets, store: Keystore) returns (op: nat)
    modifies forgets, store
    ensures forgets.count == old(forgets.count) + 1
    ensures op == old(store.nextOp)
    ensures store.View() == old(store.View()).Issued(Clear(op, Writer(page, forgets.count)))
  {
    forgets.Record();
    op := store.DeleteFrom(Writer(page, forgets.count));
  }
}
