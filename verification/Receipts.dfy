/** The messages table, and delivery receipts: how the socket's `messages.update` events move sent
    messages on. */
module Receipts {
  import opened Common
  import opened Shard

  datatype Status = QUEUED | PROCESSING | SENT | DELIVERED | READ | FAILED

  /** The fields of an outbound message that the workers go by. */
  datatype Message = Message(
    deviceId: DeviceId,
    workspaceId: nat,
    status: Status,
    sentAt: int,
    providerMessageId: Option<string>)

  /** One entry of an event; a key without a remote id has the empty one. */
  datatype Update = Update(fromMe: bool, remoteJid: string, keyId: string, status: Option<int>)

  const DIRECT_SUFFIX: string := "@s.whatsapp.net"

  predicate EndsWith(s: string, suffix: string) {
    |suffix| <= |s| && s[|s| - |suffix|..] == suffix
  }

  function Order(s: Status): nat {
    match s
    case SENT => 1
    case DELIVERED => 2
    case READ => 3
    case _ => 0
  }

  /** Baileys' codes: 3 is a delivery acknowledgement, 4 read, 5 played. */
  function NewStatus(u: Update): Option<Status> {
    if !u.fromMe || !EndsWith(u.remoteJid, DIRECT_SUFFIX) || u.keyId == "" || u.status.None? then None
    else if u.status.value == 3 then Some(DELIVERED)
    else if u.status.value == 4 || u.status.value == 5 then Some(READ)
    else None
  }

  /** `findFirst` of the table on the provider's id and the workspace. */
  function FindFirst(table: seq<Message>, keyId: string, workspaceId: nat): (r: Option<nat>)
    ensures r.Some? ==> r.value < |table|
    ensures r.Some? ==> table[r.value].providerMessageId == Some(keyId) && table[r.value].workspaceId == workspaceId
    ensures r.Some? ==> forall i | 0 <= i < r.value ::
      !(table[i].providerMessageId == Some(keyId) && table[i].workspaceId == workspaceId)
    ensures r.None? ==> forall i | 0 <= i < |table| ::
      !(table[i].providerMessageId == Some(keyId) && table[i].workspaceId == workspaceId)
    decreases |table|
  {
    if table == [] then None
    else if table[0].providerMessageId == Some(keyId) && table[0].workspaceId == workspaceId then Some(0)
    else
      var r := FindFirst(table[1..], keyId, workspaceId);
      assert forall i | 0 < i < |table| :: table[i] == table[1..][i - 1];
      if r.Some? then Some(r.value + 1) else None
  }

  /** What an update asks of row `i`; 0 is nothing. */
  function Asks(table: seq<Message>, workspaceId: nat, u: Update, i: nat): nat {
    if NewStatus(u).Some? && FindFirst(table, u.keyId, workspaceId) == Some(i) then Order(NewStatus(u).value) else 0
  }

  function Max(a: nat, b: nat): nat { if a >= b then a else b }

  /** The most any update asks of row `i`. */
  function MostAsked(table: seq<Message>, workspaceId: nat, updates: seq<Update>, i: nat): nat {
    if updates == [] then 0
    else Max(MostAsked(table, workspaceId, updates[..|updates| - 1], i),
             Asks(table, workspaceId, updates[|updates| - 1], i))
  }

  /** A status raised to an order, when that is higher. */
  function Raise(s: Status, order: nat): Status {
    if order <= Order(s) then s else if order == 2 then DELIVERED else READ
  }

  /** The table in which every row is raised to the most any update asked of it. */
  function Raised(table: seq<Message>, workspaceId: nat, updates: seq<Update>): (t: seq<Message>)
    ensures |t| == |table|
  {
    seq(|table|, i requires 0 <= i < |table| =>
      table[i].(status := Raise(table[i].status, MostAsked(table, workspaceId, updates, i))))
  }

  lemma {:induction false} AskedBound(table: seq<Message>, workspaceId: nat, updates: seq<Update>, i: nat)
    ensures MostAsked(table, workspaceId, updates, i) in {0, 2, 3}
  {
    if updates != [] {
      AskedBound(table, workspaceId, updates[..|updates| - 1], i);
    }
  }

  /** Only rows that carry a provider's id are asked anything. */
  lemma {:induction false} AskedOnlyIfSent(table: seq<Message>, workspaceId: nat, updates: seq<Update>, i: nat)
    requires i < |table| && table[i].providerMessageId.None?
    ensures MostAsked(table, workspaceId, updates, i) == 0
  {
    if updates != [] {
      AskedOnlyIfSent(table, workspaceId, updates[..|updates| - 1], i);
    }
  }

  lemma {:induction false} FindFirstSame(table: seq<Message>, other: seq<Message>, keyId: string, workspaceId: nat)
    requires |table| == |other|
    requires forall i | 0 <= i < |table| ::
      table[i].providerMessageId == other[i].providerMessageId && table[i].workspaceId == other[i].workspaceId
    ensures FindFirst(table, keyId, workspaceId) == FindFirst(other, keyId, workspaceId)
  {
  }

  lemma AsksSame(table: seq<Message>, other: seq<Message>, workspaceId: nat, u: Update, i: nat)
    requires |table| == |other|
    requires forall k | 0 <= k < |table| ::
      table[k].providerMessageId == other[k].providerMessageId && table[k].workspaceId == other[k].workspaceId
    ensures Asks(table, workspaceId, u, i) == Asks(other, workspaceId, u, i)
  {
    FindFirstSame(table, other, u.keyId, workspaceId);
  }

  lemma NothingAsked(table: seq<Message>, workspaceId: nat, i: nat)
    ensures MostAsked(table, workspaceId, [], i) == 0
  {
  }

  lemma AskedSnoc(table: seq<Message>, workspaceId: nat, updates: seq<Update>, u: Update, i: nat)
    ensures MostAsked(table, workspaceId, updates + [u], i)
         == Max(MostAsked(table, workspaceId, updates, i), Asks(table, workspaceId, u, i))
  {
    hide Asks;
    assert (updates + [u])[..|updates|] == updates;
  }

  /** One update moves the row it is about, when that is an advance. */
  lemma RaisedNext(table: seq<Message>, workspaceId: nat, updates: seq<Update>, u: Update)
    ensures var rows := Raised(table, workspaceId, updates);
      var found := FindFirst(rows, u.keyId, workspaceId);
      Raised(table, workspaceId, updates + [u])
      == if NewStatus(u).Some? && found.Some? && Order(rows[found.value].status) < Order(NewStatus(u).value)
         then rows[found.value := rows[found.value].(status := NewStatus(u).value)] else rows
  {
    hide FindFirst, MostAsked;
    var rows := Raised(table, workspaceId, updates);
    FindFirstSame(table, rows, u.keyId, workspaceId);
    forall i: nat | i < |table|
      ensures MostAsked(table, workspaceId, updates + [u], i)
           == Max(MostAsked(table, workspaceId, updates, i), Asks(table, workspaceId, u, i))
      ensures MostAsked(table, workspaceId, updates, i) in {0, 2, 3}
    {
      AskedSnoc(table, workspaceId, updates, u, i);
      AskedBound(table, workspaceId, updates, i);
    }
  }

  class MessageTable {
    var rows: seq<Message>

    constructor (rows: seq<Message>)
      ensures this.rows == rows
    {
      this.rows := rows;
    }

    /** The handler of one event on a socket of `workspaceId`. */
    method OnMessagesUpdate(updates: seq<Update>, workspaceId: nat)
      modifies this
      ensures rows == Raised(old(rows), workspaceId, updates)
    {
      assert rows == Raised(rows, workspaceId, updates[..0]);
      for n := 0 to |updates|
        invariant rows == Raised(old(rows), workspaceId, updates[..n])
      {
        hide Raised, FindFirst;
        var u := updates[n];
        RaisedNext(old(rows), workspaceId, updates[..n], u);
        assert updates[..n] + [u] == updates[..n + 1];
        var newStatus := NewStatus(u);
        if newStatus.Some? {
          var found := FindFirst(rows, u.keyId, workspaceId);
          if found.Some? && Order(rows[found.value].status) < Order(newStatus.value) {
            rows := rows[found.value := rows[found.value].(status := newStatus.value)];
          }
        }
      }
      assert updates[..|updates|] == updates;
    }
  }

  // ---------------------------------------------------------------- main results

  /** No receipt moves a status backwards, none touches a message before the write that marks it
      SENT, and a sent message ends at the maximum of its status and what was asked. */
  lemma ReceiptsOnlyAdvance(table: seq<Message>, workspaceId: nat, updates: seq<Update>, i: nat)
    requires i < |table|
    ensures var t := Raised(table, workspaceId, updates);
      && Order(t[i].status) == Max(Order(table[i].status), MostAsked(table, workspaceId, updates, i))
      && (table[i].providerMessageId.None? ==> t[i] == table[i])
      && (Order(table[i].status) == Order(t[i].status) ==> t[i] == table[i])
  {
    AskedBound(table, workspaceId, updates, i);
    if table[i].providerMessageId.None? {
      AskedOnlyIfSent(table, workspaceId, updates, i);
    }
  }

  lemma {:induction false} MostAskedIsMax(table: seq<Message>, workspaceId: nat, updates: seq<Update>, i: nat)
    ensures forall u | u in updates :: Asks(table, workspaceId, u, i) <= MostAsked(table, workspaceId, updates, i)
    ensures MostAsked(table, workspaceId, updates, i) > 0 ==>
      exists u :: u in updates && Asks(table, workspaceId, u, i) == MostAsked(table, workspaceId, updates, i)
  {
    if updates != [] {
      var n := |updates| - 1;
      MostAskedIsMax(table, workspaceId, updates[..n], i);
      assert updates == updates[..n] + [updates[n]];
      if MostAsked(table, workspaceId, updates, i) == Asks(table, workspaceId, updates[n], i) {
        assert updates[n] in updates;
      }
    }
  }

  /** One receipt, in the terms of its fields: it touches the first row with its key and workspace, when
      it is of a message of ours to a person; 3 makes that row DELIVERED unless it is already, or READ, and
      4 and 5 make it READ. */
  lemma OneReceipt(table: seq<Message>, workspaceId: nat, u: Update, i: nat)
    requires i < |table|
    ensures var t, n := Raised(table, workspaceId, [u]), |u.remoteJid|;
      var ours := u.fromMe && n >= 15 && u.remoteJid[n - 15..] == "@s.whatsapp.net" && u.keyId != "";
      var first := table[i].providerMessageId == Some(u.keyId) && table[i].workspaceId == workspaceId
                   && forall k | 0 <= k < i ::
                        table[k].providerMessageId != Some(u.keyId) || table[k].workspaceId != workspaceId;
      t[i] == if ours && first && u.status == Some(3) && table[i].status !in {DELIVERED, READ}
                then table[i].(status := DELIVERED)
              else if ours && first && u.status in {Some(4), Some(5)} then table[i].(status := READ)
              else table[i]
  {
    assert [u][..0] == [];
    NothingAsked(table, workspaceId, i);
    assert MostAsked(table, workspaceId, [u], i) == Asks(table, workspaceId, u, i);
    hide FindFirst, MostAsked;
  }

  /** Neither the order nor the repetition of receipts matters. */
  lemma OrderDoesNotMatter(table: seq<Message>, workspaceId: nat, updates: seq<Update>, others: seq<Update>)
    requires forall u :: u in updates <==> u in others
    ensures Raised(table, workspaceId, updates) == Raised(table, workspaceId, others)
  {
    forall i: nat | i < |table|
      ensures MostAsked(table, workspaceId, updates, i) == MostAsked(table, workspaceId, others, i)
    {
      MostAskedIsMax(table, workspaceId, updates, i);
      MostAskedIsMax(table, workspaceId, others, i);
    }
  }

  /** Handling one event after another is handling them at once. */
  lemma {:induction false} EventsAdd(table: seq<Message>, workspaceId: nat, updates: seq<Update>, more: seq<Update>)
    ensures Raised(Raised(table, workspaceId, updates), workspaceId, more) == Raised(table, workspaceId, updates + more)
  {
    forall i: nat | i < |table|
      ensures MostAsked(table, workspaceId, updates + more, i)
           == Max(MostAsked(table, workspaceId, updates, i),
                  MostAsked(Raised(table, workspaceId, updates), workspaceId, more, i))
    {
      AskedConcat(table, Raised(table, workspaceId, updates), workspaceId, updates, more, i);
      AskedBound(table, workspaceId, updates, i);
      AskedBound(Raised(table, workspaceId, updates), workspaceId, more, i);
    }
    forall i: nat | i < |table|
      ensures Raised(Raised(table, workspaceId, updates), workspaceId, more)[i]
           == Raised(table, workspaceId, updates + more)[i]
    {
      AskedBound(table, workspaceId, updates, i);
      AskedBound(Raised(table, workspaceId, updates), workspaceId, more, i);
    }
  }

  lemma {:induction false} AskedConcat(
    table: seq<Message>, other: seq<Message>, workspaceId: nat, updates: seq<Update>, more: seq<Update>, i: nat)
    requires |table| == |other|
    requires forall k | 0 <= k < |table| ::
      table[k].providerMessageId == other[k].providerMessageId && table[k].workspaceId == other[k].workspaceId
    ensures MostAsked(table, workspaceId, updates + more, i)
         == Max(MostAsked(table, workspaceId, updates, i), MostAsked(other, workspaceId, more, i))
  {
    hide FindFirst, Asks, MostAsked;
    NothingAsked(other, workspaceId, i);
    if more == [] {
      assert updates + more == updates;
    } else {
      var n := |more| - 1;
      AskedConcat(table, other, workspaceId, updates, more[..n], i);
      AskedSnoc(table, workspaceId, updates + more[..n], more[n], i);
      AskedSnoc(other, workspaceId, more[..n], more[n], i);
      assert updates + more == updates + more[..n] + [more[n]] && more == more[..n] + [more[n]];
      assert Asks(table, workspaceId, more[n], i) == Asks(other, workspaceId, more[n], i) by {
        AsksSame(table, other, workspaceId, more[n], i);
      }
    }
  }
}
