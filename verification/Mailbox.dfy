/** The mailbox calls as they search, match and dispose step by step. */
module Mailbox {
  import opened Basics
  import opened WaitQueue
  import opened MailboxSpec
  import opened MailboxRuns

  /** `mbox_message_match`: test both sides, then fill in the receiver's descriptor. */
  method MessageMatch(l: Letter, w: Want) returns (ok: bool, h: Held)
    ensures ok == Compatible(l, w)
    ensures ok ==> h == Match(l, w)
  {
    h := Held(l.id, w.size, w.info, Null, Null, l.from, l.sync, w);
    if !((l.target == Any || l.target == Is(w.me)) && (w.source == Any || w.source == Is(l.from))) {
      return false, h;
    }
    h := h.(info := l.info);
    if h.size > l.size {
      h := h.(size := l.size);
    }
    h := h.(data := l.data, block := l.block);
    if h.data.Mem? {
      h := h.(block := Null);
    } else if h.block.Mem? {
      h := h.(data := h.block);
    }
    ok := true;
  }

  class Mbox {
    var tx: seq<Waiter<Letter>>
    var rx: seq<Waiter<Want>>
    const pool: set<Tid>
    /** The stack of unused dummies, top last. */
    var free: seq<Tid>
    /** Receive descriptors whose message has not been disposed of. */
    var held: map<nat, Held>
    ghost var sent: map<nat, Letter>
    ghost var done: seq<Done>
    ghost var withdrawn: set<nat>
    ghost var freed: seq<nat>
    ghost var given: seq<nat>

    ghost function View(): State
      reads this
    {
      State(tx, rx, pool, free, held, sent, done, withdrawn, freed, given)
    }

    constructor (dummies: seq<Tid>)
      ensures View() == Init(dummies)
    {
      tx, rx, held := [], [], map[];
      pool := set t | t in dummies;
      free := dummies;
      sent, done, withdrawn, freed, given := map[], [], {}, [], [];
    }

    method MessagePut(prio: int, l: Letter, wait: Wait) returns (r: Code)
      modifies this
      ensures (View(), r) == Put(old(View()), prio, l, wait)
      ensures r.Matched? <==> exists v :: v in old(rx) && Compatible(l, v.data)
      ensures r.Enomsg? ==> wait.NoWait? && View() == old(View())
    {
      var i := 0;
      while i < |rx|
        invariant 0 <= i <= |rx| && View() == old(View())
        invariant forall j | 0 <= j < i :: !Compatible(l, rx[j].data)
      {
        var ok, h := MessageMatch(l, rx[i].data);
        if ok {
          assert FirstRx(rx, l) == i;
          held := held[rx[i].data.desc := h];
          rx := Without(rx, rx[i].tid);
          sent := sent[l.id := l];
          return Matched;
        }
        i := i + 1;
      }
      if wait.NoWait? {
        return Enomsg;
      }
      tx := Add(tx, Waiter(l.sync, prio, l));
      sent := sent[l.id := l];
      r := Queued;
    }

    /** `k_mbox_async_put`: pop a dummy and send in its name. */
    method AsyncMessagePut(prio: int, l: Letter) returns (r: Code)
      requires free != []
      modifies this
      ensures (View(), r) == AsyncPut(old(View()), prio, l)
    {
      var dummy := free[|free| - 1];
      free := free[..|free| - 1];
      r := MessagePut(prio, l.(sync := dummy), MayWait);
    }

    method MessageDispose(d: nat)
      modifies this
      ensures View() == if d in old(held) then Dispose(old(View()), d) else old(View())
    {
      if d !in held {
        return;
      }
      var h := held[d];
      if h.block.Mem? {
        freed := freed + [h.id];
      }
      held := held - {d};
      done := done + [Done(h.id, h.sync, h.want.me, h.want.info, h.size)];
      if h.sync in pool {
        free := free + [h.sync];
      }
    }

    /** `k_mbox_data_get`; the result is what went into the buffer. */
    method DataGetInto(d: nat, buffer: bool) returns (copy: seq<byte>)
      requires d in held && held[d].data.Mem? ==> held[d].size <= |held[d].data.bytes|
      modifies this
      ensures View() == DataGet(old(View()), d, buffer)
      ensures d in old(held) && buffer ==> copy == Copied(old(held)[d])
    {
      copy := [];
      if !buffer {
        if d in held {
          held := held[d := held[d].(size := 0)];
        }
        MessageDispose(d);
        return;
      }
      if d in held && held[d].data.Mem? && held[d].size > 0 {
        copy := held[d].data.bytes[..held[d].size];
      }
      MessageDispose(d);
    }

    /** `k_mbox_data_block_get`; the results are whether the call succeeded and what is in the block. */
    method DataBlockGet(d: nat, withPool: bool, gotBlock: bool) returns (ok: bool, contents: seq<byte>)
      requires d in held && held[d].data.Mem? ==> held[d].size <= |held[d].data.bytes|
      modifies this
      ensures View() == BlockGet(old(View()), d, withPool, gotBlock)
      ensures ok <==> !withPool || (d in old(held) && old(held)[d].block.Mem?) || gotBlock
      ensures ok && withPool && d in old(held) ==>
                var h := old(held)[d];
                contents == if h.block.Mem? then h.block.bytes else Copied(h)
    {
      contents := [];
      if !withPool {
        contents := DataGetInto(d, false);
        return true, [];
      }
      if d in held && held[d].block.Mem? {
        contents := held[d].block.bytes;
        given := given + [held[d].id];
        held := held[d := held[d].(block := Null)];
        MessageDispose(d);
        return true, contents;
      }
      if !gotBlock {
        return false, [];
      }
      contents := DataGetInto(d, true);
      ok := true;
    }

    /** `mbox_message_data_check`; the result is what went into the receiver's buffer, if it gave one. */
    method MessageDataCheck(d: nat) returns (copy: seq<byte>)
      requires d in held && (held[d].data.Mem? ==> held[d].size <= |held[d].data.bytes|)
      modifies this
      ensures View() == Check(old(View()), d)
      ensures copy == if old(held)[d].want.buffer then Copied(old(held)[d]) else []
    {
      copy := [];
      if held[d].want.buffer {
        copy := DataGetInto(d, true);
      } else if held[d].size == 0 {
        MessageDispose(d);
      }
    }

    /** `k_mbox_get` up to where it waits; `copy` is what went into the receiver's buffer. */
    method GetMessage(prio: int, w: Want, wait: Wait) returns (r: Code, copy: seq<byte>)
      requires forall v | v in tx :: Proper(v.data)
      modifies this
      ensures (View(), r) == Get(old(View()), prio, w, wait)
      ensures r.Matched? <==> exists v :: v in old(tx) && Compatible(v.data, w)
      ensures r.Matched? && w.buffer ==>
                copy == Promised(old(tx)[FirstTx(old(tx), w)].data, w)
      ensures !r.Matched? || !w.buffer ==> copy == []
    {
      copy := [];
      var i := 0;
      while i < |tx|
        invariant 0 <= i <= |tx| && View() == old(View())
        invariant forall j | 0 <= j < i :: !Compatible(tx[j].data, w)
      {
        var ok, h := MessageMatch(tx[i].data, w);
        if ok {
          assert FirstTx(tx, w) == i && tx[i] in tx;
          tx := Without(tx, tx[i].tid);
          held := held[w.desc := h];
          copy := MessageDataCheck(w.desc);
          return Matched, copy;
        }
        i := i + 1;
      }
      if wait.NoWait? {
        return Enomsg, [];
      }
      rx := Add(rx, Waiter(w.me, prio, w));
      r := Queued;
    }
  }
}
