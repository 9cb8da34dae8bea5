/** The critical sections of queue.c on the fields of a queue object, one method for each step of the
  protocol. The message storage is in RingBuffer; here a queue is its counters and event lists. */
module SharedQueue {
  import opened EventList
  import opened QueueProtocol

  /** A waiting list once its first task, if it has one, has been woken. */
  function WithoutFirst(wait: seq<Task>): seq<Task> {
    if wait == [] then [] else wait[1..]
  }

  class Queue {
    const uxLength: nat
    var uxMessagesWaiting: nat
    var cRxLock: int
    var cTxLock: int
    var xTasksWaitingToReceive: seq<Task>
    var xTasksWaitingToSend: seq<Task>
    ghost var receiversWoken: set<Task>
    ghost var sendersWoken: set<Task>

    ghost predicate Represents(s: State)
      reads this
    {
      && s.length == uxLength && s.messages == uxMessagesWaiting
      && s.rx == Rx() && s.tx == Tx()
    }

    /** The receivers' side: cTxLock counts what was sent while the queue was locked. */
    ghost function Rx(): Side
      reads this
    {
      Side(cTxLock, xTasksWaitingToReceive, receiversWoken)
    }

    ghost function Tx(): Side
      reads this
    {
      Side(cRxLock, xTasksWaitingToSend, sendersWoken)
    }

    constructor (length: nat, messages: nat)
      requires 0 < length && messages <= length
      ensures Represents(Init(length, messages))
    {
      uxLength, uxMessagesWaiting := length, messages;
      cRxLock, cTxLock := UNLOCKED, UNLOCKED;
      xTasksWaitingToReceive, xTasksWaitingToSend := [], [];
      receiversWoken, sendersWoken := {}, {};
    }

    method RemoveFromWaitingToReceive() returns (t: Task)
      requires xTasksWaitingToReceive != []
      modifies this`xTasksWaitingToReceive, this`receiversWoken
      ensures t == old(xTasksWaitingToReceive)[0] && Rx() == WakeOne(old(Rx()))
    {
      t := xTasksWaitingToReceive[0];
      xTasksWaitingToReceive, receiversWoken := xTasksWaitingToReceive[1..], receiversWoken + {t};
    }

    method RemoveFromWaitingToSend() returns (t: Task)
      requires xTasksWaitingToSend != []
      modifies this`xTasksWaitingToSend, this`sendersWoken
      ensures t == old(xTasksWaitingToSend)[0] && Tx() == WakeOne(old(Tx()))
    {
      t := xTasksWaitingToSend[0];
      xTasksWaitingToSend, sendersWoken := xTasksWaitingToSend[1..], sendersWoken + {t};
    }

    method LockQueue(ghost s: State, ghost t: Task)
      requires Represents(s) && Enabled(s, Step.LockQueue(t))
      modifies this`cRxLock, this`cTxLock
      ensures Represents(Next(s, Step.LockQueue(t)))
    {
      if cRxLock == UNLOCKED { cRxLock := 0; }
      if cTxLock == UNLOCKED { cTxLock := 0; }
    }

    /** The first critical section of prvUnlockQueue. */
    method UnlockTx(ghost s: State, ghost t: Task)
      requires Represents(s) && Enabled(s, Step.UnlockTx(t))
      modifies this`cTxLock, this`xTasksWaitingToReceive, this`receiversWoken
      ensures Represents(Next(s, Step.UnlockTx(t)))
    {
      var lock := cTxLock;
      while lock > 0
        invariant Unlock(Rx().(lock := lock)) == Unlock(old(Rx()))
      {
        if xTasksWaitingToReceive == [] { break; }
        var _ := RemoveFromWaitingToReceive();
        lock := lock - 1;
      }
      cTxLock := UNLOCKED;
    }

    /** The second critical section of prvUnlockQueue. */
    method UnlockRx(ghost s: State, ghost t: Task)
      requires Represents(s) && Enabled(s, Step.UnlockRx(t))
      modifies this`cRxLock, this`xTasksWaitingToSend, this`sendersWoken
      ensures Represents(Next(s, Step.UnlockRx(t)))
    {
      var lock := cRxLock;
      while lock > 0
        invariant Unlock(Tx().(lock := lock)) == Unlock(old(Tx()))
      {
        if xTasksWaitingToSend == [] { break; }
        var _ := RemoveFromWaitingToSend();
        lock := lock - 1;
      }
      cRxLock := UNLOCKED;
    }

    /** The critical section at the top of the loop of xQueueGenericSend. */
    method TrySend(overwrite: bool, blockTime: bool, ghost s: State, ghost t: Task)
        returns (sent: bool, returned: bool)
      requires Represents(s) && Enabled(s, Loop(t, blockTime)) && PcOf(s, t) == Top(Send(overwrite))
      modifies this`uxMessagesWaiting, this`xTasksWaitingToReceive, this`receiversWoken, this`sendersWoken
      ensures Represents(Next(s, Loop(t, blockTime)))
      ensures sent <==> old(uxMessagesWaiting) < uxLength || overwrite
      ensures returned <==> sent || !blockTime
      ensures returned <==> PcOf(Next(s, Loop(t, blockTime)), t) == Out
      ensures uxMessagesWaiting == old(uxMessagesWaiting)
        + if sent && (old(uxMessagesWaiting) == 0 || !overwrite) then 1 else 0
      ensures xTasksWaitingToReceive
        == if sent then WithoutFirst(old(xTasksWaitingToReceive)) else old(xTasksWaitingToReceive)
    {
      sendersWoken := sendersWoken - {t};
      sent := uxMessagesWaiting < uxLength || overwrite;
      if sent {
        CopyDataToQueue(overwrite);
        if xTasksWaitingToReceive != [] { var _ := RemoveFromWaitingToReceive(); }
      }
      returned := sent || !blockTime;
    }

    /** What prvCopyDataToQueue does to the count. */
    method CopyDataToQueue(overwrite: bool)
      modifies this`uxMessagesWaiting
      ensures uxMessagesWaiting ==
        old(if overwrite && uxMessagesWaiting > 0 then uxMessagesWaiting else uxMessagesWaiting + 1)
    {
      var messages := uxMessagesWaiting;
      if overwrite && messages > 0 { messages := messages - 1; }
      uxMessagesWaiting := messages + 1;
    }

    /** The critical section at the top of the loop of xQueueReceive and xQueueSemaphoreTake. */
    method TryReceive(blockTime: bool, ghost s: State, ghost t: Task) returns (received: bool, returned: bool)
      requires Represents(s) && Enabled(s, Loop(t, blockTime)) && PcOf(s, t) == Top(Kind.Receive)
      modifies this`uxMessagesWaiting, this`xTasksWaitingToSend, this`receiversWoken, this`sendersWoken
      ensures Represents(Next(s, Loop(t, blockTime)))
      ensures received <==> old(uxMessagesWaiting) > 0
      ensures returned <==> received || !blockTime
      ensures returned <==> PcOf(Next(s, Loop(t, blockTime)), t) == Out
      ensures uxMessagesWaiting == old(uxMessagesWaiting) - if received then 1 else 0
      ensures xTasksWaitingToSend
        == if received then WithoutFirst(old(xTasksWaitingToSend)) else old(xTasksWaitingToSend)
    {
      receiversWoken := receiversWoken - {t};
      received := uxMessagesWaiting > 0;
      if received {
        uxMessagesWaiting := uxMessagesWaiting - 1;
        if xTasksWaitingToSend != [] { var _ := RemoveFromWaitingToSend(); }
      }
      returned := received || !blockTime;
    }

    /** The critical section at the top of the loop of xQueuePeek: the message stays, so another receiver is
      woken for it. */
    method TryPeek(blockTime: bool, ghost s: State, ghost t: Task) returns (seen: bool, returned: bool)
      requires Represents(s) && Enabled(s, Loop(t, blockTime)) && PcOf(s, t) == Top(Kind.Peek)
      modifies this`xTasksWaitingToReceive, this`receiversWoken
      ensures Represents(Next(s, Loop(t, blockTime)))
      ensures seen <==> uxMessagesWaiting > 0
      ensures returned <==> seen || !blockTime
      ensures returned <==> PcOf(Next(s, Loop(t, blockTime)), t) == Out
      ensures xTasksWaitingToReceive
        == if seen then WithoutFirst(old(xTasksWaitingToReceive)) else old(xTasksWaitingToReceive)
    {
      receiversWoken := receiversWoken - {t};
      seen := uxMessagesWaiting > 0;
      if seen && xTasksWaitingToReceive != [] { var _ := RemoveFromWaitingToReceive(); }
      returned := seen || !blockTime;
    }

    method SendFromISR(overwrite: bool, ghost s: State) returns (sent: bool)
      requires Represents(s) && Enabled(s, Step.SendFromISR(overwrite))
      modifies this`uxMessagesWaiting, this`cTxLock, this`xTasksWaitingToReceive, this`receiversWoken
      ensures Represents(Next(s, Step.SendFromISR(overwrite)))
      ensures sent <==> old(uxMessagesWaiting) < uxLength || overwrite
      ensures uxMessagesWaiting == old(uxMessagesWaiting)
        + if sent && (old(uxMessagesWaiting) == 0 || !overwrite) then 1 else 0
      ensures xTasksWaitingToReceive == if sent && old(cTxLock) == UNLOCKED
        then WithoutFirst(old(xTasksWaitingToReceive)) else old(xTasksWaitingToReceive)
      ensures cTxLock == if sent && old(cTxLock) != UNLOCKED then Int8(old(cTxLock) + 1) else old(cTxLock)
    {
      sent := uxMessagesWaiting < uxLength || overwrite;
      if sent {
        var lock := cTxLock;
        CopyDataToQueue(overwrite);
        if lock != UNLOCKED {
          cTxLock := Int8(lock + 1);
        } else if xTasksWaitingToReceive != [] {
          var _ := RemoveFromWaitingToReceive();
        }
      }
    }

    method ReceiveFromISR(ghost s: State) returns (received: bool)
      requires Represents(s) && Enabled(s, Step.ReceiveFromISR)
      modifies this`uxMessagesWaiting, this`cRxLock, this`xTasksWaitingToSend, this`sendersWoken
      ensures Represents(Next(s, Step.ReceiveFromISR))
      ensures received <==> old(uxMessagesWaiting) > 0
      ensures uxMessagesWaiting == old(uxMessagesWaiting) - if received then 1 else 0
      ensures xTasksWaitingToSend == if received && old(cRxLock) == UNLOCKED
        then WithoutFirst(old(xTasksWaitingToSend)) else old(xTasksWaitingToSend)
      ensures cRxLock == if received && old(cRxLock) != UNLOCKED then Int8(old(cRxLock) + 1) else old(cRxLock)
    {
      received := uxMessagesWaiting > 0;
      if received {
        var lock := cRxLock;
        uxMessagesWaiting := uxMessagesWaiting - 1;
        if lock != UNLOCKED {
          cRxLock := Int8(lock + 1);
        } else if xTasksWaitingToSend != [] {
          var _ := RemoveFromWaitingToSend();
        }
      }
    }

    /** xQueueGenericReset of a queue in use. */
    method GenericReset(ghost s: State, ghost t: Task)
      requires Represents(s) && Enabled(s, Reset(t))
      modifies this`uxMessagesWaiting, this`cRxLock, this`cTxLock, this`xTasksWaitingToSend, this`sendersWoken
      ensures Represents(Next(s, Reset(t)))
    {
      uxMessagesWaiting, cRxLock, cTxLock := 0, UNLOCKED, UNLOCKED;
      if xTasksWaitingToSend != [] { var _ := RemoveFromWaitingToSend(); }
    }
  }
}
