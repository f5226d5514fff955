/** models.py: the record one synchronization keeps of itself. */
module SyncRuns {
  datatype SyncKind = Initial | Incremental
  datatype SyncStatus = Running | Succeeded | Failed

  class SyncRun {
    var kind: SyncKind
    var status: SyncStatus
    var messagesSeen: nat
    var messagesCreated: nat
    var messagesUpdated: nat

    constructor (kind: SyncKind)
      ensures this.kind == kind && status == Running && Balanced()
    {
      this.kind, status := kind, Running;
      messagesSeen, messagesCreated, messagesUpdated := 0, 0, 0;
    }

    /** All but `open` of the messages seen have been counted as created or updated. */
    ghost predicate Counted(open: nat)
      reads this
    {
      messagesSeen == messagesCreated + messagesUpdated + open
    }

    ghost predicate Balanced()
      reads this
    {
      Counted(0)
    }

    method Record(created: bool)
      requires Counted(1)
      modifies this`messagesCreated, this`messagesUpdated
      ensures Counted(0)
      ensures messagesCreated == old(messagesCreated) + if created then 1 else 0
    {
      if created {
        messagesCreated := messagesCreated + 1;
      } else {
        messagesUpdated := messagesUpdated + 1;
      }
    }

    method Count(created: bool)
      requires Balanced()
      modifies this`messagesSeen, this`messagesCreated, this`messagesUpdated
      ensures Balanced() && messagesSeen == old(messagesSeen) + 1
      ensures messagesCreated == old(messagesCreated) + if created then 1 else 0
    {
      messagesSeen := messagesSeen + 1;
      Record(created);
    }
  }
}
