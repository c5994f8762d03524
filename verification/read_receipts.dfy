/** The read-receipt batcher: ids of messages to mark as read collect in a pending set,
    a 500 ms debounce timer is re-armed on each new id, and one flush sends a single
    frame for the whole batch. The set is an insertion-ordered list without duplicates;
    the timer is its due time; the frames handed to the connection's `sendMessage` and
    the batch dispatches are logged in order. */
module ReadReceipts {
  import opened Common
  import opened ChatTypes
  import opened ChatSelectors

  const BatchDelay := 500

  /** The frame sent for a non-empty batch: `read_status` for one id, otherwise
      `batch_read_status` with all of them, in order. */
  function FlushFrame(ids: seq<Id>): (r: JsValue)
    requires ids != []
    ensures |ids| == 1 <==> GetProp(r, "type") == Some(Str("read_status"))
    ensures |ids| != 1 <==> GetProp(r, "type") == Some(Str("batch_read_status"))
    ensures |ids| == 1 ==> GetProp(GetProp(r, "payload").value, "messageId") == Some(Str(ids[0]))
    ensures |ids| != 1 ==> GetProp(GetProp(r, "payload").value, "messageIds") == Some(IdArray(ids))
  {
    var t := if |ids| == 1 then "read_status" else "batch_read_status";
    var payload := if |ids| == 1 then Obj([("messageId", Str(ids[0]))]) else Obj([("messageIds", IdArray(ids))]);
    FieldValueSmall("type", Str(t), "payload", payload, "type");
    FieldValueSmall("type", Str(t), "payload", payload, "payload");
    FieldValueSmall("messageId", if |ids| == 1 then Str(ids[0]) else Null, "", Null, "messageId");
    FieldValueSmall("messageIds", IdArray(ids), "", Null, "messageIds");
    Obj([("type", Str(t)), ("payload", payload)])
  }

  /** A list of ids as a JSON array of strings. */
  function IdArray(ids: seq<Id>): (r: JsValue)
    ensures r.Arr? && |r.items| == |ids|
    ensures forall i :: 0 <= i < |ids| ==> r.items[i] == Str(ids[i])
  {
    Arr(seq(|ids|, i requires 0 <= i < |ids| => Str(ids[i])))
  }

  /** The ids `markAllAsRead` queues: messages of someone else that are not yet read,
      in list order. */
  function UnreadIds(msgs: seq<Message>, currentUserId: Id): (r: seq<Id>)
    ensures |r| <= |msgs|
    ensures forall id :: id in r <==>
              exists k :: 0 <= k < |msgs| && msgs[k].id == id
                          && msgs[k].senderId != currentUserId && msgs[k].status != "read"
  {
    if msgs == [] then []
    else
      var last := msgs[|msgs| - 1];
      var init := UnreadIds(msgs[..|msgs| - 1], currentUserId);
      assert forall k :: 0 <= k < |msgs| - 1 ==> msgs[k] == msgs[..|msgs| - 1][k];
      if last.senderId != currentUserId && last.status != "read" then init + [last.id] else init
  }

  /** `ids.forEach(id => set.add(id))` on an insertion-ordered set. */
  function AddAll(p: seq<Id>, ids: seq<Id>): seq<Id> {
    if ids == [] then p else AppendIfAbsent(AddAll(p, ids[..|ids| - 1]), ids[|ids| - 1])
  }

  /** Adding to the set keeps what was there, in place, gains exactly the new ids, keeps
      the set duplicate-free, and grows it exactly when some id was not yet present. */
  lemma {:induction false} AddAllSpec(p: seq<Id>, ids: seq<Id>)
    ensures forall x :: x in AddAll(p, ids) <==> x in p || x in ids
    ensures |p| <= |AddAll(p, ids)| && AddAll(p, ids)[..|p|] == p
    ensures NoDup(p) ==> NoDup(AddAll(p, ids))
    ensures |AddAll(p, ids)| > |p| <==> exists k :: 0 <= k < |ids| && ids[k] !in p
  {
    if ids != [] {
      var init := ids[..|ids| - 1];
      AddAllSpec(p, init);
      var a := AddAll(p, init);
      assert forall x :: x in ids <==> x in init || x == ids[|ids| - 1];
    }
  }

  /** The batcher of `useReadMessages`. `pending` is the `pendingReads` set, `dueAt` the
      time the armed flush timer fires, `handle` whether `batchTimeout.current` is set;
      `frames` lists what was handed to `sendMessage` and `batches` the id lists given
      to the abstract `batchMarkMessagesAsRead` dispatch. */
  class ReadBatcher {
    var pending: seq<Id>
    var dueAt: Option<int>
    var handle: bool
    var frames: seq<JsValue>
    var batches: seq<seq<Id>>

    /** The pending set has no duplicates, an armed timer has its handle stored, and
        every flush sent exactly one frame for one non-empty batch. */
    ghost predicate Valid()
      reads this
    {
      && NoDup(pending)
      && (dueAt.Some? ==> handle)
      && |frames| == |batches|
      && (forall i :: 0 <= i < |batches| ==> batches[i] != [] && frames[i] == FlushFrame(batches[i]))
    }

    constructor ()
      ensures Valid()
      ensures pending == [] && dueAt == None && !handle && frames == [] && batches == []
    {
      pending := [];
      dueAt := None;
      handle := false;
      frames := [];
      batches := [];
    }

    /** `processBatchReads`: nothing happens for an empty set; otherwise one dispatch and
        one frame carry all pending ids, and the set is emptied. */
    method ProcessBatchReads()
      requires Valid()
      modifies this`pending, this`frames, this`batches
      ensures Valid()
      ensures old(pending) == [] ==> frames == old(frames) && batches == old(batches)
      ensures old(pending) != [] ==>
                && batches == old(batches) + [old(pending)]
                && frames == old(frames) + [FlushFrame(old(pending))]
      ensures pending == []
    {
      if |pending| == 0 {
        return;
      }
      var messageIds := pending;
      batches := batches + [messageIds];
      frames := frames + [FlushFrame(messageIds)];
      pending := [];
    }

    /** `scheduleBatchProcess`: any armed flush is replaced by one due 500 ms from now. */
    method ScheduleBatchProcess(now: int)
      requires Valid()
      modifies this`dueAt, this`handle
      ensures Valid()
      ensures dueAt == Some(now + BatchDelay) && handle
    {
      dueAt := Some(now + BatchDelay);
      handle := true;
    }

    /** `markAsRead`: an id already pending changes nothing and does not re-arm the
        timer; a new one joins the set and re-arms it. */
    method MarkAsRead(messageId: Id, now: int)
      requires Valid()
      modifies this`pending, this`dueAt, this`handle
      ensures Valid()
      ensures messageId in old(pending) ==> unchanged(this)
      ensures messageId !in old(pending) ==>
                pending == old(pending) + [messageId] && dueAt == Some(now + BatchDelay)
    {
      if messageId in pending {
        return;
      }
      pending := pending + [messageId];
      ScheduleBatchProcess(now);
    }

    /** The armed timer fires: the batch is flushed and the handle cleared. */
    method TimerFires()
      requires Valid()
      modifies this
      ensures Valid()
      ensures old(dueAt).None? ==> unchanged(this)
      ensures old(dueAt).Some? ==>
                && pending == [] && dueAt == None && !handle
                && (old(pending) == [] ==> frames == old(frames) && batches == old(batches))
                && (old(pending) != [] ==>
                      frames == old(frames) + [FlushFrame(old(pending))] && batches == old(batches) + [old(pending)])
    {
      if dueAt.None? {
        return;
      }
      ProcessBatchReads();
      dueAt := None;
      handle := false;
    }

    /** `markAllAsRead(conversationId)`: the unread messages of others in that
        conversation join the set; the timer is re-armed only when some id was new.
        Without a conversation id or a current user nothing happens. */
    method MarkAllAsRead(conversationId: Option<Id>, activeConversationId: Option<Id>,
                         currentUser: Option<Id>, messages: map<Id, seq<Message>>, now: int)
      requires Valid()
      modifies this`pending, this`dueAt, this`handle
      ensures Valid()
      ensures ConversationToMark(conversationId, activeConversationId).None? || currentUser.None? ==>
                unchanged(this)
      ensures ConversationToMark(conversationId, activeConversationId).Some? && currentUser.Some? ==>
                var ids := UnreadIds(SelectMessagesByConversationId(messages,
                             ConversationToMark(conversationId, activeConversationId).value), currentUser.value);
                && pending == AddAll(old(pending), ids)
                && ((exists k :: 0 <= k < |ids| && ids[k] !in old(pending)) ==> dueAt == Some(now + BatchDelay))
                && ((forall k :: 0 <= k < |ids| ==> ids[k] in old(pending)) ==>
                      dueAt == old(dueAt) && handle == old(handle))
    {
      var convId := ConversationToMark(conversationId, activeConversationId);
      if convId.None? || currentUser.None? {
        return;
      }
      var conversationMessages := SelectMessagesByConversationId(messages, convId.value);
      var unread := UnreadIds(conversationMessages, currentUser.value);
      var needsProcessing := false;
      var i := 0;
      while i < |unread|
        invariant 0 <= i <= |unread|
        invariant pending == AddAll(old(pending), unread[..i])
        invariant NoDup(pending)
        invariant needsProcessing <==> |pending| > |old(pending)|
        invariant dueAt == old(dueAt) && handle == old(handle)
      {
        assert unread[..i + 1][..i] == unread[..i];
        AddAllSpec(old(pending), unread[..i]);
        if unread[i] !in pending {
          pending := pending + [unread[i]];
          needsProcessing := true;
        }
        i := i + 1;
      }
      assert unread[..i] == unread;
      AddAllSpec(old(pending), unread);
      if needsProcessing && |pending| > 0 {
        ScheduleBatchProcess(now);
      }
    }

    /** The cleanup run when the active conversation changes or the hook unmounts: if a
        timer handle is stored, the timer is cancelled and a non-empty set is flushed at
        once. The handle itself is not cleared. */
    method Cleanup()
      requires Valid()
      modifies this`pending, this`frames, this`batches, this`dueAt
      ensures Valid()
      ensures !old(handle) ==> unchanged(this)
      ensures old(handle) ==>
                && dueAt == None && pending == [] && handle
                && (old(pending) == [] ==> frames == old(frames) && batches == old(batches))
                && (old(pending) != [] ==>
                      frames == old(frames) + [FlushFrame(old(pending))] && batches == old(batches) + [old(pending)])
    {
      if !handle {
        return;
      }
      dueAt := None;
      if |pending| > 0 {
        ProcessBatchReads();
      }
    }
  }

  /** `conversationId || activeConversation?.id`: an empty id counts as missing. */
  function ConversationToMark(conversationId: Option<Id>, activeConversationId: Option<Id>): (r: Option<Id>)
    ensures r.Some? ==> r.value != ""
    ensures conversationId.Some? && conversationId.value != "" ==> r == conversationId
    ensures (conversationId.None? || conversationId.value == "") ==>
              r == (if activeConversationId.Some? && activeConversationId.value != "" then activeConversationId else None)
  {
    if conversationId.Some? && conversationId.value != "" then conversationId
    else if activeConversationId.Some? && activeConversationId.value != "" then activeConversationId
    else None
  }
}
