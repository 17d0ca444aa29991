/**
 The broker's two persisted documents (MessageBroker/MessageBroker/Controllers/MessageController.cs):
 the list of all pending messages ("messages.json") and the cursor table
 ("sequence_tracker.json"), each written with the backup-swap protocol of
 module Store and read back when the controller starts.
 */
module Persistence {
  import opened Wrappers
  import opened Contract
  import opened ChannelQueue
  import opened Broker
  import opened Store

  const MessagePaths := Paths("messages.json", "messages_backup.json")
  const SequencePaths := Paths("sequence_tracker.json", "sequence_tracker_backup.json")

  type MessageDisk = Disk<seq<Message>>
  type SequenceDisk = Disk<map<string, int32>>

  /** One message of the loaded list enqueued on its channel, creating the queue on first use. */
  function Enqueue(queues: map<string, PQueue>, m: Message): map<string, PQueue>
  {
    queues[KeyOf(m) := Insert(QueueIn(queues, KeyOf(m)), m)]
  }

  /** The queues hold, channel by channel, exactly the messages of `list`. */
  ghost predicate Groups(queues: map<string, PQueue>, list: seq<Message>)
  {
    forall key, x :: multiset(QueueIn(queues, key))[x] == if KeyOf(x) == key then multiset(list)[x] else 0
  }

  lemma EnqueueGroups(queues: map<string, PQueue>, list: seq<Message>, m: Message)
    requires Groups(queues, list)
    ensures Groups(Enqueue(queues, m), list + [m])
  {
    assert multiset(list + [m]) == multiset(list) + multiset{m};
    forall key, x ensures multiset(QueueIn(Enqueue(queues, m), key))[x] ==
      if KeyOf(x) == key then multiset(list + [m])[x] else 0
    {
      EnqueueCount(queues, m, key, x);
    }
  }

  /** Enqueueing `m` adds one copy of it to its own channel and nothing anywhere else. */
  lemma EnqueueCount(queues: map<string, PQueue>, m: Message, key: string, x: Message)
    ensures multiset(QueueIn(Enqueue(queues, m), key))[x] ==
      multiset(QueueIn(queues, key))[x] + if key == KeyOf(m) && x == m then 1 else 0
  {
    if key == KeyOf(m) {
      assert multiset(QueueIn(Enqueue(queues, m), key)) == multiset(QueueIn(queues, key)) + multiset{m};
    } else {
      assert QueueIn(Enqueue(queues, m), key) == QueueIn(queues, key);
    }
  }

  /**
   Load's regrouping: each message, in list order, is enqueued on the channel
   its own producerId and consumerId name.
   */
  function Regroup(list: seq<Message>): (r: map<string, PQueue>)
    ensures Groups(r, list)
    decreases |list|
  {
    if |list| == 0 then map[]
    else
      var init := list[..|list| - 1];
      var m := list[|list| - 1];
      assert list == init + [m];
      EnqueueGroups(Regroup(init), init, m);
      Enqueue(Regroup(init), m)
  }

  /** How a file's contents become queues; `None` is the exception that stops the controller from starting. */
  function DecodeMessages(f: Option<File<seq<Message>>>): Option<map<string, PQueue>>
  {
    match f
    case None => Some(map[])
    case Some(Blank) => Some(map[])
    case Some(Corrupt) => None
    case Some(Doc(list)) => Some(Regroup(list))
  }

  /** `LoadMessages`: no exception handler, so an unreadable document is a failed start. */
  function LoadMessages(disk: MessageDisk): (r: Option<map<string, PQueue>>)
    ensures Read(disk, MessagePaths) == Some(Corrupt) <==> r.None?
    ensures Read(disk, MessagePaths) in {None, Some(Blank)} ==> r == Some(map[])
  {
    DecodeMessages(Read(disk, MessagePaths))
  }

  /** How a file's contents become the cursor table; the exception handler turns a bad file into an empty table. */
  function DecodeCursors(f: Option<File<map<string, int32>>>): map<string, int32>
  {
    match f
    case Some(Doc(cursors)) => cursors
    case _ => map[]
  }

  /** `LoadSequenceTracker`. */
  function LoadSequenceTracker(disk: SequenceDisk): (r: map<string, int32>)
    ensures !(Read(disk, SequencePaths).Some? && Read(disk, SequencePaths).value.Doc?) ==> r == map[]
  {
    DecodeCursors(Read(disk, SequencePaths))
  }

  /** The controller's static initialisation: both documents are loaded when the class is first used. */
  function Restart(messages: MessageDisk, sequences: SequenceDisk): Option<State>
  {
    match LoadMessages(messages)
    case None => None
    case Some(queues) => Some(State(queues, LoadSequenceTracker(sequences)))
  }

  /**
   `SaveMessages`' snapshot: every queue's messages, one channel after another
   in the dictionary's (unspecified) order, then stably sorted by sequenceId.
   */
  method Snapshot(queues: map<string, PQueue>) returns (list: PQueue)
    ensures forall m :: m in list ==> exists key :: key in queues && m in queues[key]
    ensures OnOwnChannels(queues) ==>
      forall x :: multiset(list)[x] == multiset(QueueIn(queues, KeyOf(x)))[x]
  {
    list := [];
    var keys := queues.Keys;
    while keys != {}
      invariant keys <= queues.Keys
      invariant forall m :: m in list ==> exists key :: key in queues && m in queues[key]
      invariant OnOwnChannels(queues) ==>
        forall x :: multiset(list)[x] == if KeyOf(x) in queues && KeyOf(x) !in keys then multiset(queues[KeyOf(x)])[x] else 0
      decreases keys
    {
      var key :| key in keys;
      var next := InsertAll(list, queues[key]);
      forall m | m in next ensures exists k :: k in queues && m in queues[k] {
        assert m in multiset(next);
        if m !in list {
          assert m in queues[key];
        }
      }
      if OnOwnChannels(queues) {
        forall x ensures multiset(next)[x] ==
          if KeyOf(x) in queues && KeyOf(x) !in keys - {key} then multiset(queues[KeyOf(x)])[x] else 0
        {
          if KeyOf(x) != key {
            assert x !in queues[key];
          }
        }
      }
      list := next;
      keys := keys - {key};
    }
  }

  /**
   Save-then-load gives back every channel's queue exactly, provided each
   queue held one message per sequenceId and only its own channel's messages.
   */
  lemma RegroupSnapshot(b: State, list: seq<Message>)
    requires Valid(b)
    requires forall x :: multiset(list)[x] == multiset(QueueAt(b, KeyOf(x)))[x]
    ensures forall key :: QueueIn(Regroup(list), key) == QueueAt(b, key)
  {
    var r := Regroup(list);
    forall key ensures QueueIn(r, key) == QueueAt(b, key) {
      forall x ensures multiset(QueueIn(r, key))[x] == multiset(QueueAt(b, key))[x] {
        if KeyOf(x) != key {
          assert x !in QueueAt(b, key);
        }
      }
      assert multiset(QueueIn(r, key)) == multiset(QueueAt(b, key));
      OrderedDetermined(QueueIn(r, key), QueueAt(b, key));
    }
  }

  /**
   `SaveMessages` followed by `LoadMessages`: a completed save restores every
   queue; when a primary file exists, a save that stops after its copy step,
   or while writing, restores the queues of the old primary or of the new
   snapshot.
   */
  method SaveMessages(disk: MessageDisk, b: State, run: SaveRun) returns (list: PQueue, disk': MessageDisk)
    ensures disk' == Save(disk, MessagePaths, list, run)
    ensures forall m :: m in list ==> exists key :: key in b.queues && m in b.queues[key]
    ensures OnOwnChannels(b.queues) ==> forall x :: multiset(list)[x] == multiset(QueueAt(b, KeyOf(x)))[x]
    ensures run == Completes && Valid(b) ==>
      LoadMessages(disk').Some? && forall key :: QueueIn(LoadMessages(disk').value, key) == QueueAt(b, key)
    ensures MessagePaths.primary in disk && !run.TornCopy? && run != CrashAfter(0) ==>
      LoadMessages(disk') in {DecodeMessages(Some(disk[MessagePaths.primary])), Some(Regroup(list))}
    ensures MessagePaths.primary in disk && !run.TornCopy? && run != CrashAfter(0) && Valid(b) ==>
      || LoadMessages(disk') == DecodeMessages(Some(disk[MessagePaths.primary]))
      || (LoadMessages(disk').Some? && forall key :: QueueIn(LoadMessages(disk').value, key) == QueueAt(b, key))
  {
    list := Snapshot(b.queues);
    disk' := Save(disk, MessagePaths, list, run);
    if Valid(b) {
      RegroupSnapshot(b, list);
    }
    if run == Completes && Valid(b) {
      SaveCompletes(disk, MessagePaths, list);
    }
    if MessagePaths.primary in disk && !run.TornCopy? && run != CrashAfter(0) {
      CrashReadsOldOrNew(disk, MessagePaths, list, run);
    }
  }

  /**
   Two interrupted message saves in a row make the controller fail to start:
   after a torn write the committed list still loads from the backup, but a
   second save that stops after its copy step and before its delete leaves
   only unparsable text for `LoadMessages`.
   */
  lemma TwoCrashesPreventStartup(list0: seq<Message>, list1: seq<Message>, list2: seq<Message>,
                                 second: SaveRun, sequences: SequenceDisk)
    requires second == CrashAfter(1) || second == CrashAfter(2) || second == TornWrite(false)
    ensures var first := Save(map[MessagePaths.primary := Doc(list0)], MessagePaths, list1, TornWrite(false));
      && LoadMessages(first) == Some(Regroup(list0))
      && LoadMessages(Save(first, MessagePaths, list2, second)) == None
      && Restart(Save(first, MessagePaths, list2, second), sequences) == None
  {
    TornWriteThenCopyLosesDocument(map[MessagePaths.primary := Doc(list0)], MessagePaths, list0, list1, list2, false, second);
  }

  /** `SaveSequenceTracker`: the whole cursor table, copied, as one document. */
  function SaveSequenceTracker(disk: SequenceDisk, b: State, run: SaveRun): (disk': SequenceDisk)
    ensures run == Completes ==> LoadSequenceTracker(disk') == b.cursors
    ensures SequencePaths.primary in disk && !run.TornCopy? && run != CrashAfter(0) ==>
      LoadSequenceTracker(disk') in {DecodeCursors(Some(disk[SequencePaths.primary])), b.cursors}
  {
    SaveCompletes(disk, SequencePaths, b.cursors);
    if SequencePaths.primary in disk && !run.TornCopy? && run != CrashAfter(0) then
      CrashReadsOldOrNew(disk, SequencePaths, b.cursors, run);
      Save(disk, SequencePaths, b.cursors, run)
    else
      Save(disk, SequencePaths, b.cursors, run)
  }

  /** Once both saves complete, a restarted controller serves the same queues and cursors. */
  method Checkpoint(messages: MessageDisk, sequences: SequenceDisk, b: State)
    returns (messages': MessageDisk, sequences': SequenceDisk)
    requires Valid(b)
    ensures Restart(messages', sequences').Some?
    ensures forall key :: QueueAt(Restart(messages', sequences').value, key) == QueueAt(b, key)
    ensures Restart(messages', sequences').value.cursors == b.cursors
  {
    var list;
    list, messages' := SaveMessages(messages, b, Completes);
    sequences' := SaveSequenceTracker(sequences, b, Completes);
  }
}
