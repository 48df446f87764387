/** The log of the latest message of each originator, as an object updated in place. */
module DataLogs {
  import opened Types
  import opened Rings

  datatype Logged = Logged(seqNum: uint32, payload: Bytes)
  type Log = Ring<Logged>

  function Recorded(l: Log, version: Record, payload: Bytes): Log {
    Put(l, DATA_LOG_SIZE, version.key, Logged(version.val, payload))
  }

  function VersionOf(e: Entry<Logged>): Record {
    Entry(e.key, e.val.seqNum)
  }

  class DataLog {
    const messages: array<Entry<Logged>>
    var size: nat
    var currentIdx: nat

    ghost predicate Valid()
      reads this, messages
    {
      && messages.Length == DATA_LOG_SIZE
      && size <= DATA_LOG_SIZE
      && ValidRing(View(), DATA_LOG_SIZE)
    }

    ghost function View(): Log
      reads this, messages
      requires size <= messages.Length
    {
      Ring(messages[..size], currentIdx)
    }

    constructor ()
      ensures Valid() && View() == Ring([], 0) && fresh(messages)
    {
      messages := new Entry<Logged>[DATA_LOG_SIZE](_ => Entry(0, Logged(0, [])));
      size, currentIdx := 0, 0;
    }

    method Record(version: Record, payload: Bytes)
      requires Valid()
      modifies this`size, this`currentIdx, messages
      ensures Valid() && View() == Recorded(old(View()), version, payload)
    {
      PutKeepsValid(View(), DATA_LOG_SIZE, version.key, Logged(version.val, payload));
      var idx := 0;
      while idx < size && messages[idx].key != version.key
        invariant idx <= size
        invariant FindFrom(messages[..size], version.key, idx) == Find(messages[..size], version.key)
      {
        idx := idx + 1;
      }
      if idx == size {
        var newIdx := currentIdx;
        messages[newIdx] := Entry(version.key, Logged(version.val, payload));
        if size < DATA_LOG_SIZE { size := size + 1; }
        currentIdx := currentIdx + 1;
        if currentIdx >= DATA_LOG_SIZE { currentIdx := 0; }
      } else {
        messages[idx] := Entry(version.key, Logged(version.val, payload));
      }
      assert View() == Recorded(old(View()), version, payload);
    }
  }
}
