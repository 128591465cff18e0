/**
 * The Kafka consumer of the HTTP service: `processMessage` turns one fetched
 * entry into a database row, and `startConsumer` fetches, processes and
 * commits entries one after another. The JSON decoder, the UUID generator,
 * the database and the broker are inputs: a fetch arrives together with the
 * id the generator hands out (or its failure), the outcome of the insert and
 * the outcome of the commit.
 */
module Consumer {
  import opened Wrappers
  import opened Models

  /** One entry of the `chat-topic` partition: its offset and its value. */
  datatype Entry = Entry(offset: nat, value: Bytes)

  /** What the environment answers while one entry is processed. */
  datatype ProcessEnv = ProcessEnv(newId: Option<Uuid>, saveOk: bool)

  /** The row `processMessage` inserts: a fresh id and the request's fields. */
  datatype Row = Row(messageId: Uuid, senderId: int, receiverId: int, content: string)

  /** How `processMessage` ended; only `Saved` is a nil error. */
  datatype Processed =
    | DecodeFailed
    | IdFailed
    | SaveFailed(row: Row)
    | Saved(row: Row)

  /**
   * `processMessage`: decode the value, generate an id, insert the row. Each
   * failure returns at once, so an undecodable value generates no id and
   * saves nothing, and a failed id generation saves nothing.
   */
  function ProcessMessage(decode: Bytes -> Option<MessageRequest>, e: Entry, env: ProcessEnv): (r: Processed)
    ensures decode(e.value).None? <==> r == DecodeFailed
    ensures r == IdFailed <==> decode(e.value).Some? && env.newId.None?
    ensures r.Saved? <==> decode(e.value).Some? && env.newId.Some? && env.saveOk
    ensures (r.Saved? || r.SaveFailed?) ==>
              var req := decode(e.value).value;
              r.row == Row(env.newId.value, req.senderId, req.receiverId, req.content)
  {
    match decode(e.value)
    case None => DecodeFailed
    case Some(req) =>
      match env.newId
      case None => IdFailed
      case Some(id) =>
        var row := Row(id, req.senderId, req.receiverId, req.content);
        if env.saveOk then Saved(row) else SaveFailed(row)
  }

  /**
   * The row id comes from the generator, not from the entry: the same entry
   * processed twice, as after a redelivery, is saved as two rows with the
   * same fields under two different ids, so a conflict on the id never
   * makes the second insert a no-op.
   */
  lemma RedeliveryInsertsAgain(decode: Bytes -> Option<MessageRequest>, e: Entry, env1: ProcessEnv, env2: ProcessEnv)
    requires decode(e.value).Some? && env1.saveOk && env2.saveOk
    requires env1.newId.Some? && env2.newId.Some? && env1.newId != env2.newId
    ensures ProcessMessage(decode, e, env1).Saved? && ProcessMessage(decode, e, env2).Saved?
    ensures ProcessMessage(decode, e, env1).row.messageId != ProcessMessage(decode, e, env2).row.messageId
    ensures ProcessMessage(decode, e, env1).row.(messageId := 0) == ProcessMessage(decode, e, env2).row.(messageId := 0)
  {
  }

  /** One result of `FetchMessage`: an entry with the answers for it, or an error. */
  datatype Fetch = Fetched(entry: Entry, env: ProcessEnv, commitOk: bool) | FetchError

  /** What the consumer does, in order: process an entry, try to commit it, or exit on a fetch error. */
  datatype ConsumerEvent =
    | Handled(offset: nat, result: Processed)
    | CommitAttempted(offset: nat, ok: bool)
    | Fatal

  /** The events of one fetched entry: it is processed, and committed only when processing succeeded. */
  function EntryEvents(decode: Bytes -> Option<MessageRequest>, f: Fetch): seq<ConsumerEvent>
    requires f.Fetched?
  {
    var r := ProcessMessage(decode, f.entry, f.env);
    if r.Saved? then [Handled(f.entry.offset, r), CommitAttempted(f.entry.offset, f.commitOk)]
    else [Handled(f.entry.offset, r)]
  }

  /** The consumer's events over a sequence of fetches, up to and including the first fetch error. */
  function ConsumerLog(decode: Bytes -> Option<MessageRequest>, fetches: seq<Fetch>): seq<ConsumerEvent>
    decreases |fetches|
  {
    if fetches == [] then []
    else if fetches[0].FetchError? then [Fatal]
    else EntryEvents(decode, fetches[0]) + ConsumerLog(decode, fetches[1..])
  }

  /** `ConsumerLog` on the fetches from `i` on, one fetch unfolded. */
  lemma ConsumerLogAt(decode: Bytes -> Option<MessageRequest>, fetches: seq<Fetch>, i: nat)
    requires i < |fetches|
    ensures ConsumerLog(decode, fetches[i..]) ==
              if fetches[i].FetchError? then [Fatal]
              else EntryEvents(decode, fetches[i]) + ConsumerLog(decode, fetches[i + 1..])
  {
    assert fetches[i..][1..] == fetches[i + 1..];
  }

  /**
   * `startConsumer` over the fetches given. A failed fetch is fatal and ends
   * the process; a failed processing or a failed commit is only logged, and
   * the loop goes on to the next fetch.
   */
  method Consume(decode: Bytes -> Option<MessageRequest>, fetches: seq<Fetch>) returns (log: seq<ConsumerEvent>)
    ensures log == ConsumerLog(decode, fetches)
  {
    log := [];
    var i := 0;
    while i < |fetches|
      invariant 0 <= i <= |fetches|
      invariant log + ConsumerLog(decode, fetches[i..]) == ConsumerLog(decode, fetches)
    {
      ConsumerLogAt(decode, fetches, i);
      var f := fetches[i];
      if f.FetchError? {
        log := log + [Fatal];
        return;
      }
      var r := ProcessMessage(decode, f.entry, f.env);
      log := log + [Handled(f.entry.offset, r)];
      if r.Saved? {
        log := log + [CommitAttempted(f.entry.offset, f.commitOk)];
      }
      i := i + 1;
    }
  }

  /**
   * Commit discipline on a log: every commit attempt comes right after the
   * successful processing of the entry with the same offset, and every
   * successful processing is followed right away by the commit of that entry.
   */
  ghost predicate CommitsPaired(log: seq<ConsumerEvent>) {
    && (forall i :: 0 <= i < |log| && log[i].CommitAttempted? ==>
          0 < i && log[i - 1].Handled? && log[i - 1].result.Saved? && log[i - 1].offset == log[i].offset)
    && (forall i :: 0 <= i < |log| && log[i].Handled? && log[i].result.Saved? ==>
          i + 1 < |log| && log[i + 1].CommitAttempted? && log[i + 1].offset == log[i].offset)
  }

  /** The consumer commits an entry only after processing it successfully, and always tries to then. */
  lemma {:induction false} CommitOnlyAfterSave(decode: Bytes -> Option<MessageRequest>, fetches: seq<Fetch>)
    ensures CommitsPaired(ConsumerLog(decode, fetches))
    decreases |fetches|
  {
    if fetches != [] && fetches[0].Fetched? {
      var f := fetches[0];
      var r := ProcessMessage(decode, f.entry, f.env);
      var head := EntryEvents(decode, f);
      var rest := ConsumerLog(decode, fetches[1..]);
      CommitOnlyAfterSave(decode, fetches[1..]);
      var log := head + rest;
      assert log == ConsumerLog(decode, fetches);
      assert head == if r.Saved? then [Handled(f.entry.offset, r), CommitAttempted(f.entry.offset, f.commitOk)]
                     else [Handled(f.entry.offset, r)];
      forall i | 0 <= i < |log| && log[i].CommitAttempted?
        ensures 0 < i && log[i - 1].Handled? && log[i - 1].result.Saved? && log[i - 1].offset == log[i].offset
      {
        if i >= |head| {
          assert log[i] == rest[i - |head|];
          assert log[i - 1] == rest[i - 1 - |head|];
        }
      }
      forall i | 0 <= i < |log| && log[i].Handled? && log[i].result.Saved?
        ensures i + 1 < |log| && log[i + 1].CommitAttempted? && log[i + 1].offset == log[i].offset
      {
        if i >= |head| {
          assert log[i] == rest[i - |head|];
          assert log[i + 1] == rest[i + 1 - |head|];
        }
      }
    }
  }

  /** The offsets of the events `Handled`, in order. */
  function HandledOffsets(log: seq<ConsumerEvent>): seq<nat>
    decreases |log|
  {
    if log == [] then []
    else if log[0].Handled? then [log[0].offset] + HandledOffsets(log[1..])
    else HandledOffsets(log[1..])
  }

  /** Reference definition: the offsets of the entries fetched before the first fetch error, in order. */
  function FetchedOffsets(fetches: seq<Fetch>): seq<nat>
    decreases |fetches|
  {
    if fetches == [] || fetches[0].FetchError? then [] else [fetches[0].entry.offset] + FetchedOffsets(fetches[1..])
  }

  /**
   * Failures are not fatal: every entry fetched before the first fetch error
   * is processed, in fetch order, whatever happened to the entries before it
   * (failed decoding, id generation, insert or commit). A fetch error is the
   * last thing the consumer does; without one it never stops.
   */
  lemma {:induction false} EveryFetchedEntryHandled(decode: Bytes -> Option<MessageRequest>, fetches: seq<Fetch>)
    ensures HandledOffsets(ConsumerLog(decode, fetches)) == FetchedOffsets(fetches)
    ensures FetchError in fetches <==> Fatal in ConsumerLog(decode, fetches)
    ensures var log := ConsumerLog(decode, fetches);
      forall i :: 0 <= i < |log| && log[i] == Fatal ==> i == |log| - 1
    decreases |fetches|
  {
    if fetches != [] && fetches[0].Fetched? {
      EveryFetchedEntryHandled(decode, fetches[1..]);
      var head := EntryEvents(decode, fetches[0]);
      var rest := ConsumerLog(decode, fetches[1..]);
      var log := head + rest;
      assert log == ConsumerLog(decode, fetches);
      HandledOffsetsAppend(head, rest);
      assert HandledOffsets(head) == [fetches[0].entry.offset] by {
        assert head[1..] == [] || head[1..] == [head[1]];
        if |head| == 2 {
          assert head[1..][1..] == [];
        }
      }
      assert fetches == [fetches[0]] + fetches[1..];
      forall i | 0 <= i < |log| && log[i] == Fatal
        ensures i == |log| - 1
      {
        assert i >= |head|;
        assert rest[i - |head|] == Fatal;
      }
    } else if fetches != [] {
      assert FetchError in fetches;
    }
  }

  lemma {:induction false} HandledOffsetsAppend(a: seq<ConsumerEvent>, b: seq<ConsumerEvent>)
    ensures HandledOffsets(a + b) == HandledOffsets(a) + HandledOffsets(b)
    decreases |a|
  {
    if a == [] {
      assert a + b == b;
    } else {
      assert (a + b)[1..] == a[1..] + b;
      HandledOffsetsAppend(a[1..], b);
    }
  }

  /** The offsets of the commit attempts, in order. */
  function CommittedOffsets(log: seq<ConsumerEvent>): seq<nat>
    decreases |log|
  {
    if log == [] then []
    else if log[0].CommitAttempted? then [log[0].offset] + CommittedOffsets(log[1..])
    else CommittedOffsets(log[1..])
  }

  /** Reference definition: the offsets of the entries fetched before any fetch error whose processing succeeded. */
  function SavedOffsets(decode: Bytes -> Option<MessageRequest>, fetches: seq<Fetch>): seq<nat>
    decreases |fetches|
  {
    if fetches == [] || fetches[0].FetchError? then []
    else if ProcessMessage(decode, fetches[0].entry, fetches[0].env).Saved?
    then [fetches[0].entry.offset] + SavedOffsets(decode, fetches[1..])
    else SavedOffsets(decode, fetches[1..])
  }

  /** The consumer attempts to commit exactly the entries it saved, in fetch order, and each once. */
  lemma {:induction false} CommitsAreSavedEntries(decode: Bytes -> Option<MessageRequest>, fetches: seq<Fetch>)
    ensures CommittedOffsets(ConsumerLog(decode, fetches)) == SavedOffsets(decode, fetches)
    decreases |fetches|
  {
    if fetches != [] && fetches[0].Fetched? {
      CommitsAreSavedEntries(decode, fetches[1..]);
      var head := EntryEvents(decode, fetches[0]);
      var rest := ConsumerLog(decode, fetches[1..]);
      CommittedOffsetsAppend(head, rest);
      var f := fetches[0];
      if ProcessMessage(decode, f.entry, f.env).Saved? {
        assert head[1..] == [CommitAttempted(f.entry.offset, f.commitOk)];
        assert head[1..][1..] == [];
      } else {
        assert head[1..] == [];
      }
    }
  }

  lemma {:induction false} CommittedOffsetsAppend(a: seq<ConsumerEvent>, b: seq<ConsumerEvent>)
    ensures CommittedOffsets(a + b) == CommittedOffsets(a) + CommittedOffsets(b)
    decreases |a|
  {
    if a == [] {
      assert a + b == b;
    } else {
      assert (a + b)[1..] == a[1..] + b;
      CommittedOffsetsAppend(a[1..], b);
    }
  }

  ghost predicate StrictlyIncreasing(s: seq<nat>) {
    forall i, j :: 0 <= i < j < |s| ==> s[i] < s[j]
  }

  /** Every entry fetched before the first error has an offset above `bound`. */
  ghost predicate OffsetsAbove(fetches: seq<Fetch>, bound: int)
    decreases |fetches|
  {
    fetches == [] || fetches[0].FetchError? ||
    (fetches[0].entry.offset > bound && OffsetsAbove(fetches[1..], bound))
  }

  /** The fetches before the first error come with strictly increasing offsets, as a partition delivers them. */
  ghost predicate FetchedInOrder(fetches: seq<Fetch>)
    decreases |fetches|
  {
    fetches == [] || fetches[0].FetchError? ||
    (OffsetsAbove(fetches[1..], fetches[0].entry.offset) && FetchedInOrder(fetches[1..]))
  }

  lemma {:induction false} SavedOffsetsAbove(decode: Bytes -> Option<MessageRequest>, fetches: seq<Fetch>, bound: int)
    requires OffsetsAbove(fetches, bound)
    ensures forall o :: o in SavedOffsets(decode, fetches) ==> o > bound
    decreases |fetches|
  {
    if fetches != [] && fetches[0].Fetched? {
      SavedOffsetsAbove(decode, fetches[1..], bound);
    }
  }

  /** When the partition hands out entries in offset order, the commits move the offset strictly forward. */
  lemma {:induction false} CommitsMoveForward(decode: Bytes -> Option<MessageRequest>, fetches: seq<Fetch>)
    requires FetchedInOrder(fetches)
    ensures StrictlyIncreasing(CommittedOffsets(ConsumerLog(decode, fetches)))
  {
    CommitsAreSavedEntries(decode, fetches);
    SavedOffsetsIncreasing(decode, fetches);
  }

  lemma {:induction false} SavedOffsetsIncreasing(decode: Bytes -> Option<MessageRequest>, fetches: seq<Fetch>)
    requires FetchedInOrder(fetches)
    ensures StrictlyIncreasing(SavedOffsets(decode, fetches))
    decreases |fetches|
  {
    if fetches != [] && fetches[0].Fetched? {
      SavedOffsetsIncreasing(decode, fetches[1..]);
      SavedOffsetsAbove(decode, fetches[1..], fetches[0].entry.offset);
      var rest := SavedOffsets(decode, fetches[1..]);
      if ProcessMessage(decode, fetches[0].entry, fetches[0].env).Saved? {
        var s := [fetches[0].entry.offset] + rest;
        forall i, j | 0 <= i < j < |s|
          ensures s[i] < s[j]
        {
          assert s[j] == rest[j - 1];
          if i > 0 {
            assert s[i] == rest[i - 1];
          } else {
            assert rest[j - 1] in rest;
          }
        }
      }
    }
  }
}
