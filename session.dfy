/**
 * A connection session: the reader loop that takes frames from the socket and
 * drives each one through the database, Kafka, the cache and the hub, and the
 * writer loop that drains the client's send channel onto the socket. Socket
 * reads and writes, JSON decoding, id and clock readings and the backends are
 * inputs: a frame arrives together with the answers the backends will give
 * for it, and a receive arrives together with the outcome of its socket write.
 */
module Session {
  import opened Wrappers
  import opened Models
  import opened Hub

  /** The Kafka key under which a session produces every record. */
  const ChatKey: string := "chat-key"

  /** What the environment answers for one decoded frame: a fresh id, the clock, and the outcome of each backend call. */
  datatype Backends = Backends(id: Uuid, createdAt: string, saveOk: bool, produceOk: bool, cacheOk: bool)

  /** One result of reading the socket: a frame, or a read error. */
  datatype Inbound = Frame(payload: Bytes, backends: Backends) | ReadError

  /** The visible actions of the reader, in the order it performs them. */
  datatype Action =
    | Save(msg: Message)
    | Produce(key: string, msg: Message)
    | Cache(msg: Message)
    | ToHub(payload: Bytes)
    | UnregisterSelf
    | CloseConnection

  /** The record built for a decoded submission: the request's fields, a fresh id and the ingestion time. */
  function NewRecord(req: MessageRequest, id: Uuid, createdAt: string): Message {
    Message(id, req.senderId, req.receiverId, req.content, createdAt)
  }

  /** Everything a decoded frame goes through when no backend fails, in order. */
  function Pipeline(msg: Message, payload: Bytes): seq<Action> {
    [Save(msg), Produce(ChatKey, msg), Cache(msg), ToHub(payload)]
  }

  /** How many steps of the pipeline run: the first failing step is the last one attempted. */
  function StepsRun(b: Backends): nat {
    if !b.saveOk then 1 else if !b.produceOk then 2 else if !b.cacheOk then 3 else 4
  }

  /** Decoding, saving, producing, caching and relaying one frame; each failure skips the rest of the frame. */
  function FrameActions(decode: Bytes -> Option<MessageRequest>, payload: Bytes, b: Backends): (r: seq<Action>)
    ensures decode(payload).None? ==> r == []
    ensures decode(payload).Some? ==>
              r == Pipeline(NewRecord(decode(payload).value, b.id, b.createdAt), payload)[..StepsRun(b)]
    ensures ToHub(payload) in r <==> decode(payload).Some? && b.saveOk && b.produceOk && b.cacheOk
    ensures forall a :: a in r ==> !a.UnregisterSelf? && !a.CloseConnection?
  {
    match decode(payload)
    case None => []
    case Some(req) =>
      var msg := NewRecord(req, b.id, b.createdAt);
      var afterCache := if b.cacheOk then [ToHub(payload)] else [];
      var afterProduce := if b.produceOk then [Cache(msg)] + afterCache else [];
      var afterSave := if b.saveOk then [Produce(ChatKey, msg)] + afterProduce else [];
      [Save(msg)] + afterSave
  }

  /** One iteration of the reader loop for a frame that was read; each early exit is a `continue` of the loop. */
  method HandleFrame(decode: Bytes -> Option<MessageRequest>, payload: Bytes, b: Backends) returns (actions: seq<Action>)
    ensures actions == FrameActions(decode, payload, b)
  {
    var req := decode(payload);
    if req.None? {
      return [];
    }
    var msg := NewRecord(req.value, b.id, b.createdAt);
    actions := [Save(msg)];
    if !b.saveOk {
      return;
    }
    actions := actions + [Produce(ChatKey, msg)];
    if !b.produceOk {
      return;
    }
    actions := actions + [Cache(msg)];
    if !b.cacheOk {
      return;
    }
    actions := actions + [ToHub(payload)];
  }

  /** The reader's actions over a sequence of socket reads: frames in turn, until a read error ends the session. */
  function ReaderActions(decode: Bytes -> Option<MessageRequest>, inbound: seq<Inbound>): seq<Action>
    decreases |inbound|
  {
    if inbound == [] then []
    else match inbound[0]
      case ReadError => [UnregisterSelf, CloseConnection]
      case Frame(p, b) => FrameActions(decode, p, b) + ReaderActions(decode, inbound[1..])
  }

  /**
   * The reader loop. A read error leaves the loop, after which the deferred
   * block asks the hub to unregister the client and closes the connection.
   * When the reads given run out without an error the session is still
   * reading, so nothing of the deferred block has happened yet.
   */
  method Read(decode: Bytes -> Option<MessageRequest>, inbound: seq<Inbound>) returns (actions: seq<Action>)
    ensures actions == ReaderActions(decode, inbound)
  {
    actions := [];
    var i := 0;
    while i < |inbound|
      invariant 0 <= i <= |inbound|
      invariant actions + ReaderActions(decode, inbound[i..]) == ReaderActions(decode, inbound)
    {
      ReaderActionsAt(decode, inbound, i);
      var f := inbound[i];
      if f.ReadError? {
        actions := actions + [UnregisterSelf, CloseConnection];
        return;
      }
      var fa := HandleFrame(decode, f.payload, f.backends);
      actions := actions + fa;
      i := i + 1;
    }
  }

  /** `ReaderActions` on the reads from `i` on, one read unfolded. */
  lemma ReaderActionsAt(decode: Bytes -> Option<MessageRequest>, inbound: seq<Inbound>, i: nat)
    requires i < |inbound|
    ensures ReaderActions(decode, inbound[i..]) ==
              match inbound[i]
              case ReadError => [UnregisterSelf, CloseConnection]
              case Frame(p, b) => FrameActions(decode, p, b) + ReaderActions(decode, inbound[i + 1..])
  {
    assert inbound[i..][1..] == inbound[i + 1..];
  }

  /** Reference definition: the raw payloads of the frames read before any read error that pass every step. */
  function Relayed(decode: Bytes -> Option<MessageRequest>, inbound: seq<Inbound>): seq<Bytes>
    decreases |inbound|
  {
    if inbound == [] || inbound[0].ReadError? then []
    else
      var f := inbound[0];
      var b := f.backends;
      if decode(f.payload).Some? && b.saveOk && b.produceOk && b.cacheOk
      then [f.payload] + Relayed(decode, inbound[1..])
      else Relayed(decode, inbound[1..])
  }

  /** The payloads handed to the hub, in order. */
  function HubPayloads(actions: seq<Action>): seq<Bytes>
    decreases |actions|
  {
    if actions == [] then []
    else if actions[0].ToHub? then [actions[0].payload] + HubPayloads(actions[1..])
    else HubPayloads(actions[1..])
  }

  lemma {:induction false} HubPayloadsAppend(a: seq<Action>, b: seq<Action>)
    ensures HubPayloads(a + b) == HubPayloads(a) + HubPayloads(b)
    decreases |a|
  {
    if a == [] {
      assert a + b == b;
    } else {
      assert (a + b)[0] == a[0];
      assert (a + b)[1..] == a[1..] + b;
      HubPayloadsAppend(a[1..], b);
      var head := if a[0].ToHub? then [a[0].payload] else [];
      calc {
        HubPayloads(a + b);
        head + HubPayloads(a[1..] + b);
        head + (HubPayloads(a[1..]) + HubPayloads(b));
        (head + HubPayloads(a[1..])) + HubPayloads(b);
      }
    }
  }

  lemma {:induction false} HubPayloadsNone(a: seq<Action>)
    requires forall x :: x in a ==> !x.ToHub?
    ensures HubPayloads(a) == []
    decreases |a|
  {
    if a != [] {
      HubPayloadsNone(a[1..]);
    }
  }

  /**
   * What reaches the hub is exactly the original raw bytes of every frame that
   * decoded and was saved, produced and cached, in reading order; nothing read
   * after a read error reaches it.
   */
  lemma {:induction false} ReaderRelaysRawFrames(decode: Bytes -> Option<MessageRequest>, inbound: seq<Inbound>)
    ensures HubPayloads(ReaderActions(decode, inbound)) == Relayed(decode, inbound)
    decreases |inbound|
  {
    if inbound != [] {
      match inbound[0]
      case ReadError =>
        assert HubPayloads([UnregisterSelf, CloseConnection]) == [];
      case Frame(p, b) =>
        var fa := FrameActions(decode, p, b);
        HubPayloadsAppend(fa, ReaderActions(decode, inbound[1..]));
        ReaderRelaysRawFrames(decode, inbound[1..]);
        FrameHubPayloads(decode, p, b);
    }
  }

  lemma FrameHubPayloads(decode: Bytes -> Option<MessageRequest>, p: Bytes, b: Backends)
    ensures HubPayloads(FrameActions(decode, p, b)) ==
              if decode(p).Some? && b.saveOk && b.produceOk && b.cacheOk then [p] else []
  {
    var fa := FrameActions(decode, p, b);
    if decode(p).Some? && b.saveOk && b.produceOk && b.cacheOk {
      var msg := NewRecord(decode(p).value, b.id, b.createdAt);
      assert fa == [Save(msg), Produce(ChatKey, msg), Cache(msg)] + [ToHub(p)];
      HubPayloadsNone([Save(msg), Produce(ChatKey, msg), Cache(msg)]);
      HubPayloadsAppend([Save(msg), Produce(ChatKey, msg), Cache(msg)], [ToHub(p)]);
    } else {
      HubPayloadsNone(fa);
    }
  }

  /**
   * The session ends with unregistering and then closing the connection
   * exactly when a read error was met, and these two actions are always the
   * last two: nothing is read or relayed after them.
   */
  lemma {:induction false} ReadErrorEndsSession(decode: Bytes -> Option<MessageRequest>, inbound: seq<Inbound>)
    ensures var r := ReaderActions(decode, inbound);
      ReadError in inbound ==>
        && |r| >= 2 && r[|r| - 2..] == [UnregisterSelf, CloseConnection]
        && forall i :: 0 <= i < |r| - 2 ==> !r[i].UnregisterSelf? && !r[i].CloseConnection?
    ensures var r := ReaderActions(decode, inbound);
      ReadError !in inbound ==> forall a :: a in r ==> !a.UnregisterSelf? && !a.CloseConnection?
    decreases |inbound|
  {
    if inbound != [] && inbound[0].Frame? {
      var fa := FrameActions(decode, inbound[0].payload, inbound[0].backends);
      var rest := ReaderActions(decode, inbound[1..]);
      ReadErrorEndsSession(decode, inbound[1..]);
      var r := fa + rest;
      assert ReaderActions(decode, inbound) == r;
      assert ReadError in inbound <==> ReadError in inbound[1..] by {
        assert inbound == [inbound[0]] + inbound[1..];
      }
      if ReadError in inbound {
        assert r[|r| - 2..] == rest[|rest| - 2..];
        forall i | 0 <= i < |r| - 2
          ensures !r[i].UnregisterSelf? && !r[i].CloseConnection?
        {
          if i < |fa| {
            assert r[i] in fa;
          } else {
            assert r[i] == rest[i - |fa|];
          }
        }
      }
    }
  }

  /** One receive of the writer on its send channel, with the outcome of the socket write that follows it. */
  datatype Receipt = Receipt(delivery: Delivery, writeOk: bool)

  /** What the writer does to its connection: put a frame on the socket, or close the connection on exit. */
  datatype Outgoing = TextFrame(payload: Bytes) | CloseFrame | ConnClosed

  /** A receipt after which the writer returns: the channel was closed, or the write of the item failed. */
  predicate Ends(r: Receipt) {
    r.delivery.ChannelClosed? || !r.writeOk
  }

  /**
   * The writer's actions: every received payload in turn; on closure of the
   * channel one close frame and stop; after a failed write, stop. Every
   * return runs the deferred close of the connection.
   */
  function WriterFrames(receipts: seq<Receipt>): seq<Outgoing>
    decreases |receipts|
  {
    if receipts == [] then []
    else match receipts[0].delivery
      case ChannelClosed => [CloseFrame, ConnClosed]
      case Item(p) =>
        if receipts[0].writeOk then [TextFrame(p)] + WriterFrames(receipts[1..]) else [TextFrame(p), ConnClosed]
  }

  /** The writer loop: drains the send channel in order until it is closed or a write fails, then closes the connection. */
  method Write(receipts: seq<Receipt>) returns (frames: seq<Outgoing>)
    ensures frames == WriterFrames(receipts)
  {
    frames := [];
    var i := 0;
    while i < |receipts|
      invariant 0 <= i <= |receipts|
      invariant frames + WriterFrames(receipts[i..]) == WriterFrames(receipts)
    {
      WriterFramesAt(receipts, i);
      var r := receipts[i];
      if r.delivery.ChannelClosed? {
        frames := frames + [CloseFrame, ConnClosed];
        return;
      }
      if !r.writeOk {
        frames := frames + [TextFrame(r.delivery.payload), ConnClosed];
        return;
      }
      frames := frames + [TextFrame(r.delivery.payload)];
      i := i + 1;
    }
  }

  /** `WriterFrames` on the receipts from `i` on, one receipt unfolded. */
  lemma WriterFramesAt(receipts: seq<Receipt>, i: nat)
    requires i < |receipts|
    ensures WriterFrames(receipts[i..]) ==
              match receipts[i].delivery
              case ChannelClosed => [CloseFrame, ConnClosed]
              case Item(p) =>
                if receipts[i].writeOk then [TextFrame(p)] + WriterFrames(receipts[i + 1..]) else [TextFrame(p), ConnClosed]
  {
    assert receipts[i..][1..] == receipts[i + 1..];
  }

  /** The payloads the writer received, in order. */
  function Items(receipts: seq<Receipt>): seq<Bytes>
    decreases |receipts|
  {
    if receipts == [] then []
    else if receipts[0].delivery.Item? then [receipts[0].delivery.payload] + Items(receipts[1..])
    else Items(receipts[1..])
  }

  /** The payloads of the text frames, in order. */
  function TextPayloads(frames: seq<Outgoing>): seq<Bytes>
    decreases |frames|
  {
    if frames == [] then []
    else if frames[0].TextFrame? then [frames[0].payload] + TextPayloads(frames[1..])
    else TextPayloads(frames[1..])
  }

  /** Some receipt makes the writer return. */
  predicate Halts(receipts: seq<Receipt>)
    decreases |receipts|
  {
    receipts != [] && (Ends(receipts[0]) || Halts(receipts[1..]))
  }

  /** The number of receipts the writer consumes: up to and including the first that makes it return, or all of them. */
  function Stop(receipts: seq<Receipt>): (n: nat)
    ensures n <= |receipts|
    ensures Halts(receipts) <==> 0 < n && Ends(receipts[n - 1])
    decreases |receipts|
  {
    if receipts == [] then 0 else if Ends(receipts[0]) then 1 else 1 + Stop(receipts[1..])
  }

  /**
   * The socket sees the received payloads in the order they were received,
   * none skipped or repeated; the writer may stop early but never jumps ahead.
   */
  lemma {:induction false} WriterKeepsOrder(receipts: seq<Receipt>)
    ensures IsPrefix(TextPayloads(WriterFrames(receipts)), Items(receipts))
    decreases |receipts|
  {
    if receipts != [] && receipts[0].delivery.Item? {
      var p := receipts[0].delivery.payload;
      var rest := WriterFrames(receipts[1..]);
      assert Items(receipts) == [p] + Items(receipts[1..]);
      if receipts[0].writeOk {
        WriterKeepsOrder(receipts[1..]);
        assert WriterFrames(receipts) == [TextFrame(p)] + rest;
        assert ([TextFrame(p)] + rest)[1..] == rest;
        assert TextPayloads(WriterFrames(receipts)) == [p] + TextPayloads(rest);
        PrefixPrepend([p], TextPayloads(rest), Items(receipts[1..]));
      } else {
        FailedFrames(receipts);
      }
    } else if receipts != [] {
      ClosedFrames(receipts);
    }
  }

  /** The writer's actions when the first receipt is the closure of the channel. */
  lemma {:induction false} ClosedFrames(receipts: seq<Receipt>)
    requires receipts != [] && receipts[0].delivery.ChannelClosed?
    ensures Stop(receipts) == 1 && Items(receipts[..1]) == []
    ensures WriterFrames(receipts) == [CloseFrame, ConnClosed]
    ensures TextPayloads(WriterFrames(receipts)) == []
  {
    assert receipts[..1] == [receipts[0]];
    assert [receipts[0]][1..] == [];
    assert [CloseFrame, ConnClosed][1..] == [ConnClosed];
    assert TextPayloads([ConnClosed]) == TextPayloads([]);
  }

  /** The writer's actions when the write of the first received payload fails. */
  lemma {:induction false} FailedFrames(receipts: seq<Receipt>)
    requires receipts != [] && receipts[0].delivery.Item? && !receipts[0].writeOk
    ensures Stop(receipts) == 1 && Items(receipts[..1]) == [receipts[0].delivery.payload]
    ensures WriterFrames(receipts) == [TextFrame(receipts[0].delivery.payload), ConnClosed]
    ensures TextPayloads(WriterFrames(receipts)) == [receipts[0].delivery.payload]
  {
    var p := receipts[0].delivery.payload;
    assert receipts[..1] == [receipts[0]];
    assert [receipts[0]][1..] == [];
    assert [TextFrame(p), ConnClosed][1..] == [ConnClosed];
    assert TextPayloads([ConnClosed]) == TextPayloads([]);
    assert TextPayloads([TextFrame(p), ConnClosed]) == [p] + TextPayloads([ConnClosed]);
  }

  /** One receipt of a payload that is written successfully: one text frame, and the writer goes on. */
  lemma {:induction false} WrittenFrames(receipts: seq<Receipt>)
    requires receipts != [] && receipts[0].delivery.Item? && receipts[0].writeOk
    ensures Stop(receipts) == 1 + Stop(receipts[1..])
    ensures WriterFrames(receipts) == [TextFrame(receipts[0].delivery.payload)] + WriterFrames(receipts[1..])
    ensures TextPayloads(WriterFrames(receipts)) == [receipts[0].delivery.payload] + TextPayloads(WriterFrames(receipts[1..]))
  {
    var rest := WriterFrames(receipts[1..]);
    assert ([TextFrame(receipts[0].delivery.payload)] + rest)[1..] == rest;
  }

  /**
   * Nothing received is dropped: the writer writes exactly the payloads it
   * received up to the receipt that makes it return, the failed write
   * included.
   */
  lemma {:induction false} WriterWritesUntilStop(receipts: seq<Receipt>)
    ensures TextPayloads(WriterFrames(receipts)) == Items(receipts[..Stop(receipts)])
    decreases |receipts|
  {
    if receipts == [] {
      assert receipts[..0] == [];
    } else if receipts[0].delivery.ChannelClosed? {
      ClosedFrames(receipts);
    } else if !receipts[0].writeOk {
      FailedFrames(receipts);
    } else {
      var tail := receipts[1..];
      WrittenFrames(receipts);
      WriterWritesUntilStop(tail);
      var k := Stop(tail);
      assert receipts[..k + 1] == [receipts[0]] + tail[..k];
      assert ([receipts[0]] + tail[..k])[1..] == tail[..k];
    }
  }

  /** The writer sends a close frame exactly when the receipt that makes it return is the closure of the channel. */
  lemma {:induction false} CloseFrameOnClosure(receipts: seq<Receipt>)
    ensures CloseFrame in WriterFrames(receipts) <==>
              0 < Stop(receipts) && receipts[Stop(receipts) - 1].delivery.ChannelClosed?
    decreases |receipts|
  {
    if receipts == [] {
    } else if receipts[0].delivery.ChannelClosed? {
      ClosedFrames(receipts);
    } else if !receipts[0].writeOk {
      FailedFrames(receipts);
    } else {
      var tail := receipts[1..];
      WrittenFrames(receipts);
      CloseFrameOnClosure(tail);
      if Stop(tail) > 0 {
        assert receipts[Stop(receipts) - 1] == tail[Stop(tail) - 1];
      }
    }
  }

  /** The writer closes the connection exactly when it returns: when some receipt is a closure or a failed write. */
  lemma {:induction false} ConnectionClosedOnReturn(receipts: seq<Receipt>)
    ensures ConnClosed in WriterFrames(receipts) <==> Halts(receipts)
    decreases |receipts|
  {
    if receipts == [] {
    } else if receipts[0].delivery.ChannelClosed? {
      ClosedFrames(receipts);
    } else if !receipts[0].writeOk {
      FailedFrames(receipts);
    } else {
      WrittenFrames(receipts);
      ConnectionClosedOnReturn(receipts[1..]);
    }
  }

  /** A close frame is followed by the close of the connection and nothing else, and a close of the connection is the last action. */
  lemma {:induction false} CloseFrameIsLast(receipts: seq<Receipt>)
    ensures forall i :: 0 <= i < |WriterFrames(receipts)| && WriterFrames(receipts)[i] == CloseFrame ==>
              i == |WriterFrames(receipts)| - 2 && WriterFrames(receipts)[i + 1] == ConnClosed
    ensures forall i :: 0 <= i < |WriterFrames(receipts)| - 1 ==> WriterFrames(receipts)[i] != ConnClosed
    decreases |receipts|
  {
    if receipts == [] {
    } else if receipts[0].delivery.ChannelClosed? {
      ClosedFrames(receipts);
    } else if !receipts[0].writeOk {
      FailedFrames(receipts);
    } else {
      var rest := WriterFrames(receipts[1..]);
      WrittenFrames(receipts);
      CloseFrameIsLast(receipts[1..]);
      var f := WriterFrames(receipts);
      forall i | 0 < i < |f|
        ensures f[i] == CloseFrame ==> i == |f| - 2 && f[i + 1] == ConnClosed
        ensures i < |f| - 1 ==> f[i] != ConnClosed
      {
        assert f[i] == rest[i - 1];
        if i < |f| - 1 {
          assert f[i + 1] == rest[i];
        }
      }
    }
  }

  /**
   * End-to-end order on one connection: for a client whose channel starts
   * empty, as every channel does at registration, and whose writer received
   * what the hub handed it along an execution, the text frames put on the
   * socket are a prefix of the payloads broadcast, in broadcast order.
   */
  lemma SocketSeesBroadcastOrder(states: seq<HubState>, t: seq<Event>, c: ClientId, receipts: seq<Receipt>)
    requires Execution(states, t) && c in states[0].queues && states[0].queues[c].items == []
    requires Items(receipts) == ReceivedBetween(states, t, c, 0, |t|)
    ensures IsPrefix(TextPayloads(WriterFrames(receipts)), Broadcasts(t))
  {
    PerClientOrder(states, t, c, |t|);
    WriterKeepsOrder(receipts);
    assert t[..|t|] == t;
    var got := ReceivedBetween(states, t, c, 0, |t|);
    PrefixOfSelf(got, states[|t|].queues[c].items);
    assert [] + Broadcasts(t) == Broadcasts(t);
    PrefixTransitive(got, got + states[|t|].queues[c].items, Broadcasts(t));
    PrefixTransitive(TextPayloads(WriterFrames(receipts)), got, Broadcasts(t));
  }
}
