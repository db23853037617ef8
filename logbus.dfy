/** The log bus of the scraping back end: an ordered buffer of formatted log
    entries plus the registry of live `/stream` subscribers, each of which is
    sent one server-sent-event frame per entry logged while it is connected. */
module LogBus {

  /** The levels the back end logs at. */
  datatype Level = Info | Warning | Error | Success

  function LevelName(level: Level): string {
    match level
    case Info => "INFO"
    case Warning => "WARNING"
    case Error => "ERROR"
    case Success => "SUCCESS"
  }

  /** WARNING and ERROR entries carry a `[LEVEL] ` tag; other levels are the bare message. */
  function Format(level: Level, msg: string): (r: string) {
    if level.Warning? || level.Error? then "[" + LevelName(level) + "] " + msg else msg
  }

  /** The message is always the tail of its entry, and the entry differs from
      the message exactly for WARNING and ERROR, by the `[LEVEL] ` tag. */
  lemma FormatShape(level: Level, msg: string)
    ensures |Format(level, msg)| >= |msg|
    ensures Format(level, msg)[|Format(level, msg)| - |msg|..] == msg
    ensures Format(level, msg) == msg <==> !(level.Warning? || level.Error?)
    ensures level.Warning? || level.Error? ==>
              Format(level, msg)[..|Format(level, msg)| - |msg|] == "[" + LevelName(level) + "] "
  {
    if level.Warning? || level.Error? {
      assert |Format(level, msg)| > |msg|;
    }
  }

  /** The server-sent-event frame that carries one entry. */
  function Frame(entry: string): (r: string) {
    "data: " + entry + "\n\n"
  }

  /** A frame is the entry between the `data: ` field name and the blank
      line that ends the event. */
  lemma FrameShape(entry: string)
    ensures |Frame(entry)| == |entry| + 8
    ensures Frame(entry)[..6] == "data: " && Frame(entry)[|Frame(entry)| - 2..] == "\n\n"
    ensures Frame(entry)[6..|Frame(entry)| - 2] == entry
  {
  }

  /** Distinct entries are written as distinct frames. */
  lemma FrameInjective(a: string, b: string)
    requires Frame(a) == Frame(b)
    ensures a == b
  {
    FrameShape(a);
    FrameShape(b);
  }

  /** A connected subscriber: its id (the connection time in milliseconds)
      and everything written to its response stream so far. */
  datatype Client = Client(id: int, outbox: seq<string>)

  /** Every client receives one more frame; ids and order are unchanged. */
  function Broadcast(clients: seq<Client>, frame: string): seq<Client> {
    if clients == [] then []
    else [clients[0].(outbox := clients[0].outbox + [frame])] + Broadcast(clients[1..], frame)
  }

  /** Broadcasting works client by client. */
  lemma {:induction false} BroadcastAppend(a: seq<Client>, b: seq<Client>, frame: string)
    ensures Broadcast(a + b, frame) == Broadcast(a, frame) + Broadcast(b, frame)
  {
    if a == [] {
      assert a + b == b;
    } else {
      assert (a + b)[1..] == a[1..] + b;
      BroadcastAppend(a[1..], b, frame);
    }
  }

  /** Every client receives the frame after what it had; ids and order are kept. */
  lemma {:induction false} BroadcastAt(clients: seq<Client>, frame: string, k: nat)
    requires k < |clients|
    ensures |Broadcast(clients, frame)| == |clients|
    ensures Broadcast(clients, frame)[k] == clients[k].(outbox := clients[k].outbox + [frame])
  {
    if k > 0 {
      BroadcastAt(clients[1..], frame, k - 1);
    } else {
      BroadcastLength(clients, frame);
    }
  }

  lemma {:induction false} BroadcastLength(clients: seq<Client>, frame: string)
    ensures |Broadcast(clients, frame)| == |clients|
  {
    if clients != [] {
      BroadcastLength(clients[1..], frame);
    }
  }

  /** The frames of a run of entries, in order. */
  function Frames(entries: seq<string>): seq<string> {
    if entries == [] then [] else [Frame(entries[0])] + Frames(entries[1..])
  }

  /** The k-th frame carries the k-th entry. */
  lemma {:induction false} FramesAt(entries: seq<string>)
    ensures |Frames(entries)| == |entries|
    ensures forall k :: 0 <= k < |entries| ==> Frames(entries)[k] == Frame(entries[k])
  {
    if entries != [] {
      FramesAt(entries[1..]);
    }
  }

  /** The registry after a run of entries has been logged, one broadcast each. */
  function DeliverAll(clients: seq<Client>, entries: seq<string>): (r: seq<Client>)
    decreases |entries|
  {
    if entries == [] then clients
    else DeliverAll(Broadcast(clients, Frame(entries[0])), entries[1..])
  }

  /** `clients.filter(client => client.id !== id)`. */
  function RemoveById(clients: seq<Client>, id: int): (r: seq<Client>)
    ensures |r| <= |clients|
    ensures forall c :: c in r <==> c in clients && c.id != id
  {
    if clients == [] then []
    else if clients[0].id == id then RemoveById(clients[1..], id)
    else [clients[0]] + RemoveById(clients[1..], id)
  }

  /** The module-level `logMessages` and `clients` of the back end. */
  class Bus {
    var messages: seq<string>
    var clients: seq<Client>

    constructor ()
      ensures messages == [] && clients == []
    {
      messages := [];
      clients := [];
    }

    /** `logMessage`: append the formatted entry and write its frame to every client. */
    method Log(msg: string, level: Level)
      modifies this
      ensures messages == old(messages) + [Format(level, msg)]
      ensures clients == Broadcast(old(clients), Frame(Format(level, msg)))
    {
      var entry := Format(level, msg);
      messages := messages + [entry];
      var frame := Frame(entry);
      ghost var before := clients;
      var i := 0;
      while i < |clients|
        invariant 0 <= i <= |clients| == |before|
        invariant messages == old(messages) + [entry]
        invariant clients[..i] == Broadcast(before[..i], frame)
        invariant clients[i..] == before[i..]
      {
        assert before[..i + 1] == before[..i] + [before[i]];
        BroadcastAppend(before[..i], [before[i]], frame);
        assert Broadcast([before[i]], frame) == [before[i].(outbox := before[i].outbox + [frame])];
        clients := clients[i := clients[i].(outbox := clients[i].outbox + [frame])];
        i := i + 1;
      }
      assert clients == clients[..i] && before == before[..i];
    }

    /** `logMessages = []` at the start of a job; subscribers are untouched. */
    method Clear()
      modifies this
      ensures messages == [] && clients == old(clients)
    {
      messages := [];
    }

    /** A `/stream` connection: the new client goes last, with nothing replayed. */
    method Connect(id: int)
      modifies this
      ensures clients == old(clients) + [Client(id, [])]
      ensures messages == old(messages)
    {
      clients := clients + [Client(id, [])];
    }

    /** The connection's `close` event: keep every client whose id differs. */
    method Disconnect(id: int)
      modifies this
      ensures clients == RemoveById(old(clients), id)
      ensures messages == old(messages)
    {
      var kept: seq<Client> := [];
      var i := 0;
      while i < |clients|
        invariant 0 <= i <= |clients|
        invariant clients == old(clients)
        invariant RemoveById(clients, id) == kept + RemoveById(clients[i..], id)
      {
        assert clients[i..][1..] == clients[i + 1..];
        if clients[i].id != id {
          kept := kept + [clients[i]];
        }
        i := i + 1;
      }
      clients := kept;
    }
  }

  /** Filtering distributes over concatenation, so every client is kept or
      dropped on its own id alone and the kept ones stay in their order. */
  lemma {:induction false} RemoveByIdAppend(a: seq<Client>, b: seq<Client>, id: int)
    ensures RemoveById(a + b, id) == RemoveById(a, id) + RemoveById(b, id)
  {
    if a == [] {
      assert a + b == b;
    } else {
      assert (a + b)[1..] == a[1..] + b;
      RemoveByIdAppend(a[1..], b, id);
    }
  }

  /** A client whose id is not closed is never removed. */
  lemma {:induction false} RemoveAbsentIdIsIdentity(clients: seq<Client>, id: int)
    requires forall k :: 0 <= k < |clients| ==> clients[k].id != id
    ensures RemoveById(clients, id) == clients
  {
    if clients != [] {
      RemoveAbsentIdIsIdentity(clients[1..], id);
    }
  }

  /** Logging two runs of entries one after the other delivers the same
      frames as logging their concatenation. */
  lemma {:induction false} DeliverAllAppend(clients: seq<Client>, a: seq<string>, b: seq<string>)
    ensures DeliverAll(clients, a + b) == DeliverAll(DeliverAll(clients, a), b)
    decreases |a|
  {
    if a == [] {
      assert a + b == b;
    } else {
      assert (a + b)[0] == a[0] && (a + b)[1..] == a[1..] + b;
      DeliverAllAppend(Broadcast(clients, Frame(a[0])), a[1..], b);
    }
  }

  /** Broadcasting keeps the registry's length. */
  lemma {:induction false} DeliverAllKeepsLength(clients: seq<Client>, entries: seq<string>)
    ensures |DeliverAll(clients, entries)| == |clients|
    decreases |entries|
  {
    if entries != [] {
      BroadcastLength(clients, Frame(entries[0]));
      DeliverAllKeepsLength(Broadcast(clients, Frame(entries[0])), entries[1..]);
    }
  }

  /** The client at position `k` receives exactly the frames of the run, in
      order, after what it already had. */
  lemma {:induction false} DeliverAllAt(clients: seq<Client>, entries: seq<string>, k: nat)
    requires k < |clients|
    ensures |DeliverAll(clients, entries)| == |clients|
    ensures DeliverAll(clients, entries)[k] == clients[k].(outbox := clients[k].outbox + Frames(entries))
    decreases |entries|
  {
    DeliverAllKeepsLength(clients, entries);
    if entries == [] {
      assert clients[k].outbox + Frames(entries) == clients[k].outbox;
    } else {
      var f := Frame(entries[0]);
      var next := Broadcast(clients, f);
      assert DeliverAll(clients, entries) == DeliverAll(next, entries[1..]);
      BroadcastAt(clients, f, k);
      DeliverAllAt(next, entries[1..], k);
      assert Frames(entries) == [f] + Frames(entries[1..]);
      assert clients[k].outbox + [f] + Frames(entries[1..]) == clients[k].outbox + Frames(entries);
    }
  }

  /** After a run of entries is logged, every client that was connected
      throughout has received exactly their frames, in order, after what it
      already had; the registry keeps its ids and order. */
  lemma DeliverAllAppendsFrames(clients: seq<Client>, entries: seq<string>)
    ensures |DeliverAll(clients, entries)| == |clients|
    ensures forall k :: 0 <= k < |clients| ==>
              DeliverAll(clients, entries)[k] == clients[k].(outbox := clients[k].outbox + Frames(entries))
  {
    DeliverAllKeepsLength(clients, entries);
    forall k | 0 <= k < |clients|
      ensures DeliverAll(clients, entries)[k] == clients[k].(outbox := clients[k].outbox + Frames(entries))
    {
      DeliverAllAt(clients, entries, k);
    }
  }

  /** A client that connects and then sees a run of entries logged holds
      exactly their frames: later entries reach it, earlier ones are not replayed. */
  lemma NewClientSeesOnlyLaterEntries(clients: seq<Client>, id: int, entries: seq<string>)
    ensures |DeliverAll(clients + [Client(id, [])], entries)| == |clients| + 1
    ensures DeliverAll(clients + [Client(id, [])], entries)[|clients|] == Client(id, Frames(entries))
  {
    DeliverAllAppendsFrames(clients + [Client(id, [])], entries);
  }
}
