/** The event bridge: the message a PTY read becomes, the events the main loop
    waits for, and the queue between the reader and the main loop. */
module Events {
  import opened Types
  import InputEncoder

  /** `struct ttychunk`: a length and the bytes of one PTY read. The reader
      allocates it with room for exactly `len` bytes; the main loop feeds those
      bytes to the emulator and frees it. */
  datatype Chunk = Chunk(len: int, data: seq<byte>)

  /** The events the main loop dispatches on. `Unhandled` stands for every other
      SDL event type (and a failed wait), which falls through all branches. */
  datatype Event =
    | Quit
    | KeyDown(key: InputEncoder.KeyCode)
    | TextInput(text: seq<byte>)
    | PtyData(chunk: Chunk)
    | Unhandled

  /** The chunks carried by the PTY events among `events`, in order. */
  function PtyChunks(events: seq<Event>): seq<Chunk> {
    if events == [] then []
    else (if events[0].PtyData? then [events[0].chunk] else []) + PtyChunks(events[1..])
  }

  lemma PtyChunksCons(events: seq<Event>, k: nat)
    requires k < |events|
    ensures PtyChunks(events[..k + 1])
            == (if events[0].PtyData? then [events[0].chunk] else []) + PtyChunks(events[1..][..k])
  {
    var prefix := events[..k + 1];
    assert prefix[0] == events[0] && prefix[1..] == events[1..][..k];
  }

  /** The chunks of a list made only of PTY events are the chunks they carry. */
  lemma {:induction false} PtyChunksOfPtyEvents(events: seq<Event>)
    requires forall i :: 0 <= i < |events| ==> events[i].PtyData?
    ensures |PtyChunks(events)| == |events|
    ensures forall i :: 0 <= i < |events| ==> PtyChunks(events)[i] == events[i].chunk
  {
    if events != [] {
      PtyChunksOfPtyEvents(events[1..]);
    }
  }

  lemma {:induction false} PtyChunksAppend(a: seq<Event>, b: seq<Event>)
    ensures PtyChunks(a + b) == PtyChunks(a) + PtyChunks(b)
    decreases |a|
  {
    if a == [] {
      assert a + b == b;
    } else {
      var head := if a[0].PtyData? then [a[0].chunk] else [];
      assert (a + b)[0] == a[0];
      assert (a + b)[1..] == a[1..] + b;
      PtyChunksAppend(a[1..], b);
      calc {
        PtyChunks(a + b);
        head + PtyChunks(a[1..] + b);
        head + (PtyChunks(a[1..]) + PtyChunks(b));
        (head + PtyChunks(a[1..])) + PtyChunks(b);
      }
    }
  }

  /** The SDL event queue, reduced to one producer and one consumer taking turns. */
  class EventQueue {
    var events: seq<Event>

    constructor ()
      ensures events == []
    {
      events := [];
    }

    /** `SDL_PushEvent`: appends `e` after everything already queued. */
    method Push(e: Event)
      modifies this
      ensures events == old(events) + [e]
    {
      events := events + [e];
    }

    /** `SDL_WaitEvent`: removes and returns the oldest event; on an empty queue
        the caller would block forever, which is reported as None. */
    method Wait() returns (e: Option<Event>)
      modifies this
      ensures old(events) == [] ==> e == None && events == []
      ensures old(events) != [] ==> e == Some(old(events)[0]) && events == old(events)[1..]
    {
      if events == [] {
        e := None;
      } else {
        e := Some(events[0]);
        events := events[1..];
      }
    }
  }
}
