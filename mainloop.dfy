/** The main loop of `main`: at the top of every iteration it redraws if the
    dirty counter is nonzero and clears it, then waits for one event and
    dispatches on it. Key and text events write to the PTY; PTY events feed
    the emulator, whose result is added to the dirty counter; Quit ends the loop. */
module MainLoop {
  import opened Types
  import opened InputEncoder
  import opened Events
  import opened Render
  import Reader

  /** What one call of `emu_core_run` does: the emulator's new state, the
      count it returns, and the bytes it writes back to the PTY through the
      `TerminalEmulator_write` callback. */
  datatype Feed<S> = Feed(state: S, redraws: nat, replies: seq<byte>)

  /** The escape-sequence interpreter, seen from outside: `emu_core_run` on a
      state and a byte string, and the grid of cells a state holds
      (`tty.rows[r]->chars[c]`). */
  datatype Emulator<!S> = Emulator(run: (S, seq<byte>) -> Feed<S>, grid: S -> Grid)

  /** Why the loop is no longer running: a Quit event was handled, the queue
      is empty so `SDL_WaitEvent` blocks for good, or the grid-shape
      `SDL_assert` of `redraw` failed. */
  datatype Status = Running | Quitted | Blocked | AssertFailed

  /** The main loop's state: the global `dirty`, the emulator state `tty`, the
      bytes written to the PTY, the bytes fed to the emulator, the chunks
      freed, the grid of each redraw, how many events were taken from the
      queue, and whether the loop still runs. */
  datatype Loop<S> = Loop(
    dirty: int,
    emu: S,
    written: seq<byte>,
    fed: seq<byte>,
    freed: seq<Chunk>,
    drawn: seq<Grid>,
    taken: nat,
    status: Status)

  /** The state on entry to the loop: `int dirty = 1`, nothing written, fed,
      freed, drawn or taken yet. It satisfies the loop's invariant. */
  function Initial<S>(init: S): (st: Loop<S>)
    ensures Consistent(st) && st.status == Running
  {
    assert Reader.ChunkData([]) == [];
    Loop(1, init, [], [], [], [], 0, Running)
  }

  /** The top of an iteration: `if (dirty) { redraw(); dirty = 0; }`. It
      touches only the dirty counter, the grids drawn and the status; it draws
      at most one grid, the current one and only when it has the asserted
      shape; and if the loop still runs afterwards, dirty is zero. */
  function RedrawStep<S>(st: Loop<S>, em: Emulator<S>): (top: Loop<S>)
    ensures top.(dirty := st.dirty, drawn := st.drawn, status := st.status) == st
    ensures top.drawn == st.drawn || (top.drawn == st.drawn + [em.grid(st.emu)] && Shaped(em.grid(st.emu)))
    ensures top.status == Running ==> top.dirty == 0
  {
    if st.dirty == 0 then st
    else if !Shaped(em.grid(st.emu)) then st.(status := AssertFailed)
    else st.(drawn := st.drawn + [em.grid(st.emu)], dirty := 0)
  }

  /** The bytes a key-down or text-input event writes to the PTY: never a
      NUL, for text a prefix of the event's text, and nothing for any other
      event. */
  function InputBytes(e: Event): (r: seq<byte>)
    ensures forall i :: 0 <= i < |r| ==> r[i] != 0
    ensures e.TextInput? ==> |r| <= |e.text| && r == e.text[..|r|]
    ensures !e.KeyDown? && !e.TextInput? ==> r == []
  {
    match e
    case KeyDown(k) => KeyBytes(k)
    case TextInput(t) => CString(t)
    case _ => []
  }

  /** The dispatch on one event taken from the queue. It takes one event and
      draws nothing; only Quit stops the loop; only a PTY event changes the
      emulator, the dirty counter, what it was fed and what was freed; and
      written bytes are only ever appended. */
  function DispatchStep<S>(st: Loop<S>, e: Event, em: Emulator<S>): (next: Loop<S>)
    ensures next.taken == st.taken + 1 && next.drawn == st.drawn
    ensures next.status == if e.Quit? then Quitted else st.status
    ensures !e.PtyData? ==> next.(written := st.written, taken := st.taken, status := st.status) == st
    ensures st.written <= next.written
  {
    var s := st.(taken := st.taken + 1);
    match e
    case Quit => s.(status := Quitted)
    case KeyDown(_) => s.(written := s.written + InputBytes(e))
    case TextInput(_) => s.(written := s.written + InputBytes(e))
    case PtyData(c) =>
      var f := em.run(s.emu, c.data);
      s.(emu := f.state, written := s.written + f.replies, fed := s.fed + c.data,
         dirty := s.dirty + f.redraws, freed := s.freed + [c])
    case Unhandled => s
  }

  /** The loop run from `st` over the events that arrive, in order. It takes
      at most the events that arrive, it always ends (the events are finite),
      and a loop that has already stopped stays as it is. */
  function RunFrom<S>(st: Loop<S>, events: seq<Event>, em: Emulator<S>): (fin: Loop<S>)
    ensures st.taken <= fin.taken <= st.taken + |events|
    ensures fin.status != Running
    ensures st.status != Running ==> fin == st
    decreases |events|
  {
    if st.status != Running then st
    else
      var top := RedrawStep(st, em);
      if top.status != Running then top
      else if events == [] then top.(status := Blocked)
      else RunFrom(DispatchStep(top, events[0], em), events[1..], em)
  }

  /** How many events the loop takes from the queue when run from `st`. */
  function Consumed<S>(st: Loop<S>, events: seq<Event>, em: Emulator<S>): (k: nat)
    ensures k <= |events|
  {
    RunFrom(st, events, em).taken - st.taken
  }

  /** One unfolding of the loop, from the top of an iteration. */
  lemma RunFromUnfold<S>(st: Loop<S>, events: seq<Event>, em: Emulator<S>)
    ensures st.status != Running ==> RunFrom(st, events, em) == st && Consumed(st, events, em) == 0
    ensures var top := RedrawStep(st, em);
            st.status == Running && top.status != Running ==>
              RunFrom(st, events, em) == top && Consumed(st, events, em) == 0
    ensures var top := RedrawStep(st, em);
            st.status == Running && top.status == Running && events == [] ==>
              RunFrom(st, events, em) == top.(status := Blocked) && Consumed(st, events, em) == 0
    ensures var top := RedrawStep(st, em);
            st.status == Running && top.status == Running && events != [] ==>
              RunFrom(st, events, em) == RunFrom(DispatchStep(top, events[0], em), events[1..], em) &&
              Consumed(st, events, em) == 1 + Consumed(DispatchStep(top, events[0], em), events[1..], em)
  {
  }

  /** The loop takes no event once it has stopped, or stops at the top of
      this iteration, or finds the queue empty; its logs stay as they are. */
  lemma RunFromHalts<S>(st: Loop<S>, events: seq<Event>, em: Emulator<S>)
    requires st.status != Running || RedrawStep(st, em).status != Running || events == []
    ensures Consumed(st, events, em) == 0
    ensures var fin := RunFrom(st, events, em);
            fin.written == st.written && fin.fed == st.fed && fin.freed == st.freed
  {
  }

  /** Otherwise it takes the first event and goes on from the state the
      dispatch leaves. */
  lemma RunFromSteps<S>(st: Loop<S>, events: seq<Event>, em: Emulator<S>)
    requires st.status == Running && RedrawStep(st, em).status == Running && events != []
    ensures var next := DispatchStep(RedrawStep(st, em), events[0], em);
            RunFrom(st, events, em) == RunFrom(next, events[1..], em) &&
            Consumed(st, events, em) == 1 + Consumed(next, events[1..], em)
  {
  }

  /** The bytes the key and text events among `events` write, in order. */
  function InputStream(events: seq<Event>): seq<byte> {
    if events == [] then [] else InputBytes(events[0]) + InputStream(events[1..])
  }

  lemma InputStreamCons(events: seq<Event>, k: nat)
    requires k < |events|
    ensures InputStream(events[..k + 1]) == InputBytes(events[0]) + InputStream(events[1..][..k])
  {
    var prefix := events[..k + 1];
    assert prefix[0] == events[0] && prefix[1..] == events[1..][..k];
  }

  /** The bytes of a list of chunks, one after another. */
  function ChunkStream(cs: seq<Chunk>): seq<byte> {
    Flatten(Reader.ChunkData(cs))
  }

  lemma ChunkStreamAppend(a: seq<Chunk>, b: seq<Chunk>)
    ensures ChunkStream(a + b) == ChunkStream(a) + ChunkStream(b)
  {
    assert Reader.ChunkData(a + b) == Reader.ChunkData(a) + Reader.ChunkData(b);
    FlattenAppend(Reader.ChunkData(a), Reader.ChunkData(b));
  }

  lemma ChunkStreamSnoc(cs: seq<Chunk>, c: Chunk)
    ensures ChunkStream(cs + [c]) == ChunkStream(cs) + c.data
  {
    assert Reader.ChunkData(cs + [c]) == Reader.ChunkData(cs) + [c.data];
    FlattenSnoc(Reader.ChunkData(cs), c.data);
  }

  /** What every state the loop reaches satisfies: the emulator has been fed
      exactly the bytes of the chunks freed so far, in order, the dirty
      counter is never negative, and every grid drawn passed the shape check. */
  predicate Consistent<S>(st: Loop<S>) {
    && st.fed == ChunkStream(st.freed)
    && st.dirty >= 0
    && forall i :: 0 <= i < |st.drawn| ==> Shaped(st.drawn[i])
  }

  /** One iteration keeps the state consistent. */
  lemma StepConsistent<S>(st: Loop<S>, e: Event, em: Emulator<S>)
    requires Consistent(st)
    ensures Consistent(RedrawStep(st, em))
    ensures Consistent(DispatchStep(RedrawStep(st, em), e, em))
  {
    var top := RedrawStep(st, em);
    if e.PtyData? {
      ChunkStreamSnoc(top.freed, e.chunk);
    }
  }

  /** Every state the loop reaches from a consistent one is consistent. */
  lemma {:induction false} RunConsistent<S>(st: Loop<S>, events: seq<Event>, em: Emulator<S>)
    requires Consistent(st)
    ensures Consistent(RunFrom(st, events, em))
    decreases |events|
  {
    RunFromUnfold(st, events, em);
    if st.status == Running && RedrawStep(st, em).status == Running && events != [] {
      StepConsistent(st, events[0], em);
      RunConsistent(DispatchStep(RedrawStep(st, em), events[0], em), events[1..], em);
    } else {
      StepConsistent(st, Unhandled, em);
    }
  }

  /** A redraw happens at the top of an iteration exactly when `dirty` is
      nonzero (and the grid passes the shape assertion); it draws the current
      grid, and `dirty` is zero right after it. */
  lemma RedrawIffDirty<S>(st: Loop<S>, em: Emulator<S>)
    requires st.status == Running
    ensures RedrawStep(st, em).status == Running <==> st.dirty == 0 || Shaped(em.grid(st.emu))
    ensures RedrawStep(st, em).status == Running ==> RedrawStep(st, em).dirty == 0
    ensures st.dirty != 0 && Shaped(em.grid(st.emu)) ==>
              RedrawStep(st, em) == st.(drawn := st.drawn + [em.grid(st.emu)], dirty := 0)
    ensures st.dirty == 0 ==> RedrawStep(st, em) == st
  {
  }

  /** Key and text events write their bytes to the PTY and change nothing
      else: neither `dirty`, nor the emulator, nor what it was fed. */
  lemma InputLeavesDirty<S>(st: Loop<S>, e: Event, em: Emulator<S>)
    requires e.KeyDown? || e.TextInput?
    ensures DispatchStep(st, e, em) == st.(written := st.written + InputBytes(e), taken := st.taken + 1)
    ensures e.KeyDown? ==> DispatchStep(st, e, em).written == st.written + KeyBytes(e.key)
    ensures e.TextInput? ==> DispatchStep(st, e, em).written == st.written + CString(e.text)
  {
  }

  /** A PTY event feeds its chunk to the emulator, adds the count it returns
      to `dirty`, writes the emulator's replies to the PTY and frees the chunk. */
  lemma PtyEventFeeds<S>(st: Loop<S>, c: Chunk, em: Emulator<S>)
    ensures var f := em.run(st.emu, c.data);
            var next := DispatchStep(st, PtyData(c), em);
            next.dirty == st.dirty + f.redraws && next.emu == f.state &&
            next.fed == st.fed + c.data && next.freed == st.freed + [c] &&
            next.written == st.written + f.replies && next.drawn == st.drawn &&
            next.status == st.status
  {
  }

  /** After an iteration's redraw, the next iteration redraws exactly when
      the event just handled was a PTY event for which the emulator returned
      a nonzero count. */
  lemma NextRedrawIffEmulatorAsked<S>(st: Loop<S>, e: Event, em: Emulator<S>)
    requires st.status == Running
    requires RedrawStep(st, em).status == Running
    ensures var top := RedrawStep(st, em);
            var next := DispatchStep(top, e, em);
            (next.dirty != 0) <==> (e.PtyData? && em.run(top.emu, e.chunk.data).redraws > 0)
  {
  }

  /** The logs only grow: nothing written, fed, freed or drawn is undone. */
  lemma {:induction false} LogsOnlyGrow<S>(st: Loop<S>, events: seq<Event>, em: Emulator<S>)
    ensures st.written <= RunFrom(st, events, em).written
    ensures st.fed <= RunFrom(st, events, em).fed
    ensures st.freed <= RunFrom(st, events, em).freed
    ensures st.drawn <= RunFrom(st, events, em).drawn
    decreases |events|
  {
    RunFromUnfold(st, events, em);
    if st.status == Running && RedrawStep(st, em).status == Running && events != [] {
      LogsOnlyGrow(DispatchStep(RedrawStep(st, em), events[0], em), events[1..], em);
    }
  }

  /** Since `dirty` starts at 1, the first iteration always redraws: the first
      grid drawn is the emulator's initial grid. */
  lemma FirstIterationRedraws<S>(init: S, events: seq<Event>, em: Emulator<S>)
    requires Shaped(em.grid(init))
    ensures |RunFrom(Initial(init), events, em).drawn| >= 1
    ensures RunFrom(Initial(init), events, em).drawn[0] == em.grid(init)
  {
    var top := RedrawStep(Initial(init), em);
    assert top.drawn == [em.grid(init)];
    RunFromUnfold(Initial(init), events, em);
    if events != [] {
      LogsOnlyGrow(DispatchStep(top, events[0], em), events[1..], em);
    }
  }

  /** With an emulator that never asks for a redraw, a loop whose dirty
      counter is clear draws nothing more, whatever events arrive. */
  lemma {:induction false} QuietLoopDrawsNothing<S(!new)>(st: Loop<S>, events: seq<Event>, em: Emulator<S>)
    requires Quiet(em) && st.dirty == 0
    ensures RunFrom(st, events, em).drawn == st.drawn
    decreases |events|
  {
    if st.status == Running && events != [] {
      RunFromSteps(st, events, em);
      var next := DispatchStep(RedrawStep(st, em), events[0], em);
      assert next.dirty == 0;
      QuietLoopDrawsNothing(next, events[1..], em);
    }
  }

  /** The dirty flag over a whole run: with an emulator that never asks for a
      redraw, the only frame ever drawn is the first one, of the initial grid. */
  lemma OnlyFirstFrameWhenQuiet<S(!new)>(init: S, events: seq<Event>, em: Emulator<S>)
    requires Quiet(em) && Shaped(em.grid(init))
    ensures RunFrom(Initial(init), events, em).drawn == [em.grid(init)]
  {
    var top := RedrawStep(Initial(init), em);
    assert top.drawn == [em.grid(init)] && top.dirty == 0;
    if events != [] {
      RunFromSteps(Initial(init), events, em);
      QuietLoopDrawsNothing(DispatchStep(top, events[0], em), events[1..], em);
    }
  }

  /** The loop only stops at a Quit event, at the end of the events (blocked
      in `SDL_WaitEvent`), or at a failed assertion; no event after a Quit is
      taken. */
  lemma {:induction false} StopReason<S>(st: Loop<S>, events: seq<Event>, em: Emulator<S>)
    requires st.status == Running
    ensures var k := Consumed(st, events, em);
            var fin := RunFrom(st, events, em);
            (fin.status == Blocked && k == |events|) ||
            (fin.status == Quitted && 0 < k && events[k - 1] == Quit) ||
            fin.status == AssertFailed
    ensures forall i :: 0 <= i < Consumed(st, events, em) - 1 ==> events[i] != Quit
    decreases |events|
  {
    RunFromUnfold(st, events, em);
    var top := RedrawStep(st, em);
    if top.status == Running && events != [] {
      var next := DispatchStep(top, events[0], em);
      if events[0] != Quit {
        StopReason(next, events[1..], em);
        var k := Consumed(next, events[1..], em);
        assert forall i :: 1 <= i < k ==> events[i] == events[1..][i - 1];
      } else {
        RunFromUnfold(next, events[1..], em);
      }
    }
  }

  /** Quit ends the loop: whatever follows it is never processed. */
  lemma {:induction false} QuitEndsLoop<S>(st: Loop<S>, pre: seq<Event>, post: seq<Event>, em: Emulator<S>)
    ensures RunFrom(st, pre + [Quit] + post, em) == RunFrom(st, pre + [Quit], em)
    ensures RunFrom(st, pre + [Quit], em).status != Running
    decreases |pre|
  {
    RunFromUnfold(st, pre + [Quit] + post, em);
    RunFromUnfold(st, pre + [Quit], em);
    if st.status == Running && RedrawStep(st, em).status == Running {
      var next := DispatchStep(RedrawStep(st, em), (pre + [Quit])[0], em);
      if pre == [] {
        assert (pre + [Quit] + post)[1..] == post;
        RunFromUnfold(next, post, em);
        RunFromUnfold(next, [], em);
      } else {
        assert (pre + [Quit] + post)[1..] == pre[1..] + [Quit] + post;
        assert (pre + [Quit])[1..] == pre[1..] + [Quit];
        QuitEndsLoop(next, pre[1..], post, em);
      }
    }
  }

  /** One iteration frees the chunk of a PTY event and nothing else. */
  lemma StepFreed<S>(st: Loop<S>, e: Event, em: Emulator<S>)
    ensures DispatchStep(RedrawStep(st, em), e, em).freed
            == st.freed + (if e.PtyData? then [e.chunk] else [])
  {
  }

  /** Each chunk of the PTY events the loop takes is freed exactly once, in
      queue order, and no other chunk is freed. */
  lemma {:induction false} ParserInput<S>(st: Loop<S>, events: seq<Event>, em: Emulator<S>)
    ensures RunFrom(st, events, em).freed == st.freed + PtyChunks(events[..Consumed(st, events, em)])
    decreases |events|
  {
    if st.status != Running || RedrawStep(st, em).status != Running || events == [] {
      RunFromHalts(st, events, em);
    } else {
      var next := DispatchStep(RedrawStep(st, em), events[0], em);
      RunFromSteps(st, events, em);
      ParserInput(next, events[1..], em);
      PtyChunksCons(events, Consumed(next, events[1..], em));
      StepFreed(st, events[0], em);
    }
  }

  /** The emulator is fed the bytes of the chunks of the PTY events the loop
      takes, joined in queue order: no byte lost, repeated or reordered. */
  lemma ParserFed<S>(st: Loop<S>, events: seq<Event>, em: Emulator<S>)
    requires Consistent(st)
    ensures RunFrom(st, events, em).fed == st.fed + ChunkStream(PtyChunks(events[..Consumed(st, events, em)]))
  {
    ParserInput(st, events, em);
    RunConsistent(st, events, em);
    ChunkStreamAppend(st.freed, PtyChunks(events[..Consumed(st, events, em)]));
  }

  /** The emulator never writes back to the PTY. */
  ghost predicate Silent<S(!new)>(em: Emulator<S>) {
    forall s, d :: em.run(s, d).replies == []
  }

  /** The emulator never asks for a redraw. */
  ghost predicate Quiet<S(!new)>(em: Emulator<S>) {
    forall s, d :: em.run(s, d).redraws == 0
  }

  /** One iteration on an event that is not from the PTY, or on any event
      when the emulator is silent, writes exactly that event's encoding. */
  lemma StepWritten<S(!new)>(st: Loop<S>, e: Event, em: Emulator<S>)
    requires !e.PtyData? || Silent(em)
    ensures DispatchStep(RedrawStep(st, em), e, em).written == st.written + InputBytes(e)
  {
  }

  /** When no PTY event arrives, or the emulator never writes back, the PTY
      receives exactly the encodings of the key and text events taken, in
      order. */
  lemma {:induction false} InputForwarding<S(!new)>(st: Loop<S>, events: seq<Event>, em: Emulator<S>)
    requires Silent(em) || forall i :: 0 <= i < |events| ==> !events[i].PtyData?
    ensures RunFrom(st, events, em).written == st.written + InputStream(events[..Consumed(st, events, em)])
    decreases |events|
  {
    if st.status != Running || RedrawStep(st, em).status != Running || events == [] {
      RunFromHalts(st, events, em);
    } else {
      var next := DispatchStep(RedrawStep(st, em), events[0], em);
      RunFromSteps(st, events, em);
      StepWritten(st, events[0], em);
      InputForwarding(next, events[1..], em);
      InputStreamCons(events, Consumed(next, events[1..], em));
    }
  }

  /** The bytes of any prefix of the reader's events are a prefix of the
      bytes read. */
  lemma PushedStream(results: seq<Reader.ReadResult>, k: nat)
    requires k <= |Reader.Pushed(results)|
    ensures ChunkStream(PtyChunks(Reader.Pushed(results)[..k]))
            <= ChunkStream(PtyChunks(Reader.Pushed(results)))
  {
    var events := Reader.Pushed(results);
    assert events == events[..k] + events[k..];
    PtyChunksAppend(events[..k], events[k..]);
    ChunkStreamAppend(PtyChunks(events[..k]), PtyChunks(events[k..]));
  }

  /** On PTY events only, the loop takes them all unless the grid assertion
      stops it. */
  lemma PtyOnlyTakesAll<S>(st: Loop<S>, events: seq<Event>, em: Emulator<S>)
    requires st.status == Running
    requires forall i :: 0 <= i < |events| ==> events[i].PtyData?
    ensures RunFrom(st, events, em).status != AssertFailed ==> Consumed(st, events, em) == |events|
  {
    StopReason(st, events, em);
  }

  /** The reader-to-emulator stream, from any running state that has fed and
      freed nothing yet. */
  lemma ReaderToParserFrom<S>(st: Loop<S>, results: seq<Reader.ReadResult>, em: Emulator<S>)
    requires st.status == Running && st.fed == [] && st.freed == [] && st.dirty >= 0
    requires forall i :: 0 <= i < |st.drawn| ==> Shaped(st.drawn[i])
    ensures var fin := RunFrom(st, Reader.Pushed(results), em);
            fin.fed <= Flatten(Reader.ReadBytes(results[..Reader.DataReads(results)])) &&
            (fin.status != AssertFailed ==>
               fin.freed == Reader.Chunks(results) &&
               fin.fed == Flatten(Reader.ReadBytes(results[..Reader.DataReads(results)])))
  {
    var events := Reader.Pushed(results);
    var k := Consumed(st, events, em);
    var fin := RunFrom(st, events, em);
    assert Reader.ChunkData([]) == [];
    ParserFed(st, events, em);
    ParserInput(st, events, em);
    PtyOnlyTakesAll(st, events, em);
    PushedPrefix(results, k, fin.fed, fin.freed, fin.status != AssertFailed);
  }

  /** What a loop that took `k` of the reader's events has fed and freed,
      with `all` saying whether it took every one. The run itself enters only
      through these values, so that the proof about the byte streams does not
      unfold the loop. */
  lemma PushedPrefix(results: seq<Reader.ReadResult>, k: nat, fed: seq<byte>, freed: seq<Chunk>, all: bool)
    requires k <= |Reader.Pushed(results)|
    requires fed == ChunkStream(PtyChunks(Reader.Pushed(results)[..k]))
    requires freed == PtyChunks(Reader.Pushed(results)[..k])
    requires all ==> k == |Reader.Pushed(results)|
    ensures fed <= Flatten(Reader.ReadBytes(results[..Reader.DataReads(results)]))
    ensures all ==> freed == Reader.Chunks(results) &&
                    fed == Flatten(Reader.ReadBytes(results[..Reader.DataReads(results)]))
  {
    var events := Reader.Pushed(results);
    PushedStream(results, k);
    if all {
      assert events[..k] == events;
    }
  }

  /** From the reader to the emulator: run on the events the reader pushes,
      the loop feeds the emulator every byte of every positive read before
      the first read returning zero or less, in order, with nothing lost or
      repeated, and frees every chunk once (unless the grid assertion stops
      it first, in which case what it fed is a prefix of that stream). */
  lemma ReaderToParser<S>(init: S, results: seq<Reader.ReadResult>, em: Emulator<S>)
    ensures var fin := RunFrom(Initial(init), Reader.Pushed(results), em);
            fin.fed <= Flatten(Reader.ReadBytes(results[..Reader.DataReads(results)])) &&
            (fin.status != AssertFailed ==>
               fin.freed == Reader.Chunks(results) &&
               fin.fed == Flatten(Reader.ReadBytes(results[..Reader.DataReads(results)])))
  {
    ReaderToParserFrom(Initial(init), results, em);
  }

  /** The program's global state (`dirty`, `tty`, the renderer, the PTY's
      write side) as an object the main loop updates in place. */
  class Terminal<S> {
    var dirty: int
    var emu: S
    var written: seq<byte>
    var fed: seq<byte>
    ghost var freed: seq<Chunk>
    /** The renderer calls of each redraw, and the grid each one drew. */
    var frames: seq<seq<DrawOp>>
    ghost var drawn: seq<Grid>
    ghost var taken: nat
    var status: Status

    ghost function State(): Loop<S>
      reads this
    {
      Loop(dirty, emu, written, fed, freed, drawn, taken, status)
    }

    /** Each frame is the full redraw of the grid logged with it. */
    ghost predicate FramesDrawn()
      reads this
    {
      |frames| == |drawn| &&
      forall i :: 0 <= i < |frames| ==> Shaped(drawn[i]) && frames[i] == Frame(drawn[i])
    }

    /** The state after `emu_core_init`: dirty set, nothing done yet. */
    constructor (init: S)
      ensures State() == Initial(init) && frames == [] && FramesDrawn()
    {
      dirty := 1;
      emu := init;
      written := [];
      fed := [];
      freed := [];
      frames := [];
      drawn := [];
      taken := 0;
      status := Running;
    }

    /** `if (dirty) { redraw(); dirty = 0; }`. A redraw appends the frame of
        the current grid. */
    method RedrawIfDirty(em: Emulator<S>)
      requires FramesDrawn()
      modifies this
      ensures State() == RedrawStep(old(State()), em) && FramesDrawn()
      ensures |drawn| == |old(drawn)| ==> frames == old(frames)
      ensures |drawn| != |old(drawn)| ==> frames == old(frames) + [Frame(em.grid(emu))]
    {
      if dirty != 0 {
        var grid := em.grid(emu);
        if !Shaped(grid) {
          // SDL_assert(tty.wRows == SCREEN_ROWS && tty.wCols == SCREEN_COLS)
          status := AssertFailed;
          return;
        }
        var ops := Redraw(grid);
        frames := frames + [ops];
        drawn := drawn + [grid];
        dirty := 0;
      }
    }

    /** The dispatch on one event taken from the queue. */
    method Handle(e: Event, em: Emulator<S>)
      modifies this
      ensures State() == DispatchStep(old(State()), e, em)
      ensures frames == old(frames)
    {
      taken := taken + 1;
      match e {
        case Quit =>
          status := Quitted;
        case KeyDown(k) =>
          written := written + KeyBytes(k);
        case TextInput(t) =>
          written := written + CString(t);
        case PtyData(chunk) =>
          var f := em.run(emu, chunk.data);
          emu := f.state;
          written := written + f.replies;
          fed := fed + chunk.data;
          dirty := dirty + f.redraws;
          freed := freed + [chunk];   // free(chunk)
        case Unhandled =>
      }
    }

    /** `for (;;)` over the events in the queue. */
    method Run(q: EventQueue, em: Emulator<S>)
      requires FramesDrawn()
      modifies this, q
      ensures State() == RunFrom(old(State()), old(q.events), em) && FramesDrawn()
      ensures q.events == old(q.events)[Consumed(old(State()), old(q.events), em)..]
    {
      ghost var st0 := State();
      ghost var evs := q.events;
      ghost var n := 0;
      while status == Running
        invariant FramesDrawn()
        invariant n <= |evs| && q.events == evs[n..]
        invariant RunFrom(State(), q.events, em) == RunFrom(st0, evs, em)
        invariant taken == st0.taken + n
        decreases |q.events|, if status == Running then 1 else 0
      {
        RunFromUnfold(State(), q.events, em);
        RedrawIfDirty(em);
        if status != Running {
          break;
        }
        var e := q.Wait();
        match e {
          case None =>
            status := Blocked;
          case Some(ev) =>
            Handle(ev, em);
            n := n + 1;
            assert q.events == evs[n..];
        }
      }
      RunFromUnfold(State(), q.events, em);
    }
  }
}
