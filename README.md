# sdlterm: a Dafny model of the PTY bridge and render loop

sdlterm is a small SDL terminal front-end. It runs a login shell on a
pseudo-terminal (PTY). A reader thread turns each read of the PTY master
into a heap chunk and pushes it as an SDL event. The main loop turns key
presses and text input into bytes written to the PTY. It feeds PTY chunks to
an external escape-sequence interpreter (`emu_core_run`) and redraws the
fixed 25 x 80 grid from an 8 x 16 font atlas whenever the `dirty` counter is
nonzero.

This project models the four pieces of sequential logic in `sdlterm.c`:

- **Input encoder** (module `InputEncoder`): the key-code switch and the
  `strlen`-bounded `writeStr`.
- **Reader thread** (modules `Reader`, `Events`): `tty_reader`'s loop. It is
  run over a finite sequence of `read` results and pushes onto an
  `EventQueue` object.
- **Render engine** (module `Render`): the source and destination rectangle
  arithmetic, and `redraw`'s nested loops. `redraw` becomes a method that
  returns the renderer calls it makes (`Clear`, 2000 `Copy(src, dst)`,
  `Present`).
- **Main loop** (module `MainLoop`): a `Terminal` class holding the
  program's globals. Its `Run` method consumes the queue and is specified by
  the pure function `RunFrom`. The lemmas about `RunFrom` cover the dirty
  flag, the redraws, forwarding and Quit.

The interpreter is external. It is a parameter `Emulator<S>` over an opaque
state `S`, made of two functions:

- `run` gives the new state, the returned count and the bytes the
  interpreter writes back through the `TerminalEmulator_write` callback;
- `grid` gives the cells the state holds.

A finite sequence of events or reads that runs out means the thread is
blocked forever in `SDL_WaitEvent` or `read`. The main loop reports this as
status `Blocked`, and `TtyReader` returns `ended == false`.

The code sends `ESC [ C` for LEFT and `ESC [ D` for RIGHT. This swaps the two keys with
respect to ECMA-48 CUF (section 8.3.20, `ESC [ C`, cursor forward) and CUB
(section 8.3.18, `ESC [ D`, cursor backward). `ArrowKeysTransposed` states
the swap. The vertical offset in `redraw` is computed with `HORZ_PADDING`.
That has no effect because both paddings are 8 (`DstInWindow`).

## Model

| member | source | states |
|---|---|---|
| `InputEncoder.CString` | sdlterm.c:61-64 | what `writeStr` sends is the longest NUL-free prefix of the buffer: a prefix, no NUL in it, and a NUL right after it unless the whole buffer is sent |
| `InputEncoder.CStringOfNulFree` | sdlterm.c:61-64 | a string without a NUL byte is written in full |
| `InputEncoder.KeyLiteral` | sdlterm.c:205-228 | the switch has a literal exactly for the eight handled key codes; each is 1 to 3 bytes long and holds no NUL |
| `InputEncoder.KeyBytes` | sdlterm.c:205-228 | a key-down event writes something exactly when its code is handled, at most 3 bytes and never a NUL |
| `InputEncoder.KeyWritesWholeLiteral` | sdlterm.c:205-228 | each key literal passed to `writeStr` is sent in full, since none holds a NUL byte |
| `InputEncoder.KeyTable` | sdlterm.c:205-228 | ESCAPE sends 1B, BACKSPACE 7F, UP 1B 5B 41, DOWN 1B 5B 42, LEFT 1B 5B 43, RIGHT 1B 5B 44, RETURN and RETURN2 0D; every other key code sends nothing; a handled key sends 1 to 3 bytes |
| `InputEncoder.KeyBytesInjective` | sdlterm.c:205-228 | two handled keys send the same bytes only if they are the same key or the two Return keys |
| `InputEncoder.ArrowKeysTransposed` | sdlterm.c:212-223 | UP and DOWN send ECMA-48 CUU and CUD; LEFT sends CUF (cursor forward) and RIGHT sends CUB (cursor backward), the reverse of their names |
| `Events.EventQueue.constructor` | sdlterm.c:163 | the event queue starts empty |
| `Events.EventQueue.Push` | sdlterm.c:87 | a pushed event goes after every queued event |
| `Events.EventQueue.Wait` | sdlterm.c:200-201 | waiting removes and returns the oldest event; an empty queue returns nothing and stays empty |
| `Reader.DataReads` | sdlterm.c:77 | the number of leading reads that return data: all of them positive, and the next one, if any, returns zero or less |
| `Reader.ChunkOf` | sdlterm.c:78-80 | the chunk of a valid positive read holds 1 to 256 bytes, `len` of them, and they are the bytes read |
| `Reader.Chunks` | sdlterm.c:77-88 | one chunk per positive read, in read order, built from that read; none for the first read returning zero or less or any read after it |
| `Reader.Pushed` | sdlterm.c:77-88 | the reader pushes one PTY event per read that returned data; the chunks they carry, in queue order, are the reader's chunks, and their bytes joined are the bytes of every read before the first one returning zero or less |
| `Reader.ChunkContents` | sdlterm.c:75-80 | every pushed chunk has 1 <= len <= 256, its len is the count its read returned, and its data are exactly that read's bytes |
| `Reader.ReaderStream` | sdlterm.c:77-89 | the pushed chunks joined in push order are the bytes of all reads before the first read returning zero or less |
| `Reader.TwoReadsThenEof` | sdlterm.c:77-88 | reads of 100 and 50 bytes, then end of file, give two chunks of 100 and 50 bytes in that order, and nothing for the end of file |
| `Reader.TtyReader` | sdlterm.c:73-90 | the loop appends exactly the reader's events to the queue and reports whether it met a read returning zero or less |
| `Render.SrcRect` | sdlterm.c:142-152 | the source rect is 8 x 16, lies inside the 256 x 128 atlas, is aligned to the glyph grid, and its atlas position names the cell's low byte |
| `Render.SrcRectLowByte` | sdlterm.c:142-146 | two cells have the same source rect if and only if their low bytes are equal |
| `Render.DstRect` | sdlterm.c:148-152 | each destination rect is one 8 x 16 glyph, and its corner gives back its row and column |
| `Render.DstInWindow` | sdlterm.c:148-152 | each cell's destination rect lies inside the 656 x 416 window less the 8-pixel padding on every side |
| `Render.DstDisjoint` | sdlterm.c:148-152 | the destination rects of two distinct cells do not overlap |
| `Render.DstCoversInterior` | sdlterm.c:148-152 | every pixel of the padded interior lies in the destination rect of a grid cell, which is named |
| `Render.RowMajorIndex` | sdlterm.c:137-139 | position row * 80 + col of the row-major order is row `row`, column `col` |
| `Render.FrameBlitsEachCellOnce` | sdlterm.c:137-158 | a redraw blits cell (r, c) at position 1 + 80r + c, no other copy targets that cell's rect, and nothing before the last operation presents |
| `Render.Redraw` | sdlterm.c:128-159 | `redraw` clears, copies each of the 25 x 80 cells in row-major order from its glyph's source rect to its destination rect, then presents |
| `MainLoop.Initial` | sdlterm.c:24 | the loop starts running, with nothing fed or freed, dirty set, and so satisfying the loop invariant |
| `MainLoop.RedrawStep` | sdlterm.c:195-198 | the top of an iteration changes only dirty, the grids drawn and the status; it draws at most one grid, the current one, and only a 25 x 80 one; if the loop still runs, dirty is 0 |
| `MainLoop.InputBytes` | sdlterm.c:204-230 | what a key or text event writes never holds a NUL, text writes a prefix of its text, and any other event writes nothing |
| `MainLoop.DispatchStep` | sdlterm.c:200-235 | one event is taken and nothing is drawn; only Quit stops the loop; an event not from the PTY changes only the bytes written; written bytes are only appended |
| `MainLoop.RunFrom` | sdlterm.c:194-237 | the loop takes at most the events that arrive and, on finitely many events, always stops; a stopped loop stays as it is |
| `MainLoop.StepConsistent` | sdlterm.c:195-235 | one iteration keeps the emulator input equal to the bytes of the freed chunks, keeps dirty non-negative, and draws only grids of 25 x 80 cells |
| `MainLoop.RunConsistent` | sdlterm.c:194-237 | every state the loop reaches keeps that invariant |
| `MainLoop.RedrawIffDirty` | sdlterm.c:195-198 | the top of an iteration redraws the current grid exactly when dirty is nonzero (or stops on the grid-shape assertion), and dirty is 0 afterwards |
| `MainLoop.InputLeavesDirty` | sdlterm.c:204-230 | a key or text event appends its encoding to the PTY output and changes nothing else, dirty included |
| `MainLoop.PtyEventFeeds` | sdlterm.c:231-234 | a PTY event feeds its chunk to the emulator, adds the returned count to dirty, writes the emulator's replies and frees the chunk |
| `MainLoop.NextRedrawIffEmulatorAsked` | sdlterm.c:195-233 | after a redraw, the next iteration redraws exactly when the event just handled was a PTY event for which the emulator returned a nonzero count |
| `MainLoop.LogsOnlyGrow` | sdlterm.c:194-237 | what was written, fed, freed or drawn is never undone |
| `MainLoop.FirstIterationRedraws` | sdlterm.c:194-198 | since dirty starts at 1, the first grid drawn is the emulator's initial grid |
| `MainLoop.QuietLoopDrawsNothing` | sdlterm.c:195-198 | with an emulator that never returns a nonzero count, a loop with dirty clear draws nothing more, whatever events arrive |
| `MainLoop.OnlyFirstFrameWhenQuiet` | sdlterm.c:194-237 | with such an emulator, the only grid a whole run draws is the initial one, drawn once |
| `MainLoop.StopReason` | sdlterm.c:200-203 | the loop stops only at a Quit event, which is the last event taken, or blocked with every event taken, or on the failed assertion |
| `MainLoop.QuitEndsLoop` | sdlterm.c:202-203 | the events after a Quit have no effect at all, and the loop has stopped |
| `MainLoop.ParserInput` | sdlterm.c:231-234 | the chunks freed are the chunks of the PTY events taken, each once and in queue order, and no others |
| `MainLoop.ParserFed` | sdlterm.c:231-234 | from a consistent state, the emulator is fed the bytes of the chunks of the PTY events taken, joined in queue order |
| `MainLoop.InputForwarding` | sdlterm.c:204-230 | when no PTY event arrives, or the emulator never writes back, the PTY receives exactly the encodings of the key and text events taken, in order |
| `MainLoop.ReaderToParser` | sdlterm.c:77-89 | on the reader's events, the emulator always receives a prefix of the positive reads' bytes, and all of them in order, each chunk freed once, unless the grid assertion stops it |
| `MainLoop.Terminal.constructor` | sdlterm.c:20-26 | the globals start with dirty = 1, the initial emulator state, and nothing written, fed or drawn |
| `MainLoop.Terminal.RedrawIfDirty` | sdlterm.c:195-198 | the method changes the state as `RedrawStep` says; it appends the full 2002-operation frame of the current grid exactly when it draws, so every frame is the redraw of the grid logged with it |
| `MainLoop.Terminal.Handle` | sdlterm.c:202-235 | the dispatch changes the state as `DispatchStep` says, for each event kind, and draws nothing |
| `MainLoop.Terminal.Run` | sdlterm.c:194-237 | the loop leaves the state that `RunFrom` gives for the queued events, removes exactly the events it took from the queue, and every frame it drew is the redraw of a logged grid |

## Left out

- SDL setup, window, renderer and texture creation, and `IMG_Load` (sdlterm.c:163-186). These are foreign library calls. Their fatal error paths (`sdl_die`) are left out too.
- `SDL_RenderClear`, `SDL_RenderCopy` and `SDL_RenderPresent` are recorded as operations, not executed. When the grid-shape assertion fails, the model records no part of that frame, although the source has already cleared the renderer.
- `tty_init` (sdlterm.c:92-124): `forkpty`, `setsid`, `setenv("TERM")`, the login shell from `getpwuid` or `/bin/sh`, `execl`, and the exit paths. This is process plumbing outside the model.
- The reader thread, `SDL_CreateThread`, and the locking inside `SDL_PushEvent`/`SDL_WaitEvent`. The queue is a plain sequence, and the reader and the main loop are run one after the other, never interleaved.
- The internals of `emu_core_init` and `emu_core_run` and the `emuState`/`termRow` layout. `fvemu.h` is not part of this model. The interpreter is the opaque `Emulator` parameter, and its count is taken as non-negative.
- The callbacks `TerminalEmulator_bell`, `TerminalEmulator_setTitle`, `TerminalEmulator_resize` and `TerminalEmulator_freeRowBitmaps` (sdlterm.c:41-54, 66-69). They print, set the window title, or do nothing.
- `SDL_PushEvent`'s return value, which the reader never checks (sdlterm.c:87). SDL's queue is bounded. When it is full, the push fails, the chunk is never freed and its bytes never reach the emulator. `Events.EventQueue.Push` always appends, so the "nothing lost" promises of `Reader.ReaderStream`, `Reader.Pushed` and `MainLoop.ReaderToParser` hold only for a queue that never fills.
- `SDL_assert` (sdlterm.c:132-133) is taken as fatal: a failed grid-shape check ends the loop with status `AssertFailed`. In SDL the check is compiled out at low assertion levels, and the default handler can let the program go on. The model does not cover a redraw that carries on past a failed check.
- The return value of `write`, which is never checked. Writes are modelled as unconditional appends, and partial writes are not modelled.
- `malloc` and `free` of chunks. A chunk is a value. Freeing is the ghost log `freed`, which shows each chunk freed once, in order.
- The unused `palette` pointer (sdlterm.c:135).
- C `int` overflow of `dirty` is not modelled. It is reset to 0 at every redraw and only grows by the emulator's count.
- `MainLoop.Terminal.Handle`: a chunk's bytes are taken to be its `data`. The reader builds each chunk with `len == |data|` (`Reader.ChunkContents`), so `chunk->data, chunk->len` are these bytes.
- Key codes are SDL2's values for `SDLK_*`. `SDL_keycode.h` is not part of this model. A text-input event's text is any byte string, not the fixed 32-byte SDL buffer.
