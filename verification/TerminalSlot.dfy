/** One desktop terminal: the single active pty, the superseded-exit rule, and the numbering of
    everything it reports. */
module TerminalSlot {
  import opened Options
  import opened Utf16
  import opened SlotEvents

  /** A pty is named by the spawn that created it. */
  type Pty = nat

  const DEFAULT_COLS := 100
  const DEFAULT_ROWS := 30
  const CHUNK_MAX_BYTES := 16 * 1024

  predicate ValidDims(cols: int, rows: int) { cols > 0 && rows > 0 }

  function StartSize(size: Option<(int, int)>): (nat, nat) {
    if size.Some? && ValidDims(size.value.0, size.value.1) then (size.value.0, size.value.1)
    else (DEFAULT_COLS, DEFAULT_ROWS)
  }

  /** What is reported while the old pty, if any, is killed. */
  function Gone(h: History, had: bool, last: seq<JsString>, exits: bool): History {
    if had && exits then Then(WithOutput(h, last), State(Exited)) else if had then WithOutput(h, last) else h
  }

  /** What is reported of a new pty until it is wired, with its start marker. */
  function Came(h: History, pieces: seq<JsString>, diesAtOnce: bool, start: SlotEvent): History {
    if diesAtOnce then Then(Then(WithOutput(h, pieces), State(Exited)), start)
    else Then(Then(WithOutput(h, pieces), start), State(Running))
  }

  class TerminalSlot {
    var active: Option<Pty>
    var state: SlotState
    var cols: nat
    var rows: nat
    var q: nat
    ghost var log: History  // everything ever reported to the listeners

    ghost predicate Valid()
      reads this
    {
      && log.Proper() && q == log.LastQ()
      && (state.Running? <==> active.Some?)
      && log.Alive() == state.Running?
      && (state.Running? ==> ValidDims(cols, rows))
      && (cols, rows) == log.Dims() && log.Sized()
    }

    constructor ()
      ensures Valid() && log == Empty && log.Announced() && active == None
    {
      active, state, cols, rows, q, log := None, NotStarted, 0, 0, 0, Empty;
    }

    /** Replaces the active pty by `pty`. While it is killed the old one may still print `farewell` and, if
        `exitsInKill`, report its exit; `killFails` says that the kill then throws: the new pty is dropped. `early` is
        what the new one prints while it is being wired, before it is reported; `diesAtOnce` that it also exits then:
        the start marker is still reported, the state stays 'exited'. Output stays announced if and only if there was
        none so early, or the old process was still reported running. */
    method Start(pty: Pty, size: Option<(int, int)>, farewell: JsString, exitsInKill: bool, killFails: bool,
                 early: JsString, diesAtOnce: bool)
      returns (last: seq<JsString>, pieces: seq<JsString>)
      requires Valid()
      modifies this
      ensures Valid() && IsSplit(last, if old(active.Some?) then farewell else [], CHUNK_MAX_BYTES)
      ensures var after := Gone(old(log), old(active.Some?), last, exitsInKill);
              if killFails && old(active.Some?) then
                && log == after && q == old(q) + |last| && (cols, rows) == old((cols, rows)) && pieces == []
                && active == (if exitsInKill then None else old(active))
                && state == if exitsInKill then Exited else Running
              else
                && IsSplit(pieces, early, CHUNK_MAX_BYTES) && q == old(q) + |last| + |pieces| + 1
                && (cols, rows) == StartSize(size) && active == (if diesAtOnce then None else Some(pty))
                && log == Came(after, pieces, diesAtOnce, SlotEvent.Start(q, cols, rows))
                && (old(log.Announced()) ==>
                      (log.Announced() <==> early == [] || (old(state.Running?) && !exitsInKill)))
    {
      hide IsSplit, WithOutput, StartSize, ValidDims, Came;
      last, pieces := [], [];
      NothingSplit(CHUNK_MAX_BYTES);
      if active.Some? {
        last := KillOld(farewell, exitsInKill);
        if killFails { return; }
      }
      pieces := Wire(pty, size, early, diesAtOnce);
    }

    /** The active pty is being killed. */
    method KillOld(farewell: JsString, exits: bool) returns (last: seq<JsString>)
      requires Valid() && active.Some?
      modifies this`active, this`state, this`q, this`log
      ensures Valid() && IsSplit(last, farewell, CHUNK_MAX_BYTES) && log == Gone(old(log), true, last, exits)
      ensures q == old(q) + |last| && (old(log.Announced()) ==> log.Announced())
      ensures active == (if exits then None else old(active)) && state == if exits then Exited else Running
    {
      hide IsSplit, ValidDims;
      last := Emit(farewell);
      if exits { active, state, log := None, Exited, Then(log, State(Exited)); }
    }

    /** The new pty takes the old one's place. */
    method Wire(pty: Pty, size: Option<(int, int)>, early: JsString, diesAtOnce: bool) returns (pieces: seq<JsString>)
      requires Valid()
      modifies this
      ensures Valid() && IsSplit(pieces, early, CHUNK_MAX_BYTES) && q == old(q) + |pieces| + 1
      ensures (cols, rows) == StartSize(size) && active == (if diesAtOnce then None else Some(pty))
      ensures log == Came(old(log), pieces, diesAtOnce, SlotEvent.Start(q, cols, rows))
      ensures old(log.Announced()) ==> (log.Announced() <==> early == [] || old(log.Alive()))
    {
      hide IsSplit, WithOutput, StartSize;
      active := Some(pty);
      pieces := Emit(early);
      NothingFromNothing(pieces, early, CHUNK_MAX_BYTES);
      if diesAtOnce {
        active, state, log := None, Exited, Then(log, State(Exited));
      }
      OnAlive(size);
      assert log.before.Sized() && log.Sized() && log.Dims() == (cols, rows);
      assert log.before.Proper() && log.before.LastQ() == if diesAtOnce then q - 1 else q;
      assert log.Proper() && q == log.LastQ() && log.Alive() == state.Running?;
    }

    /** The pty is wired: the start marker is reported, and the state if the pty is still there. */
    method OnAlive(size: Option<(int, int)>)
      requires q == log.LastQ() && (active == None ==> !state.Running?)
      modifies this`state, this`q, this`cols, this`rows, this`log
      ensures state == (if active.Some? then Running else old(state)) && ValidDims(cols, rows)
      ensures q == old(q) + 1 && (cols, rows) == StartSize(size)
      ensures var started := Then(old(log), SlotEvent.Start(q, cols, rows));
              log == if active.Some? then Then(started, State(Running)) else started
    {
      var alive := active.Some?;
      if alive { state := Running; }
      q := q + 1;
      if size.Some? && ValidDims(size.value.0, size.value.1) {
        cols, rows := size.value.0, size.value.1;
      } else {
        cols, rows := DEFAULT_COLS, DEFAULT_ROWS;
      }
      log := Then(log, SlotEvent.Start(q, cols, rows));
      if alive { log := Then(log, State(Running)); }
    }

    /** Reports text in pieces, each under the next number. */
    method Emit(data: JsString) returns (pieces: seq<JsString>)
      requires q == log.LastQ()
      modifies this`q, this`log
      ensures IsSplit(pieces, data, CHUNK_MAX_BYTES) && log == WithOutput(old(log), pieces) && q == log.LastQ()
    {
      pieces := SplitUtf8(data, CHUNK_MAX_BYTES);
      hide IsSplit;
      var i := 0;
      while i < |pieces|
        invariant 0 <= i <= |pieces|
        invariant log == WithOutput(old(log), pieces[..i])
        invariant q == log.LastQ()
      {
        assert pieces[..i + 1][..i] == pieces[..i];
        q := q + 1;
        log := Then(log, Out(q, pieces[i]));
        i := i + 1;
      }
      assert pieces[..|pieces|] == pieces;
    }

    /** Output of `pty`, reported in pieces. A pty that was superseded or has exited is not heard. */
    method OnData(pty: Pty, data: JsString) returns (pieces: seq<JsString>)
      requires Valid()
      modifies this`q, this`log
      ensures Valid() && (old(log.Announced()) ==> log.Announced())
      ensures active != Some(pty) ==> log == old(log)
      ensures active == Some(pty) ==>
                IsSplit(pieces, data, CHUNK_MAX_BYTES) && log == WithOutput(old(log), pieces)
    {
      pieces := [];
      if active != Some(pty) {
        return;
      }
      pieces := Emit(data);
    }

    /** Exit of `pty`: only the live one's exit is reported. */
    method OnExit(pty: Pty)
      requires Valid()
      modifies this`active, this`state, this`log
      ensures Valid()
      ensures old(active) == Some(pty) ==> log == Then(old(log), State(Exited)) && active == None && state == Exited
      ensures old(active) != Some(pty) ==> log == old(log) && active == old(active) && state == old(state)
    {
      if active == Some(pty) {
        active := None;
        state := Exited;
        log := Then(log, State(Exited));
      }
    }

    /** `ptyFails` says that resizing the pty throws; nothing is recorded then, nor without a live pty. */
    method Resize(newCols: int, newRows: int, ptyFails: bool)
      requires Valid()
      modifies this`cols, this`rows, this`log
      ensures Valid()
      ensures if active.Some? && !ptyFails && ValidDims(newCols, newRows)
              then log == Then(old(log), Size(cols, rows)) && cols == newCols && rows == newRows
              else log == old(log) && (cols, rows) == old((cols, rows))
    {
      if active.Some? && !ptyFails && ValidDims(newCols, newRows) {
        cols, rows := newCols, newRows;
        log := Then(log, Size(cols, rows));
      }
    }
  }

  lemma NothingSplit(maxBytes: int)
    ensures IsSplit([], [], maxBytes)
  {
  }

  /** Only the empty text has no pieces. */
  lemma NothingFromNothing(pieces: seq<JsString>, data: JsString, maxBytes: int)
    requires IsSplit(pieces, data, maxBytes) && maxBytes >= 4
    ensures pieces == [] <==> data == []
  {
    if pieces != [] { assert PieceOk(pieces[|pieces| - 1], maxBytes); }
  }
}
