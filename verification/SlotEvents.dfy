/** What one terminal slot reports, in order: output pieces, size changes, lifecycle changes and process
    starts. Output pieces and starts carry the slot's sequence number `q`. */
module SlotEvents {
  import opened Utf16

  datatype SlotState = NotStarted | Running | Exited

  datatype SlotEvent =
    | Out(q: nat, d: JsString)
    | Size(cols: nat, rows: nat)
    | State(state: SlotState)
    | Start(q: nat, startCols: nat, startRows: nat)
  {
    predicate Numbered() { Out? || Start? }
  }

  /** Everything reported so far, the latest event outermost. */
  datatype History = Empty | Then(before: History, last: SlotEvent) {
    function Len(): nat {
      if Empty? then 0 else before.Len() + 1
    }

    /** How many numbers have been used; also the last number used. */
    function LastQ(): nat {
      if Empty? then 0 else before.LastQ() + (if last.Numbered() then 1 else 0)
    }

    /** Whether the last lifecycle report says a process is running. */
    function Alive(): bool {
      Then? && if last.State? then last.state.Running? else before.Alive()
    }

    /** The text the process produced, pieces joined. */
    function Text(): JsString {
      if Empty? then [] else before.Text() + (if last.Out? then last.d else [])
    }

    /** The size reported last, if any. */
    function Dims(): (nat, nat) {
      if Empty? then (0, 0)
      else if last.Size? then (last.cols, last.rows)
      else if last.Start? then (last.startCols, last.startRows)
      else before.Dims()
    }

    /** Every size ever reported is one of a screen. */
    predicate Sized() {
      Then? ==>
        && before.Sized()
        && (last.Size? ==> last.cols > 0 && last.rows > 0) && (last.Start? ==> last.startCols > 0 && last.startRows > 0)
    }

    /** `e` may be reported next: it carries the next number if any. */
    predicate MayReport(e: SlotEvent) {
      e.Numbered() ==> e.q == LastQ() + 1
    }

    /** Numbers ran 1, 2, 3, ... without a gap. */
    predicate Proper() {
      Then? ==> before.Proper() && before.MayReport(last)
    }

    /** Output appeared only while a process was reported running. */
    predicate Announced() {
      Then? ==> before.Announced() && (last.Out? ==> before.Alive())
    }
  }

  /** `h` after the process has produced `pieces`, each under the next number. */
  function WithOutput(h: History, pieces: seq<JsString>): (r: History)
    ensures r.LastQ() == h.LastQ() + |pieces|
    ensures r.Alive() == h.Alive()
    ensures r.Text() == h.Text() + Flatten(pieces)
    ensures r.Dims() == h.Dims() && (r.Sized() <==> h.Sized())
    ensures h.Proper() ==> r.Proper()
    ensures h.Announced() ==> (r.Announced() <==> pieces == [] || h.Alive())
  {
    if pieces == [] then h
    else
      var r := WithOutput(h, pieces[..|pieces| - 1]);
      var d := pieces[|pieces| - 1];
      assert h.Text() + (Flatten(pieces[..|pieces| - 1]) + d) == r.Text() + d;
      Then(r, Out(r.LastQ() + 1, d))
  }
}
