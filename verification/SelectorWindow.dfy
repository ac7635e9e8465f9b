/**
 The selector's selection and the window of rows around it,
 crates/hotki-engine/src/selector.rs.

 Indices and counts are 32-bit words there, and additions saturate.
 */
module SelectorWindow {
  import opened Wrappers

  const U32_MAX: nat := 0xFFFF_FFFF

  type U32 = x: nat | x <= U32_MAX

  function SaturatingSub(a: U32, b: U32): U32 {
    if a < b then 0 else a - b
  }

  function SaturatingAdd(a: U32, b: U32): U32 {
    if a + b > U32_MAX then U32_MAX else a + b
  }

  function Min(a: nat, b: nat): nat {
    if a < b then a else b
  }

  /** The configured number of rows, at least one, as a word. */
  function Rows(maxVisible: nat): U32 {
    Min(if maxVisible == 0 then 1 else maxVisible, U32_MAX)
  }

  function Clamped(selected: U32, total: U32): U32 {
    Min(selected, SaturatingSub(total, 1))
  }

  // ---------- The window ----------

  datatype View = View(start: U32, end: U32, selected: U32)

  /**
   Where the window ought to begin: half a window above the selection, moved to
   lie inside the list.
   */
  function IdealStart(total: U32, selected: U32, rows: U32): nat {
    if total <= rows then 0
    else Min(SaturatingSub(selected, rows / 2), total - rows)
  }

  /** The one case the saturating addition gets wrong: a full list whose last rows are wanted. */
  predicate Overflows(total: U32, selected: U32, rows: U32) {
    total == U32_MAX && rows < total && SaturatingSub(Clamped(selected, total), rows / 2) + rows > U32_MAX
  }

  /** The window computation of `snapshot` for a nonempty list. */
  method Window(total: U32, selected: U32, maxVisible: nat) returns (v: View)
    requires total > 0
    ensures v.start <= v.end <= total
    ensures v.start + v.selected == Clamped(selected, total) && v.start + v.selected < v.end
    ensures v.end - v.start <= Rows(maxVisible)
    ensures v.start == IdealStart(total, Clamped(selected, total), Rows(maxVisible))
        && v.end - v.start == Min(total, Rows(maxVisible))
        <==> !Overflows(total, selected, Rows(maxVisible))
    ensures v == ViewOf(total, selected, maxVisible)
  {
    ViewIsPlaced(total, selected, maxVisible);
    ViewIsExactIff(total, selected, maxVisible);
    hide IdealStart, Overflows;
    var current: U32 := if selected < total - 1 then selected else total - 1;
    var rows := if maxVisible == 0 then 1 else maxVisible;
    if rows > U32_MAX {
      rows := U32_MAX;
    }
    var start: U32, end: U32 := 0, total;
    if total > rows {
      var half := rows / 2;
      start := SaturatingSub(current, half);
      end := SaturatingAdd(start, rows);
      if end > total {
        end := total;
        start := SaturatingSub(end, rows);
      }
    }
    v := View(start, end, SaturatingSub(current, start));
  }

  function ViewOf(total: U32, selected: U32, maxVisible: nat): View
    requires total > 0
  {
    var current, rows := Clamped(selected, total), Rows(maxVisible);
    if total <= rows then View(0, total, current)
    else
      var start := SaturatingSub(current, rows / 2);
      var end := SaturatingAdd(start, rows);
      if end > total then View(total - rows, total, current - (total - rows)) else View(start, end, current - start)
  }

  lemma ViewIsPlaced(total: U32, selected: U32, maxVisible: nat)
    requires total > 0
    ensures var v := ViewOf(total, selected, maxVisible);
            && v.start <= v.end <= total && v.end - v.start <= Rows(maxVisible)
            && v.start + v.selected == Clamped(selected, total) && v.start + v.selected < v.end
  {
  }

  lemma ViewIsExactIff(total: U32, selected: U32, maxVisible: nat)
    requires total > 0
    ensures var v := ViewOf(total, selected, maxVisible);
            (v.start == IdealStart(total, Clamped(selected, total), Rows(maxVisible))
             && v.end - v.start == Min(total, Rows(maxVisible)))
            <==> !Overflows(total, selected, Rows(maxVisible))
  {
  }

  /** A list of fewer than 2^32 - 1 matches always gets the full window in the right place. */
  lemma WindowIsExact(total: U32, selected: U32, maxVisible: nat)
    requires 0 < total < U32_MAX
    ensures var v := ViewOf(total, selected, maxVisible);
            && v.start == IdealStart(total, Clamped(selected, total), Rows(maxVisible))
            && v.end - v.start == Min(total, Rows(maxVisible))
            && v.start + v.selected == Clamped(selected, total) < v.end
  {
  }

  /** With 2^32 - 1 matches and the last one selected, eight wanted rows come out as five. */
  lemma WindowFallsShort()
    ensures ViewOf(U32_MAX, U32_MAX - 1, 8) == View(U32_MAX - 5, U32_MAX, 4)
    ensures Overflows(U32_MAX, U32_MAX - 1, 8)
  {
  }

  // ---------- The selection ----------

  datatype Action = NoAction | Cancel | Select | MoveUp | MoveDown | Backspace | Clear | Append(ch: char)

  datatype Event = Ignored | Updated | Selected | Cancelled

  /** `count` is the number of matches in the matcher's current snapshot; only ticks change it. */
  datatype State = State(query: string, selected: U32, count: U32)

  function Edited(s: State, query: string): State {
    s.(query := query, selected := 0)
  }

  function Dispatched(s: State, action: Action): (State, Event) {
    match action
    case NoAction => (s, Ignored)
    case Cancel => (s, Cancelled)
    case Select => (s, if s.count == 0 then Ignored else Selected)
    case MoveUp => if s.selected > 0 then (s.(selected := s.selected - 1), Updated) else (s, Ignored)
    case MoveDown =>
      if s.selected < SaturatingSub(s.count, 1) then (s.(selected := s.selected + 1), Updated) else (s, Ignored)
    case Backspace => if s.query != "" then (Edited(s, s.query[..|s.query| - 1]), Updated) else (s, Ignored)
    case Clear => if s.query != "" then (Edited(s, ""), Updated) else (s, Ignored)
    case Append(ch) => (Edited(s, s.query + [ch]), Updated)
  }

  /** `tick` installs a new match count; `snapshot` and `selected_item` then clamp the selection. */
  function Refreshed(s: State, count: U32): State {
    s.(count := count, selected := Clamped(s.selected, count))
  }

  /** One key while the selector is open; `count` is what the ticks it causes find. */
  function KeyHandled(s: State, action: Action, count: U32): (State, Event) {
    var (next, event) := Dispatched(s, action);
    match event
    case Updated => (Refreshed(next, count), Updated)
    case Selected =>
      var refreshed := Refreshed(next, count);
      (refreshed, if count == 0 then Ignored else Selected)
    case _ => (next, event)
  }

  class SelectorState {
    var query: string
    var selected: U32
    var count: U32

    function Value(): State
      reads this
    {
      State(query, selected, count)
    }

    method DispatchAction(action: Action) returns (event: Event)
      modifies this`query, this`selected
      ensures (Value(), event) == Dispatched(old(Value()), action)
    {
      match action {
        case NoAction => return Ignored;
        case Cancel => return Cancelled;
        case Select => return if count == 0 then Ignored else Selected;
        case MoveUp =>
          if selected > 0 {
            selected := selected - 1;
            return Updated;
          }
        case MoveDown =>
          if selected < SaturatingSub(count, 1) {
            selected := selected + 1;
            return Updated;
          }
        case Backspace =>
          if |query| > 0 {
            query := query[..|query| - 1];
            selected := 0;
            return Updated;
          }
        case Clear =>
          if |query| > 0 {
            query, selected := "", 0;
            return Updated;
          }
        case Append(ch) =>
          query := query + [ch];
          selected := 0;
          return Updated;
      }
      return Ignored;
    }

    /** `snapshot`: the window to show, if there is anything to show. */
    method Snapshot(maxVisible: nat) returns (v: Option<View>)
      modifies this`selected
      ensures Value() == Refreshed(old(Value()), old(count))
      ensures v == if count == 0 then None else Some(ViewOf(count, old(selected), maxVisible))
    {
      if count == 0 {
        selected := 0;
        return None;
      }
      var view := Window(count, selected, maxVisible);
      selected := if selected < count - 1 then selected else count - 1;
      v := Some(view);
    }

    /** The row that a select event carries. */
    method SelectedItem() returns (item: Option<U32>)
      modifies this`selected
      ensures Value() == Refreshed(old(Value()), old(count))
      ensures item == if count == 0 then None else Some(selected)
    {
      if count == 0 {
        selected := 0;
        return None;
      }
      selected := if selected < count - 1 then selected else count - 1;
      return Some(selected);
    }
  }

  datatype Step = Key(action: Action, count: U32) | Notify(count: U32)

  function After(s: State, step: Step): State {
    match step
    case Key(action, count) => KeyHandled(s, action, count).0
    case Notify(count) => Refreshed(s, count)
  }

  function Run(s: State, steps: seq<Step>): State {
    if steps == [] then s else After(Run(s, steps[..|steps| - 1]), steps[|steps| - 1])
  }

  ghost predicate InRange(s: State) {
    s.selected == 0 || s.selected < s.count
  }

  /**
   After every run of keys and matcher updates the selection names a match, or
   is zero; a select event is only reported for a selection that names one.
   */
  lemma {:induction false} SelectionStaysInRange(steps: seq<Step>)
    ensures InRange(Run(State("", 0, 0), steps))
    ensures steps != [] && steps[|steps| - 1].Key? ==>
              var before, key := Run(State("", 0, 0), steps[..|steps| - 1]), steps[|steps| - 1];
              var (after, event) := KeyHandled(before, key.action, key.count);
              event == Selected ==>
                after.selected < after.count && after.selected == Min(before.selected, key.count - 1)
  {
    if steps != [] {
      SelectionStaysInRange(steps[..|steps| - 1]);
    }
  }

  /** A move that is reported is undone by the opposite move, and a typed character by a backspace. */
  lemma MovesAreUndone(s: State, ch: char)
    requires InRange(s)
    ensures Dispatched(s, MoveDown).1 == Updated ==> Dispatched(Dispatched(s, MoveDown).0, MoveUp) == (s, Updated)
    ensures Dispatched(s, MoveUp).1 == Updated ==> Dispatched(Dispatched(s, MoveUp).0, MoveDown) == (s, Updated)
    ensures Dispatched(Dispatched(s, Append(ch)).0, Backspace) == (s.(selected := 0), Updated)
  {
    assert (s.query + [ch])[..|s.query|] == s.query;
  }

  // ---------- What typing and moving come to ----------

  /** The steps are keys with these actions; the counts their ticks find are arbitrary. */
  ghost predicate Keys(steps: seq<Step>, actions: seq<Action>) {
    && |steps| == |actions|
    && forall i | 0 <= i < |steps| :: steps[i].Key? && steps[i].action == actions[i]
  }

  function Typed(word: string): seq<Action> {
    seq(|word|, i requires 0 <= i < |word| => Append(word[i]))
  }

  /** A word typed into the query stands behind what was there, and the best match is selected. */
  lemma {:induction false} TypingSpells(s: State, word: string, steps: seq<Step>)
    requires Keys(steps, Typed(word))
    ensures Run(s, steps).query == s.query + word
    ensures word != "" ==> Run(s, steps).selected == 0
  {
    if word == "" {
      assert s.query + word == s.query;
    } else {
      var n := |word| - 1;
      TypingSpells(s, word[..n], steps[..n]);
      assert s.query + word == (s.query + word[..n]) + [word[n]];
    }
  }

  /** As many backspaces as the query is long, or any clear, empty it; and fewer leave its beginning. */
  lemma {:induction false} ErasingShortens(s: State, times: nat, steps: seq<Step>)
    requires Keys(steps, seq(times, _ => Backspace))
    ensures Run(s, steps).query == if times <= |s.query| then s.query[..|s.query| - times] else ""
    decreases times
  {
    if times > 0 {
      ErasingShortens(s, times - 1, steps[..times - 1]);
    }
  }

  /** What the other keys leave alone, and what each of them reports. */
  lemma KeysReport(s: State, action: Action)
    ensures var (next, event) := Dispatched(s, action);
            && (event == Cancelled <==> action == Cancel)
            && (event == Selected <==> action == Select && s.count > 0)
            && (event != Updated ==> next == s)
            && (action == Clear ==> next.query == "")
            && (!action.Append? && action != Backspace && action != Clear ==> next.query == s.query)
            && (next.query != s.query ==> event == Updated && next.selected == 0)
            && next.count == s.count
  {
  }

  /** Moving down stops at the last match, moving up at the first. */
  lemma {:induction false} MovesReach(s: State, times: nat, down: bool, steps: seq<Step>)
    requires InRange(s) && s.count > 0 && |steps| == times
    requires forall i | 0 <= i < times :: steps[i] == Key(if down then MoveDown else MoveUp, s.count)
    ensures var last := Run(s, steps);
            && last.selected == (if down then Min(s.selected + times, s.count - 1)
                                 else if times < s.selected then s.selected - times else 0)
            && last.query == s.query && last.count == s.count
    decreases times
  {
    if times > 0 {
      MovesReach(s, times - 1, down, steps[..times - 1]);
    }
  }
}
