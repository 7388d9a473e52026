/**
 * The `TimeFlow` timeline: a fixed set of lanes, each `length` characters
 * wide, an in-flight counter per lane, and text lines that show one event in
 * one lane or a heartbeat of dots in every lane. Clock readings (`Date.now()`) are parameters; the console is the
 * `output` field, one `Line` per printed line, kept as the numbers and
 * cells it shows and rendered to text by `LineText`; colours are abstract tags.
 */
module TimeFlow {
  import opened Lodash
  import opened Options
  import opened Text

  /** The character on each side of a cell: a space, or a space on a white
      background (`colors.bgWhite(' ')`) while the lane has calls in flight. */
  datatype Flank = Space | Marker

  /** The `color` argument of `print`: null, 'blue' or 'red'. */
  datatype Style = Plain | Blue | Red

  /** One lane of a printed line, as `_cell` draws it: the flank, the label and
      suffix it shows, and its colour. `CellText` renders it. */
  datatype Cell = Cell(flank: Flank, str: string, suffix: string, style: Style)

  /** One printed line: the total and delta of its timestamp block and one cell per lane. */
  datatype Line = Line(total: int, delta: int, cells: seq<Cell>)

  /** A timestamp field: `undefined` or `null` (Unset), or a clock reading. */
  datatype Stamp = Unset | At(ms: int)

  /** How a traced call settled: the value it returned or the error it threw. */
  datatype Settled<R, E> = Returned(value: R) | Threw(error: E)

  /** Lane-counter events of traced calls: entering and leaving a lane. */
  datatype Event = Entered(lane: nat) | Exited(lane: nat)

  // ---------------------------------------------------------------------
  // Cells and rows

  /**
   * The text between the flanks of a cell showing `str`: the label padded
   * with `length` spaces, truncated to `length` with `suffix` as omission,
   * then padded at the end to `length`. A non-empty label therefore always
   * gets the suffix, right-aligned; an empty label never does.
   */
  function CellContent(length: nat, str: string, suffix: string): (r: string)
    ensures |r| == if str != [] && |suffix| > length then |suffix| else length
  {
    PadEnd(Truncate(str + Repeat(' ', length), length, suffix), length)
  }

  /** `_cell(pos, str, suffix, color)` for a lane whose counter is `count`. */
  function CellOf(count: int, str: string, suffix: string, style: Style): (r: Cell)
    ensures r.flank == Marker <==> count != 0
    ensures r.str == str && r.suffix == suffix && r.style == style
  {
    Cell(if count != 0 then Marker else Space, str, suffix, style)
  }

  /** The plain text of a cell `length` wide: the colour codes are not part of the model. */
  function CellText(length: nat, c: Cell): (r: string)
    ensures |r| == |CellContent(length, c.str, c.suffix)| + 2
    ensures r[0] == ' ' && r[1..|r| - 1] == CellContent(length, c.str, c.suffix) && r[|r| - 1] == ' '
  {
    [' '] + CellContent(length, c.str, c.suffix) + [' ']
  }

  /** `_array(str)`: one cell per lane showing `str`, with no suffix and no colour. */
  function Row(counts: seq<int>, str: string): (r: seq<Cell>)
    ensures |r| == |counts|
  {
    seq(|counts|, i requires 0 <= i < |counts| => CellOf(counts[i], str, "", Plain))
  }

  /** The cells of a line printed by `print(pos, str, suffix, color)`: a blank row with lane `pos` replaced. */
  function PrintRow(counts: seq<int>, pos: nat, str: string, suffix: string, style: Style): (r: seq<Cell>)
    requires pos < |counts|
    ensures |r| == |counts|
  {
    Row(counts, " ")[pos := CellOf(counts[pos], str, suffix, style)]
  }

  /**
   * In a printed row every lane other than `pos` is a blank uncoloured cell
   * (`length + 2` spaces of text), lane `pos` shows the label with the suffix
   * and colour, and a lane is flanked by the marker exactly when its counter
   * is non-zero.
   */
  lemma PrintRowCells(length: nat, counts: seq<int>, pos: nat, str: string, suffix: string, style: Style)
    requires pos < |counts|
    ensures var r := PrintRow(counts, pos, str, suffix, style);
      && (forall i :: 0 <= i < |r| ==> (r[i].flank == Marker <==> counts[i] != 0))
      && (forall i :: 0 <= i < |r| && i != pos ==> CellText(length, r[i]) == Repeat(' ', length + 2) && r[i].style == Plain)
      && r[pos].str == str && r[pos].suffix == suffix && r[pos].style == style
  {
    BlankContent(length);
    assert [' '] + Repeat(' ', length) + [' '] == Repeat(' ', length + 2);
  }

  /**
   * A heartbeat row (`_array` of `length` dots): every lane shows the dots
   * between its flanks, uncoloured, flanked by the marker exactly when its
   * counter is non-zero.
   */
  lemma HeartbeatCells(length: nat, counts: seq<int>)
    ensures var r := Row(counts, Repeat('.', length));
      && (forall i :: 0 <= i < |r| ==> (r[i].flank == Marker <==> counts[i] != 0) && r[i].style == Plain)
      && (forall i :: 0 <= i < |r| ==> CellText(length, r[i]) == [' '] + Repeat('.', length) + [' '])
  {
    CellContentNoSuffix(length, Repeat('.', length));
    assert Repeat('.', length)[..length] == Repeat('.', length);
  }

  /** A blank cell (`_cell(pos, ' ')`) holds exactly `length` spaces. */
  lemma BlankContent(length: nat)
    ensures CellContent(length, " ", "") == Repeat(' ', length)
  {
    var padded := " " + Repeat(' ', length);
    if length > 0 {
      assert Truncate(padded, length, "") == padded[..length];
      assert padded[..length] == Repeat(' ', length);
    }
  }

  /** With no suffix, a label is cut to its first `length` characters or right-padded with spaces to `length`. */
  lemma CellContentNoSuffix(length: nat, str: string)
    ensures |CellContent(length, str, "")| == length
    ensures |str| >= length ==> CellContent(length, str, "") == str[..length]
    ensures |str| < length ==> CellContent(length, str, "") == str + Repeat(' ', length - |str|)
  {
    var padded := str + Repeat(' ', length);
    var r := CellContent(length, str, "");
    if str != [] && length > 0 {
      assert Truncate(padded, length, "") == padded[..length];
    }
    if |str| < length {
      assert r == str + Repeat(' ', length - |str|) by {
        forall i | 0 <= i < length
          ensures r[i] == (str + Repeat(' ', length - |str|))[i]
        {
          if i < |str| { assert r[i] == padded[i]; }
        }
      }
    }
  }

  /** With a non-empty label and a suffix shorter than the cell, the suffix ends the cell after as much of the padded label as fits. */
  lemma CellContentWithSuffix(length: nat, str: string, suffix: string)
    requires str != [] && 0 < |suffix| < length
    ensures |CellContent(length, str, suffix)| == length
    ensures CellContent(length, str, suffix) == (str + Repeat(' ', length))[..length - |suffix|] + suffix
  {
  }

  /** A suffix that fills the whole cell replaces a non-empty label; an empty label drops the suffix. */
  lemma CellContentEdges(length: nat, str: string, suffix: string)
    ensures str != [] && |suffix| >= length ==> CellContent(length, str, suffix) == suffix
    ensures str == [] ==> CellContent(length, str, suffix) == Repeat(' ', length)
  {
    assert str == [] ==> str + Repeat(' ', length) == Repeat(' ', length);
  }

  // ---------------------------------------------------------------------
  // Timestamps and the text of a line

  /** `now - (last || now)`: no delta after `start` (and when the last reading is the falsy 0). */
  function Delta(last: Stamp, now: int): (d: int)
    ensures last.Unset? ==> d == 0
    ensures last == At(0) ==> d == 0
    ensures last.At? && last.ms != 0 ==> d == now - last.ms
  {
    now - (if last.Unset? || last.ms == 0 then now else last.ms)
  }

  /** The timestamp block `[total,delta]`, each number centred in 8 columns. */
  function StampText(total: int, delta: int): (r: string)
    ensures |r| == 3 + Max(|IntText(total)|, 8) + Max(|IntText(delta)|, 8)
    ensures r[0] == '[' && r[|r| - 1] == ']'
  {
    "[" + Pad(IntText(total), 8) + "," + Pad(IntText(delta), 8) + "]"
  }

  /** In `[a,b]`, `a` follows the bracket and `b` the comma. */
  lemma Bracketed(a: string, b: string)
    ensures var r := "[" + a + "," + b + "]";
      && |r| == |a| + |b| + 3
      && r[1..1 + |a|] == a && r[1 + |a|] == ',' && r[2 + |a|..2 + |a| + |b|] == b
  {
    var r := "[" + a + "," + b + "]";
    assert r == ("[" + a) + ("," + b + "]");
    assert (("[" + a) + ("," + b + "]"))[1..1 + |a|] == ("[" + a)[1..];
    assert ("," + b + "]") == [','] + (b + "]");
    assert r[2 + |a|..2 + |a| + |b|] == (b + "]")[..|b|];
  }

  /**
   * The block reads `[`, the total padded to 8 (`pad`, see `PadCentres`),
   * `,`, the delta padded to 8, and `]`.
   */
  lemma StampFields(total: int, delta: int)
    ensures var r, pt, pd := StampText(total, delta), Pad(IntText(total), 8), Pad(IntText(delta), 8);
      && r[0] == '[' && r[1..1 + |pt|] == pt
      && r[1 + |pt|] == ','
      && r[2 + |pt|..|r| - 1] == pd && r[|r| - 1] == ']'
  {
    Bracketed(Pad(IntText(total), 8), Pad(IntText(delta), 8));
  }

  /** Timestamps below 10^8 ms (about 27 hours) keep the block 19 characters wide. */
  lemma StampWidth(total: nat, delta: nat)
    requires total < Pow10(8) && delta < Pow10(8)
    ensures |StampText(total, delta)| == 19
  {
    NatTextWidth(total, 8);
    NatTextWidth(delta, 8);
  }

  /** The texts of a row of cells, each `length` wide. */
  function CellTexts(length: nat, cells: seq<Cell>): (r: seq<string>)
    ensures |r| == |cells|
  {
    seq(|cells|, i requires 0 <= i < |cells| => CellText(length, cells[i]))
  }

  /** `${timestamp}: ${texts.join('|')} |`. */
  function LineOf(stamp: string, texts: seq<string>): (r: string)
    ensures |r| == |stamp| + |Join(texts, "|")| + 4
    ensures r[..|stamp|] == stamp && r[|stamp|..|stamp| + 2] == ": "
    ensures r[|stamp| + 2..|r| - 2] == Join(texts, "|") && r[|r| - 2..] == " |"
  {
    stamp + ": " + Join(texts, "|") + " |"
  }

  /** The plain text of a printed line, for cells `length` wide; the colour codes are not part of the model. */
  function LineText(length: nat, line: Line): (r: string)
    ensures var stamp := StampText(line.total, line.delta);
      |r| == |stamp| + |Join(CellTexts(length, line.cells), "|")| + 4 &&
      r[..|stamp|] == stamp && r[|stamp|..|stamp| + 2] == ": " && r[|r| - 2..] == " |"
  {
    LineOf(StampText(line.total, line.delta), CellTexts(length, line.cells))
  }

  /** The column where cell k starts when the stamp is `stampWidth` wide and every cell `w` wide. */
  function Column(stampWidth: nat, w: nat, k: nat): nat
  {
    stampWidth + 2 + Stride(k, w + 1)
  }

  /**
   * Fixed-width layout: when every cell's text is `w` wide, the text of cell k
   * starts at column |stamp| + 2 + k * (w + 1), after the stamp, ": " and k
   * cells each followed by '|', and the line ends with " |".
   */
  lemma LineLayout(stamp: string, texts: seq<string>, w: nat, k: nat)
    requires k < |texts|
    requires forall i :: 0 <= i < |texts| ==> |texts[i]| == w
    ensures var at := Column(|stamp|, w, k);
      && |LineOf(stamp, texts)| == |stamp| + Stride(|texts|, w + 1) + 3
      && at + w <= |LineOf(stamp, texts)|
      && LineOf(stamp, texts)[at..at + w] == texts[k]
  {
    FramedJoinAt(stamp + ": ", texts, "|", " |", w, k);
  }

  /** When the suffix fits, every cell of a printed row is exactly `length + 2` characters of text, so `LineLayout` applies. */
  lemma PrintRowWidths(length: nat, counts: seq<int>, pos: nat, str: string, suffix: string, style: Style)
    requires pos < |counts| && |suffix| <= length
    ensures var texts := CellTexts(length, PrintRow(counts, pos, str, suffix, style));
      forall i :: 0 <= i < |texts| ==> |texts[i]| == length + 2
  {
  }

  /**
   * The text of a line printed by `print(pos, str, suffix, color)` with a
   * suffix that fits: lane k occupies the `length + 2` columns from
   * `Column(|stamp|, length + 2, k)`, and holds the label cell when k is `pos`
   * and spaces otherwise. `LineText` of a printed line is `LineOf` of its
   * `StampText`, so this holds for every line `Print` appends.
   */
  lemma PrintedLane(length: nat, stamp: string, counts: seq<int>, pos: nat, str: string, suffix: string, style: Style, k: nat)
    requires pos < |counts| && k < |counts| && |suffix| <= length
    ensures var text := LineOf(stamp, CellTexts(length, PrintRow(counts, pos, str, suffix, style)));
      var at := Column(|stamp|, length + 2, k);
      && at + length + 2 <= |text|
      && text[at..at + length + 2] == if k == pos then [' '] + CellContent(length, str, suffix) + [' '] else Repeat(' ', length + 2)
  {
    PrintRowWidths(length, counts, pos, str, suffix, style);
    LineLayout(stamp, CellTexts(length, PrintRow(counts, pos, str, suffix, style)), length + 2, k);
    PrintedCell(length, counts, pos, str, suffix, style, k);
  }

  /** The text of lane k in a printed row: the label cell at `pos`, spaces elsewhere. */
  lemma PrintedCell(length: nat, counts: seq<int>, pos: nat, str: string, suffix: string, style: Style, k: nat)
    requires pos < |counts| && k < |counts|
    ensures CellTexts(length, PrintRow(counts, pos, str, suffix, style))[k]
         == if k == pos then [' '] + CellContent(length, str, suffix) + [' '] else Repeat(' ', length + 2)
  {
    if k != pos {
      BlankContent(length);
      assert [' '] + Repeat(' ', length) + [' '] == Repeat(' ', length + 2);
    }
  }

  // ---------------------------------------------------------------------
  // Lane counters

  /** The counters after one event. */
  function Step(counts: seq<int>, e: Event): (r: seq<int>)
    requires e.lane < |counts|
    ensures |r| == |counts|
    ensures forall i :: 0 <= i < |r| && i != e.lane ==> r[i] == counts[i]
    ensures r[e.lane] == counts[e.lane] + (if e.Entered? then 1 else -1)
  {
    counts[e.lane := counts[e.lane] + if e.Entered? then 1 else -1]
  }

  predicate InLanes(events: seq<Event>, size: nat)
  {
    forall j :: 0 <= j < |events| ==> events[j].lane < size
  }

  /** The counters after a sequence of events, in order. */
  function Replay(counts: seq<int>, events: seq<Event>): (r: seq<int>)
    requires InLanes(events, |counts|)
    ensures |r| == |counts|
    decreases |events|
  {
    if events == [] then counts
    else
      var last := events[|events| - 1];
      Step(Replay(counts, events[..|events| - 1]), last)
  }

  /** Calls entered minus calls exited on one lane. */
  function Net(events: seq<Event>, lane: nat): int
    decreases |events|
  {
    if events == [] then 0
    else
      var last := events[|events| - 1];
      Net(events[..|events| - 1], lane) + (if last.lane != lane then 0 else if last.Entered? then 1 else -1)
  }

  /** Whatever the interleaving, a lane's counter moves by entries minus exits on that lane. */
  lemma {:induction false} ReplayNet(counts: seq<int>, events: seq<Event>, lane: nat)
    requires InLanes(events, |counts|) && lane < |counts|
    ensures |Replay(counts, events)| == |counts|
    ensures Replay(counts, events)[lane] == counts[lane] + Net(events, lane)
  {
    if events != [] {
      ReplayNet(counts, events[..|events| - 1], lane);
    }
  }

  /** N entries and N exits on a lane, in any order, restore its counter. */
  lemma BalancedRestores(counts: seq<int>, events: seq<Event>, lane: nat)
    requires InLanes(events, |counts|) && lane < |counts|
    requires Net(events, lane) == 0
    ensures Replay(counts, events)[lane] == counts[lane]
  {
    ReplayNet(counts, events, lane);
  }

  /** While every exit follows its entry, a lane's counter never drops below where it started. */
  lemma NeverBelowStart(counts: seq<int>, events: seq<Event>, lane: nat, k: nat)
    requires InLanes(events, |counts|) && lane < |counts| && k <= |events|
    requires forall j :: 0 <= j <= |events| ==> Net(events[..j], lane) >= 0
    ensures InLanes(events[..k], |counts|)
    ensures Replay(counts, events[..k])[lane] >= counts[lane]
  {
    ReplayNet(counts, events[..k], lane);
  }

  /** `name(...args)` when a label function is given, the method's key otherwise. */
  function Label<A>(key: string, name: Option<A -> string>, args: A): (r: string)
    ensures name.Some? ==> r == name.value(args)
    ensures name.None? ==> r == key
  {
    match name
    case Some(f) => f(args)
    case None => key
  }

  function ExitStyle<R, E>(outcome: Settled<R, E>): (r: Style)
    ensures r == Blue <==> outcome.Returned?
    ensures r == Red <==> outcome.Threw?
  {
    if outcome.Returned? then Blue else Red
  }

  // ---------------------------------------------------------------------
  // The instrument

  class TimeFlow {
    const size: nat
    const length: nat
    const interval: nat
    var stopped: bool
    const counts: array<int>
    var startedAt: Stamp
    var lastAt: Stamp
    var output: seq<Line>

    ghost predicate Valid()
      reads this
    {
      counts.Length == size && (!stopped ==> startedAt.At?)
    }

    constructor (size: nat := 13, length: nat := 16, interval: nat := 1000)
      ensures Valid() && stopped
      ensures this.size == size && this.length == length && this.interval == interval
      ensures fresh(counts) && forall i :: 0 <= i < size ==> counts[i] == 0
      ensures startedAt == Unset && lastAt == Unset && output == []
    {
      this.size := size;
      this.length := length;
      this.interval := interval;
      stopped := true;
      counts := new int[size](_ => 0);
      startedAt := Unset;
      lastAt := Unset;
      output := [];
    }

    /**
     * `start()`: running from `now`, with no previous line, then the first
     * pass of the heartbeat loop, which runs before `start` returns and
     * reads the clock again at `beatAt`: a line of dots with delta 0, after
     * which `beatAt` is the time of the last line.
     */
    method Start(now: int, beatAt: int)
      requires Valid()
      modifies this`stopped, this`startedAt, this`lastAt, this`output
      ensures Valid() && !stopped
      ensures startedAt == At(now) && lastAt == At(beatAt)
      ensures output == old(output) + [Line(beatAt - now, 0, Row(counts[..], Repeat('.', length)))]
    {
      stopped := false;
      startedAt := At(now);
      lastAt := Unset;
      Heartbeat(beatAt);
    }

    /**
     * One pass of `_drawLinesLoop`: while running, a line showing `length`
     * dots in every lane; the wait of `interval` ms between passes is the
     * caller's.
     */
    method Heartbeat(now: int)
      requires Valid()
      modifies this`output, this`lastAt
      ensures Valid()
      ensures stopped ==> output == old(output) && lastAt == old(lastAt)
      ensures !stopped ==> lastAt == At(now)
      ensures !stopped ==> output == old(output) + [Line(now - startedAt.ms, Delta(old(lastAt), now), Row(counts[..], Repeat('.', length)))]
    {
      if !stopped {
        var cells := Row(counts[..], Repeat('.', length));
        var total, delta := Timestamp(now);
        output := output + [Line(total, delta, cells)];
      }
    }

    /** `stop()`. */
    method Stop()
      requires Valid()
      modifies this`stopped
      ensures Valid() && stopped
    {
      stopped := true;
    }

    /**
     * `_timestamp()`: the total time since `start` and the time since the
     * previous line (`StampText` formats the two); `now` becomes the time of
     * the last line.
     */
    method Timestamp(now: int) returns (total: int, delta: int)
      requires Valid() && startedAt.At?
      modifies this`lastAt
      ensures lastAt == At(now)
      ensures total == now - startedAt.ms && delta == Delta(old(lastAt), now)
    {
      total := now - startedAt.ms;
      delta := Delta(lastAt, now);
      lastAt := At(now);
    }

    /** `print(pos, str, suffix, color)`: nothing while stopped, otherwise one more line. */
    method Print(now: int, pos: nat, str: string, suffix: string := "", style: Style := Plain)
      requires Valid() && pos < size
      modifies this`output, this`lastAt
      ensures Valid()
      ensures stopped ==> output == old(output) && lastAt == old(lastAt)
      ensures !stopped ==> lastAt == At(now)
      ensures !stopped ==> output == old(output) + [Line(now - startedAt.ms, Delta(old(lastAt), now), PrintRow(counts[..], pos, str, suffix, style))]
    {
      if !stopped {
        var cells := Row(counts[..], " ");
        cells := cells[pos := CellOf(counts[pos], str, suffix, style)];
        var total, delta := Timestamp(now);
        output := output + [Line(total, delta, cells)];
      }
    }

    /** Entering a traced call: count it on its lane, then print the entry line. */
    method Enter(now: int, pos: nat, str: string)
      requires Valid() && pos < size
      modifies this`output, this`lastAt, counts
      ensures Valid()
      ensures counts[..] == Step(old(counts[..]), Entered(pos))
      ensures stopped ==> output == old(output) && lastAt == old(lastAt)
      ensures !stopped ==> lastAt == At(now)
      ensures !stopped ==> output == old(output) + [Line(now - startedAt.ms, Delta(old(lastAt), now), PrintRow(counts[..], pos, str, "", Plain))]
    {
      ghost var before := counts[..];
      counts[pos] := counts[pos] + 1;
      assert counts[..] == Step(before, Entered(pos));
      Print(now, pos, str);
    }

    /** Leaving a traced call after `took` ms: print the exit line (blue on success, red on failure), then uncount it. */
    method Exit<R, E>(now: int, pos: nat, str: string, took: int, outcome: Settled<R, E>) returns (r: Settled<R, E>)
      requires Valid() && pos < size
      modifies this`output, this`lastAt, counts
      ensures Valid()
      ensures r == outcome
      ensures counts[..] == Step(old(counts[..]), Exited(pos))
      ensures stopped ==> output == old(output) && lastAt == old(lastAt)
      ensures !stopped ==> lastAt == At(now)
      ensures !stopped ==> output == old(output) + [Line(now - startedAt.ms, Delta(old(lastAt), now), PrintRow(old(counts[..]), pos, str, IntText(took), ExitStyle(outcome)))]
    {
      Print(now, pos, str, IntText(took), ExitStyle(outcome));
      ghost var before := counts[..];
      counts[pos] := counts[pos] - 1;
      assert counts[..] == Step(before, Exited(pos));
      r := outcome;
    }

    /**
     * One invocation of a method wrapped by `trace(pos, obj, key, name)`,
     * run to completion with no other event in between. The clock is read
     * four times: for the entry line, when the call starts, when it settles
     * and for the exit line.
     */
    method Traced<A, R, E>(pos: nat, key: string, name: Option<A -> string>, args: A, call: A -> Settled<R, E>,
                           entryAt: int, startAt: int, endAt: int, exitAt: int) returns (r: Settled<R, E>)
      requires Valid() && pos < size
      modifies this`output, this`lastAt, counts
      ensures Valid()
      ensures r == call(args)
      ensures counts[..] == old(counts[..])
      ensures stopped ==> output == old(output) && lastAt == old(lastAt)
      ensures !stopped ==> lastAt == At(exitAt)
      ensures !stopped ==>
        var str := Label(key, name, args);
        var busy := Step(old(counts[..]), Entered(pos));
        output == old(output) + [Line(entryAt - startedAt.ms, Delta(old(lastAt), entryAt), PrintRow(busy, pos, str, "", Plain)),
                                 Line(exitAt - startedAt.ms, Delta(At(entryAt), exitAt), PrintRow(busy, pos, str, IntText(endAt - startAt), ExitStyle(r)))]
    {
      var str := Label(key, name, args);
      Enter(entryAt, pos, str);
      var outcome := call(args);
      r := Exit(exitAt, pos, str, endAt - startAt, outcome);
    }
  }

  /** In a line printed during a traced call, the call's own lane is highlighted. */
  lemma TracedLaneHighlighted(counts: seq<int>, pos: nat, str: string, suffix: string, style: Style)
    requires pos < |counts| && counts[pos] >= 0
    ensures PrintRow(Step(counts, Entered(pos)), pos, str, suffix, style)[pos].flank == Marker
  {
  }
}
