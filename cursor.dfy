/**
 * `cursor_yx_get`: the cursor position report. The library writes the
 * request `CSI 6 n` (DSR, section 8.3.14 of ECMA-48) and the terminal answers
 * `ESC [ row ; column R` (CPR), which is parsed one byte per read.
 */
module CursorQuery {
  import opened Wrappers
  import opened Digits
  import opened Tty

  /** The request written to the terminal, four bytes long. */
  const CprRequest: seq<char> := [ESC, '[', '6', 'n']

  /** What the parser expects next. */
  datatype CursorState = CursorEsc | CursorLSquare | CursorRow | CursorColumn | CursorR

  /** A decoded report and the number of bytes it took, or a framing error. */
  datatype Cpr = CprOk(row: int, column: int, used: nat) | CprFail

  /**
   * The report at the front of `t`, stated as a grammar: ESC, `[`, the
   * longest run of digits, `;`, the longest run of digits, `R`. Empty digit
   * runs are admitted and read as 0, exactly as the accumulators start.
   */
  function CprParse(t: seq<char>): (r: Cpr)
    ensures r.CprOk? ==> 4 <= r.used <= |t| && t[r.used - 1] == 'R'
  {
    if |t| < 2 || t[0] != ESC || t[1] != '[' then CprFail
    else
      var j := Span(t, 2, IsDigit);
      if j == |t| || t[j] != ';' then CprFail
      else
        var k := Span(t, j + 1, IsDigit);
        if k == |t| || t[k] != 'R' then CprFail
        else CprOk(DecValue(t[2..j]), DecValue(t[j + 1..k]), k + 1)
  }

  /** Once the row digits end at `i`, the byte there decides between the column and a framing error. */
  lemma RowEndsAt(t: seq<char>, i: nat)
    requires 2 <= i <= |t| && t[0] == ESC && t[1] == '['
    requires forall k :: 2 <= k < i ==> IsDigit(t[k])
    requires i == |t| || !IsDigit(t[i])
    ensures Span(t, 2, IsDigit) == i
    ensures i == |t| || t[i] != ';' ==> CprParse(t) == CprFail
  {
    SpanEndsAt(t, 2, i, IsDigit);
  }

  /** Once the column digits end at `i`, the byte there decides between success and a framing error. */
  lemma ColumnEndsAt(t: seq<char>, semi: nat, i: nat)
    requires 2 <= semi < i <= |t| && t[0] == ESC && t[1] == '['
    requires Span(t, 2, IsDigit) == semi && t[semi] == ';'
    requires forall k :: semi < k < i ==> IsDigit(t[k])
    requires i == |t| || !IsDigit(t[i])
    ensures i == |t| || t[i] != 'R' ==> CprParse(t) == CprFail
    ensures i < |t| && t[i] == 'R' ==>
      AllDigits(t[2..semi]) && AllDigits(t[semi + 1..i]) &&
      CprParse(t) == CprOk(DecValue(t[2..semi]), DecValue(t[semi + 1..i]), i + 1)
  {
    SpanEndsAt(t, semi + 1, i, IsDigit);
  }

  /**
   * Round trip: a report for any position, followed by anything, parses back
   * to that position and consumes exactly the report.
   */
  lemma CprRoundTrip(row: nat, column: nat, rest: seq<char>)
    ensures CprParse(CprReply(row, column) + rest) == CprOk(row, column, |CprReply(row, column)|)
  {
    var d1, d2 := Decimal(row), Decimal(column);
    CprParseFramed(d1, d2, rest);
    DecValueOfDecimal(row);
    DecValueOfDecimal(column);
  }

  /** Any framed report, with digit runs of any length (empty or zero-padded), is accepted with the runs' values. */
  lemma CprParseFramed(d1: seq<char>, d2: seq<char>, rest: seq<char>)
    requires AllDigits(d1) && AllDigits(d2)
    ensures CprParse(Framed(d1, d2) + rest) ==
      CprOk(DecValue(d1), DecValue(d2), |d1| + |d2| + 4)
  {
    var t := Framed(d1, d2) + rest;
    FramedAt(d1, d2, rest);
    CprParseAt(t, 2 + |d1|, 3 + |d1| + |d2|, d1, d2);
  }

  /** A report framed at `j` (the `;`) and `k` (the `R`) is accepted with the values of the two runs. */
  lemma CprParseAt(t: seq<char>, j: nat, k: nat, d1: seq<char>, d2: seq<char>)
    requires 2 <= j < k < |t| && t[0] == ESC && t[1] == '[' && t[j] == ';' && t[k] == 'R'
    requires t[2..j] == d1 && t[j + 1..k] == d2 && AllDigits(d1) && AllDigits(d2)
    ensures CprParse(t) == CprOk(DecValue(d1), DecValue(d2), k + 1)
  {
    AllDigitsSlice(t, 2, j);
    AllDigitsSlice(t, j + 1, k);
    SpanEndsAt(t, 2, j, IsDigit);
    SpanEndsAt(t, j + 1, k, IsDigit);
  }

  /** Where the pieces of a framed report sit. */
  lemma FramedAt(d1: seq<char>, d2: seq<char>, rest: seq<char>)
    ensures var t := Framed(d1, d2) + rest;
      var j := 2 + |d1|;
      var k := j + 1 + |d2|;
      |t| > k && t[0] == ESC && t[1] == '[' && t[2..j] == d1 && t[j] == ';' && t[j + 1..k] == d2 && t[k] == 'R'
  {
    var t := Framed(d1, d2) + rest;
    var j := 2 + |d1|;
    var k := j + 1 + |d2|;
    assert t[2..j] == d1;
    assert t[j + 1..k] == d2;
  }

  /**
   * Conversely, whatever the parser accepts is a framed report: ESC `[`, a
   * run of digits, `;`, a run of digits, `R`, and the values are those of the
   * two runs.
   */
  lemma CprAcceptsOnlyReports(t: seq<char>)
    requires CprParse(t).CprOk?
    ensures var p := CprParse(t);
      exists d1, d2 :: AllDigits(d1) && AllDigits(d2) &&
        t[..p.used] == Framed(d1, d2) &&
        p.row == DecValue(d1) && p.column == DecValue(d2)
  {
    var j := Span(t, 2, IsDigit);
    var k := Span(t, j + 1, IsDigit);
    AllDigitsSlice(t, 2, j);
    AllDigitsSlice(t, j + 1, k);
    var d1, d2 := t[2..j], t[j + 1..k];
    assert t[..k + 1] == Framed(d1, d2);
  }

  /** A byte that is neither a digit nor `;` inside the row is a framing error. */
  lemma CprRejectsStrayRowByte(d: seq<char>, ch: char, rest: seq<char>)
    requires AllDigits(d) && !IsDigit(ch) && ch != ';'
    ensures CprParse([ESC, '['] + d + [ch] + rest) == CprFail
  {
    var t := [ESC, '['] + d + [ch] + rest;
    assert t[2..2 + |d|] == d && t[2 + |d|] == ch;
    AllDigitsSlice(t, 2, 2 + |d|);
    RowEndsAt(t, 2 + |d|);
  }

  /** A reply cut short before its `R` is a failure, however much of it arrived. */
  lemma CprRejectsTruncated(row: nat, column: nat, n: nat)
    requires n < |CprReply(row, column)|
    ensures CprParse(CprReply(row, column)[..n]) == CprFail
  {
  }

  /** The reply `ESC [ 1 2 ; 3 4 R` gives row 12 and column 34. */
  lemma CprExample()
    ensures CprParse([ESC, '[', '1', '2', ';', '3', '4', 'R']) == CprOk(12, 34, 8)
  {
    assert Decimal(12) == ['1', '2'] && Decimal(34) == ['3', '4'];
    CprRoundTrip(12, 34, []);
    assert CprReply(12, 34) + [] == [ESC, '[', '1', '2', ';', '3', '4', 'R'];
  }

  /**
   * One pass of the loop body (the `switch`): whether the byte is valid in
   * `state`, and the next state and accumulators.
   */
  function CursorStep(state: CursorState, row: int, column: int, ch: char): (r: (bool, CursorState, int, int))
    ensures state == CursorR ==> !r.0
    ensures r.0 && r.1 == CursorR ==> ch == 'R' && state == CursorColumn && r.2 == row && r.3 == column
    ensures r.0 && r.1 == CursorColumn && state == CursorRow ==> ch == ';' && r.3 == column
    ensures r.2 != row ==> state == CursorRow && IsDigit(ch) && r.2 == row * 10 + DigitValue(ch)
    ensures r.3 != column ==> state == CursorColumn && IsDigit(ch) && r.3 == column * 10 + DigitValue(ch)
  {
    match state
    case CursorEsc => (ch == ESC, CursorLSquare, row, column)
    case CursorLSquare => (ch == '[', CursorRow, row, column)
    case CursorRow =>
      if IsDigit(ch) then (true, CursorRow, row * 10 + DigitValue(ch), column)
      else if ch == ';' then (true, CursorColumn, row, column)
      else (false, CursorRow, row, column)
    case CursorColumn =>
      if IsDigit(ch) then (true, CursorColumn, row, column * 10 + DigitValue(ch))
      else if ch == 'R' then (true, CursorR, row, column)
      else (false, CursorColumn, row, column)
    case CursorR => (false, CursorR, row, column)
  }

  /**
   * What the parser knows after consuming `t[..i]` without error: the state
   * says which part of the report has been read, and the accumulators hold
   * the values of the digit runs read so far (`semi` is where the `;` was).
   */
  ghost predicate CursorSoFar(t: seq<char>, i: nat, state: CursorState, row: int, column: int, semi: nat) {
    i <= |t| &&
    match state
    case CursorEsc => i == 0 && row == 0 && column == 0
    case CursorLSquare => i == 1 && t[0] == ESC && row == 0 && column == 0
    case CursorRow =>
      2 <= i && t[0] == ESC && t[1] == '[' &&
      AllDigits(t[2..i]) && row == DecValue(t[2..i]) && column == 0
    case CursorColumn =>
      2 <= semi < i && t[0] == ESC && t[1] == '[' &&
      AllDigits(t[2..semi]) && row == DecValue(t[2..semi]) && t[semi] == ';' &&
      AllDigits(t[semi + 1..i]) && column == DecValue(t[semi + 1..i])
    case CursorR => false
  }

  /**
   * One byte more: an invalid byte means the grammar rejects `t`, `R` after
   * the column means the grammar accepts exactly what was accumulated, and
   * any other valid byte keeps `CursorSoFar`.
   */
  lemma CursorStepSound(t: seq<char>, i: nat, state: CursorState, row: int, column: int, semi: nat)
    requires CursorSoFar(t, i, state, row, column, semi) && i < |t|
    ensures var (valid, next, row', column') := CursorStep(state, row, column, t[i]);
      (!valid ==> CprParse(t) == CprFail) &&
      (valid && next == CursorR ==> CprParse(t) == CprOk(row', column', i + 1)) &&
      (valid && next != CursorR ==>
        CursorSoFar(t, i + 1, next, row', column', if next == state then semi else i))
  {
    match state {
      case CursorEsc =>
      case CursorLSquare =>
        assert t[2..i + 1] == [];
      case CursorRow =>
        RowStep(t, i, row);
      case CursorColumn =>
        ColumnStep(t, i, row, column, semi);
    }
  }

  /** `CursorStepSound` inside the row: a digit extends it, `;` ends it, anything else is rejected. */
  lemma RowStep(t: seq<char>, i: nat, row: int)
    requires CursorSoFar(t, i, CursorRow, row, 0, 0) && i < |t|
    ensures IsDigit(t[i]) ==> CursorSoFar(t, i + 1, CursorRow, row * 10 + DigitValue(t[i]), 0, 0)
    ensures t[i] == ';' ==> CursorSoFar(t, i + 1, CursorColumn, row, 0, i)
    ensures !IsDigit(t[i]) && t[i] != ';' ==> CprParse(t) == CprFail
  {
    var ch := t[i];
    AllDigitsSlice(t, 2, i);
    if IsDigit(ch) {
      DecValueSnoc(t[2..i], ch);
      assert t[2..i + 1] == t[2..i] + [ch];
      AllDigitsSlice(t, 2, i + 1);
    } else {
      RowEndsAt(t, i);
      assert t[i + 1..i + 1] == [];
    }
  }

  /** `CursorStepSound` inside the column: a digit extends it, `R` completes the report, anything else is rejected. */
  lemma ColumnStep(t: seq<char>, i: nat, row: int, column: int, semi: nat)
    requires CursorSoFar(t, i, CursorColumn, row, column, semi) && i < |t|
    ensures IsDigit(t[i]) ==> CursorSoFar(t, i + 1, CursorColumn, row, column * 10 + DigitValue(t[i]), semi)
    ensures t[i] == 'R' ==> CprParse(t) == CprOk(row, column, i + 1)
    ensures !IsDigit(t[i]) && t[i] != 'R' ==> CprParse(t) == CprFail
  {
    var ch := t[i];
    AllDigitsSlice(t, 2, semi);
    AllDigitsSlice(t, semi + 1, i);
    SpanEndsAt(t, 2, semi, IsDigit);
    if IsDigit(ch) {
      DecValueSnoc(t[semi + 1..i], ch);
      assert t[semi + 1..i + 1] == t[semi + 1..i] + [ch];
      AllDigitsSlice(t, semi + 1, i + 1);
    } else {
      ColumnEndsAt(t, semi, i);
    }
  }

  /** Running out of bytes before `R` is a failure of the grammar too. */
  lemma CursorEndSound(t: seq<char>, state: CursorState, row: int, column: int, semi: nat)
    requires CursorSoFar(t, |t|, state, row, column, semi)
    ensures CprParse(t) == CprFail
  {
    match state {
      case CursorEsc =>
      case CursorLSquare =>
      case CursorRow =>
        AllDigitsSlice(t, 2, |t|);
        RowEndsAt(t, |t|);
      case CursorColumn =>
        AllDigitsSlice(t, 2, semi);
        AllDigitsSlice(t, semi + 1, |t|);
        SpanEndsAt(t, 2, semi, IsDigit);
        ColumnEndsAt(t, semi, |t|);
    }
  }

  /** The report a terminal sends for a cursor at (`row`, `column`). */
  function CprReply(row: nat, column: nat): seq<char> {
    Framed(Decimal(row), Decimal(column))
  }

  /** A report carrying the digit runs `d1` and `d2`. */
  function Framed(d1: seq<char>, d2: seq<char>): seq<char> {
    [ESC, '['] + d1 + [';'] + d2 + ['R']
  }

  /**
   * The parser applied to the bytes the reads deliver. `written` is what
   * the `write` of the 4-byte request returned; on success the out-pointers
   * receive the row and the column, on failure they are left unwritten
   * (None). `used` counts the bytes the loop consumed.
   */
  method CursorYXGet(written: int, input: seq<Read>) returns (rc: int, y: Option<int>, x: Option<int>, used: nat)
    ensures rc == 0 || rc == -1
    ensures written != |CprRequest| ==> rc == -1 && used == 0
    ensures rc == 0 <==> written == |CprRequest| && CprParse(ReadBytes(input)).CprOk?
    ensures rc == 0 ==>
      var p := CprParse(ReadBytes(input));
      y == Some(p.row) && x == Some(p.column) && used == p.used
    ensures rc == -1 ==> y == None && x == None
  {
    if written != |CprRequest| {
      return -1, None, None, 0;
    }
    ghost var t := ReadBytes(input);
    var done := false;
    var state := CursorEsc;
    var row, column := 0, 0;
    ghost var semi := 0;
    ghost var framingError := false;
    var i := 0;
    while i < |input| && input[i].Byte?
      invariant 0 <= i <= |input| && i <= |t|
      invariant CursorSoFar(t, i, state, row, column, semi)
      invariant ReadBytes(input[i..]) == t[i..]
      invariant !done && !framingError
      decreases |input| - i
    {
      var ch := input[i].c;
      ReadBytesAdvance(input, t, i);
      CursorStepSound(t, i, state, row, column, semi);
      var (valid, next, row', column') := CursorStep(state, row, column, ch);
      row, column := row', column';
      if next != state {
        semi := i;
      }
      state := next;
      i := i + 1;
      if !valid {
        framingError := true;
        break;
      }
      if state == CursorR {
        done := true;
        break;
      }
    }
    if !done {
      if !framingError {
        ReadBytesStop(input, t, i);
        CursorEndSound(t, state, row, column, semi);
      }
      return -1, None, None, i;
    }
    return 0, Some(row), Some(column), i;
  }
}
