/**
 * `interrogate_sixel`: the primary device-attributes query. The library
 * writes `CSI c` (DA, section 8.3.24 of ECMA-48) and the terminal answers
 * `ESC [ ? code ; code ... c`; code 4 announces sixel graphics. The reply is
 * parsed one byte per read, and reads that would block are retried.
 */
module SixelQuery {
  import opened Digits
  import opened Tty

  /** The request written to the terminal, three bytes long. */
  const DaRequest: seq<char> := [ESC, '[', 'c']

  /** The attribute code that stands for sixel support. */
  const CapabilitySixel: int := 4

  /** What the parser expects next. */
  datatype CapsState = CapsEsc | CapsLSquare | CapsQMark | CapsDigits | CapsMustDigit | CapsC

  /** A complete reply, with whether the sixel code was seen, or a framing error. */
  datatype Da = DaDone(sixel: bool) | DaFail

  predicate IsCodeChar(c: char) {
    IsDigit(c) || c == ';'
  }

  predicate CodeList(b: seq<char>) {
    forall k :: 0 <= k < |b| ==> IsCodeChar(b[k])
  }

  /** Two `;` in a row: an empty code between two separators. */
  predicate AdjacentSemicolons(b: seq<char>) {
    exists k :: 0 <= k < |b| - 1 && b[k] == ';' && b[k + 1] == ';'
  }

  /** The code still being read: what follows the last `;` of `b`. */
  function Open(b: seq<char>): (f: seq<char>)
    ensures CodeList(b) ==> AllDigits(f)
    ensures |f| <= |b|
    decreases |b|
  {
    if b == [] then []
    else if b[|b| - 1] == ';' then []
    else Open(b[..|b| - 1]) + [b[|b| - 1]]
  }

  /** The values of the codes of `b` that a `;` closes, in order. */
  function ClosedCodes(b: seq<char>): seq<int>
    requires CodeList(b)
    decreases |b|
  {
    if b == [] then []
    else if b[|b| - 1] == ';' then ClosedCodes(b[..|b| - 1]) + [DecValue(Open(b[..|b| - 1]))]
    else ClosedCodes(b[..|b| - 1])
  }

  /**
   * The reply at the front of `t`, stated as a grammar: ESC `[` `?`, then the
   * longest run of digits and `;` (the code list), then `c`. The list must
   * not hold two `;` in a row; sixel support is reported when a code that a
   * `;` closes equals 4. The last code, which `c` closes, is not compared.
   */
  function DaParse(t: seq<char>): (r: Da)
    ensures r.DaDone? ==> |t| >= 4 && t[..3] == [ESC, '[', '?'] && 'c' in t[3..]
  {
    if |t| < 3 || t[0] != ESC || t[1] != '[' || t[2] != '?' then DaFail
    else
      var j := Span(t, 3, IsCodeChar);
      var body := t[3..j];
      if AdjacentSemicolons(body) || j == |t| || t[j] != 'c' then DaFail
      else
        assert t[3..][j - 3] == 'c';
        DaDone(CapabilitySixel in ClosedCodes(body))
  }

  /**
   * The reply as it is meant to be read: the same grammar, but the last
   * code, which `c` closes, is compared with 4 as well. It fails exactly
   * where `DaParse` fails and reports sixel support wherever `DaParse` does.
   */
  function DaParseIntended(t: seq<char>): (r: Da)
    ensures r.DaFail? <==> DaParse(t).DaFail?
    ensures DaParse(t) == DaDone(true) ==> r == DaDone(true)
  {
    if |t| < 3 || t[0] != ESC || t[1] != '[' || t[2] != '?' then DaFail
    else
      var j := Span(t, 3, IsCodeChar);
      var body := t[3..j];
      if AdjacentSemicolons(body) || j == |t| || t[j] != 'c' then DaFail
      else DaDone(CapabilitySixel in ClosedCodes(body) || DecValue(Open(body)) == CapabilitySixel)
  }

  /**
   * One pass of the loop body (the `switch`): whether the byte is valid in
   * `state`, and the next state, code accumulator and sixel flag.
   */
  function CapsStep(state: CapsState, capid: int, havesixel: bool, ch: char): (r: (bool, CapsState, int, bool))
    ensures state == CapsC ==> !r.0
    ensures r.0 && r.1 == CapsC ==> ch == 'c' && (state == CapsDigits || state == CapsMustDigit) && r.3 == havesixel
    ensures r.0 && r.1 == CapsMustDigit ==> ch == ';' && state == CapsDigits && r.2 == 0
    ensures r.3 != havesixel ==> r.0 && ch == ';' && state == CapsDigits && capid == CapabilitySixel
    ensures r.0 && r.1 == CapsDigits && state != CapsQMark ==> IsDigit(ch) && r.2 == capid * 10 + DigitValue(ch)
  {
    match state
    case CapsEsc => (ch == ESC, CapsLSquare, capid, havesixel)
    case CapsLSquare => (ch == '[', CapsQMark, capid, havesixel)
    case CapsQMark => (ch == '?', CapsDigits, capid, havesixel)
    case CapsDigits | CapsMustDigit =>
      if IsDigit(ch) then (true, CapsDigits, capid * 10 + DigitValue(ch), havesixel)
      else if ch == ';' then
        if state == CapsMustDigit then (false, state, capid, havesixel)
        else (true, CapsMustDigit, 0, havesixel || capid == CapabilitySixel)
      else if ch == 'c' then (true, CapsC, capid, havesixel)
      else (false, state, capid, havesixel)
    case CapsC => (false, CapsC, capid, havesixel)
  }

  /**
   * What the parser knows after consuming `t[..i]` without error: which
   * part of the reply has been read, the value of the code being read, and
   * whether a closed code was 4.
   */
  ghost predicate CapsSoFar(t: seq<char>, i: nat, state: CapsState, capid: int, havesixel: bool) {
    i <= |t| &&
    match state
    case CapsEsc => i == 0 && capid == 0 && !havesixel
    case CapsLSquare => i == 1 && t[0] == ESC && capid == 0 && !havesixel
    case CapsQMark => i == 2 && t[0] == ESC && t[1] == '[' && capid == 0 && !havesixel
    case CapsDigits => InCodes(t, i, capid, havesixel) && !(i > 3 && t[i - 1] == ';')
    case CapsMustDigit => InCodes(t, i, capid, havesixel) && i > 3 && t[i - 1] == ';'
    case CapsC => false
  }

  /**
   * Inside the code list: `t[3..i]` is a well-formed prefix of it, `capid`
   * is the code being read and `havesixel` whether a closed code was 4.
   */
  ghost predicate InCodes(t: seq<char>, i: nat, capid: int, havesixel: bool) {
    3 <= i <= |t| && t[0] == ESC && t[1] == '[' && t[2] == '?' &&
    CodeList(t[3..i]) && !AdjacentSemicolons(t[3..i]) &&
    capid == DecValue(Open(t[3..i])) &&
    havesixel == (CapabilitySixel in ClosedCodes(t[3..i]))
  }

  /** Reading one more character of the code list, as the grammar sees it. */
  lemma BodySnoc(b: seq<char>, ch: char)
    requires CodeList(b) && IsCodeChar(ch)
    ensures CodeList(b + [ch])
    ensures ch != ';' ==>
      Open(b + [ch]) == Open(b) + [ch] && ClosedCodes(b + [ch]) == ClosedCodes(b) &&
      (AdjacentSemicolons(b + [ch]) <==> AdjacentSemicolons(b))
    ensures ch == ';' ==>
      Open(b + [ch]) == [] && ClosedCodes(b + [ch]) == ClosedCodes(b) + [DecValue(Open(b))] &&
      (AdjacentSemicolons(b + [ch]) <==> AdjacentSemicolons(b) || (|b| > 0 && b[|b| - 1] == ';'))
  {
    var b' := b + [ch];
    assert b'[..|b|] == b;
    if AdjacentSemicolons(b') && !AdjacentSemicolons(b) {
      var k :| 0 <= k < |b'| - 1 && b'[k] == ';' && b'[k + 1] == ';';
      assert k == |b| - 1;
    }
    if ch == ';' && |b| > 0 && b[|b| - 1] == ';' {
      assert b'[|b| - 1] == ';' && b'[|b|] == ';';
    }
  }

  /** The code list spans at least the code characters read so far, and an adjacent pair stays adjacent. */
  lemma BodyCovers(t: seq<char>, i: nat)
    requires 3 <= i <= |t| && CodeList(t[3..i])
    ensures i <= Span(t, 3, IsCodeChar)
    ensures AdjacentSemicolons(t[3..i]) ==> AdjacentSemicolons(t[3..Span(t, 3, IsCodeChar)])
  {
    forall k | 3 <= k < i ensures IsCodeChar(t[k]) {
      assert t[3..i][k - 3] == t[k];
    }
    SpanCovers(t, 3, i, IsCodeChar);
    var j := Span(t, 3, IsCodeChar);
    if AdjacentSemicolons(t[3..i]) {
      var k :| 0 <= k < |t[3..i]| - 1 && t[3..i][k] == ';' && t[3..i][k + 1] == ';';
      assert t[3..i][k] == t[k + 3] && t[3..i][k + 1] == t[k + 4];
      assert t[3..j][k] == t[k + 3] && t[3..j][k + 1] == t[k + 4];
    }
  }

  /** The code list ends at `i` when the byte there is not a code character. */
  lemma BodyEndsAt(t: seq<char>, i: nat)
    requires 3 <= i <= |t| && CodeList(t[3..i])
    requires i == |t| || !IsCodeChar(t[i])
    ensures Span(t, 3, IsCodeChar) == i
  {
    forall k | 3 <= k < i ensures IsCodeChar(t[k]) {
      assert t[3..i][k - 3] == t[k];
    }
    SpanEndsAt(t, 3, i, IsCodeChar);
  }

  /**
   * One byte more: an invalid byte means the grammar rejects `t`, `c` means
   * the grammar accepts with exactly the flag accumulated, and any other
   * valid byte keeps `CapsSoFar`.
   */
  ghost predicate StepSound(t: seq<char>, i: nat, state: CapsState, capid: int, havesixel: bool)
    requires i < |t|
  {
    var (valid, next, capid', havesixel') := CapsStep(state, capid, havesixel, t[i]);
    (!valid ==> DaParse(t) == DaFail) &&
    (valid && next == CapsC ==> DaParse(t) == DaDone(havesixel')) &&
    (valid && next != CapsC ==> CapsSoFar(t, i + 1, next, capid', havesixel'))
  }

  /** Every byte the loop reads is judged as the grammar judges it. */
  lemma CapsStepSound(t: seq<char>, i: nat, state: CapsState, capid: int, havesixel: bool)
    requires CapsSoFar(t, i, state, capid, havesixel) && i < |t|
    ensures StepSound(t, i, state, capid, havesixel)
  {
    match state {
      case CapsEsc =>
      case CapsLSquare =>
      case CapsQMark =>
        assert t[3..i + 1] == [];
      case CapsDigits | CapsMustDigit =>
        var ch := t[i];
        if IsDigit(ch) {
          DigitStep(t, i, capid, havesixel);
          assert t[3..i + 1][i - 3] == t[i];
        } else if ch == ';' {
          SemicolonStep(t, i, capid, havesixel);
        } else {
          BodyEndsAt(t, i);
        }
      case CapsC =>
    }
  }

  /** A digit extends the code being read. */
  lemma DigitStep(t: seq<char>, i: nat, capid: int, havesixel: bool)
    requires InCodes(t, i, capid, havesixel) && i < |t| && IsDigit(t[i])
    ensures InCodes(t, i + 1, capid * 10 + DigitValue(t[i]), havesixel)
  {
    var ch := t[i];
    var b := t[3..i];
    assert t[3..i + 1] == b + [ch];
    BodySnoc(b, ch);
    assert (b + [ch])[|b|] == ch;
    DecValueSnoc(Open(b), ch);
  }

  /** A `;` closes the code being read, unless it follows another `;`. */
  lemma SemicolonStep(t: seq<char>, i: nat, capid: int, havesixel: bool)
    requires InCodes(t, i, capid, havesixel) && i < |t| && t[i] == ';'
    ensures i > 3 && t[i - 1] == ';' ==> DaParse(t) == DaFail
    ensures !(i > 3 && t[i - 1] == ';') ==>
      InCodes(t, i + 1, 0, havesixel || capid == CapabilitySixel)
  {
    var ch := t[i];
    var b := t[3..i];
    assert t[3..i + 1] == b + [ch];
    BodySnoc(b, ch);
    if i > 3 && t[i - 1] == ';' {
      assert b[|b| - 1] == t[i - 1];
      BodyCovers(t, i + 1);
    } else {
      assert |b| == 0 || b[|b| - 1] != ';';
    }
  }

  /** Running out of bytes before `c` is a failure of the grammar too. */
  lemma CapsEndSound(t: seq<char>, state: CapsState, capid: int, havesixel: bool)
    requires CapsSoFar(t, |t|, state, capid, havesixel)
    ensures DaParse(t) == DaFail
  {
    if state == CapsDigits || state == CapsMustDigit {
      BodyEndsAt(t, |t|);
    }
  }

  /** The code list a terminal writes for `codes`: their decimals joined by `;`. */
  function JoinCodes(codes: seq<nat>): seq<char>
    requires |codes| >= 1
    decreases |codes|
  {
    if |codes| == 1 then Decimal(codes[0])
    else JoinCodes(codes[..|codes| - 1]) + [';'] + Decimal(codes[|codes| - 1])
  }

  /** The device-attributes reply a terminal sends for `codes`. */
  function DaReply(codes: seq<nat>): seq<char>
    requires |codes| >= 1
  {
    [ESC, '[', '?'] + JoinCodes(codes) + ['c']
  }

  /** Appending digits extends the open code and closes nothing. */
  lemma {:induction false} AppendDigits(b: seq<char>, d: seq<char>)
    requires CodeList(b) && AllDigits(d)
    ensures CodeList(b + d)
    ensures Open(b + d) == Open(b) + d
    ensures ClosedCodes(b + d) == ClosedCodes(b)
    ensures AdjacentSemicolons(b + d) <==> AdjacentSemicolons(b)
    decreases |d|
  {
    if d == [] {
      assert b + d == b;
    } else {
      var d' := d[..|d| - 1];
      var ch := d[|d| - 1];
      assert d == d' + [ch];
      AppendDigits(b, d');
      BodySnoc(b + d', ch);
      assert b + d == (b + d') + [ch];
    }
  }

  /** Closing the open code with `;` and starting the next one. */
  lemma CloseAndAppend(j: seq<char>, d: seq<char>)
    requires CodeList(j) && !AdjacentSemicolons(j) && Open(j) != []
    requires AllDigits(d)
    ensures CodeList(j + [';'] + d)
    ensures !AdjacentSemicolons(j + [';'] + d)
    ensures Open(j + [';'] + d) == d
    ensures ClosedCodes(j + [';'] + d) == ClosedCodes(j) + [DecValue(Open(j))]
  {
    assert j[|j| - 1] != ';';
    BodySnoc(j, ';');
    AppendDigits(j + [';'], d);
    assert Open(j + [';'] + d) == [] + d;
  }

  /** A prefix one element longer. */
  lemma PrefixSnoc(s: seq<nat>, k: nat)
    requires k < |s|
    ensures s[..k] + [s[k]] == s[..k + 1]
  {
  }

  /** What the parser's grammar sees in a joined code list. */
  ghost predicate JoinedParts(codes: seq<nat>)
    requires |codes| >= 1
  {
    var j := JoinCodes(codes);
    CodeList(j) && !AdjacentSemicolons(j) &&
    Open(j) == Decimal(codes[|codes| - 1]) && ClosedCodes(j) == codes[..|codes| - 1]
  }

  /** A joined code list is well formed, its last code open and the others closed. */
  lemma {:induction false} JoinCodesParts(codes: seq<nat>)
    requires |codes| >= 1
    ensures JoinedParts(codes)
    decreases |codes|
  {
    var n := |codes|;
    if n == 1 {
      var d := Decimal(codes[0]);
      AppendDigits([], d);
      assert [] + d == d;
      assert codes[..0] == [];
    } else {
      JoinCodesParts(codes[..n - 1]);
      JoinCodesStep(codes);
    }
  }

  /** One code more: the step of `JoinCodesParts`. */
  lemma JoinCodesStep(codes: seq<nat>)
    requires |codes| >= 2 && JoinedParts(codes[..|codes| - 1])
    ensures JoinedParts(codes)
  {
    var n := |codes|;
    var d := Decimal(codes[n - 1]);
    var init := codes[..n - 1];
    var j := JoinCodes(init);
    assert JoinCodes(codes) == j + [';'] + d;
    assert init[|init| - 1] == codes[n - 2];
    assert init[..|init| - 1] == codes[..n - 2];
    DecValueOfDecimal(codes[n - 2]);
    CloseAndAppend(j, d);
    PrefixSnoc(codes, n - 2);
  }

  /** A well-formed code list between `ESC [ ?` and `c` is accepted with its closed codes compared. */
  lemma DaParseFramed(b: seq<char>, rest: seq<char>)
    requires CodeList(b) && !AdjacentSemicolons(b)
    ensures DaParse([ESC, '[', '?'] + b + ['c'] + rest) == DaDone(CapabilitySixel in ClosedCodes(b))
    ensures DaParseIntended([ESC, '[', '?'] + b + ['c'] + rest) ==
      DaDone(CapabilitySixel in ClosedCodes(b) || DecValue(Open(b)) == CapabilitySixel)
  {
    var t := [ESC, '[', '?'] + b + ['c'] + rest;
    assert t[3..3 + |b|] == b && t[3 + |b|] == 'c';
    BodyEndsAt(t, 3 + |b|);
  }

  /**
   * Round trip over the whole reply: for any list of codes, the parser
   * reports sixel support exactly when 4 is among the codes before the last.
   */
  lemma DaRoundTrip(codes: seq<nat>, rest: seq<char>)
    requires |codes| >= 1
    ensures DaParse(DaReply(codes) + rest) == DaDone(CapabilitySixel in codes[..|codes| - 1])
  {
    JoinCodesParts(codes);
    DaParseFramed(JoinCodes(codes), rest);
  }

  /**
   * As written, a 4 that is the last code of the reply goes unnoticed: the
   * comparison runs only when a `;` closes a code, not when `c` does.
   */
  lemma FinalSixelCodeMissed(codes: seq<nat>, rest: seq<char>)
    requires |codes| >= 1 && codes[|codes| - 1] == 4 && 4 !in codes[..|codes| - 1]
    ensures DaParse(DaReply(codes) + rest) == DaDone(false)
  {
    DaRoundTrip(codes, rest);
  }

  /** Read as intended, the reply a terminal sends reports sixel support exactly when 4 is any of its codes. */
  lemma DaIntendedRoundTrip(codes: seq<nat>, rest: seq<char>)
    requires |codes| >= 1
    ensures DaParseIntended(DaReply(codes) + rest) == DaDone(CapabilitySixel in codes)
  {
    var n := |codes|;
    var j := JoinCodes(codes);
    JoinCodesParts(codes);
    assert ClosedCodes(j) == codes[..n - 1] && Open(j) == Decimal(codes[n - 1]);
    DecValueOfDecimal(codes[n - 1]);
    DaParseFramed(j, rest);
    assert DaReply(codes) + rest == [ESC, '[', '?'] + j + ['c'] + rest;
    LastOrInit(codes, CapabilitySixel);
  }

  /** A value is in a non-empty list exactly when it is among its initial elements or is its last. */
  lemma LastOrInit(codes: seq<nat>, x: int)
    requires |codes| >= 1
    ensures x in codes <==> x in codes[..|codes| - 1] || codes[|codes| - 1] == x
  {
    assert codes == codes[..|codes| - 1] + [codes[|codes| - 1]];
  }

  /**
   * On the replies terminals send, the code as written and the intended
   * reading disagree exactly when 4 is the last code and no other.
   */
  lemma DaParsesDiffer(codes: seq<nat>, rest: seq<char>)
    requires |codes| >= 1
    ensures DaParse(DaReply(codes) + rest) != DaParseIntended(DaReply(codes) + rest) <==>
      codes[|codes| - 1] == CapabilitySixel && CapabilitySixel !in codes[..|codes| - 1]
  {
    var n := |codes|;
    DaRoundTrip(codes, rest);
    DaIntendedRoundTrip(codes, rest);
    LastOrInit(codes, CapabilitySixel);
  }

  /** An empty code between two `;` is a framing error, whatever surrounds it. */
  lemma DaRejectsAdjacentSemicolons(b1: seq<char>, rest: seq<char>)
    requires CodeList(b1)
    ensures DaParse([ESC, '[', '?'] + b1 + [';', ';'] + rest) == DaFail
  {
    var t := [ESC, '[', '?'] + b1 + [';', ';'] + rest;
    var i := 3 + |b1| + 2;
    var b := t[3..i];
    assert b == b1 + [';', ';'];
    assert CodeList(b);
    assert b[|b1|] == ';' && b[|b1| + 1] == ';';
    BodyCovers(t, i);
  }

  /** `ESC [ ? 1 ; 4 ; 6 c` reports sixel support. */
  lemma DaExampleSixel()
    ensures DaParse([ESC, '[', '?', '1', ';', '4', ';', '6', 'c']) == DaDone(true)
  {
    assert JoinCodes([1, 4, 6]) == ['1', ';', '4', ';', '6'];
    DaRoundTrip([1, 4, 6], []);
    assert DaReply([1, 4, 6]) + [] == [ESC, '[', '?', '1', ';', '4', ';', '6', 'c'];
  }

  /** `ESC [ ? 1 ; 2 c` does not. */
  lemma DaExampleNoSixel()
    ensures DaParse([ESC, '[', '?', '1', ';', '2', 'c']) == DaDone(false)
  {
    assert JoinCodes([1, 2]) == ['1', ';', '2'];
    DaRoundTrip([1, 2], []);
    assert DaReply([1, 2]) + [] == [ESC, '[', '?', '1', ';', '2', 'c'];
  }

  /** Nor does `ESC [ ? 1 ; 4 c`, although it lists code 4. */
  lemma DaExampleFinalFour()
    ensures DaParse([ESC, '[', '?', '1', ';', '4', 'c']) == DaDone(false)
  {
    assert JoinCodes([1, 4]) == ['1', ';', '4'];
    FinalSixelCodeMissed([1, 4], []);
    assert DaReply([1, 4]) + [] == [ESC, '[', '?', '1', ';', '4', 'c'];
  }

  /** Read as intended, `ESC [ ? 1 ; 4 c` reports sixel support. */
  lemma DaIntendedExampleFinalFour()
    ensures DaParseIntended([ESC, '[', '?', '1', ';', '4', 'c']) == DaDone(true)
  {
    assert JoinCodes([1, 4]) == ['1', ';', '4'];
    DaIntendedRoundTrip([1, 4], []);
    assert DaReply([1, 4]) + [] == [ESC, '[', '?', '1', ';', '4', 'c'];
  }

  /**
   * The answer of `interrogate_sixel`: -1 for a negative descriptor, for a
   * `write` that did not report all three request bytes, for a reply the
   * grammar rejects, and for a reply without the sixel code; 0 otherwise.
   */
  function SixelAnswer(ttyfd: int, written: int, input: seq<Read>): (rc: int)
    ensures rc == 0 || rc == -1
  {
    if ttyfd < 0 || written != |DaRequest| then -1
    else if DaParse(ReadBytesRetrying(input)) == DaDone(true) then 0
    else -1
  }

  /**
   * `interrogate_sixel` with the terminal's side as parameters: `written` is
   * what `write` returned and `input` the outcomes of the reads.
   */
  method InterrogateSixel(ttyfd: int, written: int, input: seq<Read>) returns (rc: int)
    ensures rc == 0 || rc == -1
    ensures rc == 0 <==> ttyfd >= 0 && written == |DaRequest| && DaParse(ReadBytesRetrying(input)) == DaDone(true)
    ensures rc == SixelAnswer(ttyfd, written, input)
  {
    if ttyfd < 0 {
      return -1;
    }
    if written < 0 || written != |DaRequest| {
      return -1;
    }
    ghost var t := ReadBytesRetrying(input);
    var done := false;
    var havesixel := false;
    var state := CapsEsc;
    var capid := 0;
    ghost var p := 0;
    ghost var framingError := false;
    var i := 0;
    while i < |input| && (input[i].Byte? || input[i].WouldBlock?)
      invariant 0 <= i <= |input| && p <= |t|
      invariant CapsSoFar(t, p, state, capid, havesixel)
      invariant ReadBytesRetrying(input[i..]) == t[p..]
      invariant !done && !framingError
      decreases |input| - i
    {
      if input[i].WouldBlock? {
        RetryingSkip(input, i);
        i := i + 1;
        continue;
      }
      var ch := input[i].c;
      RetryingAdvance(input, t, i, p);
      i := i + 1;
      CapsStepSound(t, p, state, capid, havesixel);
      var (valid, next, capid', havesixel') := CapsStep(state, capid, havesixel, ch);
      state, capid, havesixel := next, capid', havesixel';
      p := p + 1;
      if !valid {
        framingError := true;
        break;
      }
      if state == CapsC {
        done := true;
        break;
      }
    }
    if !done {
      if !framingError {
        RetryingStop(input, t, i, p);
        CapsEndSound(t, state, capid, havesixel);
      }
      return -1;
    }
    if !havesixel {
      return -1;
    }
    return 0;
  }
}
