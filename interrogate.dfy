/**
 * `interrogate_terminfo`: the capability record (`tinfo`) built from the
 * terminfo database, with the TrueColor decision, the monochrome fallback,
 * the two required capabilities, the no-color-video mask and the switch to
 * keypad-transmit mode.
 */
module Interrogate {
  import opened Wrappers
  import opened Templates
  import opened TrueColor

  /** The capability record. Absent templates are None (NULL). */
  datatype Caps = Caps(
    colors: int,
    RGBflag: bool,
    CCCflag: bool,
    AMflag: bool,
    initc: Option<string>,
    cup: Option<string>,
    civis: Option<string>,
    cnorm: Option<string>,
    standout: Option<string>,
    uline: Option<string>,
    reverse: Option<string>,
    blink: Option<string>,
    dim: Option<string>,
    bold: Option<string>,
    italics: Option<string>,
    italoff: Option<string>,
    sgr: Option<string>,
    sgr0: Option<string>,
    op: Option<string>,
    oc: Option<string>,
    home: Option<string>,
    clearscr: Option<string>,
    cleareol: Option<string>,
    clearbol: Option<string>,
    cuu: Option<string>,
    cud: Option<string>,
    hpa: Option<string>,
    vpa: Option<string>,
    cuf: Option<string>,
    cub: Option<string>,
    cuf1: Option<string>,
    cub1: Option<string>,
    getm: Option<string>,
    setaf: Option<string>,
    setab: Option<string>,
    smkx: Option<string>,
    rmkx: Option<string>)

  /** The string capabilities of the record, named after their terminfo names. */
  datatype Cap =
    | Initc | Cup | Civis | Cnorm | Smso | Smul
    | Rev | Blink | Dim | Bold | Sitm | Ritm
    | Sgr | Sgr0 | Op | Oc | Home | Clear
    | El | El1 | Cuu | Cud | Hpa | Vpa
    | Cuf | Cub | Cuf1 | Cub1 | Getm | Setaf
    | Setab | Smkx | Rmkx

  /** The terminfo name under which a capability is looked up. */
  function CapName(c: Cap): string {
    match c
    case Initc => "initc"
    case Cup => "cup"
    case Civis => "civis"
    case Cnorm => "cnorm"
    case Smso => "smso"
    case Smul => "smul"
    case Rev => "rev"
    case Blink => "blink"
    case Dim => "dim"
    case Bold => "bold"
    case Sitm => "sitm"
    case Ritm => "ritm"
    case Sgr => "sgr"
    case Sgr0 => "sgr0"
    case Op => "op"
    case Oc => "oc"
    case Home => "home"
    case Clear => "clear"
    case El => "el"
    case El1 => "el1"
    case Cuu => "cuu"
    case Cud => "cud"
    case Hpa => "hpa"
    case Vpa => "vpa"
    case Cuf => "cuf"
    case Cub => "cub"
    case Cuf1 => "cuf1"
    case Cub1 => "cub1"
    case Getm => "getm"
    case Setaf => "setaf"
    case Setab => "setab"
    case Smkx => "smkx"
    case Rmkx => "rmkx"
  }

  /** The field of the record that holds a capability. */
  function Field(t: Caps, c: Cap): Option<string> {
    match c
    case Initc => t.initc
    case Cup => t.cup
    case Civis => t.civis
    case Cnorm => t.cnorm
    case Smso => t.standout
    case Smul => t.uline
    case Rev => t.reverse
    case Blink => t.blink
    case Dim => t.dim
    case Bold => t.bold
    case Sitm => t.italics
    case Ritm => t.italoff
    case Sgr => t.sgr
    case Sgr0 => t.sgr0
    case Op => t.op
    case Oc => t.oc
    case Home => t.home
    case Clear => t.clearscr
    case El => t.cleareol
    case El1 => t.clearbol
    case Cuu => t.cuu
    case Cud => t.cud
    case Hpa => t.hpa
    case Vpa => t.vpa
    case Cuf => t.cuf
    case Cub => t.cub
    case Cuf1 => t.cuf1
    case Cub1 => t.cub1
    case Getm => t.getm
    case Setaf => t.setaf
    case Setab => t.setab
    case Smkx => t.smkx
    case Rmkx => t.rmkx
  }

  /** The text styles that the no-color-video mask can suppress. */
  datatype Style = WaStandout | WaUnderline | WaReverse | WaBlink | WaDim | WaBold | WaItalic

  /** The capability that turns a style on. */
  function StyleCap(st: Style): Cap {
    match st
    case WaStandout => Smso
    case WaUnderline => Smul
    case WaReverse => Rev
    case WaBlink => Cap.Blink
    case WaDim => Cap.Dim
    case WaBold => Cap.Bold
    case WaItalic => Sitm
  }

  /** The field of the record that holds the template turning a style on. */
  function StyleField(t: Caps, st: Style): (f: Option<string>)
    ensures f == Field(t, StyleCap(st))
  {
    match st
    case WaStandout => t.standout
    case WaUnderline => t.uline
    case WaReverse => t.reverse
    case WaBlink => t.blink
    case WaDim => t.dim
    case WaBold => t.bold
    case WaItalic => t.italics
  }

  /**
   * The curses attribute `WA_<style>` that the mask is tested against: one
   * bit per style. The ncurses values are outside this model; these stand-ins
   * keep the one property the code relies on, seven distinct single bits.
   */
  function WaAttr(st: Style): nat {
    match st
    case WaStandout => 1
    case WaUnderline => 2
    case WaReverse => 4
    case WaBlink => 8
    case WaDim => 16
    case WaBold => 32
    case WaItalic => 64
  }

  /** `mask & WaAttr(st)` is non-zero, for a non-negative mask. */
  predicate HasAttr(mask: int, st: Style) {
    (mask / WaAttr(st)) % 2 == 1
  }

  /** The record as `memset(ti, 0, sizeof(*ti))` leaves it. */
  function Zeroed(): Caps {
    Caps(0, false, false, false,
      None,
      None,
      None,
      None,
      None,
      None,
      None,
      None,
      None,
      None,
      None,
      None,
      None,
      None,
      None,
      None,
      None,
      None,
      None,
      None,
      None,
      None,
      None,
      None,
      None,
      None,
      None,
      None,
      None,
      None,
      None,
      None,
      None)
  }

  /**
   * The colour set-up that opens `interrogate_terminfo`: the TrueColor flag,
   * the colour count, and `initc`/`ccc`, all forced off for a terminal
   * reporting no positive colour count.
   */
  function ColorSetup(db: Terminfo, colorterm: Option<string>): Caps {
    var t := Zeroed().(RGBflag := QueryRgb(db.tigetflag("RGB"), colorterm), colors := db.tigetnum("colors"));
    if t.colors <= 0 then t.(colors := 1, CCCflag := false, RGBflag := false, initc := None)
    else
      var initc := Sanitized(db, "initc");
      t.(initc := initc, CCCflag := initc.Some? && db.tigetflag("ccc") == 1)
  }

  /** The optional templates, fetched after the `am` check and before the mask is applied. */
  function WithOptional(db: Terminfo, t: Caps): Caps {
    t.(
      civis := Sanitized(db, "civis"),
      cnorm := Sanitized(db, "cnorm"),
      standout := Sanitized(db, "smso"),
      uline := Sanitized(db, "smul"),
      reverse := Sanitized(db, "rev"),
      blink := Sanitized(db, "blink"),
      dim := Sanitized(db, "dim"),
      bold := Sanitized(db, "bold"),
      italics := Sanitized(db, "sitm"),
      italoff := Sanitized(db, "ritm"),
      sgr := Sanitized(db, "sgr"),
      sgr0 := Sanitized(db, "sgr0"),
      op := Sanitized(db, "op"),
      oc := Sanitized(db, "oc"),
      home := Sanitized(db, "home"),
      clearscr := Sanitized(db, "clear"),
      cleareol := Sanitized(db, "el"),
      clearbol := Sanitized(db, "el1"),
      cuu := Sanitized(db, "cuu"),
      cud := Sanitized(db, "cud"),
      hpa := Sanitized(db, "hpa"),
      vpa := Sanitized(db, "vpa"),
      cuf := Sanitized(db, "cuf"),
      cub := Sanitized(db, "cub"),
      cuf1 := Sanitized(db, "cuf1"),
      cub1 := Sanitized(db, "cub1"))
  }

  /** A style template after the mask: gone when the mask is positive and has the style's bit. */
  function Masked(mask: int, st: Style, f: Option<string>): Option<string> {
    if mask > 0 && HasAttr(mask, st) then None else f
  }

  /** The `ncv` step: null each style whose bit a positive mask has; nothing else changes. */
  function MaskStyles(mask: int, t: Caps): (r: Caps)
    ensures forall st :: StyleField(r, st) == Masked(mask, st, StyleField(t, st))
    ensures r.(standout := t.standout, uline := t.uline, reverse := t.reverse, blink := t.blink, dim := t.dim, bold := t.bold, italics := t.italics) == t
  {
    t.(standout := Masked(mask, WaStandout, t.standout),
      uline := Masked(mask, WaUnderline, t.uline),
      reverse := Masked(mask, WaReverse, t.reverse),
      blink := Masked(mask, WaBlink, t.blink),
      dim := Masked(mask, WaDim, t.dim),
      bold := Masked(mask, WaBold, t.bold),
      italics := Masked(mask, WaItalic, t.italics))
  }

  /** The templates fetched after the mask is applied, `smkx` among them. */
  function WithLate(db: Terminfo, t: Caps): Caps {
    t.(
      getm := Sanitized(db, "getm"),
      setaf := Sanitized(db, "setaf"),
      setab := Sanitized(db, "setab"),
      smkx := Sanitized(db, "smkx"),
      rmkx := Sanitized(db, "rmkx"))
  }

  /** What `interrogate_terminfo` returns, the record it leaves, and whether it wrote `smkx`. */
  datatype Interrogated = Interrogated(rc: int, ti: Caps, keypadSent: bool)

  /**
   * The result of `interrogate_terminfo`. `colorterm` is the environment's
   * COLORTERM and `putpOk` whether writing the keypad-transmit template
   * would succeed.
   */
  function Interrogation(db: Terminfo, colorterm: Option<string>, putpOk: bool): (r: Interrogated)
    ensures r.rc == 0 || r.rc == -1
    ensures r.rc == 0 <==>
      Sanitized(db, "cup").Some? && db.tigetflag("am") == 1 && (Sanitized(db, "smkx").None? || putpOk)
    ensures r.keypadSent <==>
      Sanitized(db, "cup").Some? && db.tigetflag("am") == 1 && Sanitized(db, "smkx").Some?
    ensures r.ti.colors >= 1
    ensures db.tigetnum("colors") <= 0 ==>
      r.ti.colors == 1 && !r.ti.RGBflag && !r.ti.CCCflag && r.ti.initc == None
    ensures db.tigetnum("colors") > 0 ==>
      r.ti.colors == db.tigetnum("colors") && r.ti.initc == Sanitized(db, "initc") &&
      (r.ti.RGBflag <==> QueryRgb(db.tigetflag("RGB"), colorterm))
    ensures r.ti.CCCflag <==> r.ti.initc.Some? && db.tigetflag("ccc") == 1
  {
    var t := ColorSetup(db, colorterm);
    var cup := Sanitized(db, "cup");
    if cup.None? then Interrogated(-1, t, false)
    else
      var t := t.(cup := cup, AMflag := db.tigetflag("am") == 1);
      if !t.AMflag then Interrogated(-1, t, false)
      else
        var t := WithLate(db, MaskStyles(db.tigetnum("ncv"), WithOptional(db, t)));
        if t.smkx.None? then Interrogated(0, t, false)
        else Interrogated(if putpOk then 0 else -1, t, true)
  }

  /** The colour set-up, on a zeroed record. */
  method SetupColors(db: Terminfo, colorterm: Option<string>) returns (ti: Caps)
    ensures ti == ColorSetup(db, colorterm)
  {
    ti := Zeroed();
    ti := ti.(RGBflag := QueryRgb(db.tigetflag("RGB"), colorterm));
    ti := ti.(colors := db.tigetnum("colors"));
    var found: int, s: Option<string>;
    if ti.colors <= 0 {
      ti := ti.(colors := 1, CCCflag := false, RGBflag := false, initc := None);
    } else {
      found, s := TerminfoStr(db, "initc");
      ti := ti.(initc := s);
      if ti.initc.Some? {
        ti := ti.(CCCflag := db.tigetflag("ccc") == 1);
      } else {
        ti := ti.(CCCflag := false);
      }
    }
  }

  /** Fetch the optional templates into `t`. */
  method FetchOptional(db: Terminfo, t: Caps) returns (ti: Caps)
    ensures ti == WithOptional(db, t)
  {
    ti := t;
    var found: int, s: Option<string>;
    found, s := TerminfoStr(db, "civis");
    ti := ti.(civis := s);
    found, s := TerminfoStr(db, "cnorm");
    ti := ti.(cnorm := s);
    found, s := TerminfoStr(db, "smso");
    ti := ti.(standout := s);
    found, s := TerminfoStr(db, "smul");
    ti := ti.(uline := s);
    found, s := TerminfoStr(db, "rev");
    ti := ti.(reverse := s);
    found, s := TerminfoStr(db, "blink");
    ti := ti.(blink := s);
    found, s := TerminfoStr(db, "dim");
    ti := ti.(dim := s);
    found, s := TerminfoStr(db, "bold");
    ti := ti.(bold := s);
    found, s := TerminfoStr(db, "sitm");
    ti := ti.(italics := s);
    found, s := TerminfoStr(db, "ritm");
    ti := ti.(italoff := s);
    found, s := TerminfoStr(db, "sgr");
    ti := ti.(sgr := s);
    found, s := TerminfoStr(db, "sgr0");
    ti := ti.(sgr0 := s);
    found, s := TerminfoStr(db, "op");
    ti := ti.(op := s);
    found, s := TerminfoStr(db, "oc");
    ti := ti.(oc := s);
    found, s := TerminfoStr(db, "home");
    ti := ti.(home := s);
    found, s := TerminfoStr(db, "clear");
    ti := ti.(clearscr := s);
    found, s := TerminfoStr(db, "el");
    ti := ti.(cleareol := s);
    found, s := TerminfoStr(db, "el1");
    ti := ti.(clearbol := s);
    found, s := TerminfoStr(db, "cuu");
    ti := ti.(cuu := s);
    found, s := TerminfoStr(db, "cud");
    ti := ti.(cud := s);
    found, s := TerminfoStr(db, "hpa");
    ti := ti.(hpa := s);
    found, s := TerminfoStr(db, "vpa");
    ti := ti.(vpa := s);
    found, s := TerminfoStr(db, "cuf");
    ti := ti.(cuf := s);
    found, s := TerminfoStr(db, "cub");
    ti := ti.(cub := s);
    found, s := TerminfoStr(db, "cuf1");
    ti := ti.(cuf1 := s);
    found, s := TerminfoStr(db, "cub1");
    ti := ti.(cub1 := s);
  }

  /**
   * The `ncv` step: drop the style templates the `ncv` mask names. The seven
   * templates are nulled in local copies and stored back together.
   */
  method ApplyNcv(mask: int, t: Caps) returns (ti: Caps)
    ensures ti == MaskStyles(mask, t)
  {
    var standout := t.standout;
    var uline := t.uline;
    var reverse := t.reverse;
    var blink := t.blink;
    var dim := t.dim;
    var bold := t.bold;
    var italics := t.italics;
    if mask > 0 {
      if HasAttr(mask, WaStandout) {
        standout := None;
      }
      if HasAttr(mask, WaUnderline) {
        uline := None;
      }
      if HasAttr(mask, WaReverse) {
        reverse := None;
      }
      if HasAttr(mask, WaBlink) {
        blink := None;
      }
      if HasAttr(mask, WaDim) {
        dim := None;
      }
      if HasAttr(mask, WaBold) {
        bold := None;
      }
      if HasAttr(mask, WaItalic) {
        italics := None;
      }
    }
    ti := t.(standout := standout, uline := uline, reverse := reverse, blink := blink, dim := dim, bold := bold, italics := italics);
  }

  /** Fetch the templates read after the mask. */
  method FetchLate(db: Terminfo, t: Caps) returns (ti: Caps)
    ensures ti == WithLate(db, t)
  {
    ti := t;
    var found: int, s: Option<string>;
    found, s := TerminfoStr(db, "getm");
    ti := ti.(getm := s);
    found, s := TerminfoStr(db, "setaf");
    ti := ti.(setaf := s);
    found, s := TerminfoStr(db, "setab");
    ti := ti.(setab := s);
    found, s := TerminfoStr(db, "smkx");
    ti := ti.(smkx := s);
    found, s := TerminfoStr(db, "rmkx");
    ti := ti.(rmkx := s);
  }

  /**
   * `interrogate_terminfo`: fills the out-parameter record `ti` stage by
   * stage, giving up with -1 when `cup` is missing or `am` is not set, and
   * writing the keypad-transmit template when there is one.
   */
  method InterrogateTerminfo(db: Terminfo, colorterm: Option<string>, putpOk: bool)
    returns (rc: int, ti: Caps, keypadSent: bool)
    ensures Interrogated(rc, ti, keypadSent) == Interrogation(db, colorterm, putpOk)
  {
    keypadSent := false;
    ti := SetupColors(db, colorterm);
    var found, s := TerminfoStr(db, "cup");
    ti := ti.(cup := s);
    if ti.cup.None? {
      return -1, ti, false;
    }
    ti := ti.(AMflag := db.tigetflag("am") == 1);
    if !ti.AMflag {
      return -1, ti, false;
    }
    ti := FetchOptional(db, ti);
    ti := ApplyNcv(db.tigetnum("ncv"), ti);
    ti := FetchLate(db, ti);
    if ti.smkx.Some? {
      keypadSent := true;
      if !putpOk {
        return -1, ti, keypadSent;
      }
    }
    return 0, ti, keypadSent;
  }
}

