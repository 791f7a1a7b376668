/**
 * Properties of `interrogate_terminfo` stated over the capability names:
 * what a failed interrogation leaves behind, where every template of a
 * successful one comes from, and how the no-color-video mask acts.
 */
module InterrogateFacts {
  import opened Wrappers
  import opened Templates
  import opened Interrogate

  /** Without a usable `cup` the record keeps nothing but the colour set-up. */
  lemma MissingCupStops(db: Terminfo, colorterm: Option<string>, putpOk: bool)
    requires Sanitized(db, "cup").None?
    ensures var r := Interrogation(db, colorterm, putpOk);
      r.rc == -1 && !r.keypadSent && !r.ti.AMflag &&
      forall c :: c != Initc ==> Field(r.ti, c).None?
  {
  }

  /** With `cup` but without automatic margins, only `cup` is added. */
  lemma MissingAmStops(db: Terminfo, colorterm: Option<string>, putpOk: bool)
    requires Sanitized(db, "cup").Some? && db.tigetflag("am") != 1
    ensures var r := Interrogation(db, colorterm, putpOk);
      r.rc == -1 && !r.keypadSent && !r.ti.AMflag && r.ti.cup == Sanitized(db, "cup") &&
      forall c :: c != Initc && c != Cup ==> Field(r.ti, c).None?
  {
  }

  /**
   * Once `cup` and `am` are there, every template
   * that turns on no style, other than `initc`, is the database's, sanitized.
   */
  lemma TemplatesFromDatabase(db: Terminfo, colorterm: Option<string>, putpOk: bool, c: Cap)
    requires Sanitized(db, "cup").Some? && db.tigetflag("am") == 1
    requires c != Initc && !IsStyleCap(c)
    ensures var r := Interrogation(db, colorterm, putpOk);
      r.ti.AMflag && Field(r.ti, c) == Sanitized(db, CapName(c))
  {
    var named := ColorSetup(db, colorterm).(cup := Sanitized(db, "cup"), AMflag := true);
    var fetched := WithOptional(db, named);
    var masked := MaskStyles(db.tigetnum("ncv"), fetched);
    SuccessRecord(db, colorterm, putpOk);
    LateField(db, masked, c);
    MaskedField(db.tigetnum("ncv"), fetched, c);
    OptionalField(db, named, c);
  }

  /**
   * Once `cup` and `am` are there, a style template is the
   * database's, sanitized, unless the `ncv` mask is positive and has the
   * style's bit, in which case it is None.
   */
  lemma StylesMasked(db: Terminfo, colorterm: Option<string>, putpOk: bool, st: Style)
    requires Sanitized(db, "cup").Some? && db.tigetflag("am") == 1
    ensures var r := Interrogation(db, colorterm, putpOk);
      var mask := db.tigetnum("ncv");
      StyleField(r.ti, st) ==
        if mask > 0 && HasAttr(mask, st) then None else Sanitized(db, CapName(StyleCap(st)))
  {
    var named := ColorSetup(db, colorterm).(cup := Sanitized(db, "cup"), AMflag := true);
    var fetched := WithOptional(db, named);
    var masked := MaskStyles(db.tigetnum("ncv"), fetched);
    SuccessRecord(db, colorterm, putpOk);
    LateField(db, masked, StyleCap(st));
    OptionalField(db, named, StyleCap(st));
  }

  /** The capabilities fetched after the mask is applied (lines 126-131). */
  predicate IsLate(c: Cap) {
    c == Getm || c == Setaf || c == Setab || c == Smkx || c == Rmkx
  }

  /** The capabilities fetched between `am` and the mask (lines 74-99). */
  predicate IsOptional(c: Cap) {
    !IsLate(c) && c != Initc && c != Cup
  }

  /** The capabilities that turn a style on. */
  predicate IsStyleCap(c: Cap) {
    c == Smso || c == Smul || c == Rev || c == Cap.Blink || c == Cap.Dim || c == Cap.Bold || c == Sitm
  }

  /** Once `cup` and `am` are there, the record is the colour set-up run through the three fetch stages. */
  lemma SuccessRecord(db: Terminfo, colorterm: Option<string>, putpOk: bool)
    requires Sanitized(db, "cup").Some? && db.tigetflag("am") == 1
    ensures Interrogation(db, colorterm, putpOk).ti ==
      WithLate(db, MaskStyles(db.tigetnum("ncv"),
        WithOptional(db, ColorSetup(db, colorterm).(cup := Sanitized(db, "cup"), AMflag := true))))
  {
  }

  /** The late fetches set exactly the late capabilities. */
  lemma LateField(db: Terminfo, t: Caps, c: Cap)
    ensures Field(WithLate(db, t), c) == if IsLate(c) then Sanitized(db, CapName(c)) else Field(t, c)
  {
    match c {
      case Getm =>
      case Setaf =>
      case Setab =>
      case Smkx =>
      case Rmkx =>
      case _ =>
        assert !IsLate(c);
    }
  }

  /** The optional fetches set exactly the optional capabilities. */
  lemma OptionalField(db: Terminfo, t: Caps, c: Cap)
    ensures Field(WithOptional(db, t), c) == if IsOptional(c) then Sanitized(db, CapName(c)) else Field(t, c)
  {
    match c {
      case Initc =>
      case Cup =>
      case Getm =>
      case Setaf =>
      case Setab =>
      case Smkx =>
      case Rmkx =>
      case _ =>
        assert IsOptional(c);
    }
  }

  /** The mask touches only style capabilities, each through its own style's bit. */
  lemma MaskedField(mask: int, t: Caps, c: Cap)
    ensures IsStyleCap(c) ==> exists st :: StyleCap(st) == c && Field(MaskStyles(mask, t), c) == Masked(mask, st, Field(t, c))
    ensures !IsStyleCap(c) ==> Field(MaskStyles(mask, t), c) == Field(t, c)
  {
    var r := MaskStyles(mask, t);
    var st :=
      match c
      case Smul => WaUnderline
      case Rev => WaReverse
      case Blink => WaBlink
      case Dim => WaDim
      case Bold => WaBold
      case Sitm => WaItalic
      case _ => WaStandout;
    if IsStyleCap(c) {
      assert StyleField(r, st) == Masked(mask, st, StyleField(t, st));
    }
  }

  /** A mask holding the single bit of one style suppresses that style and no other. */
  lemma SingleStyleMask(st: Style, other: Style)
    ensures HasAttr(WaAttr(st), other) <==> other == st
  {
  }

  /** The `ncv` step runs only for a positive mask: zero or a negative value suppresses nothing. */
  lemma NonPositiveMaskKeeps(mask: int, t: Caps)
    requires mask <= 0
    ensures MaskStyles(mask, t) == t
  {
  }
}
