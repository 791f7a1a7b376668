/**
 * The compiled terminfo database as the library queries it, and the template
 * sanitiser `terminfostr`, which drops the `$<N>` pause directive that
 * `tputs` would honour but direct stdio output must not send.
 */
module Templates {
  import opened Wrappers

  /** What `tigetstr` answers. */
  datatype StrCap =
    | Absent          // NULL: the name is not a string capability
    | Cancelled       // (char*)-1: the entry cancels the capability
    | Present(s: string)

  /**
   * The three ncurses lookups, each a total function of the capability name.
   * `tigetflag` answers 1 (set), 0 (unset) or -1 (not a boolean);
   * `tigetnum` answers the number, -1 (absent) or -2 (not numeric).
   */
  datatype Terminfo = Terminfo(
    tigetstr: string -> StrCap,
    tigetflag: string -> int,
    tigetnum: string -> int)

  /**
   * A template with everything from its first `$` on cut away: what remains
   * of the string after `*strchr(s, '$') = '\0'`.
   */
  function PauseFree(s: string): (r: string)
    ensures r <= s
    ensures '$' !in r
    ensures |r| < |s| ==> s[|r|] == '$'
    decreases |s|
  {
    if s == [] || s[0] == '$' then [] else [s[0]] + PauseFree(s[1..])
  }

  /** The three properties above pin the result down: it is the prefix before the first `$`. */
  lemma PauseFreeUnique(s: string, r: string)
    requires r <= s && '$' !in r
    requires |r| < |s| ==> s[|r|] == '$'
    ensures r == PauseFree(s)
  {
  }

  /** A template without a pause directive passes unchanged. */
  lemma NoPauseUnchanged(s: string)
    requires '$' !in s
    ensures PauseFree(s) == s
  {
  }

  /** Sanitising a sanitised template changes nothing. */
  lemma PauseFreeIdempotent(s: string)
    ensures PauseFree(PauseFree(s)) == PauseFree(s)
  {
    NoPauseUnchanged(PauseFree(s));
  }

  /** The template a field of the capability record holds for `name`. */
  function Sanitized(db: Terminfo, name: string): Option<string> {
    match db.tigetstr(name)
    case Present(s) => Some(PauseFree(s))
    case _ => None
  }

  /**
   * `terminfostr`: -1 and a NULL template for an absent or cancelled
   * capability, otherwise 0 and the template cut at its first `$`.
   * The out-pointer `*gseq` is the out-parameter `gseq`.
   */
  method TerminfoStr(db: Terminfo, name: string) returns (rc: int, gseq: Option<string>)
    ensures rc == 0 || rc == -1
    ensures rc == -1 <==> !db.tigetstr(name).Present?
    ensures gseq.Some? <==> rc == 0
    ensures gseq.Some? ==> '$' !in gseq.value && gseq.value <= db.tigetstr(name).s
    ensures gseq == Sanitized(db, name)
  {
    var raw := db.tigetstr(name);
    if !raw.Present? {
      return -1, None;
    }
    return 0, Some(PauseFree(raw.s));
  }
}
