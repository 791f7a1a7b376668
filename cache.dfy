/**
 * `notcurses_cansixel`: the process-wide answer to "does this terminal do
 * sixel graphics", resolved by one device-attributes query on first use and
 * remembered afterwards.
 */
module SixelCache {
  import opened Tty
  import opened SixelQuery

  /** The cache's three states; it leaves `SixelUnverified` once and for all. */
  datatype SixelState = SixelUnverified | SixelVerifiedTrue | SixelVerifiedFalse

  /** The part of the library context that the cache uses. */
  class Notcurses {
    const ttyfd: int
    var sixel: SixelState

    constructor (ttyfd: int)
      ensures this.ttyfd == ttyfd && sixel == SixelUnverified
    {
      this.ttyfd := ttyfd;
      sixel := SixelUnverified;
    }

    /**
     * `written` and `input` say how the terminal would answer a query; they
     * matter only when the query runs, and `queried` says whether it did.
     * A failed query (any -1 from `interrogate_sixel`) resolves to false.
     */
    method CanSixel(written: int, input: seq<Read>) returns (b: bool, queried: bool)
      modifies this
      ensures queried <==> old(sixel) == SixelUnverified
      ensures queried ==>
        sixel == if SixelAnswer(ttyfd, written, input) == 0 then SixelVerifiedTrue else SixelVerifiedFalse
      ensures !queried ==> sixel == old(sixel)
      ensures sixel != SixelUnverified
      ensures b <==> sixel == SixelVerifiedTrue
    {
      queried := false;
      if sixel == SixelUnverified {
        var rc := InterrogateSixel(ttyfd, written, input);
        queried := true;
        if rc != 0 {
          sixel := SixelVerifiedFalse;
        } else {
          sixel := SixelVerifiedTrue;
        }
      }
      b := sixel == SixelVerifiedTrue;
    }
  }

  /**
   * Two calls in a row: the second issues no query and answers what the
   * first did, however the terminal would have answered the second time.
   */
  method CanSixelTwice(nc: Notcurses, written1: int, input1: seq<Read>, written2: int, input2: seq<Read>)
    returns (b1: bool, b2: bool, queried2: bool)
    modifies nc
    ensures !queried2 && b1 == b2
    ensures old(nc.sixel) == SixelUnverified ==> (b1 <==> SixelAnswer(nc.ttyfd, written1, input1) == 0)
  {
    var q1;
    b1, q1 := nc.CanSixel(written1, input1);
    b2, queried2 := nc.CanSixel(written2, input2);
  }
}
