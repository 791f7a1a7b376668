/**
 * The terminal descriptor as the reply parsers see it: the outcomes of the
 * successive one-byte `read` calls. The end of the sequence stands for a read
 * that returns 0 (end of file).
 */
module Tty {

  datatype Read =
    | Byte(c: char)   // read returned 1 and stored one byte
    | WouldBlock      // read returned -1 with errno == EAGAIN
    | Failed          // read returned -1 with any other errno

  /** The escape character that opens every request and reply. */
  const ESC: char := 27 as char

  /**
   * The characters a loop `while(read(fd, &in, 1) == 1)` consumes: every read
   * up to the first one that does not deliver a byte.
   */
  function ReadBytes(s: seq<Read>): (r: seq<char>)
    ensures |r| <= |s|
    ensures |r| < |s| ==> !s[|r|].Byte?
    decreases |s|
  {
    if s == [] || !s[0].Byte? then [] else [s[0].c] + ReadBytes(s[1..])
  }

  /** Each character the loop consumes is the byte the read at the same position delivered. */
  lemma {:induction false} ReadBytesDelivered(s: seq<Read>)
    ensures forall k :: 0 <= k < |ReadBytes(s)| ==> s[k] == Byte(ReadBytes(s)[k])
    decreases |s|
  {
    if s != [] && s[0].Byte? {
      ReadBytesDelivered(s[1..]);
      assert ReadBytes(s) == [s[0].c] + ReadBytes(s[1..]);
    }
  }

  /**
   * The characters a loop that retries on EAGAIN consumes: would-block
   * reads are skipped and the first failed read ends the stream.
   */
  function ReadBytesRetrying(s: seq<Read>): (r: seq<char>)
    ensures |r| <= |s|
    ensures (forall k :: 0 <= k < |s| ==> s[k].Byte?) ==> |r| == |s|
    decreases |s|
  {
    if s == [] then []
    else match s[0]
      case Byte(c) => [c] + ReadBytesRetrying(s[1..])
      case WouldBlock => ReadBytesRetrying(s[1..])
      case Failed => []
  }

  /** A loop that has consumed `t[..i]` and reads one more byte sees `t[i]`. */
  lemma ReadBytesAdvance(s: seq<Read>, t: seq<char>, i: nat)
    requires i < |s| && s[i].Byte? && i <= |t| && ReadBytes(s[i..]) == t[i..]
    ensures i < |t| && t[i] == s[i].c && ReadBytes(s[i + 1..]) == t[i + 1..]
  {
    assert s[i..][1..] == s[i + 1..];
    assert t[i..][1..] == t[i + 1..];
  }

  /** A loop that has consumed `t[..i]` and cannot read another byte has consumed all of `t`. */
  lemma ReadBytesStop(s: seq<Read>, t: seq<char>, i: nat)
    requires i <= |s| && i <= |t| && ReadBytes(s[i..]) == t[i..]
    requires i == |s| || !s[i].Byte?
    ensures i == |t|
  {
  }

  /** The retrying loop, having consumed `t[..p]` by read `i`, sees `t[p]` when that read delivers a byte. */
  lemma RetryingAdvance(s: seq<Read>, t: seq<char>, i: nat, p: nat)
    requires i < |s| && s[i].Byte? && p <= |t| && ReadBytesRetrying(s[i..]) == t[p..]
    ensures p < |t| && t[p] == s[i].c && ReadBytesRetrying(s[i + 1..]) == t[p + 1..]
  {
    assert s[i..][1..] == s[i + 1..];
    assert t[p..][1..] == t[p + 1..];
  }

  /** A read that would block delivers nothing to the retrying loop. */
  lemma RetryingSkip(s: seq<Read>, i: nat)
    requires i < |s| && s[i].WouldBlock?
    ensures ReadBytesRetrying(s[i..]) == ReadBytesRetrying(s[i + 1..])
  {
    assert s[i..][1..] == s[i + 1..];
  }

  /** The retrying loop that stops on a failed read or at the end has consumed all of `t`. */
  lemma RetryingStop(s: seq<Read>, t: seq<char>, i: nat, p: nat)
    requires i <= |s| && p <= |t| && ReadBytesRetrying(s[i..]) == t[p..]
    requires i == |s| || s[i].Failed?
    ensures p == |t|
  {
  }

  /** A terminal that delivers `t` one byte per read. */
  function Bytes(t: seq<char>): (s: seq<Read>)
    ensures |s| == |t|
    ensures forall k :: 0 <= k < |t| ==> s[k] == Byte(t[k])
    decreases |t|
  {
    if t == [] then [] else [Byte(t[0])] + Bytes(t[1..])
  }

  /** The stream delivering `t` and then `rest`, split after its first read. */
  lemma BytesCons(t: seq<char>, rest: seq<Read>)
    requires t != []
    ensures Bytes(t) + rest == [Byte(t[0])] + (Bytes(t[1..]) + rest)
  {
  }

  /** Putting the head of `t` back in front of its tail. */
  lemma HeadTail(t: seq<char>, x: seq<char>)
    requires t != []
    ensures [t[0]] + (t[1..] + x) == t + x
  {
    assert t == [t[0]] + t[1..];
  }

  /** A delivered byte followed by the stream `s`, for the non-retrying loop. */
  lemma ReadBytesCons(c: char, s: seq<Read>)
    ensures ReadBytes([Byte(c)] + s) == [c] + ReadBytes(s)
  {
    assert ([Byte(c)] + s)[1..] == s;
  }

  /** The same for the retrying loop. */
  lemma RetryingCons(c: char, s: seq<Read>)
    ensures ReadBytesRetrying([Byte(c)] + s) == [c] + ReadBytesRetrying(s)
  {
    assert ([Byte(c)] + s)[1..] == s;
  }

  /** The non-retrying loop consumes every byte of a stream that delivers `t` first. */
  lemma {:induction false} ReadBytesOfBytes(t: seq<char>, rest: seq<Read>)
    ensures ReadBytes(Bytes(t) + rest) == t + ReadBytes(rest)
    decreases |t|
  {
    if t == [] {
      assert Bytes(t) + rest == rest;
    } else {
      BytesCons(t, rest);
      ReadBytesCons(t[0], Bytes(t[1..]) + rest);
      ReadBytesOfBytes(t[1..], rest);
      HeadTail(t, ReadBytes(rest));
    }
  }

  /** So does the retrying loop. */
  lemma {:induction false} RetryingOfBytes(t: seq<char>, rest: seq<Read>)
    ensures ReadBytesRetrying(Bytes(t) + rest) == t + ReadBytesRetrying(rest)
    decreases |t|
  {
    if t == [] {
      assert Bytes(t) + rest == rest;
    } else {
      BytesCons(t, rest);
      RetryingCons(t[0], Bytes(t[1..]) + rest);
      RetryingOfBytes(t[1..], rest);
      HeadTail(t, ReadBytesRetrying(rest));
    }
  }

  /** A would-block read anywhere changes nothing for the retrying loop. */
  lemma {:induction false} RetryingSkipsWouldBlock(s1: seq<Read>, s2: seq<Read>)
    ensures ReadBytesRetrying(s1 + [WouldBlock] + s2) == ReadBytesRetrying(s1 + s2)
    decreases |s1|
  {
    if s1 == [] {
      var s := s1 + [WouldBlock] + s2;
      assert s[0] == WouldBlock && s[1..] == s2 && s1 + s2 == s2;
    } else {
      assert (s1 + [WouldBlock] + s2)[1..] == s1[1..] + [WouldBlock] + s2;
      assert (s1 + s2)[1..] == s1[1..] + s2;
      RetryingSkipsWouldBlock(s1[1..], s2);
    }
  }

  /** For the non-retrying loop a would-block read ends the stream. */
  lemma {:induction false} WouldBlockEndsReadBytes(s1: seq<Read>, s2: seq<Read>)
    ensures ReadBytes(s1 + [WouldBlock] + s2) == ReadBytes(s1 + [Failed])
    decreases |s1|
  {
    if s1 != [] {
      assert (s1 + [WouldBlock] + s2)[1..] == s1[1..] + [WouldBlock] + s2;
      assert (s1 + [Failed])[1..] == s1[1..] + [Failed];
      WouldBlockEndsReadBytes(s1[1..], s2);
    }
  }
}
