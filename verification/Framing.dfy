/** Cutting a byte stream into length-prefixed frames, as src/gorm_client_event.cc does it. */
module Framing {
  import opened Basics
  import opened Wire

  type Bytes = seq<Octet>

  /** How cutting a stream ends.  More: the rest is less than one frame.  Stalled: a frame
      announces length 0, which the reader treats as no announcement.  TooLarge: a frame
      announces more than 8 MiB.  Negative: the announced length is negative as an int, and the
      source moves backwards in its buffer. */
  datatype Status = More | Stalled | TooLarge | Negative

  datatype Cut = Cut(frames: seq<Bytes>, rest: Bytes, status: Status)

  /** What the length announced by more than four bytes leads to. */
  function Verdict(len: nat): Status {
    if len == 0 then Stalled
    else if len >= 0x8000_0000 then Negative
    else if len > MAX_REQUEST_LEN then TooLarge
    else More
  }

  function StatusOf(b: Bytes): Status {
    if |b| <= 4 then More else Verdict(GetMsgLen(b))
  }

  /** The stream starts with a whole frame; one shorter than a header is cut off all the same. */
  predicate HasFrame(b: Bytes) {
    |b| > 4 && 0 < GetMsgLen(b) <= MAX_REQUEST_LEN && GetMsgLen(b) <= |b|
  }

  function Parse(b: Bytes): Cut
    decreases |b|
  {
    if HasFrame(b) then
      var c := Parse(b[GetMsgLen(b)..]);
      Cut([b[..GetMsgLen(b)]] + c.frames, c.rest, c.status)
    else
      Cut([], b, StatusOf(b))
  }

  /** A well-formed frame: it holds a header, is exactly as long as it says, and not too long. */
  predicate Frame(f: Bytes) {
    RSP_HEADER_LEN <= |f| <= MAX_REQUEST_LEN && GetMsgLen(f) == |f|
  }

  function Flat(chunks: seq<Bytes>): Bytes {
    if chunks == [] then [] else chunks[0] + Flat(chunks[1..])
  }

  lemma {:induction false} FlatAppend(a: seq<Bytes>, b: seq<Bytes>)
    ensures Flat(a + b) == Flat(a) + Flat(b)
    decreases |a|
  {
    if a == [] {
      assert a + b == b;
    } else {
      FlatAppend(a[1..], b);
      assert (a + b)[1..] == a[1..] + b;
    }
  }

  lemma FlatOne(c: Bytes)
    ensures Flat([c]) == c
  {
    assert [c][1..] == [];
  }

  /** The announced length is read from the first four bytes only. */
  lemma LengthInPrefix(b: Bytes, c: Bytes)
    requires |b| >= 4
    ensures GetMsgLen(b + c) == GetMsgLen(b)
  {}

  /** Whatever is cut off is exactly as long as it says. */
  lemma {:induction false} FramesAreFrames(b: Bytes, i: nat)
    requires i < |Parse(b).frames|
    ensures var f := Parse(b).frames[i];
            0 < |f| <= MAX_REQUEST_LEN && (|f| >= 4 ==> GetMsgLen(f) == |f|)
    decreases |b|
  {
    var n := GetMsgLen(b);
    if i == 0 {
      if n >= 4 {
        LengthInPrefix(b[..n], b[n..]);
        assert b == b[..n] + b[n..];
      }
    } else {
      hide GetMsgLen;
      FramesAreFrames(b[n..], i - 1);
    }
  }

  /** Cutting loses, adds and reorders nothing. */
  lemma {:induction false} ParseKeepsBytes(b: Bytes)
    ensures Flat(Parse(b).frames) + Parse(b).rest == b
    decreases |b|
  {
    hide GetMsgLen, StatusOf;
    if HasFrame(b) {
      var head, tail := b[..GetMsgLen(b)], b[GetMsgLen(b)..];
      ParseKeepsBytes(tail);
      FlatOne(head);
      FlatAppend([head], Parse(tail).frames);
      assert b == head + tail;
    }
  }

  /** The rest of a cut is itself uncut. */
  lemma {:induction false} RestIsUncut(b: Bytes)
    ensures !HasFrame(Parse(b).rest) && Parse(b).status == StatusOf(Parse(b).rest)
    decreases |b|
  {
    hide GetMsgLen, StatusOf;
    if HasFrame(b) {
      RestIsUncut(b[GetMsgLen(b)..]);
    }
  }

  /** Bytes that arrive later only concern the rest: cutting is incremental. */
  lemma {:induction false} ParseMore(b: Bytes, c: Bytes)
    ensures var p, q := Parse(b), Parse(Parse(b).rest + c);
            Parse(b + c) == Cut(p.frames + q.frames, q.rest, q.status)
    decreases |b|
  {
    hide GetMsgLen, StatusOf;
    if HasFrame(b) {
      LengthInPrefix(b, c);
      var head, tail := b[..GetMsgLen(b)], b[GetMsgLen(b)..];
      assert (b + c)[GetMsgLen(b)..] == tail + c && (b + c)[..GetMsgLen(b)] == head;
      ParseMore(tail, c);
      var p := Parse(tail);
      var q := Parse(p.rest + c);
      assert [head] + (p.frames + q.frames) == ([head] + p.frames) + q.frames;
    } else {
      var q := Parse(b + c);
      assert [] + q.frames == q.frames;
    }
  }

  /** A frame in front is cut off first. */
  lemma ParseCons(head: Bytes, others: Bytes)
    requires Frame(head)
    ensures Parse(head + others) == Cut([head] + Parse(others).frames, Parse(others).rest, Parse(others).status)
  {
    LengthInPrefix(head, others);
    hide GetMsgLen, StatusOf;
    assert (head + others)[..|head|] == head && (head + others)[|head|..] == others;
  }

  predicate AllFrames(frames: seq<Bytes>) {
    forall i :: 0 <= i < |frames| ==> Frame(frames[i])
  }

  lemma FlatFirst(frames: seq<Bytes>, tail: Bytes)
    requires frames != []
    ensures Flat(frames) + tail == frames[0] + (Flat(frames[1..]) + tail)
  {}

  /** Cutting a stream of well-formed frames and a part of one more gives exactly them. */
  lemma {:induction false} ParseOfFrames(frames: seq<Bytes>, tail: Bytes)
    requires AllFrames(frames) && !HasFrame(tail)
    ensures Parse(Flat(frames) + tail) == Cut(frames, tail, StatusOf(tail))
    decreases |frames|
  {
    hide StatusOf, HasFrame, Frame;
    if frames == [] {
      assert Flat(frames) + tail == tail;
    } else {
      hide Parse, Flat;
      assert AllFrames(frames[1..]) && Frame(frames[0]);
      hide AllFrames;
      ParseOfFrames(frames[1..], tail);
      ParseCons(frames[0], Flat(frames[1..]) + tail);
      FlatFirst(frames, tail);
      assert frames == [frames[0]] + frames[1..];
    }
  }

  /** What is refused stays refused, whatever follows. */
  lemma RefusalStays(b: Bytes, c: Bytes)
    requires Parse(b).status != More
    ensures Parse(b + c) == Cut(Parse(b).frames, Parse(b).rest + c, Parse(b).status)
  {
    RestIsUncut(b);
    ParseMore(b, c);
    var r := Parse(b).rest;
    LengthInPrefix(r, c);
    hide GetMsgLen;
    assert Parse(b).frames + [] == Parse(b).frames;
  }
}
