/** The response reader of src/gorm_client_event.cc: recv into a pooled buffer, cut frames
    by their length, compact or reallocate when a frame would not fit. */
module Reader {
  import opened Basics
  import opened Wire
  import opened Pool
  import opened Framing

  const FIRST_CAPACITY: nat := 1024 * 1024
  const READ_MAX: nat := 1024 * 127

  /** How a call of Read ends.  Closed includes a recv without room. */
  datatype Outcome = Again | Drained | Closed | ParseFailed | Astray

  /** How one pass over the buffer ends.  Refused: a frame of more than 8 MiB is announced.
      Backwards: a negative length is announced; where the source goes from there depends on
      what lies before it in memory, so the model stops. */
  datatype Pass = Done | Refused | Backwards

  /** No accepted frame is under way: its length is not known yet, or it was not accepted. */
  predicate Stranded(rest: Bytes, status: Status) {
    |rest| <= 4 || status != More
  }

  /** recv into the buffer at `at`: what stands before it is kept. */
  method CopyIn(data: array<Octet>, begin: nat, at: nat, chunk: Bytes)
    requires begin <= at <= at + |chunk| <= data.Length
    modifies data
    ensures data[begin..at + |chunk|] == old(data[begin..at]) + chunk
  {
    forall i | 0 <= i < |chunk| {
      data[at + i] := chunk[i];
    }
  }

  /** Frames were added, none of them longer than the buffer. */
  ghost predicate Handed(before: seq<Bytes>, after: seq<Bytes>, capacity: nat) {
    before <= after && forall i :: |before| <= i < |after| ==> |after[i]| <= capacity
  }

  lemma HandedOn(a: seq<Bytes>, b: seq<Bytes>, c: seq<Bytes>, capacity: nat)
    requires Handed(a, b, capacity) && Handed(b, c, capacity)
    ensures Handed(a, c, capacity)
  {
    forall i | |a| <= i < |c| ensures |c[i]| <= capacity {
      if i < |b| { assert c[i] == b[i]; }
    }
  }

  /** Above the first capacity the pool hands out exactly what is asked for. */
  lemma CapacityAboveFirst(size: nat)
    requires FIRST_CAPACITY < size < 0x8000_0000
    ensures CapacityFor(size) == size
  {
    ClassOfIsLeast(size);
  }

  /** 1 MiB is itself a class. */
  lemma FirstCapacity()
    ensures CapacityFor(FIRST_CAPACITY) == FIRST_CAPACITY
  {
    ClassOfIsLeast(FIRST_CAPACITY);
    LargestClass();
    ClassSizeDoubles(ClassOf(FIRST_CAPACITY), TOTAL_TYPE - 1);
  }

  lemma LiveIsOk(pool: MemPool, b: MemPoolData)
    requires pool.Valid() && b in pool.live
    ensures b.data != null && b.data in pool.owner && b.data.Length == b.capacity
  {}

  /** A block of at least `size` with these bytes, in place of an old one. */
  method Swap(pool: MemPool, pOldData: MemPoolData, bytes: Bytes, size: nat) returns (ret: MemPoolData)
    requires pool.Valid() && pOldData in pool.live && |bytes| <= size < 0x8000_0000 && |bytes| <= CapacityFor(size)
    modifies pool, pool.known, pool.owner.Keys
    ensures pool.Valid() && ret in pool.live && ret.data != null && ret.data in pool.owner
    ensures ret.data.Length == ret.capacity == CapacityFor(size) && |bytes| <= ret.capacity
            && ret.data[..|bytes|] == bytes
    ensures fresh(pool.known - old(pool.known)) && fresh(pool.owner.Keys - old(pool.owner.Keys))
    ensures pool.live - {ret} == old(pool.live) - {pOldData}
  {
    hide ClassSize, ClassOf, ClassFrom, CapacityFor, MemPool.Valid;
    ret := pool.GetDataCopy(bytes, size);
    pool.Release(pOldData);
    LiveIsOk(pool, ret);
  }

  class Reader {
    const pool: MemPool
    var readingBuffer: MemPoolData
    var readPos: nat
    var beginReadPos: nat
    var needReadLen: nat
    var dispatched: seq<Bytes>   // frames handed to OneRspFinishRead, in order
    ghost var received: Bytes    // everything recv has delivered

    /** The buffer is a live block of the pool, of 1 to 8 MiB, and the positions are inside it. */
    ghost predicate Buffer()
      reads this, pool, pool.known, readingBuffer
    {
      && pool.Valid() && readingBuffer in pool.live && readingBuffer.data != null && readingBuffer.data in pool.owner
      && readingBuffer.data.Length == readingBuffer.capacity
      && FIRST_CAPACITY <= readingBuffer.capacity <= MAX_REQUEST_LEN
      && beginReadPos <= readPos <= readingBuffer.capacity
    }

    /** The bytes received and not yet dispatched. */
    ghost function Buffered(): (b: Bytes)
      requires Buffer()
      reads this, pool, pool.known, readingBuffer, readingBuffer.data
      ensures |b| == readPos - beginReadPos
    {
      readingBuffer.data[beginReadPos..readPos]
    }

    ghost function Room(): nat
      requires Buffer()
      reads this, pool, pool.known, readingBuffer
    {
      readingBuffer.capacity - readPos
    }

    /** needReadLen is 0, or the length that the buffered frame announces: one that fits the
        buffer, or one that has been refused. */
    ghost predicate NeedOk()
      requires Buffer()
      reads this, pool, pool.known, readingBuffer, readingBuffer.data
    {
      needReadLen != 0 ==>
        && |Buffered()| > 4 && needReadLen == GetMsgLen(Buffered())
        && (MAX_REQUEST_LEN < needReadLen < 0x8000_0000
            || (needReadLen <= MAX_REQUEST_LEN && needReadLen <= readingBuffer.capacity - beginReadPos))
    }

    /** What has been dispatched and what is still to be cut make up what was received. */
    ghost predicate Explains()
      requires Buffer()
      reads this, pool, pool.known, readingBuffer, readingBuffer.data
    {
      var c := Parse(Buffered());
      Parse(received) == Cut(dispatched + c.frames, c.rest, c.status)
    }

    /** Between calls every whole frame has been dispatched. */
    ghost predicate Valid()
      reads this, pool, pool.known, readingBuffer, readingBuffer.data
    {
      && Buffer() && NeedOk()
      && dispatched == Parse(received).frames && Buffered() == Parse(received).rest
      && (needReadLen == 0 <==> |Buffered()| <= 4 || Parse(received).status in {Stalled, Negative})
    }

    /** The announced frame is longer than the buffer was: it has a buffer of exactly its length. */
    ghost predicate Grown()
      reads this, readingBuffer
    {
      needReadLen != 0 && beginReadPos == 0 && readingBuffer.capacity == needReadLen
    }

    /** Nothing is buffered, and there is no room for anything. */
    ghost predicate Full()
      requires Buffer()
      reads this, pool, pool.known, readingBuffer
    {
      needReadLen == 0 && beginReadPos == readPos == readingBuffer.capacity
    }

    constructor (pool: MemPool)
      requires pool.Valid()
      modifies pool, pool.known
      ensures this.pool == pool && Valid() && received == [] && dispatched == []
      ensures fresh(pool.known - old(pool.known)) && fresh(pool.owner.Keys - old(pool.owner.Keys))
      ensures pool.live == old(pool.live) + {readingBuffer}
      ensures readingBuffer !in old(pool.live) && Room() == FIRST_CAPACITY
    {
      hide ClassSize, ClassOf, ClassFrom, CapacityFor, GetMsgLen, MemPool.Valid;
      this.pool := pool;
      FirstCapacity();
      var block := pool.GetData(FIRST_CAPACITY);
      LiveIsOk(pool, block);
      readingBuffer := block;
      readPos, beginReadPos, needReadLen := 0, 0, 0;
      dispatched, received := [], [];
    }

    /** Reconnect: a new stream starts on a frame boundary, in the same buffer. */
    method Reconnect()
      requires Valid()
      modifies this`readPos, this`beginReadPos, this`needReadLen, this`dispatched, this`received
      ensures Valid() && received == [] && dispatched == [] && Buffered() == [] && Room() == readingBuffer.capacity
    {
      hide GetMsgLen, MemPool.Valid;
      readPos, beginReadPos, needReadLen := 0, 0, 0;
      dispatched, received := [], [];
    }

    lemma HasBuffer()
      requires Valid()
      ensures Buffer()
    {}

    lemma Bounds()
      requires Buffer()
      ensures beginReadPos <= readPos <= readingBuffer.capacity <= MAX_REQUEST_LEN
    {}

    /** Start on a new message: learn its length and make it fit. */
    method BeginReadNextMsg() returns (r: Pass)
      requires Buffer() && needReadLen == 0
      modifies this`readingBuffer, this`readPos, this`beginReadPos, this`needReadLen, pool, pool.known, pool.owner.Keys
      ensures Buffer() && NeedOk() && Buffered() == old(Buffered()) && (old(Explains()) ==> Explains())
      ensures r == match StatusOf(Buffered()) { case Negative => Backwards case TooLarge => Refused case _ => Done }
      ensures needReadLen == if |Buffered()| > 4 && r != Backwards then GetMsgLen(Buffered()) else 0
      ensures needReadLen <= old(readingBuffer.capacity - beginReadPos) || r != Done ==>
                readPos == old(readPos) && readingBuffer == old(readingBuffer)
      ensures if r == Done && needReadLen > old(readingBuffer.capacity) then Grown()
              else readingBuffer.capacity == old(readingBuffer.capacity)
      ensures fresh(pool.known - old(pool.known)) && fresh(pool.owner.Keys - old(pool.owner.Keys))
      ensures pool.live - {readingBuffer} == old(pool.live - {readingBuffer})
    {
      hide GetMsgLen, Parse, MemPool.Valid;
      var gotMsgLen := readPos - beginReadPos;
      r := Done;
      if gotMsgLen > 4 {
        var len := GetMsgLen(readingBuffer.data[beginReadPos..readPos]);
        if len >= 0x8000_0000 {
          return Backwards;
        }
        needReadLen := len;
        if needReadLen > MAX_REQUEST_LEN {
          return Refused;
        }
        if needReadLen > readingBuffer.capacity - beginReadPos {
          MakeRoom();
        }
      }
    }

    /** The message does not fit behind beginReadPos: it moves to the start of a buffer. */
    method MakeRoom()
      requires Buffer() && readingBuffer.capacity - beginReadPos < needReadLen <= MAX_REQUEST_LEN
      modifies this`readingBuffer, this`readPos, this`beginReadPos, pool, pool.known, pool.owner.Keys
      ensures Buffer() && Buffered() == old(Buffered()) && beginReadPos == 0 && needReadLen <= readingBuffer.capacity
      ensures readingBuffer.capacity == if needReadLen > old(readingBuffer.capacity) then needReadLen
              else old(readingBuffer.capacity)
      ensures fresh(pool.known - old(pool.known)) && fresh(pool.owner.Keys - old(pool.owner.Keys))
      ensures pool.live - {readingBuffer} == old(pool.live - {readingBuffer})
    {
      hide ClassSize, MemPool.Valid;
      var gotMsgLen := readPos - beginReadPos;
      if needReadLen > readingBuffer.capacity {
        Grow(gotMsgLen);
      } else {
        Compact(gotMsgLen);
      }
      beginReadPos := 0;
      readPos := gotMsgLen;
    }

    /** memmove to the start of the buffer. */
    method Compact(gotMsgLen: nat)
      requires Buffer() && gotMsgLen == readPos - beginReadPos
      modifies readingBuffer.data
      ensures Buffer() && readingBuffer.data[..gotMsgLen] == old(Buffered())
    {
      hide ClassSize, MemPool.Valid;
      var data, begin := readingBuffer.data, beginReadPos;
      forall i | 0 <= i < gotMsgLen {
        data[i] := data[begin + i];
      }
    }

    /** A buffer from the pool of exactly the announced length, with the same bytes; the old
        one goes back. */
    method Grow(gotMsgLen: nat)
      requires Buffer() && gotMsgLen == readPos - beginReadPos
      requires readingBuffer.capacity < needReadLen <= MAX_REQUEST_LEN
      modifies this`readingBuffer, pool, pool.known, pool.owner.Keys
      ensures pool.Valid() && readingBuffer in pool.live && readingBuffer.data != null
              && readingBuffer.data in pool.owner
      ensures needReadLen == readingBuffer.capacity == readingBuffer.data.Length
      ensures readingBuffer.data[..gotMsgLen] == old(Buffered())
      ensures fresh(pool.known - old(pool.known)) && fresh(pool.owner.Keys - old(pool.owner.Keys))
      ensures pool.live - {readingBuffer} == old(pool.live - {readingBuffer})
    {
      hide ClassSize, ClassOf, ClassFrom, CapacityFor, MemPool.Valid;
      CapacityAboveFirst(needReadLen);
      readingBuffer := Swap(pool, readingBuffer, readingBuffer.data[beginReadPos..readPos], needReadLen);
    }

    /** A whole frame is buffered: hand it out. */
    method DispatchOne()
      requires Buffer() && NeedOk() && Explains() && 0 < needReadLen <= |Buffered()|
      modifies this`beginReadPos, this`needReadLen, this`dispatched
      ensures Buffer() && NeedOk() && Explains() && needReadLen == 0 && beginReadPos == old(beginReadPos + needReadLen)
      ensures |dispatched| == old(|dispatched|) + 1 && old(dispatched) <= dispatched
      ensures |dispatched[|dispatched| - 1]| == old(needReadLen)
    {
      hide GetMsgLen, Parse, MemPool.Valid;
      OneFrame(Buffered(), dispatched);
      ghost var b := Buffered();
      dispatched := dispatched + [readingBuffer.data[beginReadPos..beginReadPos + needReadLen]];
      assert readingBuffer.data[beginReadPos..beginReadPos + needReadLen] == b[..needReadLen];
      assert readingBuffer.data[beginReadPos + needReadLen..readPos] == b[needReadLen..];
      beginReadPos := beginReadPos + needReadLen;
      needReadLen := 0;
    }

    /** Dispatch every whole frame that is buffered. */
    method ParsePass() returns (r: Pass)
      requires Buffer() && NeedOk() && Explains()
      modifies this`readingBuffer, this`readPos, this`beginReadPos, this`needReadLen, this`dispatched
      modifies pool, pool.known, pool.owner.Keys
      ensures Valid()
      ensures r == Backwards <==> Parse(received).status == Negative
      ensures r == Refused <==> Parse(received).status == TooLarge && old(needReadLen) <= MAX_REQUEST_LEN
      ensures Stranded(Buffered(), Parse(received).status) ==>
                readPos == old(readPos) && readingBuffer.capacity == old(readingBuffer.capacity)
      ensures readingBuffer.capacity == old(readingBuffer.capacity) || Grown()
      ensures old(Grown()) && needReadLen == 0 ==> beginReadPos == readPos == readingBuffer.capacity
      ensures old(Grown()) && needReadLen != 0 ==> Grown() && dispatched == old(dispatched)
      ensures Handed(old(dispatched), dispatched, old(readingBuffer.capacity))
      ensures fresh(pool.known - old(pool.known)) && fresh(pool.owner.Keys - old(pool.owner.Keys))
      ensures pool.live - {readingBuffer} == old(pool.live - {readingBuffer})
    {
      hide GetMsgLen, Parse, MemPool.Valid, Reader.Explains, Reader.NeedOk, Reader.Buffer;
      while true
        invariant Buffer() && NeedOk() && Explains()
        invariant readPos == old(readPos) && readingBuffer == old(readingBuffer)
        invariant readingBuffer.capacity == old(readingBuffer.capacity)
        invariant needReadLen == 0 || (needReadLen == old(needReadLen) && beginReadPos == old(beginReadPos)
            && dispatched == old(dispatched))
        invariant old(needReadLen) > MAX_REQUEST_LEN ==> needReadLen == old(needReadLen)
        invariant old(Grown()) && needReadLen == 0 ==> beginReadPos == readPos == readingBuffer.capacity
        invariant Handed(old(dispatched), dispatched, old(readingBuffer.capacity))
        invariant fresh(pool.known - old(pool.known)) && fresh(pool.owner.Keys - old(pool.owner.Keys))
        invariant pool.live - {readingBuffer} == old(pool.live - {readingBuffer})
        decreases readPos - beginReadPos
      {
        r := Done;
        Bounds();
        if needReadLen == 0 {
          r := BeginReadNextMsg();
          Bounds();
          if r != Done {
            Rests();
            return;
          }
        }
        if needReadLen != 0 && needReadLen <= readPos - beginReadPos {
          DispatchOne();
        } else {
          Rests();
          return;
        }
      }
    }

    /** A pass ends where no whole frame is left. */
    lemma Rests()
      requires Buffer() && NeedOk() && Explains()
      requires needReadLen == 0 && |Buffered()| > 4 ==>
                 GetMsgLen(Buffered()) == 0 || GetMsgLen(Buffered()) >= 0x8000_0000
      requires needReadLen != 0 ==> needReadLen > |Buffered()|
      ensures Valid() && Parse(received).status == StatusOf(Buffered())
      ensures needReadLen > MAX_REQUEST_LEN <==> Parse(received).status == TooLarge
      ensures Stranded(Buffered(), Parse(received).status) <==> needReadLen == 0 || needReadLen > MAX_REQUEST_LEN
    {
      hide GetMsgLen, MemPool.Valid;
      var c := Parse(Buffered());
      assert c == Cut([], Buffered(), StatusOf(Buffered()));
      assert dispatched + c.frames == dispatched;
    }

    /** One recv that delivers `chunk` behind readPos. */
    method Deliver(chunk: Bytes)
      requires Valid() && |chunk| <= Room()
      modifies this`readPos, this`received, readingBuffer.data
      ensures Buffer() && NeedOk() && Explains() && received == old(received) + chunk
      ensures readPos == old(readPos) + |chunk|
    {
      hide GetMsgLen, Parse, MemPool.Valid;
      ghost var b := Buffered();
      ParseMore(received, chunk);
      if |b| >= 4 { LengthInPrefix(b, chunk); }
      CopyIn(readingBuffer.data, beginReadPos, readPos, chunk);
      readPos := readPos + |chunk|;
      received := received + chunk;
    }

    /** One recv and the pass over what is then buffered.  Room runs out exactly when recv
        filled it and what is left over is a stub of at most four bytes, or is not accepted. */
    method ReadOnce(chunk: Bytes) returns (r: Pass)
      requires Valid() && |chunk| <= Room()
      modifies this, pool, pool.known, pool.owner.Keys
      ensures Valid() && received == old(received) + chunk
      ensures r == Backwards <==> Parse(received).status == Negative
      ensures r == Refused <==> Parse(received).status == TooLarge && old(Parse(received).status) != TooLarge
      ensures Room() == 0 <==> |chunk| == old(Room()) && Stranded(Buffered(), Parse(received).status)
      ensures readingBuffer.capacity == old(readingBuffer.capacity) || Grown()
      ensures old(Grown()) ==> (Grown() && dispatched == old(dispatched)) || Full()
      ensures Handed(old(dispatched), dispatched, old(readingBuffer.capacity))
      ensures fresh(pool.known - old(pool.known)) && fresh(pool.owner.Keys - old(pool.owner.Keys))
      ensures pool.live - {readingBuffer} == old(pool.live - {readingBuffer})
    {
      hide GetMsgLen, Parse, MemPool.Valid;
      RoomOrStranded();
      Deliver(chunk);
      r := ParsePass();
      RoomOrStranded();
    }

    /** Between calls: a part of an accepted frame leaves room for the rest of it, and the
        whole frame fits the buffer. */
    lemma RoomOrStranded()
      requires Valid()
      ensures !Stranded(Buffered(), Parse(received).status) ==>
                && Room() > 0 && |Buffered()| < needReadLen == GetMsgLen(Buffered())
                && beginReadPos + needReadLen <= readingBuffer.capacity
      ensures needReadLen > MAX_REQUEST_LEN <==> Parse(received).status == TooLarge
      ensures Buffered() == Parse(received).rest
    {
      RestIsUncut(received);
      hide GetMsgLen, Parse, MemPool.Valid;
    }

    /** One round of Read with data waiting and room for some of it: take what fits, cut it,
        and go on only if the recv was a full one or filled the buffer. */
    method Round(incoming: seq<Bytes>) returns (left: seq<Bytes>, r: Pass, more: bool)
      requires Valid() && Room() > 0 && incoming != [] && incoming[0] != []
      modifies this, pool, pool.known, pool.owner.Keys
      ensures Valid() && received + Flat(left) == old(received) + Flat(incoming) && |received| > old(|received|)
      ensures |left| < |incoming| || (|left| == |incoming| && |left[0]| < |incoming[0]|)
      ensures r == Backwards <==> Parse(received).status == Negative
      ensures r == Refused ==> Parse(received).status == TooLarge
      ensures more <==> |received| - old(|received|) >= READ_MAX || |received| - old(|received|) == old(Room())
      ensures readingBuffer.capacity == old(readingBuffer.capacity) || Grown()
      ensures old(Grown()) ==> (Grown() && dispatched == old(dispatched)) || Full()
      ensures Handed(old(dispatched), dispatched, old(readingBuffer.capacity))
      ensures fresh(pool.known - old(pool.known)) && fresh(pool.owner.Keys - old(pool.owner.Keys))
      ensures pool.live - {readingBuffer} == old(pool.live - {readingBuffer})
    {
      hide Parse, MemPool.Valid, Reader.NeedOk, Reader.Buffer, Flat;
      var room := readingBuffer.capacity - readPos;
      var n := if |incoming[0]| < room then |incoming[0]| else room;
      left := Untaken(incoming, n);
      TakeChunk(incoming, n);
      var chunk := incoming[0][..n];
      assert received + Flat(incoming) == (received + chunk) + Flat(left);
      r := ReadOnce(chunk);
      more := n >= READ_MAX || n >= room;
    }

    /** Since it had this capacity and these frames the reader has handed out nothing longer
        than that, or its buffer is full of nothing. */
    ghost predicate LongFills(before: seq<Bytes>, capacity: nat)
      requires Buffer()
      reads this, pool, pool.known, readingBuffer
    {
      Handed(before, dispatched, capacity) || (before <= dispatched && Full())
    }

    /** Read until the socket is drained.  `incoming` is what successive recv calls find: a
        chunk, cut short by the room there is; an empty chunk for a closed peer; nothing for
        EAGAIN.  A recv without room returns 0 and counts as a closed peer. */
    method Read(incoming: seq<Bytes>) returns (left: seq<Bytes>, outcome: Outcome)
      requires Valid()
      modifies this, pool, pool.known, pool.owner.Keys
      ensures Valid() && received + Flat(left) == old(received) + Flat(incoming)
      ensures outcome == Again ==> left == []
      ensures outcome == Closed ==> left != [] && (Room() == 0 || left[0] == [])
      ensures outcome == ParseFailed ==> Parse(received).status == TooLarge
      ensures outcome == Astray ==> Parse(received).status == Negative
      ensures incoming != [] && (old(Room()) == 0 || incoming[0] == []) ==>
                outcome == Closed && left == incoming && received == old(received)
      ensures outcome in {Drained, ParseFailed, Astray} ==> |received| > old(|received|)
      ensures readingBuffer.capacity == old(readingBuffer.capacity) || Grown() || Full()
      ensures old(Grown()) ==> (Grown() && dispatched == old(dispatched)) || Full()
      ensures old(Full()) ==> Full() && dispatched == old(dispatched)
      ensures LongFills(old(dispatched), old(readingBuffer.capacity))
      ensures fresh(pool.known - old(pool.known)) && fresh(pool.owner.Keys - old(pool.owner.Keys))
      ensures pool.live - {readingBuffer} == old(pool.live - {readingBuffer})
    {
      hide Parse, MemPool.Valid, Reader.NeedOk, Reader.Buffer, Flat;
      left := incoming;
      while left != []
        invariant Valid() && received + Flat(left) == old(received) + Flat(incoming)
        invariant |received| >= old(|received|)
        invariant received == old(received) ==> left == incoming && Room() == old(Room())
        invariant incoming != [] && (old(Room()) == 0 || incoming[0] == []) ==> received == old(received)
        invariant readingBuffer.capacity == old(readingBuffer.capacity) || Grown() || Full()
        invariant old(Grown()) ==> (Grown() && dispatched == old(dispatched)) || Full()
        invariant old(Full()) ==> Full() && dispatched == old(dispatched)
        invariant LongFills(old(dispatched), old(readingBuffer.capacity))
        invariant fresh(pool.known - old(pool.known)) && fresh(pool.owner.Keys - old(pool.owner.Keys))
        invariant pool.live - {readingBuffer} == old(pool.live - {readingBuffer})
        decreases |left|, if left == [] then 0 else |left[0]|
      {
        if readPos == readingBuffer.capacity || left[0] == [] {
          return left, Closed;
        }
        var r, more;
        left, r, more := Round(left);
        if r == Backwards {
          return left, Astray;
        }
        if r == Refused {
          return left, ParseFailed;
        }
        if !more {
          return left, Drained;
        }
      }
      outcome := Again;
    }

    /** What a reader that had these frames and this capacity can have become. */
    ghost predicate Since(before: seq<Bytes>, capacity: nat)
      requires Buffer()
      reads this, pool, pool.known, readingBuffer
    {
      LongFills(before, capacity) && (readingBuffer.capacity == capacity || Grown() || Full())
    }

    ghost function Footprint(): set<object>
      reads this, pool
    {
      {this, pool} + pool.known + pool.owner.Keys
    }

    method ReadAgain(incoming: seq<Bytes>, ghost before: seq<Bytes>, ghost capacity: nat) returns (outcome: Outcome)
      requires Valid() && Since(before, capacity)
      modifies Footprint()
      ensures Valid() && Buffer() && Since(before, capacity)
      ensures incoming != [] && old(Full()) ==> outcome == Closed
      ensures old(Full()) ==> dispatched == old(dispatched)
      ensures fresh(Footprint() - old(Footprint()))
    {
      hide Parse, MemPool.Valid, Reader.Valid, Reader.Buffer;
      ghost var between := dispatched;
      var _, o := Read(incoming);
      outcome := o;
      HasBuffer();
      if Handed(before, between, capacity) && Handed(between, dispatched, capacity) {
        HandedOn(before, between, dispatched, capacity);
      }
    }

    method ReadCalls(calls: seq<seq<Bytes>>, ghost before: seq<Bytes>, ghost capacity: nat)
      requires Valid() && Since(before, capacity)
      modifies Footprint()
      decreases |calls|
      ensures Valid() && Buffer() && Since(before, capacity)
      ensures fresh(Footprint() - old(Footprint()))
    {
      HasBuffer();
      hide Parse, MemPool.Valid, Reader.Valid, Reader.Buffer, Reader.Since, Reader.Footprint;
      if calls != [] {
        var _ := ReadAgain(calls[0], before, capacity);
        ReadCalls(calls[1..], before, capacity);
      }
    }

    lemma SinceNow()
      requires Buffer()
      ensures Since(dispatched, readingBuffer.capacity)
    {}

    lemma SinceLong(before: seq<Bytes>, capacity: nat)
      requires Buffer() && Since(before, capacity)
      ensures before <= dispatched
      ensures Full() || forall i :: |before| <= i < |dispatched| ==> |dispatched[i]| <= capacity
    {}

    /** Several calls of Read, and one more that finds data: if a frame longer than the buffer
        was dispatched by then, that last call closes the connection, whatever the sizes of
        the recv calls were. */
    method LongReplyCloses(calls: seq<seq<Bytes>>, next: seq<Bytes>)
        returns (outcome: Outcome, ghost handed: seq<Bytes>)
      requires Valid() && next != []
      modifies Footprint()
      ensures Valid() && old(dispatched) <= handed
      ensures (exists i :: |old(dispatched)| <= i < |handed| && |handed[i]| > old(readingBuffer.capacity)) ==>
                outcome == Closed && dispatched == handed
    {
      HasBuffer();
      hide Parse, MemPool.Valid, Reader.Valid, Reader.Buffer, Reader.Since, Reader.Full;
      SinceNow();
      ReadCalls(calls, dispatched, readingBuffer.capacity);
      SinceLong(old(dispatched), old(readingBuffer.capacity));
      SinceNow();
      handed := dispatched;
      outcome := ReadAgain(next, handed, readingBuffer.capacity);
    }

    /** However the stream of whole frames was cut into recv calls, exactly its frames were
        dispatched, in order, and the unfinished part is buffered. */
    lemma ExactlyTheFrames(frames: seq<Bytes>, tail: Bytes)
      requires Valid() && received == Flat(frames) + tail && AllFrames(frames) && !HasFrame(tail)
      ensures dispatched == frames && Buffered() == tail
    {
      ParseOfFrames(frames, tail);
    }
  }

  /** A heartbeat-like response of 1 MiB - 1 bytes. */
  function LongFrame(): Bytes {
    RspHeader(FIRST_CAPACITY - 1, 2, 0, 0, 0) + seq(FIRST_CAPACITY - 11, _ => 0)
  }

  lemma LongFrameIsFrame()
    ensures |LongFrame()| == FIRST_CAPACITY - 1 && Frame(LongFrame())
  {
    RspRoundTrip(FIRST_CAPACITY - 1, 2, 0, 0, 0, seq(FIRST_CAPACITY - 11, _ => 0));
    hide GetMsgLen, RspHeader, GetRspHeader;
  }

  lemma StrandedStream(first: Octet, more: Bytes)
    requires Parse([first] + more).status == More
    ensures Parse(LongFrame() + [first]) == Cut([LongFrame()], [first], More)
    ensures Parse(LongFrame() + [first] + more).status == More
  {
    LongFrameIsFrame();
    assert Parse([first]) == Cut([], [first], More);
    var frame := LongFrame();
    hide LongFrame, Frame, Parse;
    assert frame + [first] + more == frame + ([first] + more);
    ParseCons(frame, [first] + more);
    ParseCons(frame, [first]);
  }

  /** A frame of 1 MiB - 1 bytes and the first byte of the next one, read in one go, fill the
      buffer; the reader does not compact for one byte, so the next recv has no room and the
      connection is given up although the stream is well formed. */
  method StrandedByte(pool: MemPool, first: Octet, more: Bytes) returns (reader: Reader, outcome: Outcome)
    requires pool.Valid() && more != [] && Parse([first] + more).status == More
    modifies pool, pool.known, pool.owner.Keys
    ensures reader.Valid() && reader.received == LongFrame() + [first] && Parse(reader.received + more).status == More
    ensures outcome == Closed
  {
    LongFrameIsFrame();
    StrandedStream(first, more);
    hide Parse, LongFrame, MemPool.Valid, Reader.Valid, Reader.Buffer, Frame, Flat;
    reader := new Reader(pool);
    assert reader.received + (LongFrame() + [first]) == LongFrame() + [first];
    var ok := reader.ReadOnce(LongFrame() + [first]);
    reader.RoomOrStranded();
    FlatOne(more);
    var left;
    left, outcome := reader.Read([more]);
  }

  /** What stays in the socket after n bytes of the first chunk were taken. */
  function Untaken(left: seq<Bytes>, n: nat): seq<Bytes>
    requires left != [] && n <= |left[0]|
  {
    if n == |left[0]| then left[1..] else [left[0][n..]] + left[1..]
  }

  lemma TakeChunk(left: seq<Bytes>, n: nat)
    requires left != [] && n <= |left[0]|
    ensures Flat(left) == left[0][..n] + Flat(Untaken(left, n))
  {
    if n == |left[0]| {
      assert left[0][..n] == left[0];
    } else {
      var u := [left[0][n..]] + left[1..];
      assert u[1..] == left[1..] && left[0] == left[0][..n] + left[0][n..];
    }
  }

  lemma OneFrame(b: Bytes, dispatched: seq<Bytes>)
    requires HasFrame(b)
    ensures var n := GetMsgLen(b);
            var c := Parse(b[n..]);
            && dispatched + Parse(b).frames == (dispatched + [b[..n]]) + c.frames
            && Parse(b).rest == c.rest && Parse(b).status == c.status
  {
    hide GetMsgLen;
    var head := [b[..GetMsgLen(b)]];
    var frames := Parse(b[GetMsgLen(b)..]).frames;
    assert dispatched + (head + frames) == (dispatched + head) + frames;
  }
}
