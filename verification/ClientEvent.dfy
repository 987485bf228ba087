/** GORM_ClientEvent as the source writes it: fields, a ring and a response list updated in
    place by its methods.  Each method is the step of the ring machine, and tracks the step of
    the deque machine as far as the ring does. */
module ClientEvent {
  import opened Basics
  import opened Connection
  import opened Conservation
  import opened RingConnection
  import opened WriteProgress
  import opened TimeoutScan
  import opened ResendOrder
  import Ring

  /** The response list's capacity divides 2^64: its ring is a sequence in every state. */
  lemma ResponsesAppend(ring: Ring.State<Completion>, c: Completion)
    requires Ring.Consistent(ring) && |ring.data| == RESPONSE_CAPACITY && ring.nowNum < RESPONSE_CAPACITY
    ensures Ring.Live(Ring.PutBack(ring, c)) == Ring.Live(ring) + [c]
  {
    Ring.RemIsModulo(TWO64, RESPONSE_CAPACITY);
    Ring.PutBackRefines(ring, c);
  }

  lemma StampedFirst(m: map<nat, Option<Request>>, order: seq<nat>, n: nat, now: nat)
    requires n < |order| && forall k :: k in order ==> k in m
    ensures var r := m[order[n]];
            Stamped(m, order[n..], now) == (if r.Some? then [r.value.(tms := now)] else [])
                + Stamped(m, order[n + 1..], now)
  {
    assert order[n..][0] == order[n] && order[n..][1..] == order[n + 1..];
  }

  class ClientEvent {
    var up: bool
    const waitSendingChannel: Ring.SsQueue<Request>
    var sendingRequest: Option<Request>
    var sendingPos: nat
    var clientWaitRspMsgMap: map<nat, Option<Request>>
    const responseMsgList: Ring.SsQueue<Completion>  // the thread's, shared by its connections
    var startStatus: StartStatus

    // The history the whole-run theorems speak about.
    ghost var taken: seq<Request>
    ghost var finished: seq<Request>
    ghost var wire: seq<Octet>
    ghost var accepted: seq<Request>
    ghost var completed: seq<Completion>
    ghost var lost: seq<Request>

    ghost predicate Valid()
      reads this, waitSendingChannel, waitSendingChannel.data, responseMsgList, responseMsgList.data
    {
      && waitSendingChannel.Valid() && waitSendingChannel.n == QUEUE_CAPACITY
      && responseMsgList.Valid() && responseMsgList.n == RESPONSE_CAPACITY
      && (waitSendingChannel as object) != responseMsgList
          && (waitSendingChannel.data as object) != responseMsgList.data
    }

    /** Everything but the send queue; the response list as the sequence its ring stands for. */
    ghost function Rest(): State
      requires Valid()
      reads this, waitSendingChannel, waitSendingChannel.data, responseMsgList, responseMsgList.data
    {
      State(up, [], sendingRequest, sendingPos, clientWaitRspMsgMap, Ring.Live(responseMsgList.Snapshot()), startStatus,
            taken, finished, wire, accepted, completed, lost)
    }

    ghost function St(): (r: RingState)
      requires Valid()
      reads this, waitSendingChannel, waitSendingChannel.data, responseMsgList, responseMsgList.data
    {
      RingState(Rest(), waitSendingChannel.Snapshot())
    }

    /** After the first successful Reconnect, before the handshake is queued. */
    constructor (responseMsgList: Ring.SsQueue<Completion>)
      requires responseMsgList.Valid() && responseMsgList.n == RESPONSE_CAPACITY
      ensures Valid() && this.responseMsgList == responseMsgList && fresh(waitSendingChannel)
              && fresh(waitSendingChannel.data)
      ensures waitSendingChannel.nowNum == 0 && waitSendingChannel.writeIdx == 0
      ensures up && sendingRequest == None && sendingPos == 0 && clientWaitRspMsgMap == map[]
      ensures completed == [] && accepted == [] && lost == [] && taken == [] && finished == [] && wire == []
    {
      this.responseMsgList := responseMsgList;
      waitSendingChannel := new Ring.SsQueue(QUEUE_CAPACITY);
      up, sendingRequest, sendingPos := true, None, 0;
      clientWaitRspMsgMap, startStatus := map[], Starting;
      taken, finished, wire, accepted, completed, lost := [], [], [], [], [], [];
    }

    method SendRequest(r: Request, now: nat) returns (ok: bool)
      requires Valid()
      modifies this`accepted, waitSendingChannel, waitSendingChannel.data
      ensures Valid() && (St(), ok) == RingSend(old(St()), r, now)
      ensures Tracks(St(), Send(old(Abs(St())), r, now).0) && ok == Send(old(Abs(St())), r, now).1
    {
      SendTracks(St(), Abs(St()), r, now);
      var request := r.(tms := now);
      ok := waitSendingChannel.Put(request);
      if ok {
        accepted := accepted + [request];
      }
    }

    method PreSendRequest(r: Request, now: nat) returns (ok: bool)
      requires Valid()
      modifies waitSendingChannel, waitSendingChannel.data
      ensures Valid() && St() == RingPreSend(old(St()), r, now)
      ensures Tracks(St(), PreSend(old(Abs(St())), r, now))
      ensures ok <==> old(waitSendingChannel.nowNum) < QUEUE_CAPACITY
    {
      PreSendTracks(St(), Abs(St()), r, now);
      ok := waitSendingChannel.PutPre(r.(tms := now));
    }

    method GetNextSendingRequest()
      requires Valid()
      modifies this, waitSendingChannel`readIdx, waitSendingChannel`nowNum
      ensures Valid() && St() == RingGetNext(old(St()))
      ensures old(Ring.SafeWindow(St().ring)) ==> Tracks(St(), GetNext(old(Abs(St()))))
    {
      if Ring.SafeWindow(St().ring) { GetNextTracks(St(), Abs(St())); }
      hide Tracks, Connection.GetNext, Taking, Ring.Live;
      if sendingRequest.Some? {
        return;
      }
      var ok, r := waitSendingChannel.Take();
      if ok {
        BeginSending(r);
      }
    }

    method BeginSending(r: Request)
      requires Valid()
      modifies this`sendingRequest, this`sendingPos, this`taken, this`clientWaitRspMsgMap
      ensures Valid() && Rest() == Taking(old(Rest()), r)
    {
      hide Ring.Live;
      sendingRequest := Some(r);
      taken := taken + [r];
      sendingPos := 0;
      if r.needCb {
        clientWaitRspMsgMap := clientWaitRspMsgMap[r.id := Some(r)];
      }
    }

    /** `room` is how many bytes the socket takes, 0 or less for an error. */
    method Write(room: int) returns (ok: bool)
      requires Valid()
      modifies this, waitSendingChannel`readIdx, waitSendingChannel`nowNum
      ensures Valid() && St() == RingWrite(old(St()), room)
      ensures var s := RingGetNext(old(St())).rest;
              && (ok <==> s.sending.None? || (room > 0 && s.sendPos < |s.sending.value.data|))
              && (s.sending.Some? ==> Advances(s, Rest(), room))
    {
      hide RingGetNext, WriteSome, Tracks, Connection.GetNext, Ring.Live, Advances;
      GetNextSendingRequest();
      ok := WriteOnce(room);
    }

    method WriteOnce(room: int) returns (ok: bool)
      requires Valid()
      modifies this`sendingRequest, this`sendingPos, this`wire, this`finished
      ensures Valid() && Rest() == WriteSome(old(Rest()), room)
      ensures var s := old(Rest());
              && (ok <==> s.sending.None? || (room > 0 && s.sendPos < |s.sending.value.data|))
              && (s.sending.Some? ==> Advances(s, Rest(), room))
    {
      ghost var s := Rest();
      if s.sending.Some? { WriteSomeMoves(s, room); }
      hide Ring.Live, Advances;
      if sendingRequest.None? {
        return true;
      }
      var r := sendingRequest.value;
      var needSendLen := |r.data| - sendingPos;
      var writeLen := if room > needSendLen then needSendLen else room;
      if writeLen <= 0 {
        return false;
      }
      wire := wire + r.data[sendingPos..sendingPos + writeLen];
      needSendLen := needSendLen - writeLen;
      sendingPos := sendingPos + writeLen;
      if needSendLen == 0 {
        sendingRequest := None;
        finished := finished + [r];
      }
      return true;
    }

    method PutResponseToList(r: Request, result: Result)
      requires Valid()
      modifies this`completed, this`lost, responseMsgList, responseMsgList.data
      ensures Valid() && St() == old(St()).(rest := Complete(old(Rest()), r, result))
    {
      var c := Completion(r, result);
      if responseMsgList.nowNum < RESPONSE_CAPACITY { ResponsesAppend(responseMsgList.Snapshot(), c); }
      hide Ring.Live;
      var ok := responseMsgList.Put(c);
      if ok {
        completed := completed + [c];
      } else {
        lost := lost + [r];
      }
    }

    /** The lookup inserts a null entry when the id is unknown. */
    method GetReqMsgForResponse(id: nat) returns (r: Option<Request>)
      modifies this`clientWaitRspMsgMap
      ensures r == (if id in old(clientWaitRspMsgMap) then old(clientWaitRspMsgMap)[id] else None)
      ensures clientWaitRspMsgMap ==
              if r.Some? then old(clientWaitRspMsgMap) - {id} else old(clientWaitRspMsgMap)[id := None]
    {
      if id !in clientWaitRspMsgMap {
        clientWaitRspMsgMap := clientWaitRspMsgMap[id := None];
      }
      r := clientWaitRspMsgMap[id];
      if r.Some? {
        clientWaitRspMsgMap := clientWaitRspMsgMap - {id};
      }
    }

    method OneRspFinishRead(f: Response)
      requires Valid()
      modifies this, responseMsgList, responseMsgList.data
      ensures Valid() && St() == old(St()).(rest := Receive(old(Rest()), f))
      ensures startStatus == if f.cmd == 2 && !AwaitsResponse(old(clientWaitRspMsgMap), f.id)
                             then (if f.err == 0 then Started else VersionFailed) else old(startStatus)
    {
      hide Complete, Ring.Live;
      var r := GetReqMsgForResponse(f.id);
      if r.None? {
        if f.cmd == 2 {
          startStatus := if f.err == 0 then Started else VersionFailed;
        }
        return;
      }
      if f.err != 0 {
        PutResponseToList(r.value, Failed(f.err));
        return;
      }
      PutResponseToList(r.value, Answered(f.cmd, f.body));
    }

    /** One turn of the loop of NetLoopCheck. */
    method CheckOne(k: nat, now: nat)
      requires Valid() && k in clientWaitRspMsgMap
      modifies this`clientWaitRspMsgMap, this`completed, this`lost, responseMsgList, responseMsgList.data
      ensures Valid() && St() == old(St()).(rest := CheckEntry(old(Rest()), k, now))
      ensures forall j :: j in old(clientWaitRspMsgMap) && j != k ==> j in clientWaitRspMsgMap
    {
      hide Complete, Ring.Live;
      var entry := clientWaitRspMsgMap[k];
      if entry.None? {
        clientWaitRspMsgMap := clientWaitRspMsgMap - {k};
      } else if (now - entry.value.tms) % TWO64 > TIMEOUT_MS {
        clientWaitRspMsgMap := clientWaitRspMsgMap - {k};
        PutResponseToList(entry.value, TimedOut);
      }
    }

    method NetLoopCheck(order: seq<nat>, now: nat)
      requires Valid() && WalksMap(order, clientWaitRspMsgMap)
      modifies this`clientWaitRspMsgMap, this`completed, this`lost, responseMsgList, responseMsgList.data
      ensures Valid() && St() == old(St()).(rest := Check(old(Rest()), order, now))
      ensures Scanned(old(Rest()), Rest(), order, now)
    {
      ScanDecides(Rest(), order, now);
      hide CheckEntry, Ring.Live, Scanned;
      var n := 0;
      while n < |order|
        invariant 0 <= n <= |order| && Valid()
        invariant Check(Rest(), order[n..], now) == Check(old(Rest()), order, now)
        invariant waitSendingChannel.Snapshot() == old(waitSendingChannel.Snapshot())
        invariant forall i :: n <= i < |order| ==> order[i] in clientWaitRspMsgMap
      {
        assert order[n..][0] == order[n] && order[n..][1..] == order[n + 1..];
        CheckOne(order[n], now);
        n := n + 1;
      }
      assert order[n..] == [];
    }

    /** The part of Reconnect before the socket is created. */
    method ResetConnection()
      requires Valid()
      modifies this`sendingRequest, this`sendingPos, this`taken, this`finished, this`wire
      ensures Valid() && St() == old(St()).(rest := Reset(old(Rest())))
    {
      sendingRequest := None;
      sendingPos := 0;
      taken, finished, wire := [], [], [];
    }

    /** The loop of DoAfterReconnect over the map. */
    method CollectWaiting(order: seq<nat>, now: nat) returns (tmpSortV: seq<Request>)
      requires WalksMap(order, clientWaitRspMsgMap)
      ensures tmpSortV == Stamped(clientWaitRspMsgMap, order, now)
    {
      ghost var m := clientWaitRspMsgMap;
      tmpSortV := [];
      var n := 0;
      while n < |order|
        invariant 0 <= n <= |order|
        invariant tmpSortV + Stamped(m, order[n..], now) == Stamped(m, order, now)
      {
        StampedFirst(m, order, n, now);
        hide Stamped;
        ghost var before, rest := tmpSortV, Stamped(m, order[n + 1..], now);
        var clientMsg := clientWaitRspMsgMap[order[n]];
        if clientMsg.Some? {
          tmpSortV := tmpSortV + [clientMsg.value.(tms := now)];
          assert tmpSortV + rest == before + ([clientMsg.value.(tms := now)] + rest);
        } else {
          assert [] + rest == rest;
        }
        n := n + 1;
      }
      assert order[n..] == [];
    }

    /** The loop of DoAfterReconnect over the sorted requests. */
    method PushBack(tmpSortV: seq<Request>)
      requires Valid()
      modifies this`lost, waitSendingChannel, waitSendingChannel.data
      ensures Valid() && St() == RingPutAllPre(old(St()), tmpSortV)
      ensures Tracks(St(), PutAllPre(old(Abs(St())), tmpSortV))
    {
      PutAllPreTracks(St(), Abs(St()), tmpSortV);
      hide Tracks, PutAllPre, Ring.Live;
      var i := 0;
      while i < |tmpSortV|
        invariant 0 <= i <= |tmpSortV| && Valid()
        invariant RingPutAllPre(St(), tmpSortV[i..]) == RingPutAllPre(old(St()), tmpSortV)
      {
        assert tmpSortV[i..][0] == tmpSortV[i] && tmpSortV[i..][1..] == tmpSortV[i + 1..];
        PushOne(tmpSortV[i]);
        i := i + 1;
      }
      assert tmpSortV[i..] == [];
    }

    method PushOne(clientMsg: Request)
      requires Valid()
      modifies this`lost, waitSendingChannel, waitSendingChannel.data
      ensures Valid() && St() == RingPutPre(old(St()), clientMsg)
    {
      hide Ring.Live;
      var ok := waitSendingChannel.PutPre(clientMsg);
      if !ok {
        lost := lost + [clientMsg];
      }
    }

    /** Tracks the deque machine even if the window is not safe on the way: what counts is
        whether it is safe at the end. */
    method DoAfterReconnect(order: seq<nat>, now: nat, handshake: Option<Request>)
      requires Valid() && WalksMap(order, clientWaitRspMsgMap)
      modifies this`clientWaitRspMsgMap, this`lost, waitSendingChannel, waitSendingChannel.data
      ensures Valid() && St() == RingResend(old(St()), order, now, handshake)
      ensures Tracks(St(), Resend(old(Abs(St())), order, now, handshake))
      ensures old(clientWaitRspMsgMap) == map[] ==> St() == old(St())
    {
      ResendTracks(St(), Abs(St()), order, now, handshake);
      hide Stamped, SortDescending, PutAllPre, RingPutAllPre, RingPreSend, Tracks, Resend, Ring.Live;
      if |clientWaitRspMsgMap| == 0 {
        return;
      }
      var tmpSortV := CollectWaiting(order, now);
      clientWaitRspMsgMap := map[];
      tmpSortV := SortDescending(tmpSortV);
      PushBack(tmpSortV);
      if handshake.Some? {
        var _ := PreSendRequest(handshake.value, now);
      }
    }

    /** Close, up to and with the reset that its first attempt to reconnect begins with. */
    method Close()
      requires Valid() && up
      modifies this`up, this`sendingRequest, this`sendingPos, this`taken, this`finished, this`wire
      ensures Valid() && St() == RingNext(old(St()), Disconnected)
      ensures old(Ring.SafeWindow(St().ring)) ==> Tracks(St(), Next(old(Abs(St())), Disconnected))
    {
      if Ring.SafeWindow(St().ring) { StepTracks(St(), Disconnected); }
      hide Tracks, Ring.Live;
      ResetConnection();
      up := false;
    }

    /** A successful attempt to reconnect, and DoAfterReconnect. */
    method Reconnect(order: seq<nat>, now: nat, handshake: Option<Request>)
      requires Valid() && !up && WalksMap(order, clientWaitRspMsgMap)
              && (handshake.Some? ==> IsHandshake(handshake.value))
      modifies this, waitSendingChannel, waitSendingChannel.data
      ensures Valid() && St() == RingNext(old(St()), Reconnected(order, now, handshake))
      ensures old(Ring.SafeWindow(St().ring)) ==>
                Tracks(St(), Next(old(Abs(St())), Reconnected(order, now, handshake)))
    {
      if Ring.SafeWindow(St().ring) { StepTracks(St(), Reconnected(order, now, handshake)); }
      hide Tracks, Ring.Live, RingResend, Resend, WalksMap;
      ResetConnection();
      up := true;
      DoAfterReconnect(order, now, handshake);
    }

    /** ConnectToServer after its Reconnect, on an event just constructed and a response list
        nothing was put on: a state from which every run starts. */
    method ConnectToServer(handshake: Request, now: nat)
      requires Valid() && waitSendingChannel.nowNum == 0 && waitSendingChannel.writeIdx == 0
              && responseMsgList.nowNum == 0
      requires up && sendingRequest == None && sendingPos == 0 && clientWaitRspMsgMap == map[]
      requires completed == [] && accepted == [] && lost == [] && taken == [] && finished == [] && wire == []
      requires IsHandshake(handshake)
      modifies waitSendingChannel, waitSendingChannel.data
      ensures Valid() && RingInit(St())
    {
      Ring.PutFrontEffect(waitSendingChannel.Snapshot(), handshake.(tms := now));
      var _ := PreSendRequest(handshake, now);
    }
  }
}
