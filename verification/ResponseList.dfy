/** Any number of completions put on the response list one after the other. */
module ResponseList {
  import opened Basics
  import opened Connection

  function Room(s: State): nat {
    if |s.responses| < RESPONSE_CAPACITY then RESPONSE_CAPACITY - |s.responses| else 0
  }

  function Requests(cs: seq<Completion>): seq<Request> {
    seq(|cs|, i requires 0 <= i < |cs| => cs[i].req)
  }

  /** The first ones complete, as far as there is room; the others are lost. */
  function PutAll(s: State, cs: seq<Completion>): State {
    var n := Least(|cs|, Room(s));
    s.(responses := s.responses + cs[..n], completed := s.completed + cs[..n], lost := s.lost + Requests(cs[n..]))
  }

  lemma PutNone(s: State)
    ensures PutAll(s, []) == s
  {
    assert s.responses + [] == s.responses && s.completed + [] == s.completed && s.lost + Requests([]) == s.lost;
  }

  lemma PutFirst(s: State, r: Request, result: Result, cs: seq<Completion>)
    ensures PutAll(Complete(s, r, result), cs) == PutAll(s, [Completion(r, result)] + cs)
  {
    var c := Completion(r, result);
    var all := [c] + cs;
    if Room(s) == 0 {
      assert all[..0] == cs[..0] == [] && all[0..] == all && cs[0..] == cs;
      assert (s.lost + [r]) + Requests(cs) == s.lost + Requests(all);
    } else {
      var n := Least(|all|, Room(s));
      assert all[..n] == [c] + cs[..n - 1] && all[n..] == cs[n - 1..];
    }
  }

  lemma PutLast(s: State, cs: seq<Completion>, r: Request, result: Result)
    ensures Complete(PutAll(s, cs), r, result) == PutAll(s, cs + [Completion(r, result)])
  {
    var c := Completion(r, result);
    var all := cs + [c];
    var n := Least(|cs|, Room(s));
    if n == Room(s) {
      assert all[..n] == cs[..n] && all[n..] == cs[n..] + [c];
      assert (s.lost + Requests(cs[n..])) + [r] == s.lost + Requests(all[n..]);
    } else {
      assert all[..n + 1] == cs[..n] + [c] && all[n + 1..] == cs[n..] == [];
    }
  }

  /** The list has nothing to do with the map and the status. */
  lemma PutElsewhere(s: State, m: map<nat, Option<Request>>, status: StartStatus, cs: seq<Completion>)
    ensures PutAll(s.(pending := m, status := status), cs) == PutAll(s, cs).(pending := m, status := status)
    ensures PutAll(s, cs).pending == s.pending && PutAll(s, cs).status == s.status
  {}

  lemma CompleteElsewhere(s: State, m: map<nat, Option<Request>>, status: StartStatus, r: Request, result: Result)
    ensures Complete(s.(pending := m, status := status), r, result)
            == Complete(s, r, result).(pending := m, status := status)
  {}

  lemma PutWithRoom(s: State, cs: seq<Completion>)
    requires |cs| <= Room(s)
    ensures var t := PutAll(s, cs);
            t.responses == s.responses + cs && t.completed == s.completed + cs && t.lost == s.lost
  {
    assert cs[..|cs|] == cs && cs[|cs|..] == [];
    assert s.lost + Requests([]) == s.lost;
  }
}
