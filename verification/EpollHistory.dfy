/** What the mask of an event and the kernel's interest list hold after any history of calls:
    the last word on an interest decides, as include/gorm_event.h intends. */
module EpollHistory {
  import opened Epoll

  /** Whether the event has a descriptor. */
  predicate IsOpen(ops: seq<Op>) {
    ops != [] && (ops[|ops| - 1].Open? || (!ops[|ops| - 1].Close? && IsOpen(ops[..|ops| - 1])))
  }

  /** The last operation on an open descriptor that names the interest, or closes it, added it. */
  predicate LastAdds(ops: seq<Op>, m: Interest) {
    if ops == [] then false else
    var before, op := ops[..|ops| - 1], ops[|ops| - 1];
    if !IsOpen(before) then LastAdds(before, m)
    else if op.Close? then false
    else if (op.Add? || op.Del?) && m in op.interests then op.Add?
    else LastAdds(before, m)
  }

  /** The last AddEvent or DelEvent on an open descriptor was an AddEvent. */
  predicate LastCallAdds(ops: seq<Op>) {
    if ops == [] then false else
    var before, op := ops[..|ops| - 1], ops[|ops| - 1];
    if IsOpen(before) && (op.Add? || op.Del?) then op.Add? else LastCallAdds(before)
  }

  predicate Registered(ops: seq<Op>) {
    LastAdds(ops, Readable) || LastAdds(ops, Writable)
  }

  /** AddEvent asks for reading along with writing; DelEvent does not. */
  predicate FlagByHistory(ops: seq<Op>, f: Flag) {
    match f
    case EpollIn => LastAdds(ops, Readable) || (LastAdds(ops, Writable) && LastCallAdds(ops))
    case EpollOut => LastAdds(ops, Writable)
  }

  /** Descriptor, mask and the whole interest list, from the history alone; `kernel` is what
      was registered before the event was made. */
  ghost predicate AsHistorySays(s: State, ops: seq<Op>, kernel: map<int, set<Flag>>) {
    && (s.fd > 0 <==> IsOpen(ops))
    && (s.fd > 0 ==> s.fd !in kernel)
    && (forall m :: m in s.mask <==> LastAdds(ops, m))
    && (!IsOpen(ops) ==> s.mask == {})
    && s.kernel.Keys == (if Registered(ops) then kernel.Keys + {s.fd} else kernel.Keys)
    && (forall fd :: fd in kernel ==> s.kernel[fd] == kernel[fd])
    && (Registered(ops) ==> forall f :: f in s.kernel[s.fd] <==> FlagByHistory(ops, f))
  }

  /** How one more operation changes what the history says. */
  lemma OneMore(ops: seq<Op>, op: Op)
    ensures IsOpen(ops + [op]) <==> op.Open? || (!op.Close? && IsOpen(ops))
    ensures forall m :: LastAdds(ops + [op], m) <==>
              if !IsOpen(ops) then LastAdds(ops, m)
              else if op.Close? then false
              else if (op.Add? || op.Del?) && m in op.interests then op.Add?
              else LastAdds(ops, m)
    ensures LastCallAdds(ops + [op]) <==> if IsOpen(ops) && (op.Add? || op.Del?) then op.Add? else LastCallAdds(ops)
  {
    assert (ops + [op])[..|ops|] == ops;
  }

  lemma SomeInterest(mask: set<Interest>)
    ensures mask != {} <==> Readable in mask || Writable in mask
  {
    if mask != {} {
      var m :| m in mask;
      assert m == Readable || m == Writable;
    }
  }

  lemma StepAsHistorySays(s: State, ops: seq<Op>, kernel: map<int, set<Flag>>, op: Op)
    requires AsHistorySays(s, ops, kernel) && Enabled(s, op)
    ensures AsHistorySays(Apply(s, op), ops + [op], kernel)
  {
    OneMore(ops, op);
    hide IsOpen, LastAdds, LastCallAdds;
    SomeInterest(s.mask);
    SomeInterest(Apply(s, op).mask);
  }

  lemma {:induction false} RunAsHistorySays(s: State, before: seq<Op>, ops: seq<Op>, kernel: map<int, set<Flag>>)
    requires AsHistorySays(s, before, kernel) && Runs(s, ops)
    ensures AsHistorySays(End(s, ops), before + ops, kernel)
    decreases |ops|
  {
    hide AsHistorySays, Enabled, Apply;
    if ops == [] {
      assert before + ops == before;
    } else {
      StepAsHistorySays(s, before, kernel, ops[0]);
      RunAsHistorySays(Apply(s, ops[0]), before + [ops[0]], ops[1..], kernel);
      assert before + [ops[0]] + ops[1..] == before + ops;
    }
  }

  /** In every run from the construction of the event: an interest is in the mask exactly if the
      last operation on an open descriptor that names it, or closes it, added it; the interest
      list has one entry more than before, with the flags the history calls for, exactly if there
      is such an interest, and all other entries are as before. */
  lemma MaskIsHistory(kernel: map<int, set<Flag>>, ops: seq<Op>)
    requires Runs(State(0, {}, kernel), ops)
    ensures AsHistorySays(End(State(0, {}, kernel), ops), ops, kernel)
  {
    RunAsHistorySays(State(0, {}, kernel), [], ops, kernel);
    assert [] + ops == ops;
  }

  /** Reading that was added and not deleted since stays registered, whatever else is added and
      deleted: write interest can come and go. */
  lemma ReadingStays(kernel: map<int, set<Flag>>, ops: seq<Op>, m: set<Interest>, more: seq<Op>)
    requires Runs(State(0, {}, kernel), ops + [Add(m)] + more) && IsOpen(ops) && Readable in m
    requires forall op :: op in more ==> !op.Close? && (op.Del? ==> Readable !in op.interests)
    ensures var s := End(State(0, {}, kernel), ops + [Add(m)] + more);
            s.fd in s.kernel && EpollIn in s.kernel[s.fd] && Readable in s.mask
  {
    OneMore(ops, Add(m));
    StaysLast(ops + [Add(m)], more);
    MaskIsHistory(kernel, ops + [Add(m)] + more);
  }

  lemma {:induction false} StaysLast(ops: seq<Op>, more: seq<Op>)
    requires IsOpen(ops) && LastAdds(ops, Readable)
    requires forall op :: op in more ==> !op.Close? && (op.Del? ==> Readable !in op.interests)
    ensures IsOpen(ops + more) && LastAdds(ops + more, Readable)
    decreases |more|
  {
    if more == [] {
      assert ops + more == ops;
    } else {
      OneMore(ops, more[0]);
      StaysLast(ops + [more[0]], more[1..]);
      assert ops + [more[0]] + more[1..] == ops + more;
    }
  }
}
