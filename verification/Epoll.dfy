/** Registration of one event with epoll, include/gorm_event.h: the mask kept in the event
    and the descriptor's entry in the kernel's interest list. */
module Epoll {
  import opened Basics

  datatype Interest = Readable | Writable
  datatype Flag = EpollIn | EpollOut

  /** `kernel` is the interest list: descriptors and the flags they are registered with. */
  datatype State = State(fd: int, mask: set<Interest>, kernel: map<int, set<Flag>>)

  datatype Ctl = CtlAdd | CtlMod | CtlDel

  /** epoll_ctl: None when the kernel refuses. */
  function EpollCtl(kernel: map<int, set<Flag>>, ctl: Ctl, fd: int, flags: set<Flag>): Option<map<int, set<Flag>>> {
    match ctl
    case CtlAdd => if fd in kernel then None else Some(kernel[fd := flags])
    case CtlMod => if fd in kernel then Some(kernel[fd := flags]) else None
    case CtlDel => if fd in kernel then Some(kernel - {fd}) else None
  }

  /** The flags the event wants, as a set of interests calls for. */
  function FlagsFor(mask: set<Interest>): set<Flag> {
    (if Readable in mask then {EpollIn} else {}) + (if Writable in mask then {EpollOut} else {})
  }

  /** Mask and kernel agree: registered exactly if something is of interest, for writing
      exactly if writing is, and for reading at least if reading is. */
  ghost predicate InStep(s: State) {
    if s.fd <= 0 then s.mask == {} else
      && (s.mask != {} <==> s.fd in s.kernel)
      && (s.mask != {} ==>
            && (EpollOut in s.kernel[s.fd] <==> Writable in s.mask)
            && (Readable in s.mask ==> EpollIn in s.kernel[s.fd])
            && (EpollIn in s.kernel[s.fd] ==> Readable in s.mask || Writable in s.mask))
  }

  datatype Op = Add(interests: set<Interest>) | Del(interests: set<Interest>) | Close | Open(fd: int)

  ghost predicate Enabled(s: State, op: Op) {
    match op
    case Add(m) => m != {}
    case Open(fd) => s.fd <= 0 && fd > 0 && fd !in s.kernel  // socket() returns a descriptor not in use
    case _ => true
  }

  /** What each call is to achieve. */
  function Apply(s: State, op: Op): State {
    match op
    case Add(m) =>
      if s.fd <= 0 then s else
        // write interest brings EPOLLIN with it
        s.(mask := s.mask + m, kernel := s.kernel[s.fd := FlagsFor(s.mask + m)
            + (if Writable in s.mask + m then {EpollIn} else {})])
    case Del(m) =>
      if s.fd <= 0 then s else
        s.(mask := s.mask - m, kernel := if s.mask - m == {} then s.kernel - {s.fd}
            else s.kernel[s.fd := FlagsFor(s.mask - m)])
    case Close => if s.fd <= 0 then s else State(0, {}, s.kernel - {s.fd})
    case Open(fd) => s.(fd := fd)
  }

  ghost predicate Runs(s: State, ops: seq<Op>)
    decreases |ops|
  {
    ops == [] || (Enabled(s, ops[0]) && Runs(Apply(s, ops[0]), ops[1..]))
  }

  function End(s: State, ops: seq<Op>): State
    decreases |ops|
  {
    if ops == [] then s else End(Apply(s, ops[0]), ops[1..])
  }

  lemma StepInStep(s: State, op: Op)
    requires InStep(s) && Enabled(s, op)
    ensures InStep(Apply(s, op))
  {
    if op.Add? && s.fd > 0 {
      var m :| m in op.interests;
      assert m in s.mask + op.interests;
      assert m == Readable || m == Writable;
    }
    if op.Del? && s.fd > 0 && s.mask - op.interests != {} {
      var m :| m in s.mask - op.interests;
      assert m in s.mask && (m == Readable || m == Writable);
    }
    if op.Close? && s.fd > 0 {
      assert s.fd !in s.kernel - {s.fd};
    }
  }

  /** Mask and kernel stay in step through any calls, closings and reconnections. */
  lemma {:induction false} InStepInAnyRun(s: State, ops: seq<Op>)
    requires InStep(s) && Runs(s, ops)
    ensures InStep(End(s, ops))
    decreases |ops|
  {
    hide InStep, Enabled, Apply;
    if ops != [] {
      StepInStep(s, ops[0]);
      InStepInAnyRun(Apply(s, ops[0]), ops[1..]);
    }
  }

  lemma NoInterestLeft(mask: set<Interest>)
    ensures mask - {Readable, Writable} == {}
  {
    forall m | m in mask ensures m in {Readable, Writable} {
      match m { case Readable => case Writable => }
    }
  }

  class Event {
    var m_iFD: int
    var m_iMask: set<Interest>
    var kernel: map<int, set<Flag>>
    ghost var refused: nat  // epoll_ctl calls that failed, other than deletions

    ghost function St(): State
      reads this
    {
      State(m_iFD, m_iMask, kernel)
    }

    constructor (kernel: map<int, set<Flag>>)
      ensures St() == State(0, {}, kernel) && InStep(St()) && refused == 0
    {
      m_iFD, m_iMask, refused := 0, {}, 0;
      this.kernel := kernel;
    }

    method Control(ctl: Ctl, flags: set<Flag>)
      modifies this`kernel, this`refused
      ensures var r := EpollCtl(old(kernel), ctl, m_iFD, flags);
              && kernel == (if r.Some? then r.value else old(kernel))
              && refused == old(refused) + (if r.None? && ctl != CtlDel then 1 else 0)
    {
      match EpollCtl(kernel, ctl, m_iFD, flags)
      case Some(k) => kernel := k;
      case None => refused := refused + if ctl == CtlDel then 0 else 1;
    }

    /** ADD for the first interest, MOD afterwards: never refused while in step. */
    method AddEvent(iMask: set<Interest>)
      requires InStep(St()) && iMask != {}
      modifies this`m_iMask, this`kernel, this`refused
      ensures St() == Apply(old(St()), Add(iMask)) && InStep(St()) && refused == old(refused)
      ensures forall m :: m in m_iMask <==> m in old(m_iMask) || (m_iFD > 0 && m in iMask)
    {
      StepInStep(St(), Add(iMask));
      if m_iFD <= 0 {
        return;
      }
      var op := if m_iMask == {} then CtlAdd else CtlMod;
      m_iMask := m_iMask + iMask;
      var events: set<Flag> := {};
      if Readable in m_iMask {
        events := events + {EpollIn};
      }
      if Writable in m_iMask {
        events := events + {EpollIn, EpollOut};
      }
      assert events == FlagsFor(m_iMask) + (if Writable in m_iMask then {EpollIn} else {});
      Control(op, events);
    }

    method DelEvent(iMask: set<Interest>)
      requires InStep(St())
      modifies this`m_iMask, this`kernel, this`refused
      ensures St() == Apply(old(St()), Del(iMask)) && InStep(St()) && refused == old(refused)
      ensures forall m :: m in m_iMask <==> m in old(m_iMask) && !(m_iFD > 0 && m in iMask)
    {
      StepInStep(St(), Del(iMask));
      if m_iFD <= 0 {
        return;
      }
      m_iMask := m_iMask - iMask;
      var events: set<Flag> := {};
      if Readable in m_iMask {
        events := events + {EpollIn};
      }
      if Writable in m_iMask {
        events := events + {EpollOut};
      }
      assert events == FlagsFor(m_iMask);
      if m_iMask != {} {
        assert old(m_iMask) != {} by { ghost var m :| m in m_iMask; assert m in old(m_iMask); }
        Control(CtlMod, events);
      } else {
        Control(CtlDel, events);
      }
      if m_iFD !in old(kernel) {
        assert old(kernel) - {m_iFD} == old(kernel);
      }
    }

    /** Close: unregister, close the descriptor, forget it. */
    method Close()
      requires InStep(St())
      modifies this
      ensures St() == Apply(old(St()), Op.Close) && InStep(St()) && refused == old(refused)
    {
      if m_iFD > 0 {
        DelEvent({Readable, Writable});
        NoInterestLeft(old(m_iMask));
        m_iFD := 0;
      }
    }

    /** Reconnect: a new descriptor, not registered yet. */
    method Reopen(iFD: int)
      requires InStep(St()) && Enabled(St(), Open(iFD))
      modifies this`m_iFD
      ensures St() == Apply(old(St()), Open(iFD)) && InStep(St())
    {
      m_iFD := iFD;
    }
  }
}
