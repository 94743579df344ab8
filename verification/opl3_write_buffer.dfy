// opl3.c: register writes that wait in a ring until the chip has come to their time.
module Opl3WriteBuffer {

  const OPL_WRITEBUF_SIZE: nat := 1024
  const OPL_WRITEBUF_DELAY: nat := 2

  // A write to a register at a time, which is a number of chip samples.
  datatype Write = Write(reg: bv16, data: bv8, time: nat)

  // ---------- What the ring stands for ----------

  datatype Fifo = Fifo(pending: seq<Write>, applied: seq<Write>, sampleCount: nat, lastTime: nat)

  function Max(a: nat, b: nat): nat {
    if a < b then b else a
  }

  // The oldest write is applied.
  function Apply(f: Fifo): Fifo
    requires |f.pending| > 0
  {
    f.(pending := f.pending[1..], applied := f.applied + [f.pending[0]])
  }

  // A full ring makes room: the count of samples jumps to the time of the oldest write.
  function MakeRoom(f: Fifo): Fifo {
    if |f.pending| < OPL_WRITEBUF_SIZE then f else Apply(f).(sampleCount := f.pending[0].time)
  }

  // OPL3_WriteRegBuffered
  function Issue(f: Fifo, reg: bv16, data: bv8): Fifo {
    var g := MakeRoom(f);
    var time := Max(g.lastTime + OPL_WRITEBUF_DELAY, g.sampleCount);
    g.(pending := g.pending + [Write(reg & 0x1ff, data, time)], lastTime := time)
  }

  // The end of OPL3_Generate: the write whose time has come, and the next sample.
  function Tick(f: Fifo): Fifo {
    var g := if |f.pending| > 0 && f.pending[0].time == f.sampleCount then Apply(f) else f;
    g.(sampleCount := g.sampleCount + 1)
  }

  ghost predicate Spaced(s: seq<Write>) {
    forall i, j | 0 <= i < j < |s| :: s[i].time + OPL_WRITEBUF_DELAY <= s[j].time
  }

  // Times grow by at least the delay, nothing that waits is overdue, and nothing was applied early.
  ghost predicate Timely(f: Fifo) {
    && |f.pending| <= OPL_WRITEBUF_SIZE && Spaced(f.applied + f.pending)
    && (forall i | 0 <= i < |f.pending| :: f.sampleCount <= f.pending[i].time <= f.lastTime)
    && (forall i | 0 <= i < |f.applied| :: f.applied[i].time <= f.lastTime && f.applied[i].time <= f.sampleCount)
  }

  lemma ApplyOrder(f: Fifo)
    requires |f.pending| > 0
    ensures Apply(f).applied + Apply(f).pending == f.applied + f.pending
  {}

  lemma MakeRoomTimely(f: Fifo)
    requires Timely(f)
    ensures var g := MakeRoom(f);
            && Timely(g) && |g.pending| < OPL_WRITEBUF_SIZE && f.sampleCount <= g.sampleCount
            && g.lastTime == f.lastTime && g.applied + g.pending == f.applied + f.pending
            && (|f.pending| < OPL_WRITEBUF_SIZE ==> g == f)
            && (|f.pending| == OPL_WRITEBUF_SIZE ==> g.sampleCount == f.pending[0].time)
  {
    if |f.pending| == OPL_WRITEBUF_SIZE {
      ApplyOrder(f);
      NextIsLater(f);
    }
  }

  // The write after the oldest is due later.
  lemma NextIsLater(f: Fifo)
    requires Timely(f) && |f.pending| > 0
    ensures forall i | 0 < i < |f.pending| :: f.pending[0].time + OPL_WRITEBUF_DELAY <= f.pending[i].time
  {
    var all := f.applied + f.pending;
    forall i | 0 < i < |f.pending| ensures f.pending[0].time + OPL_WRITEBUF_DELAY <= f.pending[i].time {
      assert all[|f.applied|] == f.pending[0] && all[|f.applied| + i] == f.pending[i];
    }
  }

  lemma FirstIsNotOverdue(f: Fifo)
    requires Timely(f) && |f.pending| > 0
    ensures f.sampleCount <= f.pending[0].time
    ensures |f.pending| > 1 ==> f.pending[1].time > f.sampleCount
  {
    NextIsLater(f);
  }

  lemma IssueTimely(f: Fifo, reg: bv16, data: bv8)
    requires Timely(f)
    ensures var r := Issue(f, reg, data);
            && Timely(r) && f.sampleCount <= r.sampleCount && f.lastTime + OPL_WRITEBUF_DELAY <= r.lastTime
            && r.applied + r.pending == f.applied + f.pending + [Write(reg & 0x1ff, data, r.lastTime)]
            // No later than it has to be, and the count of samples only jumps to make room.
            && (r.lastTime == f.lastTime + OPL_WRITEBUF_DELAY || r.lastTime == r.sampleCount)
            && (|f.pending| < OPL_WRITEBUF_SIZE ==> r.sampleCount == f.sampleCount && r.applied == f.applied)
            && (|f.pending| == OPL_WRITEBUF_SIZE ==> r.sampleCount == f.pending[0].time)
  {
    hide MakeRoom;
    MakeRoomTimely(f);
    var g := MakeRoom(f);
    var r := Issue(f, reg, data);
    var all := g.applied + g.pending;
    assert r.applied + r.pending == all + [Write(reg & 0x1ff, data, r.lastTime)];
    forall i | 0 <= i < |all| ensures all[i].time <= f.lastTime {
      assert all[i] == if i < |g.applied| then g.applied[i] else g.pending[i - |g.applied|];
    }
  }

  lemma TickTimely(f: Fifo)
    requires Timely(f)
    ensures Timely(Tick(f)) && Tick(f).applied + Tick(f).pending == f.applied + f.pending
    ensures Tick(f).sampleCount == f.sampleCount + 1 && Tick(f).lastTime == f.lastTime
  {
    if |f.pending| > 0 {
      NextIsLater(f);
      ApplyOrder(f);
    }
  }

  // ---------- Whole runs ----------

  datatype Op = IssueOp(reg: bv16, data: bv8) | TickOp

  function Run(ops: seq<Op>): Fifo {
    if ops == [] then Fifo([], [], 0, 0) else
      var f := Run(ops[..|ops| - 1]);
      match ops[|ops| - 1]
      case IssueOp(reg, data) => Issue(f, reg, data)
      case TickOp => Tick(f)
  }

  // The writes of a run, without their times.
  function Issued(ops: seq<Op>): seq<(bv16, bv8)> {
    if ops == [] then [] else
      Issued(ops[..|ops| - 1])
      + (match ops[|ops| - 1]
         case IssueOp(reg, data) => [(reg & 0x1ff, data)]
         case TickOp => [])
  }

  // Each write is applied once and in the order of issue, or still waits.
  lemma {:induction false} EveryWriteOnce(ops: seq<Op>)
    ensures Timely(Run(ops))
    ensures var all := Run(ops).applied + Run(ops).pending;
            |all| == |Issued(ops)| && forall i | 0 <= i < |all| :: (all[i].reg, all[i].data) == Issued(ops)[i]
  {
    hide Timely, Issue, Tick;
    if ops == [] {
      NothingTimely();
    } else {
      var before := ops[..|ops| - 1];
      EveryWriteOnce(before);
      match ops[|ops| - 1]
      case IssueOp(reg, data) => IssueTimely(Run(before), reg, data);
      case TickOp => TickTimely(Run(before));
    }
  }

  lemma NothingTimely()
    ensures Timely(Fifo([], [], 0, 0))
  {}

  function Ticks(f: Fifo, n: nat): Fifo {
    if n == 0 then f else Tick(Ticks(f, n - 1))
  }

  // With no further write, each one that waits is applied in the sample of its time.
  lemma {:induction false} AppliedInTime(f: Fifo, n: nat)
    requires Timely(f)
    ensures Timely(Ticks(f, n)) && Ticks(f, n).applied + Ticks(f, n).pending == f.applied + f.pending
    ensures Ticks(f, n).sampleCount == f.sampleCount + n
    ensures forall i | 0 <= i < |f.pending| ::
              |Ticks(f, n).applied| > |f.applied| + i <==> f.pending[i].time < f.sampleCount + n
  {
    if n > 0 {
      AppliedInTime(f, n - 1);
      TickTimely(Ticks(f, n - 1));
    }
    var g := Ticks(f, n);
    var all := f.applied + f.pending;
    forall i | 0 <= i < |f.pending| ensures |g.applied| > |f.applied| + i <==> f.pending[i].time < f.sampleCount + n {
      var k := |f.applied| + i;
      assert all[k] == f.pending[i] == (g.applied + g.pending)[k];
    }
  }

  // ---------- The ring ----------

  // opl3_writebuf; bit 0x200 of `reg` marks a write that waits.
  datatype Slot = Slot(reg: bv16, data: bv8, time: nat)

  predicate Waits(reg: bv16) {
    reg & 0x200 != 0
  }

  lemma MarkBits(reg: bv16)
    ensures Waits(reg | 0x200) && (reg | 0x200) & 0x1ff == reg & 0x1ff && !Waits(reg & 0x1ff)
  {}

  function Wrap(i: nat): nat {
    if i < OPL_WRITEBUF_SIZE then i else i - OPL_WRITEBUF_SIZE
  }

  ghost predicate At(slot: Slot, w: Write) {
    Waits(slot.reg) && slot.reg & 0x1ff == w.reg && slot.data == w.data && slot.time == w.time
  }

  // How far position p is behind the oldest write at `cur`.
  function Offset(cur: nat, p: nat): (i: nat)
    requires cur < OPL_WRITEBUF_SIZE && p < OPL_WRITEBUF_SIZE
    ensures i < OPL_WRITEBUF_SIZE
  {
    if p >= cur then p - cur else p + OPL_WRITEBUF_SIZE - cur
  }

  // A slot at offset i holds the i-th waiting write, or is not marked.
  ghost predicate SlotOk(slot: Slot, pending: seq<Write>, i: nat) {
    if i < |pending| then At(slot, pending[i]) else !Waits(slot.reg)
  }

  ghost predicate Layout(ring: seq<Slot>, cur: nat, last: nat, pending: seq<Write>) {
    && |ring| == OPL_WRITEBUF_SIZE && cur < OPL_WRITEBUF_SIZE && |pending| <= OPL_WRITEBUF_SIZE
    && last == Wrap(cur + |pending|)
    && forall p | 0 <= p < OPL_WRITEBUF_SIZE :: SlotOk(ring[p], pending, Offset(cur, p))
  }

  lemma LayoutFull(ring: seq<Slot>, cur: nat, last: nat, pending: seq<Write>)
    requires Layout(ring, cur, last, pending)
    ensures Waits(ring[last].reg) <==> |pending| == OPL_WRITEBUF_SIZE
    ensures |pending| > 0 ==> At(ring[cur], pending[0])
    ensures |pending| == 0 ==> !Waits(ring[cur].reg)
  {
    hide Waits;
    assert SlotOk(ring[last], pending, Offset(cur, last)) && SlotOk(ring[cur], pending, Offset(cur, cur));
  }

  lemma LayoutRange(ring: seq<Slot>, cur: nat, last: nat, pending: seq<Write>)
    requires Layout(ring, cur, last, pending)
    ensures |ring| == OPL_WRITEBUF_SIZE && cur < OPL_WRITEBUF_SIZE && |pending| <= OPL_WRITEBUF_SIZE
    ensures last < OPL_WRITEBUF_SIZE
    ensures (cur + 1) % OPL_WRITEBUF_SIZE == Wrap(cur + 1) && (last + 1) % OPL_WRITEBUF_SIZE == Wrap(last + 1)
    ensures |pending| == OPL_WRITEBUF_SIZE ==> last == cur
  {}

  lemma LayoutApply(ring: seq<Slot>, cur: nat, last: nat, pending: seq<Write>, slot: Slot)
    requires Layout(ring, cur, last, pending) && |pending| > 0 && !Waits(slot.reg)
    ensures Layout(ring[cur := slot], Wrap(cur + 1), last, pending[1..])
  {
    hide Waits, At;
    var r, c := ring[cur := slot], Wrap(cur + 1);
    forall p | 0 <= p < OPL_WRITEBUF_SIZE ensures SlotOk(r[p], pending[1..], Offset(c, p)) {
      assert SlotOk(ring[p], pending, Offset(cur, p));
    }
  }

  lemma LayoutIssue(ring: seq<Slot>, cur: nat, last: nat, pending: seq<Write>, slot: Slot, w: Write)
    requires Layout(ring, cur, last, pending) && At(slot, w)
    ensures |pending| < OPL_WRITEBUF_SIZE ==> Layout(ring[last := slot], cur, Wrap(last + 1), pending + [w])
    ensures |pending| == OPL_WRITEBUF_SIZE ==>
        Layout(ring[last := slot], Wrap(last + 1), Wrap(last + 1), pending[1..] + [w])
  {
    hide Waits, At;
    var r := ring[last := slot];
    if |pending| < OPL_WRITEBUF_SIZE {
      forall p | 0 <= p < OPL_WRITEBUF_SIZE ensures SlotOk(r[p], pending + [w], Offset(cur, p)) {
        assert SlotOk(ring[p], pending, Offset(cur, p));
      }
    } else {
      var c := Wrap(last + 1);
      forall p | 0 <= p < OPL_WRITEBUF_SIZE ensures SlotOk(r[p], pending[1..] + [w], Offset(c, p)) {
        assert SlotOk(ring[p], pending, Offset(cur, p));
      }
    }
  }

  class WriteBuffer {
    const ring: array<Slot>
    var sampleCount: nat
    var cur: nat
    var last: nat
    var lastTime: nat
    ghost var fifo: Fifo

    constructor ()
      ensures Valid() && fifo == Run([]) && fresh(ring)
    {
      ring := new Slot[OPL_WRITEBUF_SIZE](_ => Slot(0, 0, 0));
      sampleCount, cur, last, lastTime := 0, 0, 0, 0;
      fifo := Fifo([], [], 0, 0);
    }

    // The ring stands for `fifo`.
    ghost predicate Valid()
      reads this, ring
    {
      && Layout(ring[..], cur, last, fifo.pending) && Timely(fifo)
      && sampleCount == fifo.sampleCount && lastTime == fifo.lastTime
    }

    // OPL3_WriteRegBuffered
    method WriteRegBuffered(reg: bv16, data: bv8)
      requires Valid()
      modifies this, ring
      ensures Valid() && fifo == Issue(old(fifo), reg, data)
    {
      hide Timely, Waits, Layout;
      IssueTimely(fifo, reg, data);
      MarkBits(reg);
      LayoutFull(ring[..], cur, last, fifo.pending);
      ghost var w := Issue(fifo, reg, data).pending[|Issue(fifo, reg, data).pending| - 1];
      ghost var slot := Slot(reg | 0x200, data, w.time);
      LayoutIssue(ring[..], cur, last, fifo.pending, slot, w);
      LayoutRange(ring[..], cur, last, fifo.pending);
      ghost var was := ring[..];
      if Waits(ring[last].reg) {
        // OPL3_WriteReg
        cur := (last + 1) % OPL_WRITEBUF_SIZE;
        sampleCount := ring[last].time;
      }
      var time1 := lastTime + OPL_WRITEBUF_DELAY;
      var time2 := sampleCount;
      if time1 < time2 {
        time1 := time2;
      }
      ring[last] := Slot(reg | 0x200, data, time1);
      assert ring[..] == was[last := slot];
      lastTime := time1;
      last := (last + 1) % OPL_WRITEBUF_SIZE;
      fifo := Issue(fifo, reg, data);
    }

    // The end of OPL3_Generate.  The loop applies one write at most.
    method ApplyDue()
      requires Valid()
      modifies this, ring
      ensures Valid() && fifo == Tick(old(fifo))
    {
      hide Timely, Waits, Layout;
      ghost var start := fifo;
      TickTimely(fifo);
      if |fifo.pending| > 0 {
        FirstIsNotOverdue(fifo);
      }
      LayoutRange(ring[..], cur, last, fifo.pending);
      LayoutFull(ring[..], cur, last, fifo.pending);
      while ring[cur].time <= sampleCount
        invariant Layout(ring[..], cur, last, fifo.pending) && cur < ring.Length
        invariant sampleCount == start.sampleCount && lastTime == start.lastTime
        invariant fifo == start
            || (|start.pending| > 0 && start.pending[0].time == start.sampleCount && fifo == Apply(start))
        invariant |fifo.pending| > 0 ==> At(ring[cur], fifo.pending[0])
        invariant |fifo.pending| == 0 ==> !Waits(ring[cur].reg)
        decreases |fifo.pending|
      {
        if !Waits(ring[cur].reg) {
          break;
        }
        ApplyOldest();
      }
      sampleCount := sampleCount + 1;
      fifo := Tick(start);
    }

    // Its body.
    method ApplyOldest()
      requires Layout(ring[..], cur, last, fifo.pending) && |fifo.pending| > 0
      modifies this`cur, this`fifo, ring
      ensures Layout(ring[..], cur, last, fifo.pending) && cur < ring.Length && fifo == Apply(old(fifo))
      ensures |fifo.pending| > 0 ==> At(ring[cur], fifo.pending[0])
      ensures |fifo.pending| == 0 ==> !Waits(ring[cur].reg)
    {
      hide Waits, Layout, At;
      LayoutRange(ring[..], cur, last, fifo.pending);
      MarkBits(ring[cur].reg);
      ghost var was := ring[..];
      LayoutApply(was, cur, last, fifo.pending, ring[cur].(reg := ring[cur].reg & 0x1ff));
      ring[cur] := ring[cur].(reg := ring[cur].reg & 0x1ff);
      assert ring[..] == was[cur := ring[cur]];
      // OPL3_WriteReg
      cur := (cur + 1) % OPL_WRITEBUF_SIZE;
      fifo := Apply(fifo);
      LayoutRange(ring[..], cur, last, fifo.pending);
      LayoutFull(ring[..], cur, last, fifo.pending);
    }
  }
}
