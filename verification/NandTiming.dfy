/** Timing of NAND commands: a LUN works on one command at a time (ssd_advance_nand in
    ssd.c), on top of the bandwidth model of its channel. */
module NandTiming {
  import opened ChannelModel

  /** The supported commands; a read transfers at least one byte. */
  datatype Command = Read(size: nat) | Write(size: nat) | Erase | Nop

  /** Latencies in nanoseconds, and the most bytes of one channel transfer of a read. */
  datatype Latencies = Latencies(read4k: nat, read: nat, write: nat, erase: nat, maxXfer: nat)

  /** A time during which a LUN works on a command. */
  datatype Interval = Interval(start: nat, end: nat)

  /** Work on one LUN: intervals in order, none overlapping the one before. */
  ghost predicate Serial(work: seq<Interval>, until: nat) {
    && (forall i :: 0 <= i < |work| ==> work[i].start <= work[i].end <= until)
    && (forall i :: 0 < i < |work| ==> work[i - 1].end <= work[i].start)
  }

  /** No two intervals overlap. */
  lemma {:induction false} SerialApart(work: seq<Interval>, until: nat, i: nat, j: nat)
    requires Serial(work, until) && i < j < |work|
    ensures work[i].end <= work[j].start
  {
    if i + 1 < j {
      SerialApart(work, until, i, j - 1);
    }
  }

  /** Two readings of the clock, fewer than 2^32 time slots apart. */
  predicate Close(a: nat, b: nat) {
    a <= b && b / SLOT - a / SLOT < 0x1_0000_0000
  }

  /** Readings of a clock that never goes back. */
  ghost predicate Steady(clock: nat -> nat) {
    forall i: nat :: Close(clock(i), clock(i + 1))
  }

  /** The parts of a transfer of `size` bytes. */
  function Parts(size: nat, most: nat): (r: seq<nat>)
    requires 0 < most
    ensures size == 0 ==> r == []
    ensures size > 0 ==> |r| > 0 && 0 < r[|r| - 1] <= most && size == most * (|r| - 1) + r[|r| - 1]
    ensures forall i :: 0 <= i < |r| - 1 ==> r[i] == most
  {
    if size == 0 then [] else if size <= most then [size] else [most] + Parts(size - most, most)
  }

  /** The bandwidth and size of a channel. */
  datatype Wire = Wire(max: nat, xferLat: nat, n: nat)

  function Over(c: Channel): Wire {
    Wire(c.max, c.xferLat, c.avail.Length)
  }

  /** One part: requested from the channel when the part before has ended, and with
      `interleave` from the host link when it has ended itself. */
  ghost predicate Carried(part: nat, from: nat, interleave: bool, now: nat, a: Wire, b: Wire,
                          u: Ledger, u': Ledger, v: Ledger, v': Ledger, end: nat, completed: nat) {
    && Served(u, u', a.max, a.xferLat, a.n, now, from, part, end)
    && if interleave then Served(v, v', b.max, b.xferLat, b.n, now, end, part, completed) else v' == v && completed == end
  }

  /** All parts of a transfer, one after the other. */
  ghost predicate Transferred(parts: seq<nat>, from: nat, interleave: bool, clock: nat -> nat, a: Wire, b: Wire,
                              u: Ledger, u': Ledger, v: Ledger, v': Ledger, end: nat, completed: nat) {
    if parts == [] then end == completed == from && u' == u && v' == v
    else
      var n := |parts| - 1;
      exists e, c, x, y ::
        && Transferred(parts[..n], from, interleave, clock, a, b, u, x, v, y, e, c)
        && Carried(parts[n], e, interleave, clock(n), a, b, x, u', y, v', end, completed)
  }

  lemma NoPart(from: nat, interleave: bool, clock: nat -> nat, a: Wire, b: Wire, u: Ledger, v: Ledger)
    ensures Transferred([], from, interleave, clock, a, b, u, u, v, v, from, from)
  {
  }

  lemma NoParts(most: nat)
    requires 0 < most
    ensures Parts(0, most) == []
  {
  }

  lemma PartsNext(parts: seq<nat>, remaining: nat, most: nat, part: nat)
    requires 0 < most && 0 < remaining && part == if remaining < most then remaining else most
    ensures parts + Parts(remaining, most) == parts + [part] + Parts(remaining - part, most)
  {
    assert Parts(remaining, most) == [part] + Parts(remaining - part, most);
  }

  lemma OneMorePart(parts: seq<nat>, part: nat, from: nat, interleave: bool, clock: nat -> nat, a: Wire, b: Wire,
                    u: Ledger, x: Ledger, u': Ledger, v: Ledger, y: Ledger, v': Ledger, e: nat, c: nat, end: nat, completed: nat)
    requires Transferred(parts, from, interleave, clock, a, b, u, x, v, y, e, c)
    requires Carried(part, e, interleave, clock(|parts|), a, b, x, u', y, v', end, completed)
    ensures Transferred(parts + [part], from, interleave, clock, a, b, u, u', v, v', end, completed)
  {
    hide Carried;
    assert (parts + [part])[..|parts|] == parts;
  }

  class Lun {
    const lat: Latencies
    const channel: Channel
    const pcie: Channel
    var nextAvail: nat
    /** Every command the LUN ever worked on. */
    ghost var work: seq<Interval>

    ghost predicate Valid()
      reads this, channel, channel.avail, pcie, pcie.avail
    {
      && channel.Valid() && pcie.Valid() && channel != pcie && channel.avail != pcie.avail
      && 0 < lat.maxXfer
      && Serial(work, nextAvail)
    }

    constructor (lat: Latencies, channel: Channel, pcie: Channel)
      requires channel.Valid() && pcie.Valid() && channel != pcie && channel.avail != pcie.avail && 0 < lat.maxXfer
      ensures Valid() && nextAvail == 0 && work == [] && this.channel == channel && this.pcie == pcie
    {
      this.lat, this.channel, this.pcie := lat, channel, pcie;
      nextAvail, work := 0, [];
    }

    /** The clock is in step with both channels. */
    ghost predicate Clocked(clock: nat -> nat)
      reads channel, pcie
    {
      Steady(clock) && Close(channel.curTime, clock(0)) && Close(pcie.curTime, clock(0))
    }

    method SendPart(part: nat, from: nat, interleave: bool, now: nat) returns (end: nat, completed: nat)
      requires channel.Valid() && pcie.Valid() && channel != pcie && channel.avail != pcie.avail
      requires Close(channel.curTime, now) && (interleave ==> Close(pcie.curTime, now))
      modifies channel, channel.avail, pcie, pcie.avail
      ensures channel.Valid() && pcie.Valid() && channel.curTime == now && (interleave ==> pcie.curTime == now)
      ensures from <= end <= completed && (!interleave ==> completed == end)
      ensures Carried(part, from, interleave, now, Over(channel), Over(pcie), old(channel.ledger), channel.ledger,
                      old(pcie.ledger), pcie.ledger, end, completed)
    {
      hide Served;
      ghost var t;
      end, t := channel.Request(now, from, part);
      if interleave {
        completed, t := pcie.Request(now, end, part);
      } else {
        completed := end;
      }
    }

    /** The transfer loop of a read: each transfer starts when the one before has ended.
        With `interleave`, every part then goes out over the host link. */
    method Transfer(from: nat, size: nat, interleave: bool, clock: nat -> nat)
      returns (end: nat, completed: nat)
      requires Valid() && Clocked(clock) && 0 < size
      modifies channel, channel.avail, pcie, pcie.avail
      ensures channel.Valid() && pcie.Valid()
      ensures from <= end <= completed && (!interleave ==> completed == end)
      ensures Transferred(Parts(size, lat.maxXfer), from, interleave, clock, Over(channel), Over(pcie),
                          old(channel.ledger), channel.ledger, old(pcie.ledger), pcie.ledger, end, completed)
    {
      hide Served, Parts, Transferred, Carried, Channel.Valid, Channel.InTime;
      var remaining: nat, tick: nat := size, 0;
      ghost var parts: seq<nat>, u, v := [], channel.ledger, pcie.ledger;
      end, completed := from, from;
      NoPart(from, interleave, clock, Over(channel), Over(pcie), u, v);
      while remaining > 0
        invariant channel.Valid() && pcie.Valid() && remaining <= size
        invariant Close(channel.curTime, clock(tick)) && (interleave ==> Close(pcie.curTime, clock(tick)))
        invariant |parts| == tick && parts + Parts(remaining, lat.maxXfer) == Parts(size, lat.maxXfer)
        invariant Transferred(parts, from, interleave, clock, Over(channel), Over(pcie), u, channel.ledger, v, pcie.ledger, end, completed)
        invariant from <= end && (remaining < size ==> end <= completed) && (remaining == size ==> end == from) && (!interleave ==> completed == end)
        modifies channel, channel.avail, pcie, pcie.avail
        decreases remaining
      {
        var part: nat := if remaining < lat.maxXfer then remaining else lat.maxXfer;
        ghost var x, y, e, c0 := channel.ledger, pcie.ledger, end, completed;
        end, completed := SendPart(part, end, interleave, clock(tick));
        OneMorePart(parts, part, from, interleave, clock, Over(channel), Over(pcie), u, x, channel.ledger, v, y, pcie.ledger, e, c0, end, completed);
        PartsNext(parts, remaining, lat.maxXfer, part);
        assert Close(clock(tick), clock(tick + 1));
        tick, parts := tick + 1, parts + [part];
        remaining := remaining - part;
      }
      NoParts(lat.maxXfer);
      assert parts + [] == parts;
    }

    /** `ssd_advance_nand`: the command starts when it is issued and the LUN is available,
        and occupies the LUN until it becomes available again. */
    method Advance(cmd: Command, stime: nat, interleave: bool, clock: nat -> nat) returns (completed: nat)
      requires Valid() && Clocked(clock) && (cmd.Read? ==> 0 < cmd.size)
      modifies this`nextAvail, this`work, channel, channel.avail, pcie, pcie.avail
      ensures Valid() && old(nextAvail) <= nextAvail
      ensures work == old(work) + [Interval(Max(old(nextAvail), stime), nextAvail)]
      ensures stime <= Max(old(nextAvail), stime) <= nextAvail <= completed
      ensures cmd.Erase? ==> completed == nextAvail == Max(old(nextAvail), stime) + lat.erase
      ensures cmd.Nop? ==> completed == nextAvail == Max(old(nextAvail), stime)
      ensures cmd.Write? ==> completed == nextAvail >= Max(old(nextAvail), stime) + lat.write
      ensures cmd.Write? ==>
        Served(old(channel.ledger), channel.ledger, channel.max, channel.xferLat, channel.avail.Length,
               clock(0), Max(old(nextAvail), stime), cmd.size, completed - lat.write)
      ensures cmd.Read? && !interleave ==> completed == nextAvail
      ensures cmd.Read? ==>
        var ready := Max(old(nextAvail), stime) + (if cmd.size == 4096 then lat.read4k else lat.read);
        && ready <= nextAvail
        && Transferred(Parts(cmd.size, lat.maxXfer), ready, interleave, clock, Over(channel), Over(pcie),
                       old(channel.ledger), channel.ledger, old(pcie.ledger), pcie.ledger, nextAvail, completed)
      ensures !cmd.Read? ==> pcie.ledger == old(pcie.ledger)
      ensures cmd.Erase? || cmd.Nop? ==> channel.ledger == old(channel.ledger)
    {
      hide Served, Transferred;
      var start := Max(nextAvail, stime);
      match cmd {
        case Read(size) =>
          var ready := start + (if size == 4096 then lat.read4k else lat.read);
          var end;
          end, completed := Transfer(ready, size, interleave, clock);
          nextAvail := end;
        case Write(size) =>
          var end; ghost var t;
          end, t := channel.Request(clock(0), start, size);
          nextAvail := end + lat.write;
          completed := nextAvail;
        case Erase =>
          nextAvail := start + lat.erase;
          completed := nextAvail;
        case Nop =>
          nextAvail := start;
          completed := nextAvail;
      }
      work := work + [Interval(start, nextAvail)];
    }
  }

  function Max(a: nat, b: nat): (m: nat)
    ensures m >= a && m >= b && (m == a || m == b)
  {
    if a < b then b else a
  }
}
