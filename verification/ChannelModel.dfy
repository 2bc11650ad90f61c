/** Bandwidth of a channel: a ring of credits per time slot stands for an unbounded ledger
    of time slots (channel_model.c). */
module ChannelModel {
  import opened Arith

  /** Nanoseconds per time slot, and bytes per credit. */
  const SLOT: nat := 4000
  const UNIT: nat := 128

  /** Credits used in each time slot; slots that are not mentioned are free. */
  type Ledger = map<nat, nat>

  function Used(u: Ledger, s: nat): nat {
    if s in u then u[s] else 0
  }

  function Put(u: Ledger, s: nat, v: nat): Ledger {
    u[s := v]
  }

  /** No slot gives more than it has. */
  ghost predicate Bounded(u: Ledger, max: nat) {
    forall s :: Used(u, s) <= max
  }

  /** Credits left in the slots from `a` up to `b`. */
  ghost function Free(u: Ledger, max: nat, a: nat, b: nat): int
  {
    if a >= b then 0 else Free(u, max, a, b - 1) + (max - Used(u, b - 1))
  }

  /** The place of the i-th slot from the head of the ring. */
  function Ring(head: nat, i: nat, n: nat): nat {
    if head + i < n then head + i else Less(head + i, n)
  }

  function Less(a: nat, n: nat): nat {
    if a < n then 0 else a - n
  }

  lemma RingIsMod(head: nat, i: nat, n: nat)
    requires head < n && i <= n
    ensures (head + i) % n == Ring(head, i, n)
  {
    if head + i < n {
      SmallMod(head + i, n);
    } else {
      SmallMod(head + i - n, n);
      ModAdd(head + i - n, 1, n);
    }
  }

  ghost predicate RingShows(avail: seq<nat>, head: nat, now: nat, u: Ledger, max: nat) {
    && 0 < |avail| && head < |avail|
    && (forall i :: 0 <= i < |avail| ==> avail[Ring(head, i, |avail|)] + Used(u, now + i) == max)
  }

  /** The ring shows the ledger from time slot `now` on; only the first `len` slots of the
      ring, and slots of the past, have anything used. */
  ghost predicate Shows(avail: seq<nat>, head: nat, len: nat, now: nat, u: Ledger, max: nat) {
    && RingShows(avail, head, now, u, max) && len <= |avail| && Bounded(u, max)
    && (forall s :: s >= now + len ==> Used(u, s) == 0)
  }

  // ----- moving the head to the current time -----

  function Min(a: nat, b: nat): nat {
    if a < b then a else b
  }

  /** The ring after `k` slots at its head were reset. */
  ghost predicate Reset(avail: seq<nat>, avail': seq<nat>, head: nat, k: nat, max: nat) {
    && |avail'| == |avail| && head < |avail|
    && (forall i :: 0 <= i < |avail| ==> avail'[Ring(head, i, |avail|)] == if i < k then max else avail[Ring(head, i, |avail|)])
  }

  /** Forgetting the past: after a move of `adv` slots the ring still shows the ledger. */
  lemma MovedShows(avail: seq<nat>, avail': seq<nat>, head: nat, len: nat, now: nat, u: Ledger, max: nat, adv: nat)
    requires Shows(avail, head, len, now, u, max) && Reset(avail, avail', head, Min(adv, len), max)
    ensures Shows(avail', Ring(head, Min(adv, len), |avail|) % |avail|, len - Min(adv, len), now + adv, u, max)
  {
    var n, k := |avail|, Min(adv, len);
    var head' := Ring(head, k, n);
    SmallMod(head', n);
    forall i | 0 <= i < n
      ensures avail'[Ring(head', i, n)] + Used(u, now + adv + i) == max
    {
      // the same place, counted from the old head
      var j: nat := if k + i < n then k + i else k + i - n;
      assert Ring(head', i, n) == Ring(head, j, n);
      assert avail'[Ring(head, j, n)] == if j < k then max else avail[Ring(head, j, n)];
      assert avail[Ring(head, j, n)] + Used(u, now + j) == max;
      if k < adv {
        assert Used(u, now + adv + i) == 0;
      } else if j < k {
        assert Used(u, now + adv + i) == 0;
      }
    }
  }

  /** The number of slots the head is moved is computed in 32 bits. It is the right number
      exactly if fewer than 2^32 slots have passed, or the remainder covers the ring. */
  lemma MoveIsRightIff(adv: nat, len: nat)
    requires len < 0x1_0000_0000
    ensures Min(adv % 0x1_0000_0000, len) == Min(adv, len) <==> adv < 0x1_0000_0000 || adv % 0x1_0000_0000 >= len
  {
    if adv < 0x1_0000_0000 {
      SmallMod(adv, 0x1_0000_0000);
    }
  }

  ghost predicate Unused(u: Ledger, a: nat, b: nat) {
    forall s :: a <= s < b ==> Used(u, s) == 0
  }

  /** After a move by the 32-bit number of slots the ring still shows the ledger exactly if
      fewer than 2^32 slots have passed, or the slots that it missed were free anyway. */
  lemma MoveShowsIff(avail: seq<nat>, avail': seq<nat>, head: nat, len: nat, now: nat, u: Ledger, max: nat, adv: nat)
    requires Shows(avail, head, len, now, u, max) && |avail| < 0x1_0000_0000
    requires Reset(avail, avail', head, Min(adv % 0x1_0000_0000, len), max)
    ensures var k := Min(adv % 0x1_0000_0000, len);
            Shows(avail', Ring(head, k, |avail|) % |avail|, len - k, now + adv, u, max)
            <==> adv < 0x1_0000_0000 || Unused(u, now + k, now + len)
  {
    if adv < 0x1_0000_0000 {
      SmallMod(adv, 0x1_0000_0000);
      MovedShows(avail, avail', head, len, now, u, max, adv);
    } else {
      MissedShows(avail, avail', head, len, now, u, max, adv, Min(adv % 0x1_0000_0000, len));
    }
  }

  /** A move that is too short, after all that the ring shows is over. */
  lemma MissedShows(avail: seq<nat>, avail': seq<nat>, head: nat, len: nat, now: nat, u: Ledger, max: nat, adv: nat, k: nat)
    requires Shows(avail, head, len, now, u, max) && k <= len <= adv && Reset(avail, avail', head, k, max)
    ensures Shows(avail', Ring(head, k, |avail|) % |avail|, len - k, now + adv, u, max) <==> Unused(u, now + k, now + len)
  {
    var n := |avail|;
    var head' := Ring(head, k, n);
    SmallMod(head', n);
    forall i | 0 <= i < n
      ensures avail'[Ring(head', i, n)] + Used(u, now + adv + i) == max <==> k + i >= n || Used(u, now + (k + i)) == 0
    {
      MissedSlot(avail, avail', head, len, now, u, max, adv, k, i);
    }
    if RingShows(avail', head', now + adv, u, max) {
      forall s | now + k <= s < now + len
        ensures Used(u, s) == 0
      {
        var i: nat := s - now - k;
        assert avail'[Ring(head', i, n)] + Used(u, now + adv + i) == max;
      }
    }
  }

  lemma MissedSlot(avail: seq<nat>, avail': seq<nat>, head: nat, len: nat, now: nat, u: Ledger, max: nat, adv: nat, k: nat, i: nat)
    requires Shows(avail, head, len, now, u, max) && k <= len <= adv && Reset(avail, avail', head, k, max) && i < |avail|
    ensures var n, head' := |avail|, Ring(head, k, |avail|);
            && Ring(head', i, n) < n
            && (avail'[Ring(head', i, n)] + Used(u, now + adv + i) == max <==> k + i >= n || Used(u, now + (k + i)) == 0)
  {
    var n := |avail|;
    var j: nat := if k + i < n then k + i else k + i - n;
    assert Ring(Ring(head, k, n), i, n) == Ring(head, j, n);
    assert avail'[Ring(head, j, n)] == if j < k then max else avail[Ring(head, j, n)];
    assert avail[Ring(head, j, n)] + Used(u, now + j) == max;
    assert Used(u, now + adv + i) == 0;
  }

  // ----- taking credits -----

  lemma {:induction false} FreeSame(u: Ledger, u': Ledger, max: nat, a: nat, b: nat)
    requires forall s :: a <= s < b ==> Used(u', s) == Used(u, s)
    ensures Free(u', max, a, b) == Free(u, max, a, b)
  {
    if a < b {
      FreeSame(u, u', max, a, b - 1);
    }
  }

  lemma {:induction false} FreeSplit(u: Ledger, max: nat, a: nat, m: nat, b: nat)
    requires a <= m <= b
    ensures Free(u, max, a, b) == Free(u, max, a, m) + Free(u, max, m, b)
  {
    if m < b {
      FreeSplit(u, max, a, m, b - 1);
    }
  }

  lemma {:induction false} FreeFull(u: Ledger, max: nat, a: nat, b: nat)
    requires a <= b && forall s :: a <= s < b ==> Used(u, s) == max
    ensures Free(u, max, a, b) == 0
  {
    if a < b {
      FreeFull(u, max, a, b - 1);
    }
  }

  lemma {:induction false} FreeIdle(u: Ledger, max: nat, a: nat, b: nat)
    requires a <= b && forall s :: a <= s < b ==> Used(u, s) == 0
    ensures Free(u, max, a, b) == (b - a) * max
  {
    if a < b {
      FreeIdle(u, max, a, b - 1);
      assert (b - a) * max == (b - 1 - a) * max + max;
    }
  }

  lemma {:induction false} FreeNonneg(u: Ledger, max: nat, a: nat, b: nat)
    requires Bounded(u, max)
    ensures Free(u, max, a, b) >= 0
  {
    if a < b {
      FreeNonneg(u, max, a, b - 1);
    }
  }

  /** The ledger `u'` is `u` after a request took `credits` from slot `a` on and ended in
      slot `t`, at the latest in slot `last`: all slots on the way are full, none after
      `t` or before `a` is touched, and `t` is the first slot by which the free credits
      suffice. Only if the slots up to `last` do not suffice is less taken, namely all. */
  ghost predicate Taken(u: Ledger, u': Ledger, max: nat, a: nat, t: nat, last: nat, credits: nat) {
    && a <= t <= last
    && (forall s: nat :: s < a || t < s ==> Used(u', s) == Used(u, s))
    && (forall s :: a <= s < t ==> Used(u', s) == max)
    && (a < t ==> Free(u, max, a, t) < credits)
    && (if credits <= Free(u, max, a, t + 1)
        then Used(u', t) == Used(u, t) + credits - Free(u, max, a, t)
        else t == last && Used(u', t) == max)
  }

  /** What a request does: outside the ring it ends when it is made and takes nothing. Inside
      it ends `xferLat` per credit after it was made, and later by the slots that it had to
      wait for credits: those from its first to slot `t` beyond the slots that its credits fill
      at full bandwidth. */
  ghost predicate Served(u: Ledger, u': Ledger, max: nat, xferLat: nat, n: nat, now: nat, reqTime: nat, length: nat, end: nat) {
    if reqTime < now || Offset(now, reqTime) >= n then end == reqTime && u' == u
    else exists t :: ServedIn(u, u', max, xferLat, n, now, reqTime, length, end, t)
  }

  ghost predicate ServedIn(u: Ledger, u': Ledger, max: nat, xferLat: nat, n: nat, now: nat, reqTime: nat, length: nat, end: nat, t: nat) {
    && now <= reqTime && 0 < max && 0 < n
    && var start, prompt, full := now / SLOT + Offset(now, reqTime), reqTime + xferLat * Credits(length) % 0x1_0000_0000, Credits(length) / max;
       && Taken(u, u', max, start, t, now / SLOT + n - 1, Credits(length))
       && start <= t && prompt <= end
       && (end == prompt <==> t - start <= full)
       && (end > prompt ==> end - prompt == (t - start - full) * SLOT)
       && end + full * SLOT >= t * SLOT
  }

  /** The slot of the ring that a request for `reqTime` starts at, counted in 32 bits. */
  function Offset(now: nat, reqTime: nat): (offs: nat)
    requires now <= reqTime
    ensures now / SLOT + offs <= reqTime / SLOT
    ensures reqTime / SLOT - now / SLOT < 0x1_0000_0000 ==> SLOT * (now / SLOT + offs) <= reqTime < SLOT * (now / SLOT + offs + 1)
  {
    (reqTime / SLOT - now / SLOT) % 0x1_0000_0000
  }

  lemma ServesIn(u: Ledger, u': Ledger, max: nat, xferLat: nat, n: nat, now: nat, reqTime: nat, length: nat, end: nat, t: nat)
    requires now <= reqTime && 0 < max && 0 < n && now / SLOT + Offset(now, reqTime) <= t
    requires Taken(u, u', max, now / SLOT + Offset(now, reqTime), t, now / SLOT + n - 1, Credits(length))
    requires end == reqTime + xferLat * Credits(length) % 0x1_0000_0000 + Late(t - (now / SLOT + Offset(now, reqTime)), Credits(length), max) * SLOT
    ensures ServedIn(u, u', max, xferLat, n, now, reqTime, length, end, t)
    ensures Offset(now, reqTime) < n ==> Served(u, u', max, xferLat, n, now, reqTime, length, end)
  {
    hide Taken, Credits;
    assert SLOT * (now / SLOT + Offset(now, reqTime)) <= reqTime;
  }

  /** Credits are conserved: what the request took is what the slots lost. */
  lemma TakenExactly(u: Ledger, u': Ledger, max: nat, a: nat, t: nat, last: nat, credits: nat)
    requires Taken(u, u', max, a, t, last, credits) && Bounded(u, max)
    ensures credits <= Free(u, max, a, last + 1) ==> Free(u', max, a, last + 1) == Free(u, max, a, last + 1) - credits
    ensures credits > Free(u, max, a, last + 1) ==> Free(u', max, a, last + 1) == 0 && t == last
  {
    FreeSplit(u, max, a, t + 1, last + 1);
    FreeSplit(u', max, a, t + 1, last + 1);
    FreeSame(u, u', max, t + 1, last + 1);
    FreeFull(u', max, a, t);
    FreeNonneg(u, max, t + 1, last + 1);
    if credits > Free(u, max, a, t + 1) {
      assert t == last;
    }
  }

  /** On an idle channel a request spreads over no more slots than its credits need at full
      bandwidth, so it is not queued. */
  lemma IdleIsPrompt(u: Ledger, u': Ledger, max: nat, a: nat, t: nat, last: nat, credits: nat)
    requires Taken(u, u', max, a, t, last, credits) && 0 < max
    requires forall s :: a <= s <= last ==> Used(u, s) == 0
    ensures t - a <= credits / max
  {
    if a < t {
      FreeIdle(u, max, a, t);
      QuotientAtLeast(credits, max, t - a);
    }
  }

  class Channel {
    const max: nat
    const xferLat: nat
    const avail: array<nat>
    var head: nat
    var validLen: nat
    var curTime: nat
    /** The ledger that the ring stands for. */
    ghost var ledger: Ledger

    ghost predicate Valid()
      reads this, avail
    {
      && 0 < max < 256 && avail.Length < 0x1_0000_0000
      && Shows(avail[..], head, validLen, curTime / SLOT, ledger, max)
    }

    /** `chmodel_init`. */
    constructor (max: nat, xferLat: nat, n: nat)
      requires 0 < max < 256 && 0 < n < 0x1_0000_0000
      ensures Valid() && ledger == map[] && curTime == 0 && this.max == max && this.xferLat == xferLat && avail.Length == n && fresh(avail)
    {
      this.max, this.xferLat := max, xferLat;
      avail := new nat[n](_ => max);
      head, validLen, curTime := 0, 0, 0;
      ledger := map[];
    }

    /** Reset `k` slots of the ring, which may wrap around its end. */
    method Clear(k: nat)
      requires head < avail.Length && k <= avail.Length
      modifies avail
      ensures Reset(old(avail[..]), avail[..], head, k, max)
    {
      var n := avail.Length;
      if head + k >= n {
        Fill(head, n);
        Fill(0, head + k - n);
      } else {
        Fill(head, head + k);
      }
      assert |avail[..]| == n;
    }

    /** `memset` of a run of slots. */
    method Fill(a: nat, b: nat)
      requires a <= b <= avail.Length
      modifies avail
      ensures forall i :: 0 <= i < avail.Length ==> avail[i] == if a <= i < b then max else old(avail[i])
    {
      for i := a to b
        invariant forall j :: 0 <= j < avail.Length ==> avail[j] == if a <= j < i then max else old(avail[j])
      {
        avail[i] := max;
      }
    }

    /** The time since the last request is short enough for 32-bit arithmetic, or the slots
        that are missed without that are free anyway. */
    ghost predicate InTime(now: nat)
      requires curTime <= now
      reads this
    {
      var adv: nat := now / SLOT - curTime / SLOT;
      adv < 0x1_0000_0000 || Unused(ledger, curTime / SLOT + Min(adv % 0x1_0000_0000, validLen), curTime / SLOT + validLen)
    }

    /** The slots that a move to `now` resets: those that have passed, of the valid part. */
    function Passed(now: nat): nat
      requires curTime <= now
      reads this
    {
      Min((now / SLOT - curTime / SLOT) % 0x1_0000_0000, validLen)
    }

    /** Move the head of the ring to the current time. The ring still shows the ledger exactly
        if this is in time. */
    method MoveTo(now: nat)
      requires Valid() && curTime <= now
      modifies this`head, this`validLen, this`curTime, avail
      ensures curTime == now && (Valid() <==> old(InTime(now)))
      ensures validLen == old(validLen) - old(Passed(now)) && head == (old(head) + old(Passed(now))) % avail.Length
    {
      var adv: nat := now / SLOT - curTime / SLOT;
      var offs := Min(adv % 0x1_0000_0000, validLen);
      ghost var before := avail[..];
      Clear(offs);
      MoveShowsIff(before, avail[..], head, validLen, curTime / SLOT, ledger, max, adv);
      RingIsMod(head, offs, avail.Length);
      SmallMod((head + offs) % avail.Length, avail.Length);
      head := (head + offs) % avail.Length;
      curTime := now;
      validLen := validLen - offs;
    }

    /** `chmodel_request`: the time at which the transfer ends. `t` is the slot in which it
        finds the last of its credits. */
    method Request(now: nat, reqTime: nat, length: nat) returns (end: nat, ghost t: nat)
      requires Valid() && curTime <= now && InTime(now)
      modifies this, avail
      ensures Valid() && curTime == now
      ensures end >= reqTime
      ensures Served(old(ledger), ledger, max, xferLat, avail.Length, now, reqTime, length, end)
      ensures reqTime >= now && Offset(now, reqTime) < avail.Length ==>
        ServedIn(old(ledger), ledger, max, xferLat, avail.Length, now, reqTime, length, end, t)
      ensures var len := old(validLen) - old(Passed(now));
        validLen == if reqTime < now || Offset(now, reqTime) >= avail.Length || t + 1 <= now / SLOT + len then len else t + 1 - now / SLOT
    {
      hide Ring, Taken, Taking, RingShows, Bounded, Free, Used, Reset, Credits, ServedIn, Late;
      t := 0;
      MoveTo(now);
      if reqTime < now {
        return reqTime, t;
      }
      var offs: nat := Offset(now, reqTime);
      if offs >= avail.Length {
        return reqTime, t;
      }
      var remaining := Credits(length);
      ghost var u, len := ledger, validLen;
      LengthFacts(avail[..], head, validLen, now / SLOT, u, max);
      var pos, delay;
      pos, delay, t := Consume(offs, remaining);
      LengthTo(head, offs + delay, avail.Length, pos);
      StillShows(avail[..], head, len, now / SLOT, u, ledger, max, now / SLOT + offs, t, now / SLOT + avail.Length - 1, remaining);
      var reach: nat := if pos >= head then pos - head + 1 else avail.Length - (head - pos - 1);
      if reach > validLen {
        validLen := reach;
      }
      end := reqTime + xferLat * remaining % 0x1_0000_0000 + Late(delay, remaining, max) * SLOT;
      ServesIn(u, ledger, max, xferLat, avail.Length, now, reqTime, length, end, t);
    }

    /** The loop over slots: take what each slot has until the credits are found, or the
        ring has no further slot. `t` is the slot it ends in. */
    method Consume(offs: nat, credits: nat) returns (pos: nat, delay: nat, ghost t: nat)
      requires Valid() && offs < avail.Length
      modifies avail, this`ledger
      ensures RingShows(avail[..], head, curTime / SLOT, ledger, max) && Bounded(ledger, max)
      ensures Taken(old(ledger), ledger, max, curTime / SLOT + offs, t, curTime / SLOT + avail.Length - 1, credits)
      ensures t == curTime / SLOT + offs + delay && offs + delay < avail.Length && pos == Ring(head, offs + delay, avail.Length)
    {
      hide Ring, Taken, Taking, RingShows, Bounded, Free, Used, Put;
      ghost var u, now: nat, n := ledger, curTime / SLOT, avail.Length;
      ghost var last: nat := now + n - 1;
      StartTaking(avail[..], head, validLen, now, u, max, now + offs, credits);
      RingIsMod(head, offs, n);
      pos, delay := (head + offs) % avail.Length, 0;
      var remaining: nat := credits;
      while true
        invariant offs + delay < n && pos == Ring(head, offs + delay, n)
        invariant RingShows(avail[..], head, now, ledger, max) && Bounded(ledger, max)
        invariant Taking(u, ledger, max, now + offs, now + offs + delay, credits, remaining)
        modifies avail, this`ledger
        decreases n - delay
      {
        RingNext(head, offs + delay, n, pos);
        ghost var s := now + (offs + delay);
        SlotAt(avail[..], head, now, ledger, max, offs + delay);
        var consumed: nat := if remaining <= avail[pos] then remaining else avail[pos];
        TakeSlot(avail[..], head, now, ledger, max, offs + delay, consumed);
        TookSlot(u, ledger, max, now + offs, s, credits, remaining, consumed, last);
        ghost var before := avail[..];
        avail[pos] := avail[pos] - consumed;
        assert avail[..] == before[pos := before[pos] - consumed];
        ledger := Put(ledger, s, Used(ledger, s) + consumed);
        remaining := remaining - consumed;
        if remaining == 0 { break; }
        var next := (pos + 1) % avail.Length;
        if next == head { break; }
        delay := delay + 1;
        pos := next;
      }
      t := now + offs + delay;
    }
  }

  lemma StillShows(avail: seq<nat>, head: nat, len: nat, now: nat, u: Ledger, u': Ledger, max: nat, a: nat, t: nat, last: nat, credits: nat)
    requires RingShows(avail, head, now, u', max) && Bounded(u', max) && Taken(u, u', max, a, t, last, credits)
    requires forall s :: s >= now + len ==> Used(u, s) == 0
    requires now <= t < now + |avail| && len <= |avail|
    ensures Shows(avail, head, if t + 1 - now > len then t + 1 - now else len, now, u', max)
  {
  }

  /** The used part of the ring, from the place where a request ended. */
  lemma LengthTo(head: nat, i: nat, n: nat, pos: nat)
    requires head < n && i < n && pos == Ring(head, i, n)
    ensures (if pos >= head then pos - head + 1 else n - (head - pos - 1)) == i + 1
  {
  }

  lemma LengthFacts(avail: seq<nat>, head: nat, len: nat, now: nat, u: Ledger, max: nat)
    requires Shows(avail, head, len, now, u, max)
    ensures head < |avail| && len <= |avail| && forall s :: s >= now + len ==> Used(u, s) == 0
  {
  }

  lemma StartTaking(avail: seq<nat>, head: nat, len: nat, now: nat, u: Ledger, max: nat, a: nat, credits: nat)
    requires Shows(avail, head, len, now, u, max)
    ensures RingShows(avail, head, now, u, max) && Bounded(u, max) && Taking(u, u, max, a, a, credits, credits) && head < |avail|
  {
  }

  /** Halfway through a request: the slots before `s` are full, the rest is untouched. */
  ghost predicate Taking(u: Ledger, u': Ledger, max: nat, a: nat, s: nat, credits: nat, remaining: nat) {
    && a <= s && remaining <= credits && (a < s ==> 0 < remaining)
    && (forall x: nat :: x < a || s <= x ==> Used(u', x) == Used(u, x))
    && (forall x :: a <= x < s ==> Used(u', x) == max)
    && Free(u, max, a, s) == credits - remaining
  }

  /** The credits of a transfer of `length` bytes, counted in 32 bits: a credit moves up to
      UNIT bytes. */
  function Credits(length: nat): (r: nat)
    ensures length <= UNIT * 0xFFFF_FFFF ==> length <= UNIT * r < length + UNIT
  {
    var units := (length + UNIT - 1) / UNIT;
    assert length <= UNIT * 0xFFFF_FFFF ==> units < 0x1_0000_0000;
    units % 0x1_0000_0000
  }

  /** The delay of a request beyond the slots that its credits fill at full bandwidth. */
  function Late(delay: nat, credits: nat, max: nat): nat
    requires 0 < max
  {
    if delay > credits / max then delay - credits / max else 0
  }

  lemma RingNext(head: nat, i: nat, n: nat, pos: nat)
    requires head < n && i < n && pos == Ring(head, i, n)
    ensures pos < n
    ensures (pos + 1) % n == head <==> i + 1 == n
    ensures i + 1 < n ==> (pos + 1) % n == Ring(head, i + 1, n)
  {
    RingIsMod(pos, 1, n);
  }

  lemma SlotAt(avail: seq<nat>, head: nat, now: nat, u: Ledger, max: nat, i: nat)
    requires RingShows(avail, head, now, u, max) && i < |avail|
    ensures avail[Ring(head, i, |avail|)] + Used(u, now + i) == max
  {
  }

  lemma TakeSlot(avail: seq<nat>, head: nat, now: nat, u: Ledger, max: nat, i: nat, k: nat)
    requires RingShows(avail, head, now, u, max) && Bounded(u, max) && i < |avail|
    requires k <= avail[Ring(head, i, |avail|)]
    ensures var pos, u' := Ring(head, i, |avail|), Put(u, now + i, Used(u, now + i) + k);
            && pos < |avail| && RingShows(avail[pos := avail[pos] - k], head, now, u', max) && Bounded(u', max)
  {
    var pos, u' := Ring(head, i, |avail|), Put(u, now + i, Used(u, now + i) + k);
    UsedUpdate(u, now + i, Used(u, now + i) + k);
    SlotAt(avail, head, now, u, max, i);
  }

  lemma UsedUpdate(u: Ledger, s: nat, v: nat)
    ensures forall x: nat :: Used(Put(u, s, v), x) == if x == s then v else Used(u, x)
  {
    var w := Put(u, s, v);
    forall x: nat
      ensures Used(w, x) == if x == s then v else Used(u, x)
    {
      assert x in w <==> x == s || x in u;
      assert x != s && x in u ==> w[x] == u[x];
    }
  }

  /** One slot of a request. */
  lemma TookSlot(u: Ledger, l: Ledger, max: nat, a: nat, s: nat, credits: nat, remaining: nat, k: nat, last: nat)
    requires Taking(u, l, max, a, s, credits, remaining) && Bounded(u, max)
    requires Used(l, s) <= max && k == (if remaining <= max - Used(l, s) then remaining else max - Used(l, s))
    ensures var l' := Put(l, s, Used(l, s) + k);
            && (remaining > k ==> Taking(u, l', max, a, s + 1, credits, remaining - k))
            && (s <= last && (remaining == k || s == last) ==> Taken(u, l', max, a, s, last, credits))
  {
    UsedUpdate(l, s, Used(l, s) + k);
    hide Used, Put;
    assert Free(u, max, a, s + 1) == Free(u, max, a, s) + (max - Used(u, s));
  }
}
