/** The bit layout of a packed identity, read back field by field.

    Four fields go into one word: the timestamp at `timestampOffset`, the
    data-center id at `dataCenterIdOffset`, the service id at `serviceIdOffset`
    and the sequence number at bit 0. A field can be read back exactly when it
    fits in the room up to the next field's offset (`Fits`): then no `|` of
    `Pack` mixes bits of two fields and no `<<` loses a bit. */
module Layout {
  import opened Uint64
  import opened Snowflake

  /** The four fields of a packed identity. */
  datatype Fields = Fields(passedTime: nat, dataCenterId: nat, serviceId: nat, id: nat)

  /** The room each field has: the gap up to the offset of the field above it,
      and for the timestamp the bits left below 2^64. */
  predicate Fits(c: Configuration, passedTime: Word, dataCenterId: Word, serviceId: Word, id: Word) {
    && WellFormed(c)
    && c.timestampOffset <= 64
    && passedTime < Pow2(64 - c.timestampOffset)
    && dataCenterId < Pow2(c.timestampOffset - c.dataCenterIdOffset)
    && serviceId < Pow2(c.dataCenterIdOffset - c.serviceIdOffset)
    && id < Pow2(c.serviceIdOffset)
  }

  /** Reads the four fields back out of a word, each as the bits from its
      offset up to the next field's offset. */
  function Unpack(c: Configuration, v: Word): (f: Fields)
    requires WellFormed(c) && c.timestampOffset <= 64
    ensures f.dataCenterId < Pow2(c.timestampOffset - c.dataCenterIdOffset)
    ensures f.serviceId < Pow2(c.dataCenterIdOffset - c.serviceIdOffset)
    ensures f.id < Pow2(c.serviceIdOffset)
  {
    var ts, dco, so := c.timestampOffset, c.dataCenterIdOffset, c.serviceIdOffset;
    Fields(Shr(v, ts), Bits(v, dco, ts - dco), Bits(v, so, dco - so), Bits(v, 0, so))
  }

  /** The `width` bits of v from bit `low` up. */
  function Bits(v: nat, low: nat, width: nat): (r: nat)
    ensures r < Pow2(width)
  {
    (v / Pow2(low)) % Pow2(width)
  }

  // ---------------------------------------------------------------------------
  // Arithmetic on stacked fields

  /** A value below 2^k placed above n free bits, plus anything in those bits,
      stays below 2^(k+n). */
  lemma Stack(x: nat, k: nat, y: nat, n: nat)
    requires x < Pow2(k) && y < Pow2(n)
    ensures x * Pow2(n) + y < Pow2(k + n)
  {
    Pow2Add(k, n);
    MulStack(x, Pow2(k), y, Pow2(n));
  }

  lemma MulStack(x: nat, xBound: nat, y: nat, yBound: nat)
    requires x < xBound && y < yBound
    ensures x * yBound + y < xBound * yBound
  {
    MulLe(x + 1, xBound, yBound);
  }

  lemma MulLe(a: nat, b: nat, m: nat)
    requires a <= b
    ensures a * m <= b * m
  {
    assert b * m - a * m == (b - a) * m;
  }

  /** Shifting by a + b is shifting by a, then by b. */
  lemma Regroup(x: int, a: nat, b: nat)
    ensures x * Pow2(a + b) == (x * Pow2(a)) * Pow2(b)
  {
    Pow2Add(a, b);
    assert x * (Pow2(a) * Pow2(b)) == (x * Pow2(a)) * Pow2(b);
  }

  lemma ModMultiple(x: nat, k: nat)
    ensures (x * Pow2(k)) % Pow2(k) == 0 && (x * Pow2(k)) / Pow2(k) == x
  {
    DivModUnique(x * Pow2(k), Pow2(k), x, 0);
  }

  /** Nested placement written out as a sum of shifted fields. */
  lemma Nested(p: int, dc: int, sid: int, id: int, b: int, e: int, so: int, dco: int, ts: int)
    requires e * so == dco && b * dco == ts
    ensures ((p * b + dc) * e + sid) * so + id == p * ts + dc * dco + sid * so + id
  {
    assert ((p * b + dc) * e + sid) * so == (p * b + dc) * (e * so) + sid * so;
    assert (p * b + dc) * dco == p * (b * dco) + dc * dco;
  }

  /** `Or` of a multiple of 2^k with a word below 2^k is their sum. */
  lemma OrStacked(hi: nat, lo: Word, k: nat)
    requires hi * Pow2(k) < Modulus && lo < Pow2(k)
    ensures Or(hi * Pow2(k), lo) == hi * Pow2(k) + lo
  {
    ModMultiple(hi, k);
    BitOrDisjoint(hi * Pow2(k), lo, k);
  }

  /** The word already holding `hi` above bit `b + off` is no larger than the
      word after a field below 2^b is or-ed in at `off`. */
  lemma LayerBound(hi: nat, f: nat, off: nat, b: nat)
    ensures 0 <= hi * Pow2(b + off) <= (hi * Pow2(b) + f) * Pow2(off)
  {
    Regroup(hi, b, off);
    MulNonneg(hi, Pow2(b));
    MulNonneg(hi * Pow2(b), Pow2(off));
    MulLe(hi * Pow2(b), hi * Pow2(b) + f, Pow2(off));
  }

  /** One `|=` of `Generate`: a field f below 2^b, shifted to `off`, into the
      word w already holding `hi` at `off + b`. */
  lemma Layer(w: Word, hi: nat, f: Word, off: nat, b: nat)
    requires f < Pow2(b) && w == hi * Pow2(b + off)
    requires (hi * Pow2(b) + f) * Pow2(off) < Modulus
    ensures Or(w, Shl(f, off)) == (hi * Pow2(b) + f) * Pow2(off)
  {
    Regroup(hi, b, off);
    assert (hi * Pow2(b) + f) * Pow2(off) == w + f * Pow2(off);
    MulNonneg(f, Pow2(off));
    ShlNoWrap(f, off);
    ModMultiple(hi, b + off);
    Stack(f, b, 0, off);
    BitOrDisjoint(w, f * Pow2(off), b + off);
  }

  // ---------------------------------------------------------------------------
  // Pack and Unpack

  lemma MulNonneg(a: nat, b: nat)
    ensures a * b >= 0
  {
  }

  /** The first `|=`: the data-center id below 2^b under the timestamp. */
  lemma TopTwo(p: Word, dc: Word, ts: nat, dco: nat, b: nat)
    requires ts == dco + b && dc < Pow2(b)
    requires (p * Pow2(b) + dc) * Pow2(dco) < Modulus
    ensures Or(Shl(p, ts), Shl(dc, dco)) == (p * Pow2(b) + dc) * Pow2(dco)
  {
    LayerBound(p, dc, dco, b);
    ShlNoWrap(p, ts);
    Layer(Shl(p, ts), p, dc, dco, b);
  }

  /** The second `|=`: the service id below 2^e under both. */
  lemma TopThree(p: Word, dc: Word, sid: Word, ts: nat, dco: nat, so: nat, b: nat, e: nat)
    requires ts == dco + b && dco == so + e && dc < Pow2(b) && sid < Pow2(e)
    requires ((p * Pow2(b) + dc) * Pow2(e) + sid) * Pow2(so) < Modulus
    ensures Or(Or(Shl(p, ts), Shl(dc, dco)), Shl(sid, so)) == ((p * Pow2(b) + dc) * Pow2(e) + sid) * Pow2(so)
  {
    var hiDc := p * Pow2(b) + dc;
    MulNonneg(p, Pow2(b));
    LayerBound(hiDc, sid, so, e);
    TopTwo(p, dc, ts, dco, b);
    Layer(Or(Shl(p, ts), Shl(dc, dco)), hiDc, sid, so, e);
  }

  /** Fields that fit are packed without loss: nothing wraps and no two fields
      share a bit, so the word is the sequence number stacked under the service
      id, under the data-center id, under the timestamp. */
  lemma PackIsSum(c: Configuration, p: Word, dc: Word, sid: Word, id: Word)
    requires Fits(c, p, dc, sid, id)
    ensures
      var ts, dco, so := c.timestampOffset, c.dataCenterIdOffset, c.serviceIdOffset;
      Pack(c, p, dc, sid, id) == ((p * Pow2(ts - dco) + dc) * Pow2(dco - so) + sid) * Pow2(so) + id
  {
    var ts, dco, so := c.timestampOffset, c.dataCenterIdOffset, c.serviceIdOffset;
    var a, b, e := 64 - ts, ts - dco, dco - so;
    var hiS := (p * Pow2(b) + dc) * Pow2(e) + sid;
    PackBound(p, dc, sid, id, a, b, e, so);
    TopThree(p, dc, sid, ts, dco, so, b, e);
    MulNonneg(p, Pow2(b));
    MulNonneg(p * Pow2(b) + dc, Pow2(e));
    MulNonneg(hiS, Pow2(so));
    OrStacked(hiS, id, so);
  }

  /** The same word as a plain sum of the shifted fields. */
  lemma PackIsFlatSum(c: Configuration, p: Word, dc: Word, sid: Word, id: Word)
    requires Fits(c, p, dc, sid, id)
    ensures
      var ts, dco, so := c.timestampOffset, c.dataCenterIdOffset, c.serviceIdOffset;
      Pack(c, p, dc, sid, id) == p * Pow2(ts) + dc * Pow2(dco) + sid * Pow2(so) + id
  {
    var ts, dco, so := c.timestampOffset, c.dataCenterIdOffset, c.serviceIdOffset;
    PackIsSum(c, p, dc, sid, id);
    Pow2Add(dco - so, so);
    Pow2Add(ts - dco, dco);
    Nested(p, dc, sid, id, Pow2(ts - dco), Pow2(dco - so), Pow2(so), Pow2(dco), Pow2(ts));
  }

  /** Three fields stacked under a fourth stay below 2^(sum of their rooms). */
  lemma Stack3(p: nat, dc: nat, a: nat, b: nat, sid: nat, e: nat)
    requires p < Pow2(a) && dc < Pow2(b) && sid < Pow2(e)
    ensures 0 <= (p * Pow2(b) + dc) * Pow2(e) + sid < Pow2(a + b + e)
  {
    var hi := p * Pow2(b) + dc;
    assert 0 <= hi < Pow2(a + b) by {
      MulNonneg(p, Pow2(b));
      Stack(p, a, dc, b);
    }
    MulNonneg(hi, Pow2(e));
    Stack(hi, a + b, sid, e);
  }

  /** The stacked fields stay below 2^64. */
  lemma PackBound(p: nat, dc: nat, sid: nat, id: nat, a: nat, b: nat, e: nat, so: nat)
    requires a + b + e + so == 64
    requires p < Pow2(a) && dc < Pow2(b) && sid < Pow2(e) && id < Pow2(so)
    ensures ((p * Pow2(b) + dc) * Pow2(e) + sid) * Pow2(so) + id < Modulus
  {
    Stack4(p, dc, sid, id, a, b, e, so);
    Pow2Full();
  }

  lemma Stack4(p: nat, dc: nat, sid: nat, id: nat, a: nat, b: nat, e: nat, so: nat)
    requires p < Pow2(a) && dc < Pow2(b) && sid < Pow2(e) && id < Pow2(so)
    ensures ((p * Pow2(b) + dc) * Pow2(e) + sid) * Pow2(so) + id < Pow2(a + b + e + so)
  {
    var hi := (p * Pow2(b) + dc) * Pow2(e) + sid;
    assert 0 <= hi < Pow2(a + b + e) by {
      Stack3(p, dc, a, b, sid, e);
    }
    Stack(hi, a + b + e, id, so);
  }

  /** Round trip: fields that fit come back out of the packed word unchanged. */
  lemma UnpackPack(c: Configuration, p: Word, dc: Word, sid: Word, id: Word)
    requires Fits(c, p, dc, sid, id)
    ensures Unpack(c, Pack(c, p, dc, sid, id)) == Fields(p, dc, sid, id)
  {
    UnpackLow(c, p, dc, sid, id);
    UnpackDataCenter(c, p, dc, sid, id);
    UnpackTimestamp(c, p, dc, sid, id);
  }

  /** The sequence number and the service id come back out. */
  lemma UnpackLow(c: Configuration, p: Word, dc: Word, sid: Word, id: Word)
    requires Fits(c, p, dc, sid, id)
    ensures Unpack(c, Pack(c, p, dc, sid, id)).id == id
    ensures Unpack(c, Pack(c, p, dc, sid, id)).serviceId == sid
  {
    var ts, dco, so := c.timestampOffset, c.dataCenterIdOffset, c.serviceIdOffset;
    PackIsSum(c, p, dc, sid, id);
    var hiDc := p * Pow2(ts - dco) + dc;
    MulNonneg(p, Pow2(ts - dco));
    Fields2(Pack(c, p, dc, sid, id), hiDc * Pow2(dco - so) + sid, id, Pow2(so), hiDc, sid, Pow2(dco - so));
  }

  /** The data-center id comes back out. */
  lemma UnpackDataCenter(c: Configuration, p: Word, dc: Word, sid: Word, id: Word)
    requires Fits(c, p, dc, sid, id)
    ensures Unpack(c, Pack(c, p, dc, sid, id)).dataCenterId == dc
  {
    var ts, dco, so := c.timestampOffset, c.dataCenterIdOffset, c.serviceIdOffset;
    var v := Pack(c, p, dc, sid, id);
    var e, m := Pow2(dco - so), Pow2(so);
    var hiDc := p * Pow2(ts - dco) + dc;
    var low := sid * m + id;
    assert v == (hiDc * e + sid) * m + id by {
      PackIsSum(c, p, dc, sid, id);
    }
    assert Pow2(dco) == e * m by {
      Pow2Add(dco - so, so);
    }
    assert 0 <= low < Pow2(dco) by {
      MulNonneg(sid, m);
      Stack(sid, dco - so, id, so);
    }
    assert v == hiDc * Pow2(dco) + low by {
      Regather(hiDc, e, m, sid, id);
    }
    Fields2(v, hiDc, low, Pow2(dco), p, dc, Pow2(ts - dco));
  }

  /** The timestamp comes back out. */
  lemma UnpackTimestamp(c: Configuration, p: Word, dc: Word, sid: Word, id: Word)
    requires Fits(c, p, dc, sid, id)
    ensures Unpack(c, Pack(c, p, dc, sid, id)).passedTime == p
  {
    var ts, dco, so := c.timestampOffset, c.dataCenterIdOffset, c.serviceIdOffset;
    PackIsFlatSum(c, p, dc, sid, id);
    var low := dc * Pow2(dco) + sid * Pow2(so) + id;
    BelowTimestampSum(c, dc, sid, id);
    MulNonneg(dc, Pow2(dco));
    MulNonneg(sid, Pow2(so));
    DivModUnique(Pack(c, p, dc, sid, id), Pow2(ts), p, low);
  }

  /** The fields under the timestamp fill less than its offset. */
  lemma BelowTimestampSum(c: Configuration, dc: Word, sid: Word, id: Word)
    requires WellFormed(c) && c.timestampOffset <= 64
    requires dc < Pow2(c.timestampOffset - c.dataCenterIdOffset)
    requires sid < Pow2(c.dataCenterIdOffset - c.serviceIdOffset)
    requires id < Pow2(c.serviceIdOffset)
    ensures dc * Pow2(c.dataCenterIdOffset) + sid * Pow2(c.serviceIdOffset) + id < Pow2(c.timestampOffset)
  {
    var ts, dco, so := c.timestampOffset, c.dataCenterIdOffset, c.serviceIdOffset;
    Stack(sid, dco - so, id, so);
    MulNonneg(sid, Pow2(so));
    Stack(dc, ts - dco, sid * Pow2(so) + id, dco);
  }

  /** (h * e + s) * m + i regrouped as h * (e * m) + (s * m + i). */
  lemma Regather(h: int, e: int, m: int, s: int, i: int)
    ensures (h * e + s) * m + i == h * (e * m) + (s * m + i)
  {
  }

  /** Dividing by the room m of a low field and taking the rest modulo the room
      n of the next field reads both fields back. */
  lemma Fields2(v: int, hi: int, lo: int, m: int, top: int, f: int, n: int)
    requires m > 0 && n > 0 && 0 <= lo < m && 0 <= f < n
    requires v == hi * m + lo && hi == top * n + f
    ensures v / m == hi && v % m == lo && hi % n == f
  {
    DivModUnique(v, m, hi, lo);
    DivModUnique(hi, n, top, f);
  }

  /** With the two ids fixed, packing is strictly monotone in the pair
      (timestamp, sequence number) ordered lexicographically. */
  lemma PackMonotone(c: Configuration, dc: Word, sid: Word, p1: Word, id1: Word, p2: Word, id2: Word)
    requires Fits(c, p1, dc, sid, id1) && Fits(c, p2, dc, sid, id2)
    requires p1 < p2 || (p1 == p2 && id1 < id2)
    ensures Pack(c, p1, dc, sid, id1) < Pack(c, p2, dc, sid, id2)
  {
    var ts, dco, so := c.timestampOffset, c.dataCenterIdOffset, c.serviceIdOffset;
    PackIsFlatSum(c, p1, dc, sid, id1);
    PackIsFlatSum(c, p2, dc, sid, id2);
    MulNonneg(dc, Pow2(dco));
    MulNonneg(sid, Pow2(so));
    if p1 < p2 {
      BelowTimestampSum(c, dc, sid, id1);
      LexOrder(p1, p2, dc * Pow2(dco) + sid * Pow2(so) + id1, dc * Pow2(dco) + sid * Pow2(so) + id2, Pow2(ts));
    }
  }

  /** Numbers written in base m compare by their leading digit first. */
  lemma LexOrder(p1: nat, p2: nat, r1: nat, r2: nat, m: nat)
    requires p1 < p2 && r1 < m
    ensures p1 * m + r1 < p2 * m + r2
  {
    MulLe(p1 + 1, p2, m);
  }

  /** The mask the tests apply, `(v >> off) & 0x1F`, is the five bits of v
      starting at bit off. */
  lemma MaskedField(v: Word, off: nat)
    ensures And(Shr(v, off), 31) == (v / Pow2(off)) % 32
  {
    Pow2Values();
    AndLowMask(Shr(v, off), 5);
  }
}
