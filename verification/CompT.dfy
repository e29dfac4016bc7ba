/** encode_comp_t: a tick count as a 13-bit mantissa with a base-8 exponent. */
module CompT {

  const AHZ := 64
  const MAXFRACT := 8191

  /** u_long */
  const WORD: nat := 0x1_0000_0000_0000_0000

  datatype Code = Code(mant: nat, exp: nat)

  function Pow8(k: nat): nat
    ensures Pow8(k) > 0
  {
    if k == 0 then 1 else 8 * Pow8(k - 1)
  }

  /** What a code stands for. */
  function Decode(c: Code): nat {
    c.mant * Pow8(c.exp)
  }

  /** The comp_t itself, before it is cut to 16 bits. */
  function Packed(c: Code): nat {
    c.exp * 8192 + c.mant
  }

  /** How often the ticks are shifted until they fit the mantissa. */
  function Shifts(t: nat): nat {
    if t <= MAXFRACT then 0 else 1 + Shifts(t / 8)
  }

  function Shifted(t: nat, k: nat): nat {
    if k == 0 then t else Shifted(t, k - 1) / 8
  }

  /** The last digit shifted out decides. */
  predicate RoundsUp(t: nat, k: nat) {
    k > 0 && Shifted(t, k - 1) % 8 >= 4
  }

  function Encode(t: nat): Code {
    var k := Shifts(t);
    var m := Shifted(t, k) + if RoundsUp(t, k) then 1 else 0;
    if m > MAXFRACT then Code(m / 8, k + 1) else Code(m, k)
  }

  /** m * 8^k is t rounded to a multiple of 8^k, half up. */
  predicate Nearest(t: nat, m: nat, k: nat) {
    2 * (t - m * Pow8(k)) < Pow8(k) && 2 * (m * Pow8(k) - t) <= Pow8(k)
  }

  // ----- shifting

  lemma {:induction false} ShiftedIsFloor(t: nat, k: nat)
    ensures Shifted(t, k) * Pow8(k) <= t < (Shifted(t, k) + 1) * Pow8(k)
  {
    if k > 0 {
      ShiftedIsFloor(t, k - 1);
      Eighth(Shifted(t, k - 1), Pow8(k - 1));
    }
  }

  lemma Eighth(s: nat, p: nat)
    ensures (s / 8) * (8 * p) <= s * p
    ensures (s + 1) * p <= (s / 8 + 1) * (8 * p)
  {
    var q, d := s / 8, s % 8;
    assert s == 8 * q + d;
    calc {
      s * p;
      (8 * q + d) * p;
      8 * q * p + d * p;
    }
    assert q * (8 * p) == 8 * q * p;
    assert (q + 1) * (8 * p) == 8 * q * p + 8 * p;
    Scale(d + 1, 8, p);
    assert (s + 1) * p == 8 * q * p + (d + 1) * p;
  }

  lemma Scale(a: nat, b: nat, p: nat)
    requires a <= b
    ensures a * p <= b * p
  {}

  lemma {:induction false} ShiftsShifted(t: nat, j: nat)
    requires j <= Shifts(t)
    ensures Shifts(Shifted(t, j)) == Shifts(t) - j
  {
    if j > 0 {
      ShiftsShifted(t, j - 1);
    }
  }

  /** The shifts are as few as can be. */
  lemma ShiftsFit(t: nat)
    ensures Shifted(t, Shifts(t)) <= MAXFRACT
    ensures Shifts(t) > 0 ==> Shifted(t, Shifts(t) - 1) > MAXFRACT && Shifted(t, Shifts(t)) >= 1024
  {
    var k := Shifts(t);
    ShiftsShifted(t, k);
    if k > 0 {
      ShiftsShifted(t, k - 1);
    }
  }

  // ----- rounding

  lemma RoundedIsNearest(t: nat, k: nat)
    ensures Nearest(t, Shifted(t, k) + if RoundsUp(t, k) then 1 else 0, k)
  {
    hide Shifted, Pow8;
    OneStep(t, k);
    if k > 0 {
      ShiftedIsFloor(t, k - 1);
      HalfUp(t, Shifted(t, k - 1), Pow8(k - 1));
    }
  }

  lemma OneStep(t: nat, k: nat)
    ensures if k == 0 then Shifted(t, k) == t && Pow8(k) == 1
            else Shifted(t, k) == Shifted(t, k - 1) / 8 && Pow8(k) == 8 * Pow8(k - 1)
  {}

  lemma HalfUp(t: nat, s: nat, p: nat)
    requires p > 0 && s * p <= t < (s + 1) * p
    ensures var m := s / 8 + if s % 8 >= 4 then 1 else 0;
            2 * (t - m * (8 * p)) < 8 * p && 2 * (m * (8 * p) - t) <= 8 * p
  {
    var q, d := s / 8, s % 8;
    assert s == 8 * q + d;
    assert s * p == q * (8 * p) + d * p;
    assert (s + 1) * p == q * (8 * p) + (d + 1) * p;
    assert (q + 1) * (8 * p) == q * (8 * p) + 8 * p;
    if d >= 4 {
      Scale(4, d, p);
      Scale(d + 1, 8, p);
    } else {
      Scale(d + 1, 4, p);
    }
  }

  /** A carry out of the mantissa changes the code and not the value. */
  lemma CarryExact(k: nat)
    ensures 1024 * Pow8(k + 1) == 8192 * Pow8(k)
  {}

  /** Rounding is half up, to within half a unit of the last place. */
  lemma EncodeIsNearest(t: nat)
    ensures Encode(t).mant <= MAXFRACT
    ensures 2 * (t - Decode(Encode(t))) < Pow8(Encode(t).exp)
    ensures 2 * (Decode(Encode(t)) - t) <= Pow8(Encode(t).exp)
    ensures Nearest(t, Encode(t).mant, Encode(t).exp)
    ensures Decode(Encode(t)) == (Shifted(t, Shifts(t)) + if RoundsUp(t, Shifts(t)) then 1 else 0) * Pow8(Shifts(t))
  {
    var k := Shifts(t);
    ShiftsFit(t);
    RoundedIsNearest(t, k);
    CarryExact(k);
  }

  lemma ExactWhenSmall(t: nat)
    requires t <= MAXFRACT
    ensures Encode(t) == Code(t, 0) && Decode(Encode(t)) == t
  {}

  /** A code that encode_comp_t can give: no smaller exponent would do. */
  predicate Normal(c: Code) {
    c.mant <= MAXFRACT && (c.exp > 0 ==> c.mant >= 1024)
  }

  lemma EncodeIsNormal(t: nat)
    ensures Normal(Encode(t))
  {
    ShiftsFit(t);
  }

  // ----- codes read back

  lemma {:induction false} ShiftedMultiple(m: nat, e: nat, j: nat)
    requires j <= e
    ensures Shifted(m * Pow8(e), j) == m * Pow8(e - j)
  {
    if j > 0 {
      ShiftedMultiple(m, e, j - 1);
      var p := Pow8(e - j);
      assert m * Pow8(e - j + 1) == m * (8 * p) == 8 * (m * p);
    }
  }

  lemma {:induction false} ShiftsMultiple(m: nat, e: nat)
    requires Normal(Code(m, e))
    ensures Shifts(m * Pow8(e)) == e
  {
    if e > 0 {
      var p := Pow8(e - 1);
      assert m * Pow8(e) == 8 * (m * p);
      Scale(1, p, m);
      assert m * p >= m;
      if e > 1 {
        ShiftsMultiple(m, e - 1);
      }
    }
  }

  /** Every code that can be given encodes its own value. */
  lemma EncodeDecode(c: Code)
    requires Normal(c)
    ensures Encode(Decode(c)) == c
  {
    var t := Decode(c);
    ShiftsMultiple(c.mant, c.exp);
    ShiftedMultiple(c.mant, c.exp, c.exp);
    if c.exp > 0 {
      ShiftedMultiple(c.mant, c.exp, c.exp - 1);
      assert Shifted(t, c.exp - 1) == c.mant * 8;
    }
  }

  // ----- order

  lemma {:induction false} ShiftsMonotone(t: nat, u: nat)
    requires t <= u
    ensures Shifts(t) <= Shifts(u)
    decreases t
  {
    if t > MAXFRACT {
      ShiftsMonotone(t / 8, u / 8);
    }
  }

  lemma {:induction false} Pow8Monotone(j: nat, k: nat)
    requires j <= k
    ensures Pow8(j) <= Pow8(k)
  {
    if j < k {
      Pow8Monotone(j, k - 1);
    }
  }

  lemma Above(m: nat, n: nat, p: nat)
    requires m > n
    ensures m * p >= n * p + p
  {
    Scale(n + 1, m, p);
    assert (n + 1) * p == n * p + p;
  }

  lemma NearestMonotone(t: nat, u: nat, m: nat, n: nat, k: nat)
    requires t <= u && Nearest(t, m, k) && Nearest(u, n, k)
    ensures m <= n
  {
    if m > n {
      Above(m, n, Pow8(k));
      assert false;
    }
  }

  /** A longer time never decodes to a shorter one. */
  lemma DecodeMonotone(t: nat, u: nat)
    requires t <= u
    ensures Decode(Encode(t)) <= Decode(Encode(u))
  {
    hide Encode, Shifted, RoundsUp, Nearest;
    var j, k := Shifts(t), Shifts(u);
    ShiftsMonotone(t, u);
    EncodeIsNearest(t);
    EncodeIsNearest(u);
    ShiftsFit(t);
    ShiftsFit(u);
    RoundedIsNearest(t, j);
    RoundedIsNearest(u, k);
    var m := Shifted(t, j) + if RoundsUp(t, j) then 1 else 0;
    var n := Shifted(u, k) + if RoundsUp(u, k) then 1 else 0;
    if j == k {
      NearestMonotone(t, u, m, n, k);
      Scale(m, n, Pow8(k));
    } else {
      Scale(m, 8192, Pow8(j));
      CarryExact(j);
      Pow8Monotone(j + 1, k);
      Scale(Pow8(j + 1), Pow8(k), 1024);
      Scale(1024, n, Pow8(k));
    }
  }

  /** Codes compare as their values do. */
  lemma PackedOrder(c: Code, d: Code)
    requires Normal(c) && Normal(d) && Decode(c) <= Decode(d)
    ensures Packed(c) <= Packed(d)
  {
    if c.exp == d.exp {
      if c.mant > d.mant {
        Above(c.mant, d.mant, Pow8(c.exp));
        assert false;
      }
    } else if c.exp > d.exp {
      Pow8Monotone(d.exp + 1, c.exp);
      Scale(1024, c.mant, Pow8(c.exp));
      Scale(Pow8(d.exp + 1), Pow8(c.exp), 1024);
      CarryExact(d.exp);
      Scale(d.mant, MAXFRACT, Pow8(d.exp));
      assert false;
    }
  }

  /** A longer time never has a smaller code, across a rounding carry as well. */
  lemma EncodeMonotone(t: nat, u: nat)
    requires t <= u
    ensures Packed(Encode(t)) <= Packed(Encode(u))
  {
    hide Encode, Decode, Normal, Packed;
    EncodeIsNormal(t);
    EncodeIsNormal(u);
    DecodeMonotone(t, u);
    PackedOrder(Encode(t), Encode(u));
  }

  /** The first tick count that rounds out of the three exponent bits. */
  function Limit(): nat {
    8192 * Pow8(7) - 4 * Pow8(6)
  }

  /** The exponent fits its three bits, and the code its sixteen, exactly below the
      limit. */
  lemma FitsExactly(t: nat)
    ensures Encode(t).exp <= 7 <==> t < Limit()
    ensures Packed(Encode(t)) < 65536 <==> t < Limit()
  {
    hide Encode, Decode, Shifted, RoundsUp, Pow8;
    PowersOf8();
    LastCode();
    FirstTooLarge();
    if t < Limit() {
      EncodeMonotone(t, Limit() - 1);
    } else {
      EncodeMonotone(Limit(), t);
    }
    EncodeIsNearest(t);
  }

  lemma PowersOf8()
    ensures Pow8(6) == 262144 && Pow8(7) == 2097152 && Pow8(8) == 16777216
  {
    assert Pow8(2) == 64 && Pow8(4) == 4096;
  }

  lemma LastCode()
    ensures Limit() > 0 && Encode(Limit() - 1) == Code(8191, 7)
  {
    PowersOf8();
    var t := Limit() - 1;
    assert Shifted(t, 2) == t / 8 / 8;
    assert Shifted(t, 4) == t / 8 / 8 / 8 / 8;
    assert Shifted(t, 6) == 65531;
    assert Shifts(Shifted(t, 6)) == 1;
    assert Shifts(t / 8 / 8 / 8 / 8) == 3;
    assert Shifts(t / 8 / 8) == 5;
    assert Shifts(t) == 7;
  }

  lemma FirstTooLarge()
    ensures Encode(Limit()) == Code(1024, 8)
  {
    PowersOf8();
    var t := Limit();
    assert Shifted(t, 2) == t / 8 / 8;
    assert Shifted(t, 4) == t / 8 / 8 / 8 / 8;
    assert Shifted(t, 6) == 65532;
    assert Shifts(Shifted(t, 6)) == 1;
    assert Shifts(t / 8 / 8 / 8 / 8) == 3;
    assert Shifts(t / 8 / 8) == 5;
    assert Shifts(t) == 7;
  }

  // ----- the loop

  function Ticks(s: nat, ns: nat): nat {
    (s * AHZ + ns / (1000000000 / AHZ)) % WORD
  }

  /** The nanoseconds of a tick. */
  const TICK := 15625000

  /** The ticks are the whole ones in the time given. */
  lemma TicksAreWhole(s: nat, ns: nat)
    requires s * 64 + ns / TICK < WORD
    ensures Ticks(s, ns) * TICK <= s * 1000000000 + ns < (Ticks(s, ns) + 1) * TICK
  {}

  /** The code c stands for s seconds and ns nanoseconds, to half a unit of its last
      place and the tick that is cut off. */
  predicate StandsFor(c: nat, s: nat, ns: nat) {
    var unit := Pow8(c / 8192);
    var value := c % 8192 * unit * TICK;
    var time := s * 1000000000 + ns;
    2 * (time - value) < (unit + 1) * TICK && 2 * (value - time) <= unit * TICK
  }

  lemma CodeStandsFor(s: nat, ns: nat)
    requires s * 1000000000 + ns < Limit() * TICK
    ensures s * 64 + ns / TICK < WORD && Ticks(s, ns) < Limit()
    ensures StandsFor(Packed(Encode(Ticks(s, ns))), s, ns)
  {
    hide Encode, Pow8;
    PowersOf8();
    TicksAreWhole(s, ns);
    var t := Ticks(s, ns);
    var c := Encode(t);
    EncodeIsNearest(t);
    assert Packed(c) / 8192 == c.exp && Packed(c) % 8192 == c.mant;
    Spread(t, c.mant * Pow8(c.exp), Pow8(c.exp), s * 1000000000 + ns);
  }

  lemma Spread(t: nat, value: nat, unit: nat, time: nat)
    requires t * TICK <= time < (t + 1) * TICK
    requires 2 * (t - value) < unit && 2 * (value - t) <= unit
    ensures 2 * (time - value * TICK) < (unit + 1) * TICK && 2 * (value * TICK - time) <= unit * TICK
  {}

  /** The bit that tells whether to round up. */
  method RoundBit(s: nat) returns (rnd: bool)
    ensures rnd <==> s % 8 >= 4
  {
    rnd := s / 4 % 2 == 1;
  }

  lemma ShiftOnce(t: nat, k: nat, s: nat)
    requires s == Shifted(t, k) && s > MAXFRACT
    ensures s / 8 == Shifted(t, k + 1) && Shifts(s) == 1 + Shifts(s / 8)
    ensures RoundsUp(t, k + 1) <==> s % 8 >= 4
  {}

  lemma LoopDone(t: nat, k: nat, s: nat)
    requires s == Shifted(t, k) && s <= MAXFRACT && k + Shifts(s) == Shifts(t)
    ensures var m := s + if RoundsUp(t, k) then 1 else 0;
            Encode(t) == if m > MAXFRACT then Code(m / 8, k + 1) else Code(m, k)
  {}

  /** encode_comp_t */
  method EncodeCompT(s0: nat, ns: nat) returns (c: nat)
    ensures c == Packed(Encode(Ticks(s0, ns))) % 65536
    ensures Ticks(s0, ns) < Limit() ==> c == Packed(Encode(Ticks(s0, ns)))
    ensures s0 * 1000000000 + ns < Limit() * TICK ==> StandsFor(c, s0, ns)
  {
    hide Encode, Shifted, Shifts, RoundsUp, Limit, Ticks, StandsFor;
    if s0 * 1000000000 + ns < Limit() * TICK {
      CodeStandsFor(s0, ns);
    }
    var s, exp, rnd := Ticks(s0, ns), 0, false;
    ghost var t := s;
    LoopStart(t);
    while s > MAXFRACT
      invariant s == Shifted(t, exp) && exp + Shifts(s) == Shifts(t)
      invariant rnd == RoundsUp(t, exp)
    {
      ShiftOnce(t, exp, s);
      rnd := RoundBit(s);
      s := s / 8;
      exp := exp + 1;
    }
    LoopDone(t, exp, s);
    if rnd {
      s := s + 1;
      if s > MAXFRACT {
        s := s / 8;
        exp := exp + 1;
      }
    }
    FitsExactly(t);
    c := (exp * 8192 + s) % 65536;
  }

  lemma LoopStart(t: nat)
    ensures Shifted(t, 0) == t && !RoundsUp(t, 0)
  {}
}
