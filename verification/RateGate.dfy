/** The adaptive concurrency gate: a limit that grows by one after a full round of successes, halves
    on an error, and pauses new entries for a while. */
module RateGates {

  /** The gate's fields as a value. */
  datatype Gate = Gate(limit: int, min: int, max: int, pause: real, inflight: int, streak: int, resumeAt: real)

  /** What one pass of the entry loop comes to. */
  datatype Entry = Sleep | Enter | Wait

  function MinOf(a: int, b: int): int { if a <= b then a else b }
  function MaxOf(a: int, b: int): int { if a >= b then a else b }

  function Fresh(limit: int, min: int, max: int, pause: real): Gate {
    Gate(limit, min, max, pause, 0, 0, 0.0)
  }

  function EntryAt(g: Gate, now: real): Entry {
    if now < g.resumeAt then Sleep else if g.inflight < g.limit then Enter else Wait
  }

  function Entered(g: Gate, now: real): Gate {
    if EntryAt(g, now).Enter? then g.(inflight := g.inflight + 1) else g
  }

  function Released(g: Gate): Gate { g.(inflight := MaxOf(0, g.inflight - 1)) }

  function Succeeded(g: Gate): Gate {
    if g.streak + 1 >= g.limit && g.limit < g.max then g.(limit := g.limit + 1, streak := 0)
    else g.(streak := g.streak + 1)
  }

  function Errored(g: Gate, now: real): Gate {
    g.(limit := MaxOf(g.min, g.limit / 2), streak := 0, resumeAt := now + g.pause)
  }

  class RateGate {
    const min: int
    const max: int
    const pause: real
    var limit: int
    var inflight: int
    var streak: int
    var resumeAt: real

    ghost function View(): Gate
      reads this
    {
      Gate(limit, min, max, pause, inflight, streak, resumeAt)
    }

    constructor (limit: int, min: int, max: int, pause: real)
      ensures View() == Fresh(limit, min, max, pause)
    {
      this.min, this.max, this.pause, this.limit := min, max, pause, limit;
      inflight, streak, resumeAt := 0, 0, 0.0;
    }

    /** One pass of the entry loop, with the lock held. */
    method TryAcquire(now: real) returns (e: Entry)
      modifies this`inflight
      ensures e == EntryAt(old(View()), now) && View() == Entered(old(View()), now)
      ensures e == Sleep <==> now < resumeAt
      ensures e == Enter <==> now >= resumeAt && old(inflight) < limit
      ensures inflight == old(inflight) + if e == Enter then 1 else 0
    {
      if now < resumeAt {
        return Sleep;
      }
      if inflight < limit {
        inflight := inflight + 1;
        return Enter;
      }
      e := Wait;
    }

    method Release()
      modifies this`inflight
      ensures View() == Released(old(View()))
      ensures inflight == if old(inflight) > 0 then old(inflight) - 1 else 0
    {
      inflight := MaxOf(0, inflight - 1);
    }

    method OnSuccess()
      modifies this`streak, this`limit
      ensures View() == Succeeded(old(View()))
      ensures old(streak) + 1 >= old(limit) && old(limit) < max ==> limit == old(limit) + 1 && streak == 0
      ensures old(streak) + 1 < old(limit) || old(limit) >= max ==> limit == old(limit) && streak == old(streak) + 1
    {
      streak := streak + 1;
      if streak >= limit && limit < max {
        limit := limit + 1;
        streak := 0;
      }
    }

    method OnError(now: real)
      modifies this`streak, this`limit, this`resumeAt
      ensures View() == Errored(old(View()), now)
      ensures limit >= min && (2 * limit <= old(limit) <= 2 * limit + 1 || (limit == min && old(limit) < 2 * min))
      ensures streak == 0 && resumeAt == now + pause
    {
      limit := MaxOf(min, limit / 2);
      streak := 0;
      resumeAt := now + pause;
    }
  }

  // ----- Growth and decline -----

  function Successes(g: Gate, s: nat): Gate {
    if s == 0 then g else Succeeded(Successes(g, s - 1))
  }

  function Errors(g: Gate, k: nat, now: real): Gate {
    if k == 0 then g else Errored(Errors(g, k - 1, now), now)
  }

  /** The successes it takes to grow from limit `a` to limit `b`. */
  function Cost(a: int, b: int): int
    decreases b - a
  {
    if b <= a then 0 else Cost(a, b - 1) + (b - 1)
  }

  /** After `s` successes in a row the limit is the largest one they pay for, up to the maximum. */
  lemma {:induction false} SuccessesGrow(g: Gate, s: nat)
    requires g.streak == 0 && 1 <= g.limit <= g.max
    ensures var b := Successes(g, s).limit;
      && g.limit <= b <= g.max && Cost(g.limit, b) <= s && (b < g.max ==> s < Cost(g.limit, b + 1))
      && Successes(g, s) == g.(limit := b, streak := s - Cost(g.limit, b))
    decreases s
  {
    if s == 0 {
    } else {
      SuccessesGrow(g, s - 1);
    }
  }

  lemma {:induction false} CostGrows(a: int, b: int, c: int)
    requires 1 <= a <= b < c
    ensures Cost(a, b) < Cost(a, c)
    decreases c
  {
    if b == c - 1 {
    } else {
      CostGrows(a, b, c - 1);
    }
  }

  /** So a limit is reached exactly when enough successes have come in. */
  lemma LimitReached(g: Gate, s: nat, b: int)
    requires g.streak == 0 && 1 <= g.limit <= b <= g.max
    ensures Successes(g, s).limit >= b <==> Cost(g.limit, b) <= s
  {
    SuccessesGrow(g, s);
    var reached := Successes(g, s).limit;
    if b < reached { CostGrows(g.limit, b, reached); }
    if reached + 1 < b { CostGrows(g.limit, reached + 1, b); }
  }

  function Power2(k: nat): (p: int)
    ensures p > 0
  {
    if k == 0 then 1 else 2 * Power2(k - 1)
  }

  lemma {:induction false} HalvedPower(a: int, k: nat)
    requires a >= 0
    ensures a / Power2(k) / 2 == a / Power2(k + 1)
  {
    if k == 0 {
    } else {
      HalvedPower(a, k - 1);
    }
    DivideTwice(a, Power2(k));
  }

  lemma DivideTwice(a: int, d: int)
    requires a >= 0 && d > 0
    ensures a / d / 2 == a / (2 * d)
  {
    var q, r := a / d, a % d;
    var h, b := q / 2, q % 2;
    assert a == d * (2 * h + b) + r;
    assert a == (2 * d) * h + (d * b + r);
    assert 0 <= d * b + r < 2 * d by {
      if b == 0 { assert d * b == 0; } else { assert b == 1 && d * b == d; }
    }
    UniqueQuotient(a, 2 * d, h, d * b + r);
  }

  lemma UniqueQuotient(a: int, d: int, q: int, r: int)
    requires d > 0 && a == d * q + r && 0 <= r < d
    ensures a / d == q
  {
    var p := a / d;
    assert a == d * p + a % d;
    Apart(d, p, q);
    Apart(d, q, p);
  }

  lemma Apart(d: int, p: int, q: int)
    requires d > 0
    ensures p > q ==> d * p >= d * q + d
  {
    if p > q {
      var e := p - q - 1;
      assert d * e >= 0;
      assert d * p == d * (q + 1 + e) == d * q + d + d * e;
    }
  }

  /** k errors in a row halve the limit k times, but not below the minimum. */
  lemma {:induction false} ErrorsHalve(g: Gate, k: nat, now: real)
    requires k > 0 && g.limit >= 0 && g.min >= 0
    ensures Errors(g, k, now) == g.(limit := MaxOf(g.min, g.limit / Power2(k)), streak := 0, resumeAt := now + g.pause)
    decreases k
  {
    assert Power2(1) == 2 * Power2(0) == 2;
    if k > 1 {
      ErrorsHalve(g, k - 1, now);
      HalvedPower(g.limit, k - 1);
      assert Errors(g, k - 1, now).limit == MaxOf(g.min, g.limit / Power2(k - 1));
    } else {
      assert Errors(g, 1, now) == Errored(Errors(g, 0, now), now);
    }
  }
}
