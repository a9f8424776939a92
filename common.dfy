/**
 * Shared value types and small helpers of the game's common header:
 * the float vector (as a pair of reals), the integer vector, the bit-packed
 * hash key of an integer vector, and `clamp`.
 */
module Common {

  /** A 2D float vector. Floats are idealised as reals (no rounding, no NaN). */
  datatype Vec2 = Vec2(x: real, y: real)
  {
    function Plus(o: Vec2): Vec2 { Vec2(x + o.x, y + o.y) }
  }

  /** Squared distance between two points (glm::distance2). */
  function Distance2(a: Vec2, b: Vec2): real
  {
    (a.x - b.x) * (a.x - b.x) + (a.y - b.y) * (a.y - b.y)
  }

  /** An RGBA colour with 8-bit channels. */
  datatype Colour = Colour(r: bv8, g: bv8, b: bv8, a: bv8)

  /** A 2D integer vector; each component is the 32-bit two's-complement pattern of an i32. */
  datatype Vec2i = Vec2i(x: bv32, y: bv32)

  const LOW16: bv32 := 0xFFFF

  /**
   * The key that the hash of a Vec2i is built from: the low 16 bits of x in
   * the low half, the low 16 bits of y in the high half. The shift wraps
   * within 32 bits.
   */
  function HashKey(v: Vec2i): (k: bv32)
    ensures k & LOW16 == v.x & LOW16
    ensures k >> 16 == v.y & LOW16
  {
    (v.x & LOW16) | ((v.y & LOW16) << 16)
  }

  /** Two vectors get the same key exactly when their low 16-bit halves agree. */
  lemma HashKeyInjectiveOnLow16(a: Vec2i, b: Vec2i)
    ensures HashKey(a) == HashKey(b) <==> (a.x & LOW16 == b.x & LOW16 && a.y & LOW16 == b.y & LOW16)
  {
    if HashKey(a) == HashKey(b) {
      assert a.x & LOW16 == HashKey(a) & LOW16;
      assert a.y & LOW16 == HashKey(a) >> 16;
    }
  }

  /** Coordinates that differ by 65536 (in either component) collide. */
  lemma HashKeyCollidesModulo65536(v: Vec2i)
    ensures HashKey(Vec2i(v.x + 0x1_0000, v.y)) == HashKey(v)
    ensures HashKey(Vec2i(v.x, v.y + 0x1_0000)) == HashKey(v)
  {
  }

  /** clamp(x, lo, hi) = max(lo, min(x, hi)). */
  function Clamp(x: real, lo: real, hi: real): (r: real)
    ensures lo <= hi ==> lo <= r <= hi
    ensures lo <= x <= hi ==> r == x
    ensures x < lo ==> r == lo
    ensures lo <= hi < x ==> r == hi
    ensures hi < lo ==> r == lo
  {
    var m := if hi < x then hi else x;  // std::min(x, hi)
    if lo < m then m else lo            // std::max(lo, m)
  }

  /** Clamping twice is clamping once. */
  lemma ClampIdempotent(x: real, lo: real, hi: real)
    ensures Clamp(Clamp(x, lo, hi), lo, hi) == Clamp(x, lo, hi)
  {
  }

  /** A colour before conversion to RGBA: the drawn hue number, saturation, value and alpha. */
  datatype Hsv = Hsv(hue: nat, s: real, v: real, a: real)

  /** The name of the `i`-th generated state: `"Generated State "` followed by `i` in decimal. */
  function GeneratedName(i: nat): string
  {
    "Generated State " + DecimalString(i)
  }

  function DecimalString(n: nat): string
    decreases n
  {
    var digit := ['0', '1', '2', '3', '4', '5', '6', '7', '8', '9'][n % 10];
    if n < 10 then [digit] else DecimalString(n / 10) + [digit]
  }

  // ------------------------------------------------------ claims bookkeeping
  // Both worlds move sites (tiles) from an unclaimed pool into the lands of
  // numbered states; `lands` maps each state id to its land.

  /** The land registered under `id`, or no land. */
  function LandOf(lands: map<int, set<nat>>, id: int): set<nat>
  {
    if id in lands then lands[id] else {}
  }

  /** `lands0` without the ids `0` to `count - 1`. */
  function Without(lands0: map<int, set<nat>>, count: int): map<int, set<nat>>
  {
    map id | id in lands0 && !(0 <= id < count) :: lands0[id]
  }

  /**
   * `land` and `pool` are `land0` and `pool0` after `steps` single claims:
   * exactly the elements that left the pool joined the land.
   */
  ghost predicate Accounted(land0: set<nat>, pool0: set<nat>, land: set<nat>, pool: set<nat>, steps: nat)
  {
    && pool <= pool0 && |pool| == |pool0| - steps
    && land == land0 + (pool0 - pool)
  }

  /** Claiming one more pool element extends the accounting by one step. */
  lemma AccountedStep(land0: set<nat>, pool0: set<nat>, land: set<nat>, pool: set<nat>, steps: nat, t: nat)
    requires Accounted(land0, pool0, land, pool, steps) && t in pool
    ensures Accounted(land0, pool0, land + {t}, pool - {t}, steps + 1)
  {
    assert pool0 - (pool - {t}) == (pool0 - pool) + {t};
  }

  /** Each step adds at most one element to the land. */
  lemma AccountedBound(land0: set<nat>, pool0: set<nat>, land: set<nat>, pool: set<nat>, steps: nat)
    requires Accounted(land0, pool0, land, pool, steps)
    ensures land0 <= land && |land| <= |land0| + steps
  {
    assert pool0 == (pool0 - pool) + pool;
  }

  /**
   * A land seeded with `seed`, taken out of `pool` (if it was there), and
   * then grown by `steps` claims holds the seed, the elements that left
   * the pool and nothing else, and has `1 + steps` elements.
   */
  lemma SeededAccount(seed: nat, pool: set<nat>, land: set<nat>, pool': set<nat>, steps: nat)
    requires Accounted({seed}, pool - {seed}, land, pool', steps)
    ensures pool' <= pool && seed in land && seed !in pool'
    ensures land == {seed} + (pool - pool') && |land| == 1 + steps
  {
    assert pool - {seed} == (pool - {seed} - pool') + pool';
    assert {seed} !! (pool - {seed} - pool');
    assert pool - pool' == (pool - {seed} - pool') + (pool * {seed});
  }

  /**
   * Since the snapshot (`pool0`, `lands0`): every element that left the pool
   * is in some land of `lands`, and every land gained only elements of `pool0`.
   */
  ghost predicate Claims(pool0: set<nat>, lands0: map<int, set<nat>>, lands: map<int, set<nat>>, pool: set<nat>)
  {
    && pool <= pool0
    && (forall t :: t in pool0 && t !in pool ==> exists id :: id in lands && t in lands[id])
    && (forall id :: id in lands ==> lands[id] - LandOf(lands0, id) <= pool0)
  }

  /** `lands'` has the ids of `lands`, and each land has at most grown. */
  ghost predicate Grown(lands: map<int, set<nat>>, lands': map<int, set<nat>>)
  {
    lands'.Keys == lands.Keys && forall id :: id in lands ==> lands[id] <= lands'[id]
  }

  /** `m` is `m0` with the ids `0` to `n - 1` registered, anew or again, and every other entry kept. */
  ghost predicate Renumbered<T>(m0: map<int, T>, m: map<int, T>, n: int)
  {
    && (forall id :: id in m <==> id in m0 || 0 <= id < n)
    && (forall id :: id in m0 && !(0 <= id < n) ==> m[id] == m0[id])
  }

  /** Registering id `n` extends the renumbering. */
  lemma RenumberedStep<T>(m0: map<int, T>, m: map<int, T>, n: int, x: T)
    requires 0 <= n && Renumbered(m0, m, n)
    ensures Renumbered(m0, m[n := x], n + 1)
  {
  }

  /** Moving one pool element into a land keeps every claim accounted for. */
  lemma ClaimsStep(pool0: set<nat>, lands0: map<int, set<nat>>, lands: map<int, set<nat>>, pool: set<nat>, id: int, t: nat)
    requires Claims(pool0, lands0, lands, pool) && id in lands && t in pool
    ensures Claims(pool0, lands0, lands[id := lands[id] + {t}], pool - {t})
  {
    var lands' := lands[id := lands[id] + {t}];
    forall u | u in pool0 && u !in pool - {t}
      ensures exists j :: j in lands' && u in lands'[j]
    {
      if u == t {
        assert u in lands'[id];
      } else {
        var j :| j in lands && u in lands[j];
        assert u in lands'[j];
      }
    }
  }

  /** `taker` with every element that went from `pool` to `pool'` attributed to land `i`. */
  function TakerStep(taker: map<nat, nat>, pool: set<nat>, pool': set<nat>, i: nat): map<nat, nat>
  {
    taker + map t | t in pool - pool' :: i
  }

  /** Some member of a non-empty set; the iteration order of an unordered container is unspecified. */
  method AnyMember<T>(s: set<T>) returns (x: T)
    requires s != {}
    ensures x in s
  {
    x :| x in s;
  }
}
