/** Values shared by the combat scripts: optional components, 2D vectors, colours,
    and the enemy GameObject that several scripts switch on and off. */
module Common {

  /** A component or reference that may be missing (Unity's `null`). */
  datatype Option<T> = None | Some(value: T)

  /** A Unity Vector2; also the x/y part of a Vector3 position. */
  datatype Vec2 = Vec2(x: real, y: real) {
    function Plus(o: Vec2): Vec2 { Vec2(x + o.x, y + o.y) }
  }

  /** The vector from `from` to `to` (the direction of a hit before normalisation). */
  function Towards(from: Vec2, to: Vec2): Vec2 {
    Vec2(to.x - from.x, to.y - from.y)
  }

  /** A Unity Color (red, green, blue, alpha). */
  datatype Color = Color(r: real, g: real, b: real, a: real)

  const PlayerTag: string := "Player"
  const GroundTag: string := "Ground"

  function Abs(x: real): real { if x < 0.0 then -x else x }

  function SquaredDistance(a: Vec2, b: Vec2): real {
    (a.x - b.x) * (a.x - b.x) + (a.y - b.y) * (a.y - b.y)
  }

  /** `Vector2.Distance(a, b) <= range`, compared on squares so that no square root is needed. */
  predicate WithinRange(a: Vec2, b: Vec2, range: real) {
    range >= 0.0 && SquaredDistance(a, b) <= range * range
  }

  /** Squaring preserves the order of non-negative reals. */
  lemma SquareMonotone(x: real, y: real)
    requires 0.0 <= x && 0.0 <= y
    ensures x <= y <==> x * x <= y * y
  {
    if x <= y {
      assert x * x <= x * y <= y * y;
    } else {
      var p, q := x - y, x + y;
      assert p > 0.0 && q > 0.0;
      assert p * q > 0.0;
      assert p * q == x * x - y * y;
    }
  }

  /** WithinRange agrees with comparing the Euclidean distance `d` itself. */
  lemma WithinRangeIsDistance(a: Vec2, b: Vec2, range: real, d: real)
    requires d >= 0.0 && d * d == SquaredDistance(a, b)
    ensures WithinRange(a, b, range) <==> d <= range
  {
    if range >= 0.0 {
      SquareMonotone(d, range);
    }
  }

  /** The end times, of coroutines waiting until then, that are still in the future at `now`. */
  function PendingEnds(ends: seq<real>, now: real): (r: seq<real>)
    ensures forall k :: 0 <= k < |r| ==> r[k] > now && r[k] in ends
    ensures forall k :: 0 <= k < |ends| && ends[k] > now ==> ends[k] in r
  {
    if ends == [] then []
    else (if ends[0] > now then [ends[0]] else []) + PendingEnds(ends[1..], now)
  }

  /** How many of the end times have come at `now`. */
  function CountEnded(ends: seq<real>, now: real): nat {
    if ends == [] then 0
    else (if now >= ends[0] then 1 else 0) + CountEnded(ends[1..], now)
  }

  predicate AnyEnded(ends: seq<real>, now: real) {
    exists k :: 0 <= k < |ends| && now >= ends[k]
  }

  /** Resuming splits the waiting coroutines into those that end now and those still
      waiting, losing none. */
  lemma {:induction false} EndedAndPending(ends: seq<real>, now: real)
    ensures CountEnded(ends, now) + |PendingEnds(ends, now)| == |ends|
    ensures CountEnded(ends, now) > 0 <==> AnyEnded(ends, now)
  {
    if ends != [] {
      EndedAndPending(ends[1..], now);
      if AnyEnded(ends[1..], now) {
        var k :| 0 <= k < |ends[1..]| && now >= ends[1..][k];
        assert now >= ends[k + 1];
      }
      if AnyEnded(ends, now) && now < ends[0] {
        var k :| 0 <= k < |ends| && now >= ends[k];
        assert now >= ends[1..][k - 1];
      }
    }
  }

  /** When no coroutine has ended, every one of them is still waiting. */
  lemma {:induction false} NoneEndedKeepsAll(ends: seq<real>, now: real)
    requires !AnyEnded(ends, now)
    ensures PendingEnds(ends, now) == ends
  {
    if ends != [] {
      assert now < ends[0];
      forall k | 0 <= k < |ends[1..]|
        ensures now < ends[1..][k]
      {
        assert ends[1..][k] == ends[k + 1];
      }
      NoneEndedKeepsAll(ends[1..], now);
      assert [ends[0]] + ends[1..] == ends;
    }
  }

  /** One call to a hit target's `TakeDamage(amount, direction)`, made by the `index`-th
      collider of an overlap query. `direction` is the vector from the attacker to the
      target before Unity normalises it. */
  datatype DamageCall = DamageCall(index: nat, amount: real, direction: Vec2)

  /** Whether some call damages the `j`-th collider. */
  predicate Damages(calls: seq<DamageCall>, j: nat) {
    exists k :: 0 <= k < |calls| && calls[k].index == j
  }

  /** The calls concern strictly increasing collider indices: each collider at most once, in list order. */
  predicate IncreasingIndices(calls: seq<DamageCall>) {
    forall k, l :: 0 <= k < l < |calls| ==> calls[k].index < calls[l].index
  }

  /** An enemy GameObject as the combat scripts see it: whether it is still alive
      (has not been destroyed) and, when it carries an EnemyAI component, whether
      that component is enabled. */
  class EnemyBody {
    const hasAI: bool
    var aiEnabled: bool
    var alive: bool

    constructor (hasAI: bool)
      ensures this.hasAI == hasAI && aiEnabled && alive
    {
      this.hasAI := hasAI;
      aiEnabled := true;
      alive := true;
    }
  }
}
