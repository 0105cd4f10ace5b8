/**
 * The interactive orbital network diagram: four orbits of dots, hover and focus
 * handlers that pause the animation and connect the hovered dot to two to
 * four randomly chosen dots on other orbits.
 *
 * Positions, angles and the rendering are left out; `Math.random()` is an
 * oracle: a sequence of reals in [0, 1), consumed in the order the source
 * draws them.
 */
module OrbitalNetwork {

  import opened Optional
  import opened Decimal

  datatype OrbitConfig = OrbitConfig(radius: nat, dotCount: nat)

  /** `ORBITS`. */
  const Orbits: seq<OrbitConfig> :=
    [OrbitConfig(100, 4), OrbitConfig(180, 7), OrbitConfig(260, 11), OrbitConfig(340, 15)]

  /** A dot, without its coordinates and angle. */
  datatype Dot = Dot(id: string, orbitIndex: nat)

  datatype Connection = Connection(from: Dot, to: Dot)

  /** `` `orbit-${orbitIndex}-dot-${i}` ``. */
  function DotId(orbitIndex: nat, i: nat): string {
    "orbit-" + NatToString(orbitIndex) + "-dot-" + NatToString(i)
  }

  /** The character of a dot id at offset `k` into the orbit number. */
  lemma CharAfterPrefix(a: string, b: string, k: nat)
    requires k <= |a|
    ensures ("orbit-" + a + "-dot-" + b)[6 + k] == if k < |a| then a[k] else '-'
  {
  }

  /** Two dot ids are equal exactly when their orbits and positions are. */
  lemma DotIdInjective(o1: nat, i1: nat, o2: nat, i2: nat)
    ensures DotId(o1, i1) == DotId(o2, i2) <==> o1 == o2 && i1 == i2
  {
    if DotId(o1, i1) == DotId(o2, i2) {
      DotIdEqual(o1, i1, o2, i2);
    }
  }

  lemma DotIdEqual(o1: nat, i1: nat, o2: nat, i2: nat)
    requires DotId(o1, i1) == DotId(o2, i2)
    ensures o1 == o2 && i1 == i2
  {
    var a1, a2 := NatToString(o1), NatToString(o2);
    var b1, b2 := NatToString(i1), NatToString(i2);
    var s1 := "orbit-" + a1 + "-dot-" + b1;
    var s2 := "orbit-" + a2 + "-dot-" + b2;
    assert s1 == s2;
    // Just past the shorter orbit number, one id has its hyphen; a digit in
    // the other would differ from it, so both orbit numbers end there.
    var k := if |a1| <= |a2| then |a1| else |a2|;
    CharAfterPrefix(a1, b1, k);
    CharAfterPrefix(a2, b2, k);
    assert a1 == s1[6..6 + |a1|] == s2[6..6 + |a2|] == a2;
    assert b1 == s1[11 + |a1|..] == s2[11 + |a2|..] == b2;
    NatToStringInjective(o1, o2);
    NatToStringInjective(i1, i2);
  }

  // ---------------------------------------------------------------------------
  // Dots

  /** The dots `calculateDotPositions` produces for one orbit, without positions. */
  function OrbitDots(config: OrbitConfig, orbitIndex: nat): seq<Dot> {
    seq(config.dotCount, i requires 0 <= i < config.dotCount => Dot(DotId(orbitIndex, i), orbitIndex))
  }

  /** `calculateDotPositions`: one dot per step of the loop, pushed in order. */
  method CalculateDotPositions(config: OrbitConfig, orbitIndex: nat) returns (dots: seq<Dot>)
    ensures dots == OrbitDots(config, orbitIndex)
  {
    dots := [];
    for i := 0 to config.dotCount
      invariant dots == OrbitDots(OrbitConfig(config.radius, i), orbitIndex)
    {
      dots := dots + [Dot(DotId(orbitIndex, i), orbitIndex)];
    }
  }

  /** `orbits.flatMap((orbit, index) => calculateDotPositions(orbit, index))`, numbering from `first`. */
  function FlatDots(orbits: seq<OrbitConfig>, first: nat): seq<Dot>
    decreases |orbits|
  {
    if orbits == [] then [] else OrbitDots(orbits[0], first) + FlatDots(orbits[1..], first + 1)
  }

  /** `allDots`. */
  function AllDots(): seq<Dot> {
    FlatDots(Orbits, 0)
  }

  function TotalDots(orbits: seq<OrbitConfig>): nat {
    if orbits == [] then 0 else orbits[0].dotCount + TotalDots(orbits[1..])
  }

  predicate DistinctIds(dots: seq<Dot>) {
    forall j, k :: 0 <= j < k < |dots| ==> dots[j].id != dots[k].id
  }

  /** A dot of orbit `o` (counted from `first`) at some position of that orbit. */
  predicate IsOrbitDot(d: Dot, orbits: seq<OrbitConfig>, first: nat) {
    first <= d.orbitIndex < first + |orbits|
    && exists i :: 0 <= i < orbits[d.orbitIndex - first].dotCount && d.id == DotId(d.orbitIndex, i)
  }

  lemma {:induction false} FlatDotsLength(orbits: seq<OrbitConfig>, first: nat)
    ensures |FlatDots(orbits, first)| == TotalDots(orbits)
    decreases |orbits|
  {
    if orbits != [] {
      FlatDotsLength(orbits[1..], first + 1);
    }
  }

  lemma OrbitDotsMembers(config: OrbitConfig, orbitIndex: nat, d: Dot)
    ensures d in OrbitDots(config, orbitIndex) <==>
      d.orbitIndex == orbitIndex && exists i :: 0 <= i < config.dotCount && d.id == DotId(orbitIndex, i)
  {
    var dots := OrbitDots(config, orbitIndex);
    if d in dots {
      var i :| 0 <= i < |dots| && dots[i] == d;
      assert d.id == DotId(orbitIndex, i);
    }
    if d.orbitIndex == orbitIndex && exists i :: 0 <= i < config.dotCount && d.id == DotId(orbitIndex, i) {
      var i :| 0 <= i < config.dotCount && d.id == DotId(orbitIndex, i);
      assert dots[i] == d;
    }
  }

  /** The flattened dots are exactly the dots of the listed orbits. */
  lemma {:induction false} FlatDotsMembers(orbits: seq<OrbitConfig>, first: nat, d: Dot)
    ensures d in FlatDots(orbits, first) <==> IsOrbitDot(d, orbits, first)
    decreases |orbits|
  {
    if orbits != [] {
      var rest := orbits[1..];
      assert FlatDots(orbits, first) == OrbitDots(orbits[0], first) + FlatDots(rest, first + 1);
      FlatDotsMembers(rest, first + 1, d);
      OrbitDotsMembers(orbits[0], first, d);
      if d.orbitIndex == first {
        assert !IsOrbitDot(d, rest, first + 1);
      } else {
        IsOrbitDotShift(d, orbits, first);
      }
    }
  }

  lemma IsOrbitDotShift(d: Dot, orbits: seq<OrbitConfig>, first: nat)
    requires orbits != [] && d.orbitIndex != first
    ensures IsOrbitDot(d, orbits, first) <==> IsOrbitDot(d, orbits[1..], first + 1)
    ensures !IsOrbitDot(d, orbits, first) ==> d !in OrbitDots(orbits[0], first)
  {
    if first < d.orbitIndex < first + |orbits| {
      assert orbits[1..][d.orbitIndex - (first + 1)] == orbits[d.orbitIndex - first];
    }
    OrbitDotsMembers(orbits[0], first, d);
  }

  /** Every id among the flattened dots is distinct. */
  lemma {:induction false} FlatDotsDistinct(orbits: seq<OrbitConfig>, first: nat)
    ensures DistinctIds(FlatDots(orbits, first))
    decreases |orbits|
  {
    if orbits != [] {
      var head := OrbitDots(orbits[0], first);
      var tail := FlatDots(orbits[1..], first + 1);
      var all := head + tail;
      FlatDotsDistinct(orbits[1..], first + 1);
      forall j, k | 0 <= j < k < |all| ensures all[j].id != all[k].id {
        if k < |head| {
          DotIdInjective(first, j, first, k);
        } else if j < |head| {
          var t := tail[k - |head|];
          FlatDotsMembers(orbits[1..], first + 1, t);
          var i :| 0 <= i < orbits[1..][t.orbitIndex - (first + 1)].dotCount && t.id == DotId(t.orbitIndex, i);
          DotIdInjective(first, j, t.orbitIndex, i);
        } else {
          assert all[j] == tail[j - |head|] && all[k] == tail[k - |head|];
        }
      }
    }
  }

  /** The diagram has 4 + 7 + 11 + 15 = 37 dots. */
  lemma AllDotsCount()
    ensures |AllDots()| == 37
  {
    FlatDotsLength(Orbits, 0);
    assert TotalDots(Orbits[3..]) == 15;
    assert TotalDots(Orbits[2..]) == 11 + TotalDots(Orbits[2..][1..]);
    assert Orbits[2..][1..] == Orbits[3..];
    assert TotalDots(Orbits[1..]) == 7 + TotalDots(Orbits[1..][1..]);
    assert Orbits[1..][1..] == Orbits[2..];
  }

  /**
   * `allDots` holds exactly the dots `orbit-<o>-dot-<i>` on orbit `o`, for each
   * orbit `o` and each position `i` below that orbit's dot count, and no id
   * occurs twice.
   */
  lemma AllDotsMembers(d: Dot)
    ensures d in AllDots() <==>
      d.orbitIndex < |Orbits| && exists i :: 0 <= i < Orbits[d.orbitIndex].dotCount && d.id == DotId(d.orbitIndex, i)
    ensures DistinctIds(AllDots())
  {
    FlatDotsMembers(Orbits, 0, d);
    FlatDotsDistinct(Orbits, 0);
  }

  // ---------------------------------------------------------------------------
  // Randomness and the shuffle

  /** Every draw of `Math.random()` lies in [0, 1). */
  predicate UnitDraws(draws: seq<real>) {
    forall k :: 0 <= k < |draws| ==> 0.0 <= draws[k] < 1.0
  }

  /** `Math.floor(r * bound)` for a draw `r` of `Math.random()`. */
  function RandomIndex(r: real, bound: nat): (j: nat)
    requires 0.0 <= r < 1.0 && bound > 0
    ensures j < bound
    ensures j as real <= r * bound as real < j as real + 1.0
  {
    assert r * bound as real < bound as real by {
      assert (1.0 - r) * bound as real > 0.0;
    }
    (r * bound as real).Floor
  }

  function Min(a: nat, b: nat): nat {
    if a <= b then a else b
  }

  /** The destructuring swap of positions `i` and `j`. */
  function Swap<T>(s: seq<T>, i: nat, j: nat): (r: seq<T>)
    requires i < |s| && j < |s|
  {
    s[i := s[j]][j := s[i]]
  }

  /**
   * The remaining iterations of the Fisher-Yates loop from index `i` down to 1,
   * the iteration at `i` consuming the next draw.
   */
  function ShuffleFrom<T>(s: seq<T>, draws: seq<real>, i: int): seq<T>
    requires i < |s| && (i > 0 ==> |draws| >= i) && UnitDraws(draws)
    decreases i
  {
    if i <= 0 then s
    else ShuffleFrom(Swap(s, i, RandomIndex(draws[0], i + 1)), draws[1..], i - 1)
  }

  /** Whether the oracle supplies one draw per iteration of a shuffle of `s`. */
  predicate ShuffleDraws<T>(s: seq<T>, draws: seq<real>) {
    |draws| + 1 >= |s| && UnitDraws(draws)
  }

  /** The order `shuffleArray` produces when `Math.random()` returns `draws` in turn. */
  function Shuffled<T>(s: seq<T>, draws: seq<real>): seq<T>
    requires ShuffleDraws(s, draws)
  {
    ShuffleFrom(s, draws, |s| - 1)
  }

  lemma SwapPermutes<T>(s: seq<T>, i: nat, j: nat)
    requires i < |s| && j < |s|
    ensures |Swap(s, i, j)| == |s|
    ensures multiset(Swap(s, i, j)) == multiset(s)
  {
    var t := s[i := s[j]];
    assert multiset(t) == multiset(s) - multiset{s[i]} + multiset{s[j]};
    assert multiset(t[j := s[i]]) == multiset(t) - multiset{t[j]} + multiset{s[i]};
  }

  lemma {:induction false} ShuffleFromPermutes<T>(s: seq<T>, draws: seq<real>, i: int)
    requires i < |s| && (i > 0 ==> |draws| >= i) && UnitDraws(draws)
    ensures |ShuffleFrom(s, draws, i)| == |s|
    ensures multiset(ShuffleFrom(s, draws, i)) == multiset(s)
    decreases i
  {
    if i > 0 {
      var j := RandomIndex(draws[0], i + 1);
      SwapPermutes(s, i, j);
      ShuffleFromPermutes(Swap(s, i, j), draws[1..], i - 1);
    }
  }

  /** Whatever `Math.random()` returns, `shuffleArray` returns a permutation of its input. */
  lemma ShuffledPermutes<T>(s: seq<T>, draws: seq<real>)
    requires ShuffleDraws(s, draws)
    ensures |Shuffled(s, draws)| == |s|
    ensures multiset(Shuffled(s, draws)) == multiset(s)
  {
    ShuffleFromPermutes(s, draws, |s| - 1);
  }

  lemma SwapKeepsDistinctIds(s: seq<Dot>, i: nat, j: nat)
    requires i < |s| && j < |s| && DistinctIds(s)
    ensures DistinctIds(Swap(s, i, j))
  {
    var r := Swap(s, i, j);
    forall a, b | 0 <= a < b < |r| ensures r[a].id != r[b].id {
      var a' := if a == i then j else if a == j then i else a;
      var b' := if b == i then j else if b == j then i else b;
      assert r[a] == s[a'] && r[b] == s[b'];
    }
  }

  lemma {:induction false} ShuffleFromKeepsDistinctIds(s: seq<Dot>, draws: seq<real>, i: int)
    requires i < |s| && (i > 0 ==> |draws| >= i) && UnitDraws(draws)
    requires DistinctIds(s)
    ensures DistinctIds(ShuffleFrom(s, draws, i))
    decreases i
  {
    if i > 0 {
      var j := RandomIndex(draws[0], i + 1);
      SwapKeepsDistinctIds(s, i, j);
      ShuffleFromKeepsDistinctIds(Swap(s, i, j), draws[1..], i - 1);
    }
  }

  /** One iteration of the loop: swap at `i` with the next draw, then continue from `i - 1`. */
  lemma ShuffleStep<T>(s: seq<T>, draws: seq<real>, used: nat, i: int)
    requires 0 < i < |s| && used + i <= |draws| && UnitDraws(draws)
    ensures UnitDraws(draws[used..]) && UnitDraws(draws[used + 1..])
    ensures ShuffleFrom(s, draws[used..], i)
      == ShuffleFrom(Swap(s, i, RandomIndex(draws[used], i + 1)), draws[used + 1..], i - 1)
  {
    assert draws[used..][1..] == draws[used + 1..];
    assert draws[used..][0] == draws[used];
  }

  /**
   * `shuffleArray`: copies the input into a fresh array and swaps within the
   * copy, so the caller's sequence is untouched.
   */
  method ShuffleArray<T>(input: seq<T>, draws: seq<real>) returns (shuffled: seq<T>)
    requires ShuffleDraws(input, draws)
    ensures shuffled == Shuffled(input, draws)
    ensures multiset(shuffled) == multiset(input)
  {
    ShuffledPermutes(input, draws);
    if |input| == 0 {
      return [];
    }
    var a := new T[|input|](k requires 0 <= k < |input| => input[k]);
    var i := a.Length - 1;
    var used := 0;
    assert a[..] == input && draws[used..] == draws;
    while i > 0
      invariant 0 <= i < a.Length && used == |input| - 1 - i
      invariant UnitDraws(draws[used..])
      invariant ShuffleFrom(a[..], draws[used..], i) == Shuffled(input, draws)
      decreases i
    {
      var j := RandomIndex(draws[used], i + 1);
      ghost var before := a[..];
      ShuffleStep(before, draws, used, i);
      a[i], a[j] := a[j], a[i];
      assert a[..] == Swap(before, i, j);
      i := i - 1;
      used := used + 1;
    }
    shuffled := a[..];
  }

  // ---------------------------------------------------------------------------
  // Connection targets

  /** The dots `selectConnectionTargets` may connect to: other orbits, other ids. */
  function Eligible(hovered: Dot, dots: seq<Dot>): (r: seq<Dot>)
    ensures |r| <= |dots|
    ensures forall d :: d in r <==> d in dots && d.orbitIndex != hovered.orbitIndex && d.id != hovered.id
    ensures DistinctIds(dots) ==> DistinctIds(r)
  {
    if dots == [] then []
    else
      var rest := Eligible(hovered, dots[1..]);
      assert forall d :: d in dots[1..] ==> d in dots;
      if dots[0].orbitIndex != hovered.orbitIndex && dots[0].id != hovered.id then
        assert DistinctIds(dots) ==> forall d :: d in dots[1..] ==> d.id != dots[0].id;
        [dots[0]] + rest
      else rest
  }

  /** `Math.floor(Math.random() * 3) + 2`. */
  function TargetCount(r: real): (count: nat)
    requires 0.0 <= r < 1.0
    ensures 2 <= count <= 4
  {
    RandomIndex(r, 3) + 2
  }

  /**
   * Whether the oracle supplies the draws `selectConnectionTargets` consumes:
   * one for the count, then one per shuffle iteration.
   */
  predicate EnoughDraws(hovered: Dot, dots: seq<Dot>, draws: seq<real>) {
    |draws| >= 1 && UnitDraws(draws) && |draws| >= |Eligible(hovered, dots)|
  }

  /** The targets `selectConnectionTargets` returns for the draws `draws`. */
  function Targets(hovered: Dot, dots: seq<Dot>, draws: seq<real>): seq<Dot>
    requires EnoughDraws(hovered, dots, draws)
  {
    var eligible := Eligible(hovered, dots);
    var shuffled := Shuffled(eligible, draws[1..]);
    shuffled[..Min(TargetCount(draws[0]), |shuffled|)]
  }

  /**
   * No target is on the hovered dot's orbit or is the hovered dot; there are
   * `min(count, |eligible|)` of them for a count between 2 and 4, and when the
   * dots have distinct ids so do the targets.
   */
  lemma TargetsSound(hovered: Dot, dots: seq<Dot>, draws: seq<real>)
    requires EnoughDraws(hovered, dots, draws)
    ensures forall t :: t in Targets(hovered, dots, draws) ==>
      t in dots && t.orbitIndex != hovered.orbitIndex && t.id != hovered.id
    ensures |Targets(hovered, dots, draws)| == Min(TargetCount(draws[0]), |Eligible(hovered, dots)|)
    ensures DistinctIds(dots) ==> DistinctIds(Targets(hovered, dots, draws))
  {
    var eligible := Eligible(hovered, dots);
    var shuffled := Shuffled(eligible, draws[1..]);
    ShuffledPermutes(eligible, draws[1..]);
    var n := Min(TargetCount(draws[0]), |shuffled|);
    assert Targets(hovered, dots, draws) == shuffled[..n];
    PrefixOfPermutation(shuffled, eligible, n);
    if DistinctIds(dots) {
      ShuffleFromKeepsDistinctIds(eligible, draws[1..], |eligible| - 1);
      PrefixKeepsDistinctIds(shuffled, n);
    }
  }

  lemma PrefixOfPermutation(shuffled: seq<Dot>, eligible: seq<Dot>, n: nat)
    requires n <= |shuffled| && multiset(shuffled) == multiset(eligible)
    ensures forall t :: t in shuffled[..n] ==> t in eligible
  {
    forall t | t in shuffled[..n] ensures t in eligible {
      assert t in multiset(shuffled);
    }
  }

  lemma PrefixKeepsDistinctIds(s: seq<Dot>, n: nat)
    requires n <= |s| && DistinctIds(s)
    ensures DistinctIds(s[..n])
  {
  }

  /** `selectConnectionTargets`: filter, draw the count, shuffle, take a prefix. */
  method SelectConnectionTargets(hovered: Dot, allDots: seq<Dot>, draws: seq<real>) returns (targets: seq<Dot>)
    requires EnoughDraws(hovered, allDots, draws)
    ensures targets == Targets(hovered, allDots, draws)
    ensures forall t :: t in targets ==> t in allDots && t.orbitIndex != hovered.orbitIndex && t.id != hovered.id
    ensures 2 <= TargetCount(draws[0]) <= 4
    ensures |targets| == Min(TargetCount(draws[0]), |Eligible(hovered, allDots)|)
    ensures DistinctIds(allDots) ==> DistinctIds(targets)
  {
    var eligible := Eligible(hovered, allDots);
    var count := TargetCount(draws[0]);
    var shuffled := ShuffleArray(eligible, draws[1..]);
    targets := shuffled[..Min(count, |shuffled|)];
    TargetsSound(hovered, allDots, draws);
  }

  /** `targets.map(target => ({ from: dot, to: target }))`. */
  function ConnectTo(from: Dot, targets: seq<Dot>): seq<Connection> {
    seq(|targets|, k requires 0 <= k < |targets| => Connection(from, targets[k]))
  }

  // ---------------------------------------------------------------------------
  // The component state

  /** The `OrbitalNetwork` component: the precomputed dots and the hover state. */
  class Network {
    const allDots: seq<Dot>
    var hoveredDotId: Option<string>
    var connections: seq<Connection>
    var isPaused: bool

    /** The dots never change after the first render. */
    ghost predicate Valid() {
      allDots == AllDots()
    }

    /** The initial render: nothing hovered, running, no connections. */
    constructor ()
      ensures Valid()
      ensures hoveredDotId == None && connections == [] && !isPaused
    {
      allDots := AllDots();
      hoveredDotId := None;
      connections := [];
      isPaused := false;
    }

    /**
     * `handleDotEnter`: the entered dot becomes the hovered one, the orbits
     * pause, and the connections run from the dot to freshly selected targets.
     */
    method HandleDotEnter(dot: Dot, draws: seq<real>)
      requires Valid() && EnoughDraws(dot, allDots, draws)
      modifies this
      ensures Valid()
      ensures hoveredDotId == Some(dot.id) && isPaused
      ensures connections == ConnectTo(dot, Targets(dot, allDots, draws))
      ensures forall c :: c in connections ==>
        c.from == dot && c.to in allDots && c.to.orbitIndex != dot.orbitIndex && c.to.id != dot.id
      ensures |connections| == Min(TargetCount(draws[0]), |Eligible(dot, allDots)|)
      ensures forall j, k :: 0 <= j < k < |connections| ==> connections[j].to.id != connections[k].to.id
    {
      hoveredDotId := Some(dot.id);
      isPaused := true;
      var targets := SelectConnectionTargets(dot, allDots, draws);
      AllDotsMembers(dot);
      connections := ConnectTo(dot, targets);
    }

    /** `handleDotLeave`: back to the initial state, whatever came before. */
    method HandleDotLeave()
      requires Valid()
      modifies this
      ensures Valid()
      ensures hoveredDotId == None && connections == [] && !isPaused
    {
      hoveredDotId := None;
      isPaused := false;
      connections := [];
    }

    /** `handleDotFocus`: exactly the effect of `handleDotEnter`. */
    method HandleDotFocus(dot: Dot, draws: seq<real>)
      requires Valid() && EnoughDraws(dot, allDots, draws)
      modifies this
      ensures Valid()
      ensures hoveredDotId == Some(dot.id) && isPaused
      ensures connections == ConnectTo(dot, Targets(dot, allDots, draws))
    {
      HandleDotEnter(dot, draws);
    }

    /** `handleDotBlur`: exactly the effect of `handleDotLeave`. */
    method HandleDotBlur()
      requires Valid()
      modifies this
      ensures Valid()
      ensures hoveredDotId == None && connections == [] && !isPaused
    {
      HandleDotLeave();
    }
  }
}
