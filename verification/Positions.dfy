/** Open positions netted by EPIC, over exact reals. */
module Positions {
  import opened Wrappers

  datatype Direction = Buy | Sell

  datatype PositionDetails = PositionDetails(
    contractSize: real, dealId: string, direction: Direction, limitLevel: Option<real>, level: real, size: real,
    stopLevel: Option<real>, trailingStep: Option<real>, trailingStopDistance: Option<real>,
    controlledRisk: bool, limitedRiskPremium: Option<real>)
  {
    /** The exposure: sold sizes count negatively. */
    function Signed(): real {
      if direction.Buy? then size else -size
    }

    /** Sizes are not negative, and the contract size is so many times the size. */
    predicate Proportionate(each: real) {
      size >= 0.0 && contractSize == each * size
    }

    /** Opposite directions net out, and the larger size keeps its direction. */
    function Add(other: PositionDetails): PositionDetails {
      var opposed := direction != other.direction;
      PositionDetails(
        if opposed then Abs(contractSize - other.contractSize) else contractSize + other.contractSize,
        dealId,
        if opposed && other.size > size then other.direction else direction,
        other.limitLevel.Or(limitLevel),
        (level + other.level) / 2.0,
        if opposed then Abs(size - other.size) else size + other.size,
        other.stopLevel.Or(stopLevel),
        other.trailingStep.Or(trailingStep),
        other.trailingStopDistance.Or(trailingStopDistance),
        controlledRisk || other.controlledRisk,
        other.limitedRiskPremium.Or(limitedRiskPremium))
    }
  }

  function Abs(x: real): real {
    if x < 0.0 then -x else x
  }

  function AddPnl(a: Option<real>, b: Option<real>): Option<real> {
    match (a, b)
    case (Some(x), Some(y)) => Some(x + y)
    case (Some(x), None) => Some(x)
    case (None, Some(y)) => Some(y)
    case (None, None) => None
  }

  /** `quote` stands for everything about the market but its EPIC. */
  datatype Market = Market(epic: string, quote: int)

  datatype Position = Position(position: PositionDetails, market: Market, pnl: Option<real>) {
    function Add(other: Position): Position
      requires market.epic == other.market.epic
    {
      Position(position.Add(other.position), market, AddPnl(pnl, other.pnl))
    }
  }

  // ---- what netting must amount to -----------------------------------------------------------

  /** The positions of one EPIC added up in the order they come. */
  function Netted(ps: seq<Position>, epic: string): (net: Option<Position>)
    ensures net.Some? ==> net.value.market.epic == epic
    ensures net.Some? <==> exists k :: 0 <= k < |ps| && ps[k].market.epic == epic
  {
    if ps == [] then None else
      var last := ps[|ps| - 1];
      var before := Netted(ps[..|ps| - 1], epic);
      if last.market.epic != epic then before
      else if before.None? then Some(last)
      else Some(before.value.Add(last))
  }

  function Total(ps: seq<Position>, f: Position -> real): real {
    if ps == [] then 0.0 else Total(ps[..|ps| - 1], f) + f(ps[|ps| - 1])
  }

  function Exposure(epic: string): Position -> real {
    (p: Position) => if p.market.epic == epic then p.position.Signed() else 0.0
  }

  function Profit(epic: string): Position -> real {
    (p: Position) => if p.market.epic == epic && p.pnl.Some? then p.pnl.value else 0.0
  }

  predicate HasPnl(ps: seq<Position>, epic: string) {
    exists k :: 0 <= k < |ps| && ps[k].market.epic == epic && ps[k].pnl.Some?
  }

  /** Netting two positions adds their exposures, whatever their directions and sizes. */
  lemma AddConserves(a: PositionDetails, b: PositionDetails)
    ensures a.Add(b).Signed() == a.Signed() + b.Signed()
    ensures a.size >= 0.0 && b.size >= 0.0 ==> a.Add(b).size >= 0.0
  {
  }

  /** The net position carries exactly the exposure and the known profit of the positions it replaces. */
  lemma {:induction false} NettingConserves(ps: seq<Position>, epic: string)
    ensures Netted(ps, epic).Some? ==>
              && Netted(ps, epic).value.position.Signed() == Total(ps, Exposure(epic))
              && Netted(ps, epic).value.pnl == if HasPnl(ps, epic) then Some(Total(ps, Profit(epic))) else None
    ensures Netted(ps, epic).None? ==> Total(ps, Exposure(epic)) == 0.0 == Total(ps, Profit(epic))
  {
    if ps != [] {
      var before, last := ps[..|ps| - 1], ps[|ps| - 1];
      NettingConserves(before, epic);
      assert ps == before + [last];
      assert HasPnl(ps, epic) <==> HasPnl(before, epic) || (last.market.epic == epic && last.pnl.Some?);
      if last.market.epic == epic && Netted(before, epic).Some? {
        AddConserves(Netted(before, epic).value.position, last.position);
        NoProfitWithoutPnl(before, epic);
      } else if last.market.epic == epic {
        assert !HasPnl(before, epic);
      }
    }
  }

  lemma {:induction false} NoProfitWithoutPnl(ps: seq<Position>, epic: string)
    ensures !HasPnl(ps, epic) ==> Total(ps, Profit(epic)) == 0.0
  {
    if ps != [] {
      var before := ps[..|ps| - 1];
      NoProfitWithoutPnl(before, epic);
      assert forall k :: 0 <= k < |before| ==> before[k] == ps[k];
    }
  }

  /** Sizes that are not negative stay so: the net size is the amount of the exposure. */
  lemma {:induction false} NetSizeIsExposure(ps: seq<Position>, epic: string)
    requires forall k :: 0 <= k < |ps| ==> ps[k].position.size >= 0.0
    ensures Netted(ps, epic).Some? ==>
              && Netted(ps, epic).value.position.size == Abs(Total(ps, Exposure(epic)))
              && Netted(ps, epic).value.position.size >= 0.0
  {
    NettingConserves(ps, epic);
    if ps != [] {
      NetSizeIsExposure(ps[..|ps| - 1], epic);
    }
  }

  /** Contract sizes that are proportional to the sizes stay so through netting. */
  lemma {:induction false} ContractsFollowSizes(ps: seq<Position>, epic: string, each: real)
    requires each >= 0.0
    requires forall k :: 0 <= k < |ps| ==> ps[k].position.Proportionate(each)
    ensures Netted(ps, epic).Some? ==> Netted(ps, epic).value.position.Proportionate(each)
  {
    if ps != [] {
      var before, last := ps[..|ps| - 1], ps[|ps| - 1];
      assert last.position.Proportionate(each);
      ContractsFollowSizes(before, epic, each);
      hide PositionDetails.Proportionate, PositionDetails.Add;
      if last.market.epic == epic && Netted(before, epic).Some? {
        AddProportionate(Netted(before, epic).value.position, last.position, each);
      }
    }
  }

  lemma AddProportionate(a: PositionDetails, b: PositionDetails, each: real)
    requires each >= 0.0 && a.Proportionate(each) && b.Proportionate(each)
    ensures a.Add(b).Proportionate(each)
  {
    Proportional(each, a.size, b.size);
  }

  lemma Proportional(each: real, a: real, b: real)
    requires each >= 0.0
    ensures each * a + each * b == each * (a + b)
    ensures Abs(each * a - each * b) == each * Abs(a - b)
  {
    assert each * a - each * b == each * (a - b);
    if a >= b {
      assert each * (a - b) >= 0.0;
    } else {
      assert each * (b - a) >= 0.0;
      assert each * (a - b) == -(each * (b - a));
    }
  }

  /** The value of a field in the last position of an EPIC that has it. */
  function Latest(ps: seq<Position>, epic: string, field: PositionDetails -> Option<real>): Option<real> {
    if ps == [] then None else
      var last := ps[|ps| - 1];
      if last.market.epic == epic && field(last.position).Some? then field(last.position)
      else Latest(ps[..|ps| - 1], epic, field)
  }

  /** Limits and stops are those of the latest position that set them; the identity is the first one's. */
  lemma {:induction false} LimitsAreLatest(ps: seq<Position>, epic: string)
    requires Netted(ps, epic).Some?
    ensures var net := Netted(ps, epic).value.position;
            && net.limitLevel == Latest(ps, epic, (d: PositionDetails) => d.limitLevel)
            && net.stopLevel == Latest(ps, epic, (d: PositionDetails) => d.stopLevel)
            && net.trailingStep == Latest(ps, epic, (d: PositionDetails) => d.trailingStep)
            && net.trailingStopDistance == Latest(ps, epic, (d: PositionDetails) => d.trailingStopDistance)
            && net.limitedRiskPremium == Latest(ps, epic, (d: PositionDetails) => d.limitedRiskPremium)
    ensures exists k :: 0 <= k < |ps| && ps[k].market.epic == epic
              && Netted(ps[..k], epic).None? && ps[k].position.dealId == Netted(ps, epic).value.position.dealId
  {
    var before, last := ps[..|ps| - 1], ps[|ps| - 1];
    if Netted(before, epic).Some? {
      LimitsAreLatest(before, epic);
      var k :| 0 <= k < |before| && before[k].market.epic == epic
        && Netted(before[..k], epic).None? && before[k].position.dealId == Netted(before, epic).value.position.dealId;
      assert ps[k] == before[k] && ps[..k] == before[..k];
    } else {
      NothingLatest(before, epic, (d: PositionDetails) => d.limitLevel);
      NothingLatest(before, epic, (d: PositionDetails) => d.stopLevel);
      NothingLatest(before, epic, (d: PositionDetails) => d.trailingStep);
      NothingLatest(before, epic, (d: PositionDetails) => d.trailingStopDistance);
      NothingLatest(before, epic, (d: PositionDetails) => d.limitedRiskPremium);
    }
  }

  predicate Guaranteed(ps: seq<Position>, epic: string) {
    exists k :: 0 <= k < |ps| && ps[k].market.epic == epic && ps[k].position.controlledRisk
  }

  /** The market is that of the first position, and one guaranteed stop makes the net position guaranteed. */
  lemma {:induction false} MarketAndRisk(ps: seq<Position>, epic: string)
    ensures Netted(ps, epic).Some? <==> Own(ps, epic) != []
    ensures Netted(ps, epic).Some? ==>
              && (Netted(ps, epic).value.position.controlledRisk <==> Guaranteed(ps, epic))
              && Netted(ps, epic).value.market == Own(ps, epic)[0].market
    ensures Netted(ps, epic).None? ==> !Guaranteed(ps, epic)
  {
    if ps != [] {
      var before, last := ps[..|ps| - 1], ps[|ps| - 1];
      MarketAndRisk(before, epic);
      assert ps == before + [last];
      assert Guaranteed(ps, epic) <==>
             Guaranteed(before, epic) || (last.market.epic == epic && last.position.controlledRisk);
    }
  }

  lemma {:induction false} NothingLatest(ps: seq<Position>, epic: string, field: PositionDetails -> Option<real>)
    requires Netted(ps, epic).None?
    ensures Latest(ps, epic, field) == None
  {
    if ps != [] {
      NothingLatest(ps[..|ps| - 1], epic, field);
    }
  }

  lemma {:induction false} TotalConcat(a: seq<Position>, b: seq<Position>, f: Position -> real)
    ensures Total(a + b, f) == Total(a, f) + Total(b, f)
  {
    if b == [] {
      assert a + b == a;
    } else {
      assert (a + b)[..|a + b| - 1] == a + b[..|b| - 1];
      TotalConcat(a, b[..|b| - 1], f);
    }
  }

  lemma OneLess(ps: seq<Position>, front: seq<Position>, last: Position, back: seq<Position>)
    requires multiset(ps + [last]) == multiset(front + [last] + back)
    ensures multiset(ps) == multiset(front + back)
  {
    assert multiset(ps) == multiset(ps + [last]) - multiset{last};
    assert multiset(front + back) == multiset(front + [last] + back) - multiset{last};
  }

  lemma TotalWith(front: seq<Position>, last: Position, back: seq<Position>, f: Position -> real)
    ensures Total(front + [last] + back, f) == Total(front + back, f) + f(last)
  {
    TotalConcat(front + [last], back, f);
    TotalConcat(front, [last], f);
    TotalConcat(front, back, f);
    assert Total([last][..0], f) == 0.0;
  }

  /** A total does not depend on the order of its terms. */
  lemma {:induction false} TotalPermutes(ps: seq<Position>, qs: seq<Position>, f: Position -> real)
    requires multiset(ps) == multiset(qs)
    ensures Total(ps, f) == Total(qs, f)
    decreases |ps|
  {
    if ps == [] {
      assert |multiset(qs)| == 0;
    } else {
      var before, last := ps[..|ps| - 1], ps[|ps| - 1];
      assert ps == before + [last];
      assert last in multiset(qs);
      var i :| 0 <= i < |qs| && qs[i] == last;
      assert qs == qs[..i] + [last] + qs[i + 1..];
      OneLess(before, qs[..i], last, qs[i + 1..]);
      TotalPermutes(before, qs[..i] + qs[i + 1..], f);
      TotalWith(qs[..i], last, qs[i + 1..], f);
    }
  }

  /** The net exposure and profit of every EPIC are the same whatever order the positions come in. */
  lemma NettingIgnoresOrder(ps: seq<Position>, qs: seq<Position>, epic: string)
    requires multiset(ps) == multiset(qs)
    ensures Netted(ps, epic).Some? <==> Netted(qs, epic).Some?
    ensures Netted(ps, epic).Some? ==>
              && Netted(ps, epic).value.position.Signed() == Netted(qs, epic).value.position.Signed()
              && Netted(ps, epic).value.pnl == Netted(qs, epic).value.pnl
  {
    assert forall p :: p in ps <==> p in multiset(ps);
    assert forall p :: p in qs <==> p in multiset(qs);
    assert HasPnl(ps, epic) <==> exists p :: p in ps && p.market.epic == epic && p.pnl.Some?;
    assert HasPnl(qs, epic) <==> exists p :: p in qs && p.market.epic == epic && p.pnl.Some?;
    assert Netted(ps, epic).Some? <==> exists p :: p in ps && p.market.epic == epic;
    assert Netted(qs, epic).Some? <==> exists p :: p in qs && p.market.epic == epic;
    NettingConserves(ps, epic);
    NettingConserves(qs, epic);
    TotalPermutes(ps, qs, Exposure(epic));
    TotalPermutes(ps, qs, Profit(epic));
  }

  // ---- the level, which does depend on the order ---------------------------------------------

  /** The positions of one EPIC, in order. */
  function Own(ps: seq<Position>, epic: string): (own: seq<Position>)
    ensures forall p :: p in own ==> p.market.epic == epic
  {
    if ps == [] then [] else
      var last := ps[|ps| - 1];
      Own(ps[..|ps| - 1], epic) + (if last.market.epic == epic then [last] else [])
  }

  function Rest(ps: seq<Position>, epic: string): (rest: seq<Position>)
    ensures forall p :: p in rest ==> p.market.epic != epic
  {
    if ps == [] then [] else
      var last := ps[|ps| - 1];
      Rest(ps[..|ps| - 1], epic) + (if last.market.epic == epic then [] else [last])
  }

  function Levels(ps: seq<Position>): (levels: seq<real>)
    ensures |levels| == |ps| && forall i :: 0 <= i < |ps| ==> levels[i] == ps[i].position.level
  {
    seq(|ps|, i requires 0 <= i < |ps| => ps[i].position.level)
  }

  /** An average of averages: each level counts as much as all before it together. */
  function Averaged(levels: seq<real>): real
    requires levels != []
  {
    var k := |levels| - 1;
    if k == 0 then levels[0] else (Averaged(levels[..k]) + levels[k]) / 2.0
  }

  lemma {:induction false} NettedLevel(ps: seq<Position>, epic: string)
    ensures Netted(ps, epic).Some? <==> Own(ps, epic) != []
    ensures Netted(ps, epic).Some? ==> Netted(ps, epic).value.position.level == Averaged(Levels(Own(ps, epic)))
  {
    if ps != [] {
      var before, last := ps[..|ps| - 1], ps[|ps| - 1];
      NettedLevel(before, epic);
      if last.market.epic == epic {
        assert Levels(Own(ps, epic))[..|Own(before, epic)|] == Levels(Own(before, epic));
      } else {
        assert Own(ps, epic) == Own(before, epic);
      }
    }
  }

  lemma {:induction false} OwnConcat(a: seq<Position>, b: seq<Position>, epic: string)
    ensures Own(a + b, epic) == Own(a, epic) + Own(b, epic)
  {
    if b == [] {
      assert a + b == a;
    } else {
      assert (a + b)[..|a + b| - 1] == a + b[..|b| - 1];
      OwnConcat(a, b[..|b| - 1], epic);
    }
  }

  lemma {:induction false} OwnAll(ps: seq<Position>, epic: string)
    ensures (forall p :: p in ps ==> p.market.epic == epic) ==> Own(ps, epic) == ps
    ensures (forall p :: p in ps ==> p.market.epic != epic) ==> Own(ps, epic) == []
  {
    if ps != [] {
      var before, last := ps[..|ps| - 1], ps[|ps| - 1];
      assert ps == before + [last];
      OwnAll(before, epic);
    }
  }

  lemma {:induction false} OwnAndRest(ps: seq<Position>, epic: string)
    ensures multiset(ps) == multiset(Own(ps, epic) + Rest(ps, epic))
    ensures forall p :: multiset(Own(ps, epic))[p] == if p.market.epic == epic then multiset(ps)[p] else 0
  {
    if ps != [] {
      var before, last := ps[..|ps| - 1], ps[|ps| - 1];
      assert ps == before + [last];
      OwnAndRest(before, epic);
    }
  }

  lemma SameSize(ps: seq<Position>, qs: seq<Position>)
    requires multiset(ps) == multiset(qs)
    ensures |ps| == |qs|
  {
    assert |multiset(ps)| == |ps| && |multiset(qs)| == |qs|;
  }

  /** The order of a permutation only moves the positions of an EPIC among themselves. */
  lemma OwnPermutes(ps: seq<Position>, qs: seq<Position>, epic: string)
    requires multiset(ps) == multiset(qs)
    ensures multiset(Own(ps, epic)) == multiset(Own(qs, epic)) && |Own(ps, epic)| == |Own(qs, epic)|
  {
    hide Own, Rest;
    OwnAndRest(ps, epic);
    OwnAndRest(qs, epic);
    assert forall p :: multiset(Own(ps, epic))[p] == multiset(Own(qs, epic))[p];
    SameSize(Own(ps, epic), Own(qs, epic));
  }

  predicate AllLevelsEqual(ps: seq<Position>) {
    forall i, j :: 0 <= i < j < |ps| ==> ps[i].position.level == ps[j].position.level
  }

  lemma {:induction false} AverageOfEqual(levels: seq<real>, level: real)
    requires levels != [] && forall i :: 0 <= i < |levels| ==> levels[i] == level
    ensures Averaged(levels) == level
  {
    if |levels| > 1 {
      AverageOfEqual(levels[..|levels| - 1], level);
    }
  }

  /** The first level counts, but at most half once another one follows. */
  lemma {:induction false} FirstLevelFades(x: real, y: real, rest: seq<real>)
    requires x < y && rest != []
    ensures 0.0 < Averaged([y] + rest) - Averaged([x] + rest) <= (y - x) / 2.0
  {
    var k := |rest| - 1;
    assert ([x] + rest)[..k + 1] == [x] + rest[..k] && ([y] + rest)[..k + 1] == [y] + rest[..k];
    if k == 0 {
      assert [x] + rest[..0] == [x] && [y] + rest[..0] == [y];
    } else {
      FirstLevelFades(x, y, rest[..k]);
    }
  }

  /** With a level in between, swapping the first and the last one moves the average. */
  lemma SwappedEndsDiffer(x: real, y: real, between: seq<real>)
    requires x != y && between != []
    ensures Averaged([x] + between + [y]) != Averaged([y] + between + [x])
  {
    assert ([x] + between + [y])[..|between| + 1] == [x] + between;
    assert ([y] + between + [x])[..|between| + 1] == [y] + between;
    if x < y {
      FirstLevelFades(x, y, between);
    } else {
      FirstLevelFades(y, x, between);
    }
  }

  predicate SameLevel(a: Option<Position>, b: Option<Position>) {
    && (a.Some? <==> b.Some?)
    && (a.Some? ==> a.value.position.level == b.value.position.level)
  }

  lemma EqualLevels(ps: seq<Position>, qs: seq<Position>)
    requires multiset(ps) == multiset(qs) && ps != [] && qs != [] && AllLevelsEqual(ps)
    ensures Averaged(Levels(ps)) == Averaged(Levels(qs))
  {
    AverageOfEqual(Levels(ps), ps[0].position.level);
    forall i | 0 <= i < |qs|
      ensures qs[i].position.level == ps[0].position.level
    {
      assert qs[i] in multiset(qs);
      assert qs[i] in ps;
    }
    AverageOfEqual(Levels(qs), ps[0].position.level);
  }

  lemma OneOfTwo(a: Position, b: Position, c: Position, d: Position)
    requires multiset{a, b} == multiset{c, d}
    ensures (a == c && b == d) || (a == d && b == c)
  {
    assert a in multiset{c, d};
    if a == c {
      OtherOne(a, b, d);
    } else {
      assert multiset{a, b} == multiset{a, c};
      OtherOne(a, b, c);
    }
  }

  lemma OtherOne(a: Position, b: Position, d: Position)
    requires multiset{a, b} == multiset{a, d}
    ensures b == d
  {
    assert multiset{a, b} - multiset{a} == multiset{b} && multiset{a, d} - multiset{a} == multiset{d};
    assert b in multiset{d};
  }

  lemma AverageOfTwo(ps: seq<Position>)
    requires |ps| == 2
    ensures Averaged(Levels(ps)) == (ps[0].position.level + ps[1].position.level) / 2.0
  {
    assert Levels(ps)[..1] == [ps[0].position.level];
  }

  lemma TwoLevels(ps: seq<Position>, qs: seq<Position>)
    requires multiset(ps) == multiset(qs) && |ps| == |qs| == 2
    ensures Averaged(Levels(ps)) == Averaged(Levels(qs))
  {
    hide Averaged, Levels;
    AverageOfTwo(ps);
    AverageOfTwo(qs);
    BagOfTwo(ps);
    BagOfTwo(qs);
    OneOfTwo(ps[0], ps[1], qs[0], qs[1]);
  }

  lemma BagOfTwo(ps: seq<Position>)
    requires |ps| == 2
    ensures multiset(ps) == multiset{ps[0], ps[1]}
  {
    assert ps == [ps[0]] + [ps[1]];
  }

  lemma FewOrEqualLevels(ps: seq<Position>, qs: seq<Position>)
    requires multiset(ps) == multiset(qs) && |ps| == |qs| > 0
    requires |ps| < 3 || AllLevelsEqual(ps)
    ensures Averaged(Levels(ps)) == Averaged(Levels(qs))
  {
    if AllLevelsEqual(ps) {
      EqualLevels(ps, qs);
    } else {
      TwoLevels(ps, qs);
    }
  }

  lemma TakenOut(a: seq<Position>, x: Position, b: seq<Position>, y: Position, c: seq<Position>)
    ensures multiset(a + [x] + b + [y] + c) == multiset([x] + (a + b + c) + [y])
  {
    assert multiset(a + [x] + b + [y] + c) == multiset(a) + multiset{x} + multiset(b) + multiset{y} + multiset(c);
    assert multiset([x] + (a + b + c) + [y]) == multiset{x} + multiset(a + b + c) + multiset{y};
    assert multiset(a + b + c) == multiset(a) + multiset(b) + multiset(c);
  }

  lemma EndsSwapped(x: Position, between: seq<Position>, y: Position, rest: seq<Position>)
    ensures multiset([x] + between + [y] + rest) == multiset([y] + between + [x] + rest)
  {
    assert multiset([x] + between + [y] + rest) == multiset{x} + multiset(between) + multiset{y} + multiset(rest);
    assert multiset([y] + between + [x] + rest) == multiset{y} + multiset(between) + multiset{x} + multiset(rest);
  }

  /** What is left of some positions without two of them. */
  function Between(own: seq<Position>, i: nat, j: nat): (between: seq<Position>)
    requires i < j < |own|
    ensures |between| == |own| - 2 && forall p :: p in between ==> p in own
  {
    own[..i] + own[i + 1..j] + own[j + 1..]
  }

  /** The same positions with two of them at the ends of their EPIC. */
  lemma EndsPermute(own: seq<Position>, rest: seq<Position>, i: nat, j: nat)
    requires i < j < |own|
    ensures multiset([own[i]] + Between(own, i, j) + [own[j]] + rest) == multiset(own + rest)
    ensures multiset([own[j]] + Between(own, i, j) + [own[i]] + rest) == multiset(own + rest)
  {
    var between := Between(own, i, j);
    assert own == own[..i] + [own[i]] + own[i + 1..j] + [own[j]] + own[j + 1..];
    TakenOut(own[..i], own[i], own[i + 1..j], own[j], own[j + 1..]);
    assert multiset(own) == multiset([own[i]] + between + [own[j]]);
    assert multiset(own + rest) == multiset(own) + multiset(rest);
    EndsSwapped(own[i], between, own[j], rest);
  }

  /** An arrangement that begins with `a` and ends with `b`, as far as this EPIC is concerned. */
  lemma ArrangedLevel(a: Position, between: seq<Position>, b: Position, rest: seq<Position>, epic: string)
    requires a.market.epic == b.market.epic == epic
    requires (forall p :: p in between ==> p.market.epic == epic) && forall p :: p in rest ==> p.market.epic != epic
    ensures var net := Netted([a] + between + [b] + rest, epic);
            net.Some? && net.value.position.level ==
                         Averaged([a.position.level] + Levels(between) + [b.position.level])
  {
    var qs := [a] + between + [b] + rest;
    hide Own, Netted, Averaged;
    var own := [a] + between + [b];
    OwnConcat(own, rest, epic);
    OwnAll(own, epic);
    OwnAll(rest, epic);
    assert Own(qs, epic) == own;
    NettedLevel(qs, epic);
    assert Levels([a] + between + [b]) == [a.position.level] + Levels(between) + [b.position.level];
  }

  lemma LevelKept(ps: seq<Position>, qs: seq<Position>, epic: string)
    requires multiset(ps) == multiset(qs)
    requires |Own(ps, epic)| < 3 || AllLevelsEqual(Own(ps, epic))
    ensures SameLevel(Netted(ps, epic), Netted(qs, epic))
  {
    hide Own, Netted, AllLevelsEqual, Averaged, Levels;
    OwnPermutes(ps, qs, epic);
    NettedLevel(ps, epic);
    NettedLevel(qs, epic);
    if Own(ps, epic) != [] {
      FewOrEqualLevels(Own(ps, epic), Own(qs, epic));
    }
  }

  /** Two arrangements of the positions that average to different levels. */
  lemma LevelMoves(ps: seq<Position>, epic: string, i: nat, j: nat) returns (qs: seq<Position>, rs: seq<Position>)
    requires |Own(ps, epic)| >= 3 && i < j < |Own(ps, epic)|
    requires Own(ps, epic)[i].position.level != Own(ps, epic)[j].position.level
    ensures multiset(qs) == multiset(ps) == multiset(rs) && !SameLevel(Netted(qs, epic), Netted(rs, epic))
  {
    hide Own, Rest, Netted, Averaged, Between, Levels;
    var own, rest := Own(ps, epic), Rest(ps, epic);
    var between := Between(own, i, j);
    qs := [own[i]] + between + [own[j]] + rest;
    rs := [own[j]] + between + [own[i]] + rest;
    OwnAndRest(ps, epic);
    EndsPermute(own, rest, i, j);
    assert own[i] in own && own[j] in own;
    ArrangedLevel(own[i], between, own[j], rest, epic);
    ArrangedLevel(own[j], between, own[i], rest, epic);
    SwappedEndsDiffer(own[i].position.level, own[j].position.level, Levels(between));
  }

  /**
   * The averaged level of an EPIC does not depend on the order of its positions if and only if there
   * are fewer than three of them or all have the same level.
   */
  lemma LevelIgnoresOrderIff(ps: seq<Position>, epic: string)
    ensures (forall qs :: multiset(qs) == multiset(ps) ==> SameLevel(Netted(ps, epic), Netted(qs, epic)))
       <==> |Own(ps, epic)| < 3 || AllLevelsEqual(Own(ps, epic))
  {
    hide Own, Netted;
    if |Own(ps, epic)| < 3 || AllLevelsEqual(Own(ps, epic)) {
      forall qs | multiset(qs) == multiset(ps)
        ensures SameLevel(Netted(ps, epic), Netted(qs, epic))
      {
        LevelKept(ps, qs, epic);
      }
    } else {
      var own := Own(ps, epic);
      var i, j :| 0 <= i < j < |own| && own[i].position.level != own[j].position.level;
      var qs, rs := LevelMoves(ps, epic, i, j);
      assert !SameLevel(Netted(ps, epic), Netted(qs, epic)) || !SameLevel(Netted(ps, epic), Netted(rs, epic));
    }
  }

  // ---- the fold the client runs --------------------------------------------------------------

  /** Combines positions of the same EPIC; the result comes in no particular order. */
  method CompactByEpic(positions: seq<Position>) returns (r: seq<Position>)
    ensures forall i, j :: 0 <= i < j < |r| ==> r[i].market.epic != r[j].market.epic
    ensures forall i :: 0 <= i < |r| ==> Netted(positions, r[i].market.epic) == Some(r[i])
    ensures forall k :: 0 <= k < |positions| ==>
              exists i :: 0 <= i < |r| && r[i].market.epic == positions[k].market.epic
  {
    var byEpic: map<string, Position> := map[];
    for k := 0 to |positions|
      invariant forall e :: e in byEpic ==> Netted(positions[..k], e) == Some(byEpic[e])
      invariant forall e :: e !in byEpic ==> Netted(positions[..k], e) == None
    {
      assert positions[..k + 1][..k] == positions[..k];
      var epic := positions[k].market.epic;
      if epic in byEpic {
        byEpic := byEpic[epic := byEpic[epic].Add(positions[k])];
      } else {
        byEpic := byEpic[epic := positions[k]];
      }
    }
    assert positions[..|positions|] == positions;
    assert forall k :: 0 <= k < |positions| ==> Netted(positions, positions[k].market.epic).Some?;
    assert forall k :: 0 <= k < |positions| ==> positions[k].market.epic in byEpic;
    r := IntoValues(byEpic);
  }

  /** The values of the map, in the order the map happens to have. */
  method IntoValues(byEpic: map<string, Position>) returns (r: seq<Position>)
    requires forall e :: e in byEpic ==> byEpic[e].market.epic == e
    ensures forall i, j :: 0 <= i < j < |r| ==> r[i].market.epic != r[j].market.epic
    ensures forall i :: 0 <= i < |r| ==> r[i].market.epic in byEpic && byEpic[r[i].market.epic] == r[i]
    ensures forall e :: e in byEpic ==> exists i :: 0 <= i < |r| && r[i].market.epic == e
  {
    r := [];
    var left := byEpic.Keys;
    while left != {}
      invariant left <= byEpic.Keys
      invariant forall i, j :: 0 <= i < j < |r| ==> r[i].market.epic != r[j].market.epic
      invariant forall i :: 0 <= i < |r| ==>
                  r[i].market.epic in byEpic && r[i].market.epic !in left && byEpic[r[i].market.epic] == r[i]
      invariant forall e :: e in byEpic && e !in left ==> exists i :: 0 <= i < |r| && r[i].market.epic == e
      decreases |left|
    {
      var e :| e in left;
      left := left - {e};
      ghost var before := r;
      r := r + [byEpic[e]];
      assert r[|before|].market.epic == e;
      assert forall i :: 0 <= i < |before| ==> r[i] == before[i];
    }
  }
}
