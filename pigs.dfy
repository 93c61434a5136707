/** The pig economy: pressing Space buys a pig for 10 next to the player;
    every pig lives 30 seconds and is sold for 15 in the frame its lifetime
    runs out. The pigs are kept in spawn order, which is the order of the
    pig parent's children and of their entity handles. */
module Pigs {

  import opened Engine
  import opened Timing
  import Game

  const PIG_PRICE: int := 10
  const PIG_PAYOUT: int := 15
  const PIG_LIFETIME_SECONDS: nat := 30
  const SPAWN_OFFSET_X: real := 32.0

  datatype Pig = Pig(entity: Entity, transform: Transform, lifetime: Timer)

  /** A new pig stands where the player stands, 32 units further along x. */
  function SpawnTransform(player: Transform): Transform {
    player.(translation := player.translation.(x := player.translation.x + SPAWN_OFFSET_X))
  }

  function NewPig(entity: Entity, player: Transform): Pig {
    Pig(entity, SpawnTransform(player), FromSeconds(PIG_LIFETIME_SECONDS))
  }

  predicate Expired(p: Pig) {
    Finished(p.lifetime)
  }

  function Ticked(p: Pig, delta: Nanos): Pig {
    p.(lifetime := Tick(p.lifetime, delta))
  }

  function TickAll(ps: seq<Pig>, delta: Nanos): seq<Pig> {
    seq(|ps|, i requires 0 <= i < |ps| => Ticked(ps[i], delta))
  }

  function ExpiredCount(ps: seq<Pig>): nat {
    if ps == [] then 0
    else ExpiredCount(ps[..|ps| - 1]) + (if Expired(ps[|ps| - 1]) then 1 else 0)
  }

  /** The pigs whose lifetime has not run out, in their order. */
  function Survivors(ps: seq<Pig>): seq<Pig> {
    if ps == [] then []
    else Survivors(ps[..|ps| - 1]) + (if Expired(ps[|ps| - 1]) then [] else [ps[|ps| - 1]])
  }

  /** The entities of the expired pigs, in their order. */
  function ExpiredEntities(ps: seq<Pig>): seq<Entity> {
    if ps == [] then []
    else ExpiredEntities(ps[..|ps| - 1]) + (if Expired(ps[|ps| - 1]) then [ps[|ps| - 1].entity] else [])
  }

  /** The pool once the given entities are despawned. */
  function WithoutEntities(ps: seq<Pig>, gone: seq<Entity>): seq<Pig> {
    if ps == [] then []
    else WithoutEntities(ps[..|ps| - 1], gone) + (if ps[|ps| - 1].entity in gone then [] else [ps[|ps| - 1]])
  }

  predicate Ordered(ps: seq<Pig>) {
    forall i, j :: 0 <= i < j < |ps| ==> ps[i].entity < ps[j].entity
  }

  /** The money balance, the live pigs and the next free entity handle. */
  datatype FarmState = FarmState(money: int, pigs: seq<Pig>, nextEntity: Entity)

  /** Between frames: handles are distinct and already handed out, and no
      pig whose lifetime ran out is still around to be sold again. */
  predicate Valid(s: FarmState) {
    && Ordered(s.pigs)
    && forall p :: p in s.pigs ==> p.entity < s.nextEntity && WithinDuration(p.lifetime) && !Expired(p)
  }

  const INITIAL_FARM: FarmState := FarmState(Game.INITIAL_MONEY, [], 0)

  /** One run of the spawn system: only a fresh Space press with at least
      10 in the balance buys a pig; otherwise nothing changes. */
  function SpawnStep(s: FarmState, input: Input, player: Transform): (r: FarmState)
    ensures r == s <==> Space !in input.justPressed || s.money < PIG_PRICE
    ensures r != s ==>
      && r.money == s.money - PIG_PRICE
      && |r.pigs| == |s.pigs| + 1
      && r.pigs[..|s.pigs|] == s.pigs
      && r.nextEntity == s.nextEntity + 1
    ensures r != s ==>
      var p := r.pigs[|s.pigs|];
      && p.entity == s.nextEntity
      && p.transform.translation
         == Vec3(player.translation.x + 32.0, player.translation.y, player.translation.z)
      && p.transform.rotation == player.rotation
      && p.transform.scale == player.scale
      && p.lifetime == Timer(30 * NANOS_PER_SECOND, 0)
  {
    if Space !in input.justPressed then s
    else if s.money >= PIG_PRICE then
      FarmState(s.money - PIG_PRICE, s.pigs + [NewPig(s.nextEntity, player)], s.nextEntity + 1)
    else s
  }

  /** One run of the lifetime system: every pig's timer ticks by the frame
      delta; each one that finished is sold for 15 and despawned. It never
      adds a pig, leaves the handle counter alone and raises the balance by
      exactly 15 per pig removed. */
  function LifetimeStep(s: FarmState, delta: Nanos): (r: FarmState)
    ensures r.nextEntity == s.nextEntity
    ensures |r.pigs| <= |s.pigs|
    ensures r.money == s.money + PIG_PAYOUT * (|s.pigs| - |r.pigs|)
  {
    var ticked := TickAll(s.pigs, delta);
    SurvivorsCount(ticked);
    FarmState(s.money + PIG_PAYOUT * ExpiredCount(ticked), Survivors(ticked), s.nextEntity)
  }

  /** The lifetime system over a run of frames, one delta per frame. */
  function LifetimeRun(s: FarmState, ds: seq<Nanos>): FarmState
    decreases |ds|
  {
    if ds == [] then s else LifetimeRun(LifetimeStep(s, ds[0]), ds[1..])
  }

  /** A pig after one lifetime tick per delta of the run. */
  function RunPig(p: Pig, ds: seq<Nanos>): Pig {
    p.(lifetime := Run(p.lifetime, ds))
  }

  // ---------------------------------------------------------------------
  // Spawning

  /** Spawning moves money only by the price of the pigs it adds, adds at
      most one and never leaves a non-negative balance negative. */
  lemma SpawnConservesMoney(s: FarmState, input: Input, player: Transform)
    ensures var r := SpawnStep(s, input, player);
      && |s.pigs| <= |r.pigs| <= |s.pigs| + 1
      && r.money == s.money - PIG_PRICE * (|r.pigs| - |s.pigs|)
      && (s.money >= 0 ==> r.money >= 0)
  {
  }

  lemma SpawnKeepsValid(s: FarmState, input: Input, player: Transform)
    requires Valid(s)
    ensures Valid(SpawnStep(s, input, player))
  {
  }

  // ---------------------------------------------------------------------
  // Facts about the filters

  lemma {:induction false} SurvivorsMembers(ps: seq<Pig>)
    ensures forall p :: p in Survivors(ps) <==> p in ps && !Expired(p)
  {
    if ps != [] {
      var init := ps[..|ps| - 1];
      SurvivorsMembers(init);
      assert ps == init + [ps[|ps| - 1]];
    }
  }

  lemma {:induction false} SurvivorsCount(ps: seq<Pig>)
    ensures |Survivors(ps)| + ExpiredCount(ps) == |ps|
  {
    if ps != [] {
      SurvivorsCount(ps[..|ps| - 1]);
    }
  }

  lemma {:induction false} SurvivorsOrdered(ps: seq<Pig>)
    requires Ordered(ps)
    ensures Ordered(Survivors(ps))
  {
    if ps != [] {
      var init, last := ps[..|ps| - 1], ps[|ps| - 1];
      SurvivorsOrdered(init);
      SurvivorsMembers(init);
      var sv := Survivors(init);
      forall i | 0 <= i < |sv| ensures sv[i].entity < last.entity {
        assert sv[i] in init;
        var k :| 0 <= k < |init| && init[k] == sv[i];
        assert ps[k] == init[k];
      }
    }
  }

  lemma {:induction false} ExpiredEntitiesBelow(ps: seq<Pig>, bound: Entity)
    requires forall p :: p in ps ==> p.entity < bound
    ensures forall e :: e in ExpiredEntities(ps) ==> e < bound
  {
    if ps != [] {
      var init := ps[..|ps| - 1];
      assert forall p :: p in init ==> p in ps;
      ExpiredEntitiesBelow(init, bound);
      assert ps[|ps| - 1] in ps;
    }
  }

  /** With distinct handles, a pig's handle is among the despawned ones
      exactly when its own lifetime ran out. */
  lemma {:induction false} ExpiredEntitiesExact(ps: seq<Pig>)
    requires Ordered(ps)
    ensures forall p :: p in ps ==> (p.entity in ExpiredEntities(ps) <==> Expired(p))
  {
    if ps != [] {
      var init, last := ps[..|ps| - 1], ps[|ps| - 1];
      ExpiredEntitiesExact(init);
      forall p | p in init ensures p.entity < last.entity {
        var k :| 0 <= k < |init| && init[k] == p;
        assert ps[k] == p;
      }
      ExpiredEntitiesBelow(init, last.entity);
      assert ps == init + [last];
    }
  }

  lemma {:induction false} WithoutMatchesSurvivors(ps: seq<Pig>, gone: seq<Entity>)
    requires forall p :: p in ps ==> (p.entity in gone <==> Expired(p))
    ensures WithoutEntities(ps, gone) == Survivors(ps)
  {
    if ps != [] {
      var init := ps[..|ps| - 1];
      assert forall p :: p in init ==> p in ps;
      WithoutMatchesSurvivors(init, gone);
      assert ps[|ps| - 1] in ps;
    }
  }

  lemma TickAllOrdered(ps: seq<Pig>, delta: Nanos)
    requires Ordered(ps)
    ensures Ordered(TickAll(ps, delta))
  {
  }

  // ---------------------------------------------------------------------
  // The lifetime system

  /** Exactly the pigs whose ticked timer finished are removed; the others
      stay, each with its timer advanced by the delta. */
  lemma LifetimeRemovesExactlyExpired(s: FarmState, delta: Nanos)
    ensures var r := LifetimeStep(s, delta);
      && (forall q :: q in s.pigs ==> (Ticked(q, delta) in r.pigs <==> !Expired(Ticked(q, delta))))
      && (forall p :: p in r.pigs ==> p in TickAll(s.pigs, delta) && !Expired(p))
  {
    var tk := TickAll(s.pigs, delta);
    SurvivorsMembers(tk);
    forall q | q in s.pigs ensures Ticked(q, delta) in tk {
      var k :| 0 <= k < |s.pigs| && s.pigs[k] == q;
      assert tk[k] == Ticked(q, delta);
    }
  }

  lemma LifetimeKeepsValid(s: FarmState, delta: Nanos)
    requires Valid(s)
    ensures Valid(LifetimeStep(s, delta))
  {
    var tk := TickAll(s.pigs, delta);
    SurvivorsOrdered(tk);
    SurvivorsMembers(tk);
    forall p | p in Survivors(tk)
      ensures p.entity < s.nextEntity && WithinDuration(p.lifetime)
    {
      var k :| 0 <= k < |tk| && tk[k] == p;
      assert s.pigs[k] in s.pigs;
    }
  }

  /** Over a run of frames the balance rises by exactly 15 per pig gone:
      each pig is paid for once. */
  lemma {:induction false} RunPaysPerRemoval(s: FarmState, ds: seq<Nanos>)
    requires Valid(s)
    ensures var r := LifetimeRun(s, ds);
      && Valid(r)
      && |r.pigs| <= |s.pigs|
      && r.money == s.money + PIG_PAYOUT * (|s.pigs| - |r.pigs|)
    decreases |ds|
  {
    if ds != [] {
      LifetimeKeepsValid(s, ds[0]);
      RunPaysPerRemoval(LifetimeStep(s, ds[0]), ds[1..]);
    }
  }

  /** Every pig left after a run of frames is an original pig whose timer
      was ticked by every delta of the run. */
  lemma {:induction false} RunPigsComeFromStart(s: FarmState, ds: seq<Nanos>)
    ensures forall q :: q in LifetimeRun(s, ds).pigs ==> exists p :: p in s.pigs && q == RunPig(p, ds)
    decreases |ds|
  {
    if ds == [] {
      forall q | q in s.pigs ensures exists p :: p in s.pigs && q == RunPig(p, ds) {
        assert q == RunPig(q, ds);
      }
    } else {
      var s' := LifetimeStep(s, ds[0]);
      RunPigsComeFromStart(s', ds[1..]);
      LifetimeRemovesExactlyExpired(s, ds[0]);
      assert LifetimeRun(s, ds) == LifetimeRun(s', ds[1..]);
      forall q | q in LifetimeRun(s, ds).pigs ensures exists p :: p in s.pigs && q == RunPig(p, ds) {
        var p' :| p' in s'.pigs && q == RunPig(p', ds[1..]);
        var tk := TickAll(s.pigs, ds[0]);
        var k :| 0 <= k < |tk| && tk[k] == p';
        var t := s.pigs[k].lifetime;
        assert Run(t, ds) == Run(Tick(t, ds[0]), ds[1..]);
        assert s.pigs[k] in s.pigs && q == RunPig(s.pigs[k], ds);
      }
    }
  }

  /** A pig is still in the pool after a run of frames exactly when its
      timer's elapsed time plus the run's total time is below its duration:
      it is despawned in the first frame that reaches the duration. */
  lemma {:induction false} PigLeavesWhenTimeIsUp(s: FarmState, ds: seq<Nanos>, p: Pig)
    requires Valid(s) && p in s.pigs
    ensures RunPig(p, ds) in LifetimeRun(s, ds).pigs
            <==> p.lifetime.elapsed + Sum(ds) < p.lifetime.duration
    decreases |ds|
  {
    RunPaysPerRemoval(s, ds);
    RunFinished(p.lifetime, ds);
    if ds == [] {
      assert RunPig(p, ds) == p;
    } else {
      var s' := LifetimeStep(s, ds[0]);
      var p' := Ticked(p, ds[0]);
      LifetimeKeepsValid(s, ds[0]);
      LifetimeRemovesExactlyExpired(s, ds[0]);
      assert RunPig(p', ds[1..]) == RunPig(p, ds);
      if p' in s'.pigs {
        PigLeavesWhenTimeIsUp(s', ds[1..], p');
      }
    }
  }

  // ---------------------------------------------------------------------
  // Purchases and frames interleaved

  /** What the game's state sees in a frame, in whatever order the two
      systems happen to run: a run of the spawn system or of the lifetime
      system. */
  datatype Event = Buy(input: Input, player: Transform) | Frame(delta: Nanos)

  function Apply(s: FarmState, e: Event): FarmState {
    match e
    case Buy(input, player) => SpawnStep(s, input, player)
    case Frame(delta) => LifetimeStep(s, delta)
  }

  function Play(s: FarmState, es: seq<Event>): FarmState
    decreases |es|
  {
    if es == [] then s else Play(Apply(s, es[0]), es[1..])
  }

  /** The deltas of the lifetime ticks among the events, in order. */
  function FrameDeltas(es: seq<Event>): seq<Nanos>
    decreases |es|
  {
    if es == [] then []
    else (if es[0].Frame? then [es[0].delta] else []) + FrameDeltas(es[1..])
  }

  lemma ApplyKeepsValid(s: FarmState, e: Event)
    requires Valid(s)
    ensures Valid(Apply(s, e))
  {
    match e
    case Buy(input, player) => SpawnKeepsValid(s, input, player);
    case Frame(delta) => LifetimeKeepsValid(s, delta);
  }

  /** A purchase keeps every pig already in the pool. */
  lemma BuyKeeps(s: FarmState, input: Input, player: Transform, p: Pig)
    requires p in s.pigs
    ensures p in SpawnStep(s, input, player).pigs
  {
    var r := SpawnStep(s, input, player);
    if r != s {
      var k :| 0 <= k < |s.pigs| && s.pigs[k] == p;
      assert r.pigs[k] == r.pigs[..|s.pigs|][k];
    }
  }

  /** Over any mix of purchases and frames the state stays valid, and the
      books balance: with `bought` the handles handed out and `gone` the
      pigs bought or present at the start but no longer in the pool, money
      is the starting balance plus 15 per pig gone minus 10 per pig bought. */
  lemma {:induction false} PlayAccounts(s: FarmState, es: seq<Event>)
    requires Valid(s)
    ensures var r := Play(s, es);
      var bought := r.nextEntity - s.nextEntity;
      && Valid(r)
      && bought >= 0
      && |r.pigs| <= |s.pigs| + bought
      && r.money == s.money + PIG_PAYOUT * (|s.pigs| + bought - |r.pigs|) - PIG_PRICE * bought
    decreases |es|
  {
    if es != [] {
      ApplyKeepsValid(s, es[0]);
      PlayAccounts(Apply(s, es[0]), es[1..]);
    }
  }

  /** Purchases in between do not change when a pig leaves: it is in the
      pool after the events exactly when its elapsed time plus the total of
      the frame deltas is below its duration. */
  lemma {:induction false} PigLeavesAmidPurchases(s: FarmState, es: seq<Event>, p: Pig)
    requires Valid(s) && p in s.pigs
    ensures RunPig(p, FrameDeltas(es)) in Play(s, es).pigs
            <==> p.lifetime.elapsed + Sum(FrameDeltas(es)) < p.lifetime.duration
    decreases |es|
  {
    var fd := FrameDeltas(es);
    PlayAccounts(s, es);
    RunFinished(p.lifetime, fd);
    if es == [] {
      assert RunPig(p, fd) == p;
    } else {
      var s' := Apply(s, es[0]);
      ApplyKeepsValid(s, es[0]);
      assert Play(s, es) == Play(s', es[1..]);
      var rest := FrameDeltas(es[1..]);
      match es[0]
      case Buy(input, player) =>
        assert fd == rest;
        BuyKeeps(s, input, player, p);
        PigLeavesAmidPurchases(s', es[1..], p);
      case Frame(delta) =>
        assert fd == [delta] + rest;
        assert fd[0] == delta && fd[1..] == rest;
        var p' := Ticked(p, delta);
        LifetimeRemovesExactlyExpired(s, delta);
        assert RunPig(p', rest) == RunPig(p, fd);
        if p' in s'.pigs {
          PigLeavesAmidPurchases(s', es[1..], p');
        }
    }
  }

  // ---------------------------------------------------------------------
  // A pig's whole life

  /** A pig bought this frame is sold exactly when the frames that follow
      add up to 30 seconds, whatever is bought in between. */
  lemma SpawnedPigLivesThirtySeconds(s: FarmState, input: Input, player: Transform, es: seq<Event>)
    requires Valid(s) && Space in input.justPressed && s.money >= PIG_PRICE
    ensures var s' := SpawnStep(s, input, player);
      RunPig(NewPig(s.nextEntity, player), FrameDeltas(es)) in Play(s', es).pigs
      <==> Sum(FrameDeltas(es)) < PIG_LIFETIME_SECONDS * NANOS_PER_SECOND
  {
    var s' := SpawnStep(s, input, player);
    SpawnKeepsValid(s, input, player);
    assert s'.pigs[|s.pigs|] == NewPig(s.nextEntity, player);
    PigLeavesAmidPurchases(s', es, NewPig(s.nextEntity, player));
  }

  lemma FirstIsMember(ps: seq<Pig>)
    ensures ps != [] ==> ps[0] in ps
  {
  }

  /** From the starting balance of 100, pressing Space buys one pig, placed
      32 units right of the player, and leaves 90. */
  lemma FirstPurchase(player: Transform)
    ensures var s := SpawnStep(INITIAL_FARM, Input({Space}, {Space}), player);
      && s.money == 90
      && s.pigs == [NewPig(0, player)]
      && s.pigs[0].transform.translation.x == player.translation.x + 32.0
  {
  }

  /** With only 5, pressing Space buys nothing. */
  lemma PurchaseRefused(player: Transform)
    ensures SpawnStep(FarmState(5, [], 0), Input({Space}, {Space}), player) == FarmState(5, [], 0)
  {
  }

  /** After the first purchase, once frames worth 30 seconds have passed the
      pig is gone and the balance is 105. */
  lemma FirstPigSold(player: Transform, ds: seq<Nanos>)
    requires Sum(ds) >= PIG_LIFETIME_SECONDS * NANOS_PER_SECOND
    ensures var s := LifetimeRun(SpawnStep(INITIAL_FARM, Input({Space}, {Space}), player), ds);
      s.pigs == [] && s.money == 105
  {
    var s0 := SpawnStep(INITIAL_FARM, Input({Space}, {Space}), player);
    var p := NewPig(0, player);
    assert s0.pigs == [p];
    SpawnKeepsValid(INITIAL_FARM, Input({Space}, {Space}), player);
    PigLeavesWhenTimeIsUp(s0, ds, p);
    RunPigsComeFromStart(s0, ds);
    RunPaysPerRemoval(s0, ds);
    var s := LifetimeRun(s0, ds);
    FirstIsMember(s.pigs);
  }

  /** The lifetime loop's progress: the first i pigs ticked, the rest as they were. */
  predicate TickedUpTo(start: seq<Pig>, cur: seq<Pig>, i: nat, delta: Nanos) {
    && |cur| == |start|
    && i <= |cur|
    && (forall k :: 0 <= k < i ==> cur[k] == Ticked(start[k], delta))
    && (forall k :: i <= k < |cur| ==> cur[k] == start[k])
  }

  lemma TickedUpToStep(start: seq<Pig>, cur: seq<Pig>, i: nat, delta: Nanos)
    requires TickedUpTo(start, cur, i, delta) && i < |cur|
    ensures var next := cur[i := Ticked(cur[i], delta)];
      && TickedUpTo(start, next, i + 1, delta)
      && next[..i + 1] == cur[..i] + [Ticked(cur[i], delta)]
  {
  }

  lemma TickedUpToDone(start: seq<Pig>, cur: seq<Pig>, delta: Nanos)
    requires TickedUpTo(start, cur, |cur|, delta)
    ensures cur[..|cur|] == cur == TickAll(start, delta)
  {
  }

  lemma AppendOne(ps: seq<Pig>, p: Pig)
    ensures ExpiredCount(ps + [p]) == ExpiredCount(ps) + (if Expired(p) then 1 else 0)
    ensures ExpiredEntities(ps + [p]) == ExpiredEntities(ps) + (if Expired(p) then [p.entity] else [])
  {
  }

  /** Despawning the entities recorded during the tick leaves exactly the
      survivors of the tick. */
  lemma DespawnAfterTick(s: FarmState, delta: Nanos)
    requires Valid(s)
    ensures var ticked := TickAll(s.pigs, delta);
      WithoutEntities(ticked, ExpiredEntities(ticked)) == LifetimeStep(s, delta).pigs
    ensures Valid(LifetimeStep(s, delta))
  {
    var ticked := TickAll(s.pigs, delta);
    TickAllOrdered(s.pigs, delta);
    ExpiredEntitiesExact(ticked);
    WithoutMatchesSurvivors(ticked, ExpiredEntities(ticked));
    LifetimeKeepsValid(s, delta);
  }

  /** One visit of the lifetime loop keeps its bookkeeping: the pig at `i`
      is ticked, and the balance and the despawn list take it into account. */
  lemma LifetimeLoopStep(start: FarmState, cur: seq<Pig>, i: nat, money: int, despawned: seq<Entity>, delta: Nanos)
    requires TickedUpTo(start.pigs, cur, i, delta) && i < |cur|
    requires money == start.money + PIG_PAYOUT * ExpiredCount(cur[..i])
    requires despawned == ExpiredEntities(cur[..i])
    ensures var pig := Ticked(cur[i], delta);
      var next := cur[i := pig];
      && TickedUpTo(start.pigs, next, i + 1, delta)
      && (if Expired(pig) then money + PIG_PAYOUT else money)
         == start.money + PIG_PAYOUT * ExpiredCount(next[..i + 1])
      && (if Expired(pig) then despawned + [pig.entity] else despawned)
         == ExpiredEntities(next[..i + 1])
  {
    TickedUpToStep(start.pigs, cur, i, delta);
    AppendOne(cur[..i], Ticked(cur[i], delta));
  }

  /** Once the lifetime loop has visited every pig, the balance it kept and
      the despawns it recorded give exactly the state after a lifetime tick. */
  lemma LifetimeLoopDone(start: FarmState, cur: seq<Pig>, money: int, despawned: seq<Entity>, delta: Nanos)
    requires Valid(start) && TickedUpTo(start.pigs, cur, |cur|, delta)
    requires money == start.money + PIG_PAYOUT * ExpiredCount(cur[..|cur|])
    requires despawned == ExpiredEntities(cur[..|cur|])
    ensures FarmState(money, WithoutEntities(cur, despawned), start.nextEntity) == LifetimeStep(start, delta)
    ensures Valid(LifetimeStep(start, delta))
  {
    TickedUpToDone(start.pigs, cur, delta);
    DespawnAfterTick(start, delta);
  }

  // ---------------------------------------------------------------------
  // The systems on the game's state

  /** The `Money` resource and the pig parent with its children. */
  class Farm {
    var money: int
    var pigs: seq<Pig>
    var nextEntity: Entity

    ghost function State(): FarmState
      reads this
    {
      FarmState(money, pigs, nextEntity)
    }

    /** Start-up: the starting balance and an empty pig parent. */
    constructor ()
      ensures State() == INITIAL_FARM && Valid(State())
    {
      money := Game.INITIAL_MONEY;
      pigs := [];
      nextEntity := 0;
    }

    /** The spawn system; `player` is the player's transform this frame. */
    method SpawnPig(input: Input, player: Transform)
      modifies this
      ensures State() == SpawnStep(old(State()), input, player)
      ensures Valid(old(State())) ==> Valid(State())
    {
      if Space !in input.justPressed {
        return;
      }
      var pigTransform := SpawnTransform(player);
      if money >= PIG_PRICE {
        money := money - PIG_PRICE;
        pigs := pigs + [Pig(nextEntity, pigTransform, FromSeconds(PIG_LIFETIME_SECONDS))];
        nextEntity := nextEntity + 1;
      }
      if Valid(old(State())) {
        SpawnKeepsValid(old(State()), input, player);
      }
    }

    /** The lifetime system: ticks every pig in place and sells the finished
        ones; their despawns take effect once every pig has been visited. */
    method PigLifetime(delta: Nanos)
      requires Valid(State())
      modifies this
      ensures State() == LifetimeStep(old(State()), delta)
      ensures Valid(State())
    {
      ghost var start := State();
      var despawned: seq<Entity> := [];
      var i := 0;
      while i < |pigs|
        invariant TickedUpTo(start.pigs, pigs, i, delta)
        invariant money == start.money + PIG_PAYOUT * ExpiredCount(pigs[..i])
        invariant despawned == ExpiredEntities(pigs[..i])
        invariant nextEntity == start.nextEntity
      {
        var pig := pigs[i];
        pig := pig.(lifetime := Tick(pig.lifetime, delta));
        LifetimeLoopStep(start, pigs, i, money, despawned, delta);
        pigs := pigs[i := pig];
        if Finished(pig.lifetime) {
          money := money + PIG_PAYOUT;
          despawned := despawned + [pig.entity];
        }
        i := i + 1;
      }
      LifetimeLoopDone(start, pigs, money, despawned, delta);
      pigs := WithoutEntities(pigs, despawned);
    }
  }
}
