/** The attack warning of an enemy (class AttackTelegraph). Each telegraph coroutine is
    written out as the list of its effects in order, with every `yield` as a `Wait`;
    the class runs that list against explicit time, exposing `IsTelegraphActive`. */
module EnemyTelegraph {
  import opened Common

  datatype TelegraphType = Flash | Windup | Indicator | Combined

  /** One effect of a telegraph coroutine. `Wait(s)` suspends it until `s` seconds of
      game time have passed. */
  datatype Step =
    | Tint(color: Color)
    | Wait(seconds: real)
    | Trigger(name: string)
    | SpawnIndicator
    | DestroyIndicator

  /** Length of the indicator's fade-out before it is destroyed. */
  const FadeTime: real := 0.15

  /** The inspector settings and the components found at Start. `originalColor` is the
      sprite's colour at Start. */
  datatype Config = Config(
    telegraphDuration: real,
    telegraphType: TelegraphType,
    flashColor: Color,
    flashCount: int,
    windupAnimationTrigger: string,
    hasIndicatorPrefab: bool,
    indicatorHasSprite: bool,
    indicatorOffset: Vec2,
    hasSprite: bool,
    hasAnimator: bool,
    originalColor: Color)

  // ---------------------------------------------------------------------------
  // The coroutines as step lists

  /** `telegraphDuration / (flashCount * 2)`; only used when the loop runs at least once. */
  function FlashInterval(duration: real, flashCount: int): real {
    if flashCount > 0 then duration / (2 * flashCount) as real else 0.0
  }

  /** `flashCount` iterations of: flash colour, wait, original colour, wait. */
  function FlashLoop(n: int, interval: real, flashColor: Color, originalColor: Color): seq<Step>
    decreases n
  {
    if n <= 0 then []
    else [Tint(flashColor), Wait(interval), Tint(originalColor), Wait(interval)]
         + FlashLoop(n - 1, interval, flashColor, originalColor)
  }

  /** FlashTelegraph: nothing at all without a sprite renderer. */
  function FlashPlan(cfg: Config): seq<Step> {
    if !cfg.hasSprite then []
    else FlashLoop(cfg.flashCount, FlashInterval(cfg.telegraphDuration, cfg.flashCount), cfg.flashColor, cfg.originalColor)
  }

  /** WindupTelegraph: the windup trigger (when there is an animator), then the full duration. */
  function WindupPlan(cfg: Config): seq<Step> {
    (if cfg.hasAnimator then [Trigger(cfg.windupAnimationTrigger)] else []) + [Wait(cfg.telegraphDuration)]
  }

  /** IndicatorTelegraph: without a prefab only the wait; otherwise spawn, stay for the
      duration (a frame loop that waits not at all for a non-positive duration), fade
      when the indicator has a sprite, destroy. */
  function IndicatorPlan(cfg: Config): seq<Step> {
    if !cfg.hasIndicatorPrefab then [Wait(cfg.telegraphDuration)]
    else [SpawnIndicator]
         + (if cfg.telegraphDuration > 0.0 then [Wait(cfg.telegraphDuration)] else [])
         + (if cfg.indicatorHasSprite then [Wait(FadeTime)] else [])
         + [DestroyIndicator]
  }

  /** ShowTelegraph's body for the configured variant; Combined runs the three parts one
      after another. */
  function Plan(cfg: Config): seq<Step> {
    match cfg.telegraphType
    case Flash => FlashPlan(cfg)
    case Windup => WindupPlan(cfg)
    case Indicator => IndicatorPlan(cfg)
    case Combined => FlashPlan(cfg) + IndicatorPlan(cfg) + WindupPlan(cfg)
  }

  // ---------------------------------------------------------------------------
  // What running a step list does

  function WaitOf(st: Step): real {
    if st.Wait? then st.seconds else 0.0
  }

  /** The sum of the waits of `s`: its length in game time when every wait is resumed
      at the first moment it may be. */
  function TotalWait(s: seq<Step>): real {
    if s == [] then 0.0 else WaitOf(s[0]) + TotalWait(s[1..])
  }

  /** The sprite colour after running `s` from colour `c`. */
  function ColorAfter(s: seq<Step>, c: Color): Color
    decreases |s|
  {
    if s == [] then c
    else if s[|s| - 1].Tint? then s[|s| - 1].color
    else ColorAfter(s[..|s| - 1], c)
  }

  /** The animator triggers `s` sends, in order. */
  function TriggersOf(s: seq<Step>): seq<string>
    decreases |s|
  {
    if s == [] then []
    else TriggersOf(s[..|s| - 1]) + (if s[|s| - 1].Trigger? then [s[|s| - 1].name] else [])
  }

  /** Whether an indicator exists after running `s`, starting from `alive`. */
  function IndicatorAlive(s: seq<Step>, alive: bool): bool
    decreases |s|
  {
    if s == [] then alive
    else if s[|s| - 1].SpawnIndicator? then true
    else if s[|s| - 1].DestroyIndicator? then false
    else IndicatorAlive(s[..|s| - 1], alive)
  }

  /** The first index from `i` on that holds a wait, or `|s|` when there is none. */
  function NextWait(s: seq<Step>, i: nat): (j: nat)
    requires i <= |s|
    ensures i <= j <= |s|
    ensures j < |s| ==> s[j].Wait?
    ensures forall k :: i <= k < j ==> !s[k].Wait?
    decreases |s| - i
  {
    if i == |s| || s[i].Wait? then i else NextWait(s, i + 1)
  }

  // ---------------------------------------------------------------------------
  // Lemmas about step lists

  lemma {:induction false} TotalWaitAppend(a: seq<Step>, b: seq<Step>)
    ensures TotalWait(a + b) == TotalWait(a) + TotalWait(b)
  {
    if a == [] {
      assert a + b == b;
    } else {
      assert (a + b)[1..] == a[1..] + b;
      TotalWaitAppend(a[1..], b);
    }
  }

  /** Running one more step changes exactly the observable that step is about. */
  lemma RunOneMore(s: seq<Step>, st: Step, c: Color, alive: bool)
    ensures ColorAfter(s + [st], c) == if st.Tint? then st.color else ColorAfter(s, c)
    ensures TriggersOf(s + [st]) == TriggersOf(s) + if st.Trigger? then [st.name] else []
    ensures IndicatorAlive(s + [st], alive) ==
              if st.SpawnIndicator? then true else if st.DestroyIndicator? then false else IndicatorAlive(s, alive)
    ensures SpawnIndicator in s + [st] <==> SpawnIndicator in s || st.SpawnIndicator?
  {
    assert (s + [st])[..|s|] == s;
  }

  lemma {:induction false} ColorAfterAppend(a: seq<Step>, b: seq<Step>, c: Color)
    ensures ColorAfter(a + b, c) == ColorAfter(b, ColorAfter(a, c))
    decreases |b|
  {
    if b == [] {
      assert a + b == a;
    } else {
      assert (a + b)[..|a + b| - 1] == a + b[..|b| - 1];
      ColorAfterAppend(a, b[..|b| - 1], c);
    }
  }

  lemma {:induction false} TriggersOfAppend(a: seq<Step>, b: seq<Step>)
    ensures TriggersOf(a + b) == TriggersOf(a) + TriggersOf(b)
    decreases |b|
  {
    if b == [] {
      assert a + b == a;
    } else {
      assert (a + b)[..|a + b| - 1] == a + b[..|b| - 1];
      TriggersOfAppend(a, b[..|b| - 1]);
    }
  }

  lemma {:induction false} IndicatorAliveAppend(a: seq<Step>, b: seq<Step>, alive: bool)
    ensures IndicatorAlive(a + b, alive) == IndicatorAlive(b, IndicatorAlive(a, alive))
    decreases |b|
  {
    if b == [] {
      assert a + b == a;
    } else {
      assert (a + b)[..|a + b| - 1] == a + b[..|b| - 1];
      IndicatorAliveAppend(a, b[..|b| - 1], alive);
    }
  }

  /** A list with no tint, trigger, spawn or destroy leaves every observable unchanged. */
  lemma {:induction false} OnlyWaits(s: seq<Step>, c: Color, alive: bool)
    requires forall k :: 0 <= k < |s| ==> s[k].Wait?
    ensures ColorAfter(s, c) == c && TriggersOf(s) == [] && IndicatorAlive(s, alive) == alive
    decreases |s|
  {
    if s != [] {
      OnlyWaits(s[..|s| - 1], c, alive);
    }
  }

  /** The waits up to and including step `i` are those before it plus its own. */
  lemma TotalWaitThrough(s: seq<Step>, i: nat)
    requires i < |s|
    ensures TotalWait(s[..i + 1]) == TotalWait(s[..i]) + WaitOf(s[i])
  {
    assert s[..i + 1] == s[..i] + [s[i]];
    TotalWaitAppend(s[..i], [s[i]]);
    assert [s[i]][1..] == [];
  }

  /** Steps that are not waits take no time: skipping from `i` to `j` adds nothing. */
  lemma {:induction false} SkipNonWaits(s: seq<Step>, i: nat, j: nat)
    requires i <= j <= |s|
    requires forall k :: i <= k < j ==> !s[k].Wait?
    ensures TotalWait(s[..j]) == TotalWait(s[..i])
    decreases j - i
  {
    if i < j {
      TotalWaitThrough(s, j - 1);
      SkipNonWaits(s, i, j - 1);
    }
  }

  /** Running from `i` to the next wait takes no time; that wait then adds its own length,
      and when there is none the waits up to `i` are all the list's waits. */
  lemma WaitsUpToNext(s: seq<Step>, i: nat, j: nat)
    requires i <= |s| && j == NextWait(s, i)
    ensures j < |s| ==> TotalWait(s[..j + 1]) == TotalWait(s[..i]) + s[j].seconds
    ensures j == |s| ==> TotalWait(s) == TotalWait(s[..i])
  {
    SkipNonWaits(s, i, j);
    if j < |s| {
      TotalWaitThrough(s, j);
    } else {
      assert s[..j] == s;
    }
  }

  /** The flash loop is `4 * flashCount` steps, and its first `k` iterations are the loop of `k`. */
  lemma {:induction false} FlashLoopSplit(n: int, k: int, iv: real, f: Color, o: Color)
    requires 0 <= k <= n
    ensures |FlashLoop(n, iv, f, o)| == 4 * n
    ensures FlashLoop(n, iv, f, o) == FlashLoop(k, iv, f, o) + FlashLoop(n - k, iv, f, o)
    decreases n
  {
    if n > 0 {
      if k == 0 {
        FlashLoopSplit(n - 1, 0, iv, f, o);
      } else {
        FlashLoopSplit(n - 1, k - 1, iv, f, o);
        var iter := [Tint(f), Wait(iv), Tint(o), Wait(iv)];
        assert FlashLoop(n, iv, f, o) == iter + FlashLoop(n - 1, iv, f, o);
        assert FlashLoop(k, iv, f, o) == iter + FlashLoop(k - 1, iv, f, o);
      }
    }
  }

  /** The flash loop waits twice per iteration. */
  lemma {:induction false} FlashLoopTotal(n: int, iv: real, f: Color, o: Color)
    ensures TotalWait(FlashLoop(n, iv, f, o)) == if n > 0 then 2.0 * (n as real) * iv else 0.0
    decreases n
  {
    if n > 0 {
      var iter := [Tint(f), Wait(iv), Tint(o), Wait(iv)];
      TotalWaitAppend(iter, FlashLoop(n - 1, iv, f, o));
      FlashLoopTotal(n - 1, iv, f, o);
      assert TotalWait(iter) == 2.0 * iv by {
        assert TotalWait([Wait(iv)]) == iv by { assert [Wait(iv)][1..] == []; }
        assert TotalWait([Tint(o), Wait(iv)]) == iv by { assert [Tint(o), Wait(iv)][1..] == [Wait(iv)]; }
        assert iter[1..][1..] == [Tint(o), Wait(iv)];
      }
    }
  }

  /** Every completed flash iteration leaves the sprite in its original colour. */
  lemma {:induction false} FlashIterationsRestore(n: int, k: int, iv: real, f: Color, o: Color, c: Color)
    requires 0 < k <= n
    ensures 4 * k <= |FlashLoop(n, iv, f, o)|
    ensures ColorAfter(FlashLoop(n, iv, f, o)[..4 * k], c) == o
  {
    FlashLoopSplit(n, k, iv, f, o);
    FlashLoopSplit(k, k - 1, iv, f, o);
    var iter := [Tint(f), Wait(iv), Tint(o), Wait(iv)];
    var last := FlashLoop(1, iv, f, o);
    assert last == iter + [];
    assert FlashLoop(n, iv, f, o)[..4 * k] == FlashLoop(k, iv, f, o);
    ColorAfterAppend(FlashLoop(k - 1, iv, f, o), last, c);
    assert ColorAfter(last, ColorAfter(FlashLoop(k - 1, iv, f, o), c)) == o by {
      assert last[..3] == [Tint(f), Wait(iv), Tint(o)];
    }
  }

  /** With a sprite and at least one flash, the flash waits add up to `telegraphDuration`. */
  lemma FlashTakesDuration(cfg: Config)
    requires cfg.hasSprite && cfg.flashCount > 0
    ensures TotalWait(FlashPlan(cfg)) == cfg.telegraphDuration
  {
    var n := cfg.flashCount as real;
    var iv := FlashInterval(cfg.telegraphDuration, cfg.flashCount);
    FlashLoopTotal(cfg.flashCount, iv, cfg.flashColor, cfg.originalColor);
    assert iv == cfg.telegraphDuration / (2.0 * n);
    assert 2.0 * n * iv == cfg.telegraphDuration;
  }

  /** Without a sprite renderer the flash does nothing and takes no time. */
  lemma FlashWithoutSprite(cfg: Config)
    requires !cfg.hasSprite
    ensures FlashPlan(cfg) == [] && TotalWait(FlashPlan(cfg)) == 0.0
  {
  }

  /** Without a prefab the indicator variant only waits the duration and spawns nothing. */
  lemma IndicatorWithoutPrefab(cfg: Config, alive: bool)
    requires !cfg.hasIndicatorPrefab
    ensures TotalWait(IndicatorPlan(cfg)) == cfg.telegraphDuration
    ensures SpawnIndicator !in IndicatorPlan(cfg)
    ensures IndicatorAlive(IndicatorPlan(cfg), alive) == alive
  {
    OnlyWaits(IndicatorPlan(cfg), cfg.originalColor, alive);
  }

  /** With a prefab the indicator is spawned first and destroyed last. */
  lemma IndicatorReleased(cfg: Config, alive: bool)
    requires cfg.hasIndicatorPrefab
    ensures IndicatorPlan(cfg)[0] == SpawnIndicator
    ensures IndicatorPlan(cfg)[|IndicatorPlan(cfg)| - 1] == DestroyIndicator
    ensures !IndicatorAlive(IndicatorPlan(cfg), alive)
  {
  }

  /** Windup fires its trigger before its single wait of `telegraphDuration`. */
  lemma WindupTriggersThenWaits(cfg: Config)
    requires cfg.hasAnimator
    ensures WindupPlan(cfg) == [Trigger(cfg.windupAnimationTrigger), Wait(cfg.telegraphDuration)]
  {
  }

  /** Combined takes as long as its three parts together, since they never overlap. */
  lemma CombinedTotal(cfg: Config)
    requires cfg.telegraphType == Combined
    ensures TotalWait(Plan(cfg)) == TotalWait(FlashPlan(cfg)) + TotalWait(IndicatorPlan(cfg)) + TotalWait(WindupPlan(cfg))
  {
    TotalWaitAppend(FlashPlan(cfg) + IndicatorPlan(cfg), WindupPlan(cfg));
    TotalWaitAppend(FlashPlan(cfg), IndicatorPlan(cfg));
  }

  /** How long each variant waits in all: the windup, and the flash when it flashes at
      all, wait exactly `telegraphDuration`; the indicator waits that long (when it is
      positive) plus the fade when there is a prefab. */
  lemma PlanDuration(cfg: Config)
    ensures cfg.telegraphType == Windup ==> TotalWait(Plan(cfg)) == cfg.telegraphDuration
    ensures cfg.telegraphType == Flash && cfg.hasSprite && cfg.flashCount > 0 ==>
              TotalWait(Plan(cfg)) == cfg.telegraphDuration
    ensures cfg.telegraphType == Indicator ==>
              TotalWait(Plan(cfg)) ==
                if !cfg.hasIndicatorPrefab then cfg.telegraphDuration
                else (if cfg.telegraphDuration > 0.0 then cfg.telegraphDuration else 0.0)
                     + (if cfg.indicatorHasSprite then FadeTime else 0.0)
  {
    match cfg.telegraphType
    case Windup =>
      var t := if cfg.hasAnimator then [Trigger(cfg.windupAnimationTrigger)] else [];
      TotalWaitAppend(t, [Wait(cfg.telegraphDuration)]);
      assert [Wait(cfg.telegraphDuration)][1..] == [];
      if cfg.hasAnimator {
        assert t[1..] == [];
      }
    case Flash =>
      if cfg.hasSprite && cfg.flashCount > 0 {
        FlashTakesDuration(cfg);
      }
    case Indicator =>
      if !cfg.hasIndicatorPrefab {
        assert [Wait(cfg.telegraphDuration)][1..] == [];
      } else {
        var stay := if cfg.telegraphDuration > 0.0 then [Wait(cfg.telegraphDuration)] else [];
        var fade := if cfg.indicatorHasSprite then [Wait(FadeTime)] else [];
        TotalWaitAppend([SpawnIndicator] + stay + fade, [DestroyIndicator]);
        TotalWaitAppend([SpawnIndicator] + stay, fade);
        TotalWaitAppend([SpawnIndicator], stay);
        assert [SpawnIndicator][1..] == [] && [DestroyIndicator][1..] == [];
        if cfg.telegraphDuration > 0.0 {
          assert stay[1..] == [];
        }
        if cfg.indicatorHasSprite {
          assert fade[1..] == [];
        }
      }
    case Combined =>
  }

  /** The sprite colour once a telegraph has run to the end: the original colour after any
      flashing, otherwise the colour it started with. */
  lemma CompletedColor(cfg: Config, c: Color)
    ensures ColorAfter(Plan(cfg), c) ==
      if (cfg.telegraphType == Flash || cfg.telegraphType == Combined) && cfg.hasSprite && cfg.flashCount > 0
      then cfg.originalColor else c
  {
    var f, i, w := FlashPlan(cfg), IndicatorPlan(cfg), WindupPlan(cfg);
    var afterFlash := ColorAfter(f, c);
    if cfg.hasSprite && cfg.flashCount > 0 {
      FlashIterationsRestore(cfg.flashCount, cfg.flashCount, FlashInterval(cfg.telegraphDuration, cfg.flashCount),
                             cfg.flashColor, cfg.originalColor, c);
      FlashLoopSplit(cfg.flashCount, cfg.flashCount, FlashInterval(cfg.telegraphDuration, cfg.flashCount),
                     cfg.flashColor, cfg.originalColor);
      assert f[..4 * cfg.flashCount] == f;
    } else {
      assert f == [] by {
        if cfg.hasSprite {
          assert cfg.flashCount <= 0;
        }
      }
    }
    assert ColorAfter(w, afterFlash) == afterFlash by {
      ColorAfterTintFree(w, afterFlash);
    }
    assert ColorAfter(i, afterFlash) == afterFlash by {
      ColorAfterTintFree(i, afterFlash);
    }
    match cfg.telegraphType
    case Flash =>
    case Windup => ColorAfterTintFree(w, c);
    case Indicator => ColorAfterTintFree(i, c);
    case Combined =>
      ColorAfterAppend(f + i, w, c);
      ColorAfterAppend(f, i, c);
  }

  lemma {:induction false} ColorAfterTintFree(s: seq<Step>, c: Color)
    requires forall k :: 0 <= k < |s| ==> !s[k].Tint?
    ensures ColorAfter(s, c) == c
    decreases |s|
  {
    if s != [] {
      ColorAfterTintFree(s[..|s| - 1], c);
    }
  }

  /** Whether an indicator exists once a telegraph has run to the end: an indicator
      variant with a prefab always destroys the one it spawned. */
  lemma CompletedIndicator(cfg: Config, alive: bool)
    ensures IndicatorAlive(Plan(cfg), alive) ==
      if (cfg.telegraphType == Indicator || cfg.telegraphType == Combined) && cfg.hasIndicatorPrefab
      then false else alive
  {
    var f, i, w := FlashPlan(cfg), IndicatorPlan(cfg), WindupPlan(cfg);
    FlashPlanSteps(cfg);
    var afterIndicator := if cfg.hasIndicatorPrefab then false else alive;
    assert IndicatorAlive(i, alive) == afterIndicator by {
      if !cfg.hasIndicatorPrefab {
        IndicatorFree(i, alive);
      }
    }
    assert IndicatorAlive(w, afterIndicator) == afterIndicator && IndicatorAlive(w, alive) == alive by {
      IndicatorFree(w, afterIndicator);
      IndicatorFree(w, alive);
    }
    match cfg.telegraphType
    case Flash => IndicatorFree(f, alive);
    case Windup =>
    case Indicator =>
    case Combined =>
      IndicatorFree(f, alive);
      IndicatorAliveAppend(f + i, w, alive);
      IndicatorAliveAppend(f, i, alive);
  }

  /** Every step of the flash loop is a tint or a wait. */
  lemma {:induction false} FlashLoopSteps(n: int, iv: real, fl: Color, o: Color)
    ensures forall k :: 0 <= k < |FlashLoop(n, iv, fl, o)| ==> FlashLoop(n, iv, fl, o)[k].Tint? || FlashLoop(n, iv, fl, o)[k].Wait?
    decreases n
  {
    if n > 0 {
      FlashLoopSteps(n - 1, iv, fl, o);
      var iter: seq<Step> := [Tint(fl), Wait(iv), Tint(o), Wait(iv)];
      var rest: seq<Step> := FlashLoop(n - 1, iv, fl, o);
      assert FlashLoop(n, iv, fl, o) == iter + rest;
      forall k | 0 <= k < |iter + rest|
        ensures (iter + rest)[k].Tint? || (iter + rest)[k].Wait?
      {
        if k >= 4 {
          assert (iter + rest)[k] == rest[k - 4];
        }
      }
    }
  }

  lemma FlashPlanSteps(cfg: Config)
    ensures forall k :: 0 <= k < |FlashPlan(cfg)| ==> FlashPlan(cfg)[k].Tint? || FlashPlan(cfg)[k].Wait?
  {
    FlashLoopSteps(cfg.flashCount, FlashInterval(cfg.telegraphDuration, cfg.flashCount), cfg.flashColor, cfg.originalColor);
  }

  lemma {:induction false} IndicatorFree(s: seq<Step>, alive: bool)
    requires forall k :: 0 <= k < |s| ==> !s[k].SpawnIndicator? && !s[k].DestroyIndicator?
    ensures IndicatorAlive(s, alive) == alive
    decreases |s|
  {
    if s != [] {
      IndicatorFree(s[..|s| - 1], alive);
    }
  }

  /** Running the steps from `from` one step further than `i`. */
  lemma RunSlice(steps: seq<Step>, from: nat, i: nat, c: Color, alive: bool)
    requires from <= i < |steps|
    ensures ColorAfter(steps[from..i + 1], c) == if steps[i].Tint? then steps[i].color else ColorAfter(steps[from..i], c)
    ensures TriggersOf(steps[from..i + 1]) == TriggersOf(steps[from..i]) + if steps[i].Trigger? then [steps[i].name] else []
    ensures IndicatorAlive(steps[from..i + 1], alive) ==
              if steps[i].SpawnIndicator? then true else if steps[i].DestroyIndicator? then false
              else IndicatorAlive(steps[from..i], alive)
    ensures SpawnIndicator in steps[from..i + 1] <==> SpawnIndicator in steps[from..i] || steps[i].SpawnIndicator?
  {
    assert steps[from..i + 1] == steps[from..i] + [steps[i]];
    RunOneMore(steps[from..i], steps[i], c, alive);
  }

  /** Runs `steps` from index `from` up to the next wait within one frame: the colour,
      trigger log, indicator existence and indicator position it leaves. */
  method RunSteps(steps: seq<Step>, from: nat, color: Color, triggers: seq<string>, alive: bool,
                  position: Vec2, spawnAt: Vec2)
    returns (i: nat, c: Color, trig: seq<string>, live: bool, at: Vec2)
    requires from <= |steps|
    ensures i == NextWait(steps, from)
    ensures c == ColorAfter(steps[from..i], color)
    ensures trig == triggers + TriggersOf(steps[from..i])
    ensures live == IndicatorAlive(steps[from..i], alive)
    ensures at == if SpawnIndicator in steps[from..i] then spawnAt else position
  {
    i, c, trig, live, at := from, color, triggers, alive, position;
    assert steps[from..from] == [];
    while i < |steps| && !steps[i].Wait?
      invariant from <= i <= |steps|
      invariant NextWait(steps, from) == NextWait(steps, i)
      invariant c == ColorAfter(steps[from..i], color)
      invariant trig == triggers + TriggersOf(steps[from..i])
      invariant live == IndicatorAlive(steps[from..i], alive)
      invariant at == if SpawnIndicator in steps[from..i] then spawnAt else position
      decreases |steps| - i
    {
      RunSlice(steps, from, i, color, alive);
      var st := steps[i];
      c := if st.Tint? then st.color else c;
      trig := trig + if st.Trigger? then [st.name] else [];
      live := if st.SpawnIndicator? then true else if st.DestroyIndicator? then false else live;
      at := if st.SpawnIndicator? then spawnAt else at;
      i := i + 1;
    }
  }

  /** Running `s[..j]` is running `s[..i]` and then `s[i..j]`. */
  lemma RunEffects(s: seq<Step>, i: nat, j: nat, c: Color, t: seq<string>, alive: bool)
    requires i <= j <= |s|
    ensures ColorAfter(s[..j], c) == ColorAfter(s[i..j], ColorAfter(s[..i], c))
    ensures t + TriggersOf(s[..j]) == (t + TriggersOf(s[..i])) + TriggersOf(s[i..j])
    ensures IndicatorAlive(s[..j], alive) == IndicatorAlive(s[i..j], IndicatorAlive(s[..i], alive))
  {
    assert s[..j] == s[..i] + s[i..j];
    ColorAfterAppend(s[..i], s[i..j], c);
    TriggersOfAppend(s[..i], s[i..j]);
    IndicatorAliveAppend(s[..i], s[i..j], alive);
  }

  // ---------------------------------------------------------------------------
  // The component

  class AttackTelegraph {
    const cfg: Config

    var IsTelegraphActive: bool
    var color: Color
    /** Triggers sent to the animator, oldest first. */
    var animatorTriggers: seq<string>
    /** `currentIndicator`: whether it exists, and where it was spawned. */
    var indicatorAlive: bool
    var indicatorPosition: Vec2

    /** The running (or last) ShowTelegraph: its steps, the next one to run, and, while
        it waits at `plan[pc]`, when that wait is over. */
    var plan: seq<Step>
    var pc: nat
    var resumeAt: real
    ghost var colorAtStart: Color
    ghost var triggersAtStart: seq<string>
    ghost var indicatorAtStart: bool
    /** When the running (or last) ShowTelegraph started. */
    ghost var startedAt: real

    ghost predicate Valid()
      reads this
    {
      && pc <= |plan|
      && (IsTelegraphActive <==> pc < |plan|)
      && (pc < |plan| ==> plan[pc].Wait?)
      && color == ColorAfter(plan[..pc], colorAtStart)
      && animatorTriggers == triggersAtStart + TriggersOf(plan[..pc])
      && indicatorAlive == IndicatorAlive(plan[..pc], indicatorAtStart)
      // A wait is resumed no earlier than it ends, so the current wait ends no earlier
      // than the waits so far, this one included, after the start.
      && (pc < |plan| ==> resumeAt >= startedAt + TotalWait(plan[..pc + 1]))
    }

    constructor (cfg: Config)
      ensures Valid() && this.cfg == cfg
      ensures !IsTelegraphActive && color == cfg.originalColor && animatorTriggers == [] && !indicatorAlive
    {
      this.cfg := cfg;
      IsTelegraphActive := false;
      color := cfg.originalColor;
      animatorTriggers := [];
      indicatorAlive := false;
      indicatorPosition := Vec2(0.0, 0.0);
      plan := [];
      pc := 0;
      resumeAt := 0.0;
      colorAtStart := cfg.originalColor;
      triggersAtStart := [];
      indicatorAtStart := false;
      startedAt := 0.0;
    }

    /** Runs the steps up to the next wait (or to the end) within the current frame. */
    method RunToNextWait(now: real, position: Vec2)
      requires pc <= |plan|
      modifies this
      ensures plan == old(plan) && old(pc) <= pc <= |plan| && pc == NextWait(plan, old(pc))
      ensures IsTelegraphActive == (pc < |plan|)
      ensures resumeAt == if pc < |plan| then now + plan[pc].seconds else old(resumeAt)
      ensures color == ColorAfter(plan[old(pc)..pc], old(color))
      ensures animatorTriggers == old(animatorTriggers) + TriggersOf(plan[old(pc)..pc])
      ensures indicatorAlive == IndicatorAlive(plan[old(pc)..pc], old(indicatorAlive))
      ensures indicatorPosition ==
                if SpawnIndicator in plan[old(pc)..pc] then position.Plus(cfg.indicatorOffset) else old(indicatorPosition)
      ensures colorAtStart == old(colorAtStart) && triggersAtStart == old(triggersAtStart)
      ensures indicatorAtStart == old(indicatorAtStart) && startedAt == old(startedAt)
    {
      var i, c, trig, alive, at :=
        RunSteps(plan, pc, color, animatorTriggers, indicatorAlive, indicatorPosition, position.Plus(cfg.indicatorOffset));
      color, animatorTriggers, indicatorAlive, indicatorPosition := c, trig, alive, at;
      pc := i;
      if i < |plan| {
        resumeAt := now + plan[i].seconds;
        IsTelegraphActive := true;
      } else {
        IsTelegraphActive := false;
      }
    }

    /** Valid() after a run from step `from` to the next wait, begun at `now` in the
        state (`c0`, `t0`, `a0`) that the steps before `from` produce, no earlier than the
        waits before `from` after the start. A run that reaches the end is then no earlier
        than all the plan's waits after the start. */
    lemma RunEndsValid(from: nat, c0: Color, t0: seq<string>, a0: bool, now: real)
      requires from <= |plan| && pc == NextWait(plan, from)
      requires IsTelegraphActive == (pc < |plan|)
      requires pc < |plan| ==> resumeAt == now + plan[pc].seconds
      requires now >= startedAt + TotalWait(plan[..from])
      requires c0 == ColorAfter(plan[..from], colorAtStart) && color == ColorAfter(plan[from..pc], c0)
      requires t0 == triggersAtStart + TriggersOf(plan[..from]) && animatorTriggers == t0 + TriggersOf(plan[from..pc])
      requires a0 == IndicatorAlive(plan[..from], indicatorAtStart) && indicatorAlive == IndicatorAlive(plan[from..pc], a0)
      ensures Valid()
      ensures !IsTelegraphActive ==> TotalWait(plan) == TotalWait(plan[..from])
      ensures !IsTelegraphActive ==> now >= startedAt + TotalWait(plan)
    {
      RunEffects(plan, from, pc, colorAtStart, triggersAtStart, indicatorAtStart);
      WaitsUpToNext(plan, from, pc);
    }

    /** ShowTelegraph: marks the telegraph active and runs the configured variant up to
        its first wait; it is over at once only when that variant has no wait at all. */
    method ShowTelegraph(now: real, position: Vec2)
      requires Valid() && !IsTelegraphActive
      modifies this
      ensures Valid()
      ensures plan == Plan(cfg) && pc == NextWait(Plan(cfg), 0)
      ensures colorAtStart == old(color) && triggersAtStart == old(animatorTriggers)
      ensures indicatorAtStart == old(indicatorAlive) && startedAt == now
      ensures IsTelegraphActive <==> pc < |plan|
      ensures !IsTelegraphActive ==> TotalWait(plan) == 0.0
      ensures color == ColorAfter(plan[..pc], old(color))
      ensures animatorTriggers == old(animatorTriggers) + TriggersOf(plan[..pc])
      ensures indicatorAlive == IndicatorAlive(plan[..pc], old(indicatorAlive))
      ensures resumeAt == if pc < |plan| then now + plan[pc].seconds else old(resumeAt)
      ensures indicatorPosition ==
                if SpawnIndicator in plan[..pc] then position.Plus(cfg.indicatorOffset) else old(indicatorPosition)
    {
      Start(Plan(cfg), now, position);
    }

    /** The opening of a ShowTelegraph coroutine that runs the steps `p`. */
    method Start(p: seq<Step>, now: real, position: Vec2)
      modifies this
      ensures Valid()
      ensures plan == p && pc == NextWait(p, 0)
      ensures colorAtStart == old(color) && triggersAtStart == old(animatorTriggers)
      ensures indicatorAtStart == old(indicatorAlive) && startedAt == now
      ensures IsTelegraphActive <==> pc < |plan|
      ensures !IsTelegraphActive ==> TotalWait(plan) == 0.0
      ensures resumeAt == if pc < |plan| then now + plan[pc].seconds else old(resumeAt)
      ensures indicatorPosition ==
                if SpawnIndicator in plan[..pc] then position.Plus(cfg.indicatorOffset) else old(indicatorPosition)
    {
      IsTelegraphActive := true;
      plan := p;
      pc := 0;
      colorAtStart := color;
      triggersAtStart := animatorTriggers;
      indicatorAtStart := indicatorAlive;
      startedAt := now;
      assert plan[..0] == [];
      RunToNextWait(now, position);
      RunEndsValid(0, colorAtStart, triggersAtStart, indicatorAtStart, now);
      assert plan[0..pc] == plan[..pc];
    }

    /** The engine resumes ShowTelegraph: once the current wait is over, the steps up to the
        next wait run; after the last step the telegraph is no longer active. */
    method Resume(now: real, position: Vec2)
      requires Valid()
      modifies this
      ensures Valid()
      ensures plan == old(plan) && colorAtStart == old(colorAtStart)
      ensures triggersAtStart == old(triggersAtStart) && indicatorAtStart == old(indicatorAtStart)
      ensures startedAt == old(startedAt)
      ensures if old(IsTelegraphActive) && now >= old(resumeAt) then
                && pc == NextWait(plan, old(pc) + 1)
                && resumeAt == (if pc < |plan| then now + plan[pc].seconds else old(resumeAt))
                && color == ColorAfter(plan[old(pc) + 1..pc], old(color))
                && animatorTriggers == old(animatorTriggers) + TriggersOf(plan[old(pc) + 1..pc])
                && indicatorAlive == IndicatorAlive(plan[old(pc) + 1..pc], old(indicatorAlive))
                && indicatorPosition ==
                     if SpawnIndicator in plan[old(pc) + 1..pc] then position.Plus(cfg.indicatorOffset) else old(indicatorPosition)
              else unchanged(this)
      ensures !IsTelegraphActive ==>
                && color == ColorAfter(plan, colorAtStart)
                && animatorTriggers == triggersAtStart + TriggersOf(plan)
                && indicatorAlive == IndicatorAlive(plan, indicatorAtStart)
      ensures old(IsTelegraphActive) && !IsTelegraphActive ==> now >= startedAt + TotalWait(plan)
    {
      if IsTelegraphActive && now >= resumeAt {
        ghost var from := pc + 1;
        assert plan[..from] == plan[..pc] + [plan[pc]];
        assert plan[..from][..pc] == plan[..pc];
        TotalWaitThrough(plan, pc);
        pc := pc + 1;
        RunToNextWait(now, position);
        RunEndsValid(from, old(color), old(animatorTriggers), old(indicatorAlive), now);
      }
      assert !IsTelegraphActive ==> plan[..pc] == plan;
    }
  }
}
