/**
 * The sketch's global state and its per-frame bookkeeping: reconciling the
 * creatures with the tracked hands (manageCreatures), the vine population
 * (spawn gate and removal in draw), the one-shot audio start (mousePressed)
 * and the order in which draw runs them.
 */
module Scene {
  import opened Options
  import opened Geometry
  import opened Hands
  import opened Creatures
  import opened Vines
  import opened Music

  /** The random draws of the constructor of one EdgeVine. */
  datatype VineSeed = VineSeed(edge: nat, along: real, speed: real, maxLen: real)

  predicate ValidSeed(s: VineSeed)
  {
    s.edge < 4 && s.speed > 0.0 && MinTrail <= s.maxLen < MaxTrail
  }

  /** The state a new vine starts in: its edge's spawn motion, an empty trail and full life. */
  function SpawnState(seed: VineSeed, view: View): (r: VineState)
    requires ValidSeed(seed)
    ensures ValidVine(r) && r.history == [] && r.maxLen == seed.maxLen && !Dead(r)
  {
    var m := SpawnMotion(seed.edge, seed.along, seed.speed, view.width, view.height);
    VineState(m.0, m.1, [], seed.maxLen, InitialLife)
  }

  /**
   * Everything a frame reads from outside the sketch: the frame and canvas,
   * the tracked hands, the noise field, random draws, and the sines the
   * sequencer samples.
   */
  datatype FrameInput = FrameInput(
    view: View,
    hands: seq<Observation>,
    noise: real -> real,
    seed: VineSeed,
    vineVel: nat -> Point,
    offsetFor: nat -> real,
    jitters: seq<real>,
    pulseSin: real,
    wobbleSin: real)

  predicate ValidInput(input: FrameInput)
  {
    ValidView(input.view) && ValidSeed(input.seed) &&
    |input.jitters| == VoiceCount && ValidJitters(input.jitters) &&
    -1.0 <= input.pulseSin <= 1.0
  }

  predicate Distinct<T(==)>(s: seq<T>)
  {
    forall i, j :: 0 <= i < j < |s| ==> s[i] != s[j]
  }

  /** The vines that are not dead, in their order: what the reverse splice loop keeps. */
  function Survivors(vs: seq<EdgeVine>): (r: seq<EdgeVine>)
    reads set v | v in vs
    ensures |r| <= |vs|
  {
    if vs == [] then []
    else (if vs[0].IsDead() then [] else [vs[0]]) + Survivors(vs[1..])
  }

  /** The elements of vs whose flag in dead is false, in their order. */
  function Kept<T>(vs: seq<T>, dead: seq<bool>): (r: seq<T>)
    requires |dead| == |vs|
    ensures |r| <= |vs|
  {
    if vs == [] then [] else (if dead[0] then [] else [vs[0]]) + Kept(vs[1..], dead[1..])
  }

  /**
   * Kept keeps exactly the elements whose flag is clear, and a list without
   * repeats keeps none.
   */
  lemma {:induction false} KeptIsSublist<T>(vs: seq<T>, dead: seq<bool>)
    requires |dead| == |vs|
    ensures forall x :: x in Kept(vs, dead) ==> exists k :: 0 <= k < |vs| && vs[k] == x && !dead[k]
    ensures forall k :: 0 <= k < |vs| && !dead[k] ==> vs[k] in Kept(vs, dead)
    ensures Distinct(vs) ==> Distinct(Kept(vs, dead))
  {
    if vs != [] {
      KeptIsSublist(vs[1..], dead[1..]);
      var rest := Kept(vs[1..], dead[1..]);
      assert Kept(vs, dead) == (if dead[0] then [] else [vs[0]]) + rest;
      forall x | x in Kept(vs, dead) ensures exists k :: 0 <= k < |vs| && vs[k] == x && !dead[k] {
        if !dead[0] && x == vs[0] {
          assert vs[0] == x && !dead[0];
        } else {
          assert x in rest;
          var j :| 0 <= j < |vs| - 1 && vs[1..][j] == x && !dead[1..][j];
          assert vs[j + 1] == x && !dead[j + 1];
        }
      }
      forall k | 0 <= k < |vs| && !dead[k] ensures vs[k] in Kept(vs, dead) {
        if k > 0 {
          assert vs[1..][k - 1] == vs[k] && dead[1..][k - 1] == dead[k];
        }
      }
      if Distinct(vs) && !dead[0] {
        assert Distinct(vs[1..]) by {
          forall i, j | 0 <= i < j < |vs| - 1 ensures vs[1..][i] != vs[1..][j] {
            assert vs[1..][i] == vs[i + 1] && vs[1..][j] == vs[j + 1];
          }
        }
        forall x | x in rest ensures x != vs[0] {
          var j :| 0 <= j < |vs| - 1 && vs[1..][j] == x && !dead[1..][j];
          assert vs[j + 1] == x;
        }
        forall i, j | 0 <= i < j < |rest| + 1 ensures ([vs[0]] + rest)[i] != ([vs[0]] + rest)[j] {
          if i == 0 {
            assert ([vs[0]] + rest)[j] == rest[j - 1] && rest[j - 1] in rest;
          } else {
            assert ([vs[0]] + rest)[i] == rest[i - 1] && ([vs[0]] + rest)[j] == rest[j - 1];
          }
        }
      }
    }
  }

  /** One step of the reverse splice loop, on the list as a value. */
  lemma SpliceStep<T>(all: seq<T>, dead: seq<bool>, i: nat)
    requires i < |all| == |dead|
    ensures var cur := all[..i + 1] + Kept(all[i + 1..], dead[i + 1..]);
      (if dead[i] then cur[..i] + cur[i + 1..] else cur) == all[..i] + Kept(all[i..], dead[i..])
  {
    assert all[i..][1..] == all[i + 1..];
    assert dead[i..][1..] == dead[i + 1..];
    assert all[..i + 1] == all[..i] + [all[i]];
    var cur := all[..i + 1] + Kept(all[i + 1..], dead[i + 1..]);
    assert cur[..i] == all[..i];
    assert cur[i + 1..] == Kept(all[i + 1..], dead[i + 1..]);
  }

  /**
   * The list after the reverse splice loop has visited indices |vs|-1 down to
   * n+1: each visited element whose flag is set has been spliced out.
   */
  function Spliced<T>(vs: seq<T>, dead: seq<bool>, n: int): (r: seq<T>)
    requires |dead| == |vs| && -1 <= n < |vs|
    ensures n + 1 <= |r| <= |vs|
    ensures r[..n + 1] == vs[..n + 1]
    decreases |vs| - 1 - n
  {
    if n == |vs| - 1 then vs
    else
      var cur := Spliced(vs, dead, n + 1);
      if dead[n + 1] then cur[..n + 1] + cur[n + 2..] else cur
  }

  /** The unvisited prefix is untouched and the visited part is filtered. */
  lemma {:induction false} SplicedIsKept<T>(vs: seq<T>, dead: seq<bool>, n: int)
    requires |dead| == |vs| && -1 <= n < |vs|
    ensures Spliced(vs, dead, n) == vs[..n + 1] + Kept(vs[n + 1..], dead[n + 1..])
    decreases |vs| - 1 - n
  {
    if n == |vs| - 1 {
      assert vs[..n + 1] == vs;
    } else {
      SplicedIsKept(vs, dead, n + 1);
      SpliceStep(vs, dead, n + 1);
    }
  }

  /** Once the loop has visited every index, the list is the filter by the flags. */
  lemma SplicedAllIsKept<T>(vs: seq<T>, dead: seq<bool>)
    requires |dead| == |vs|
    ensures Spliced(vs, dead, -1) == Kept(vs, dead)
  {
    SplicedIsKept(vs, dead, -1);
    assert vs[..0] == [] && vs[0..] == vs && dead[0..] == dead;
  }

  /** Survivors is the filter of the list by each vine's death flag. */
  lemma {:induction false} SurvivorsAreKept(vs: seq<EdgeVine>, dead: seq<bool>)
    requires |dead| == |vs| && forall k :: 0 <= k < |vs| ==> dead[k] == vs[k].IsDead()
    ensures Survivors(vs) == Kept(vs, dead)
  {
    if vs != [] {
      SurvivorsAreKept(vs[1..], dead[1..]);
    }
  }

  /**
   * The survivors are exactly the vines of the list that are not dead, and a
   * list without repeats has survivors without repeats.
   */
  lemma SurvivorsAreLive(vs: seq<EdgeVine>)
    ensures forall v :: v in Survivors(vs) <==> v in vs && !v.IsDead()
    ensures Distinct(vs) ==> Distinct(Survivors(vs))
  {
    var dead := seq(|vs|, k requires 0 <= k < |vs| reads vs => vs[k].IsDead());
    SurvivorsAreKept(vs, dead);
    KeptIsSublist(vs, dead);
    forall v | v in vs && !v.IsDead() ensures v in Survivors(vs) {
      var k :| 0 <= k < |vs| && vs[k] == v;
      assert !dead[k];
    }
  }

  class Sketch {
    var creatures: seq<Creature>
    var vines: seq<EdgeVine>
    const music: MusicManager
    var audioStarted: bool

    ghost function CreatureSet(): set<Creature>
      reads this`creatures
    {
      set c | c in creatures
    }

    ghost function VineSet(): set<EdgeVine>
      reads this`vines
    {
      set v | v in vines
    }

    /** The sequencer's invariant. */
    ghost predicate MusicValid()
      reads music, music.notes
    {
      music.Valid()
    }

    /** At least one creature, no creature twice, and every voice runs iff audio has started. */
    ghost predicate CreaturesValid()
      reads this`creatures, this`audioStarted, CreatureSet()
    {
      |creatures| >= 1 && Distinct(creatures) &&
      forall i :: 0 <= i < |creatures| ==> creatures[i].audioOn == audioStarted
    }

    /** At most 150 vines, none twice, each with its trail within its bound. */
    ghost predicate VinesValid()
      reads this`vines, VineSet()
    {
      |vines| <= MaxVines && Distinct(vines) &&
      forall k :: 0 <= k < |vines| ==> vines[k].Valid()
    }

    ghost predicate Valid()
      reads this, music, music.notes, CreatureSet(), VineSet()
    {
      MusicValid() && CreaturesValid() && VinesValid()
    }

    /** creatures.some(c => c.isFist && !c.isIdle): the global fist signal. */
    predicate AnyFistActive()
      reads this`creatures, CreatureSet()
    {
      exists i :: 0 <= i < |creatures| && creatures[i].isFist && !creatures[i].isIdle
    }

    /** An idle scene raises no fist signal: with every creature idle the frame is not inverted. */
    lemma IdleSceneNoFist()
      requires forall i :: 0 <= i < |creatures| ==> creatures[i].isIdle
      ensures !AnyFistActive()
    {
    }

    /** setup(), without canvas, capture and particles: one idle creature, no vines, audio not started. */
    constructor (noiseOff: real, view: View)
      ensures Valid() && fresh(music) && fresh(music.notes)
      ensures |creatures| == 1 && fresh(creatures[0]) && creatures[0].State() == Initial(noiseOff, false, view)
      ensures vines == [] && !audioStarted
      ensures music.log == SetupCommands
      ensures forall k :: 0 <= k < VoiceCount ==> music.notes[k].timer == StartTimers[k]
    {
      var c := new Creature(noiseOff, false, view);
      creatures := [c];
      vines := [];
      music := new MusicManager();
      audioStarted := false;
    }

    /**
     * mousePressed: the first press starts audio (the sequencer's bass and
     * every creature's voice); any later press changes nothing.
     */
    method MousePressed()
      requires Valid()
      modifies this, music, CreatureSet()
      ensures Valid() && audioStarted
      ensures creatures == old(creatures) && vines == old(vines)
      ensures old(audioStarted) ==> music.log == old(music.log)
      ensures old(audioStarted) ==> forall c :: c in creatures ==> c.State() == old(c.State())
      ensures !old(audioStarted) ==> music.log == old(music.log) + [BassStart]
      ensures !old(audioStarted) ==> forall c :: c in creatures ==> c.State() == old(c.State()).(audioOn := true)
    {
      if !audioStarted {
        audioStarted := true;
        music.Start();
        var i := 0;
        while i < |creatures|
          invariant 0 <= i <= |creatures| && creatures == old(creatures) && vines == old(vines)
          invariant audioStarted && music.log == old(music.log) + [BassStart]
          invariant forall j :: 0 <= j < i ==> creatures[j].State() == old(creatures[j].State()).(audioOn := true)
          invariant forall j :: i <= j < |creatures| ==> creatures[j].State() == old(creatures[j].State())
        {
          creatures[i].StartAudio();
          i := i + 1;
        }
      }
    }

    /** The first loop of manageCreatures: new creatures are appended until there are enough. */
    method Grow(target: nat, view: View, offsetFor: nat -> real)
      requires Valid()
      modifies this
      ensures Valid() && vines == old(vines) && audioStarted == old(audioStarted)
      ensures |creatures| == if |old(creatures)| < target then target else |old(creatures)|
      ensures creatures[..|old(creatures)|] == old(creatures)
      ensures forall i :: |old(creatures)| <= i < |creatures| ==>
        fresh(creatures[i]) && creatures[i].State() == Initial(offsetFor(i), audioStarted, view)
    {
      while |creatures| < target
        invariant Valid() && vines == old(vines) && audioStarted == old(audioStarted)
        invariant |old(creatures)| <= |creatures| <= (if |old(creatures)| < target then target else |old(creatures)|)
        invariant creatures[..|old(creatures)|] == old(creatures)
        invariant forall i :: |old(creatures)| <= i < |creatures| ==>
          fresh(creatures[i]) && creatures[i].State() == Initial(offsetFor(i), audioStarted, view)
        decreases target - |creatures|
      {
        var c := new Creature(offsetFor(|creatures|), audioStarted, view);
        creatures := creatures + [c];
      }
    }

    /** The second loop: creatures are popped off the end, and each one popped is disposed. */
    method Shrink(target: nat)
      requires Valid() && target >= 1
      modifies this, CreatureSet()
      ensures Valid() && vines == old(vines) && audioStarted == old(audioStarted)
      ensures creatures == if |old(creatures)| > target then old(creatures)[..target] else old(creatures)
      ensures forall i :: 0 <= i < |creatures| ==> creatures[i].State() == old(creatures[i].State())
      ensures forall i :: |creatures| <= i < |old(creatures)| ==>
        old(creatures)[i].State() == old(creatures[i].State()).(audioOn := false, disposals := old(creatures[i].disposals) + 1)
    {
      ghost var all := creatures;
      while |creatures| > target
        invariant Valid() && Distinct(all)
        invariant (if |all| > target then target else |all|) <= |creatures| <= |all|
        invariant creatures == all[..|creatures|]
        invariant vines == old(vines) && audioStarted == old(audioStarted)
        invariant forall j :: 0 <= j < |creatures| ==> all[j].State() == old(all[j].State())
        invariant forall j :: |creatures| <= j < |all| ==>
          all[j].State() == old(all[j].State()).(audioOn := false, disposals := old(all[j].disposals) + 1)
      {
        ghost var n := |creatures|;
        assert all[n - 1] == creatures[n - 1];
        PopLast();
        assert forall j :: 0 <= j < n - 1 ==> all[j] != all[n - 1];
      }
    }

    /** One step of the second loop: the last creature leaves the list and is disposed. */
    method PopLast()
      requires Valid() && |creatures| >= 2
      modifies this, creatures[|creatures| - 1]
      ensures Valid() && vines == old(vines) && audioStarted == old(audioStarted)
      ensures creatures == old(creatures)[..|old(creatures)| - 1]
      ensures old(creatures)[|old(creatures)| - 1].State() ==
        old(creatures[|creatures| - 1].State()).(audioOn := false, disposals := old(creatures[|creatures| - 1].disposals) + 1)
    {
      var removed := creatures[|creatures| - 1];
      creatures := creatures[..|creatures| - 1];
      removed.Dispose();
    }

    /**
     * The third loop: creature i gets the update Dispatch says, from the
     * hands of this frame.
     */
    method DispatchAll(hands: seq<Observation>, view: View, noise: real -> real)
      requires Valid() && ValidView(view)
      modifies CreatureSet()
      ensures Valid()
      ensures forall i :: 0 <= i < |creatures| ==>
        creatures[i].State() == Dispatch(old(creatures[i].State()), hands, i, audioStarted, view, noise)
    {
      var i := 0;
      while i < |creatures|
        invariant 0 <= i <= |creatures| && Valid()
        invariant forall j :: 0 <= j < i ==>
          creatures[j].State() == Dispatch(old(creatures[j].State()), hands, j, audioStarted, view, noise)
        invariant forall j :: i <= j < |creatures| ==> creatures[j].State() == old(creatures[j].State())
      {
        DispatchOne(hands, view, noise, i);
        i := i + 1;
      }
    }

    /** One turn of the third loop: creature i alone gets its update. */
    method DispatchOne(hands: seq<Observation>, view: View, noise: real -> real, i: nat)
      requires Valid() && ValidView(view) && i < |creatures|
      modifies creatures[i]
      ensures Valid()
      ensures creatures[i].State() == Dispatch(old(creatures[i].State()), hands, i, audioStarted, view, noise)
      ensures forall j :: 0 <= j < |creatures| && j != i ==> creatures[j].State() == old(creatures[j].State())
    {
      var c := creatures[i];
      if |hands| == 0 {
        c.Update(None, false, audioStarted, view, noise);
      } else if i < |hands| && hands[i].Hand? {
        var handData := ParseHand(hands[i]);
        if handData.Some? {
          var fist := IsFist(handData.value);
          c.Update(handData, fist, audioStarted, view, noise);
        }
      }
      assert forall j :: 0 <= j < |creatures| && j != i ==> creatures[j] != c;
    }

    /**
     * manageCreatures, without the drawing: afterwards there is one creature
     * per tracked hand and at least one. Creatures at lower indices are the
     * same objects, new ones were appended at the creation state, removed
     * ones were disposed exactly once, and every creature then received the
     * update Dispatch gives its index.
     */
    method ManageCreatures(hands: seq<Observation>, view: View, noise: real -> real, offsetFor: nat -> real)
      requires Valid() && ValidView(view)
      modifies this, CreatureSet()
      ensures Valid() && vines == old(vines) && audioStarted == old(audioStarted)
      ensures |creatures| == TargetCount(|hands|)
      ensures forall i :: 0 <= i < |creatures| && i < |old(creatures)| ==> creatures[i] == old(creatures[i])
      ensures forall i :: |old(creatures)| <= i < |creatures| ==> fresh(creatures[i])
      ensures forall i :: 0 <= i < |creatures| ==>
        creatures[i].State() == Dispatch(
          if i < |old(creatures)| then old(creatures[i].State()) else Initial(offsetFor(i), audioStarted, view),
          hands, i, audioStarted, view, noise)
      ensures forall i :: |creatures| <= i < |old(creatures)| ==>
        old(creatures)[i].State() == old(creatures[i].State()).(audioOn := false, disposals := old(creatures[i].disposals) + 1)
    {
      Reconcile(TargetCount(|hands|), view, offsetFor);
      DispatchAll(hands, view, noise);
    }

    /**
     * The first two loops of manageCreatures: the list now has exactly target
     * creatures; those kept are the same objects with the same state, the new
     * ones are at the creation state, the removed ones were disposed once.
     */
    method Reconcile(target: nat, view: View, offsetFor: nat -> real)
      requires Valid() && target >= 1
      modifies this, CreatureSet()
      ensures Valid() && vines == old(vines) && audioStarted == old(audioStarted)
      ensures |creatures| == target
      ensures forall i :: 0 <= i < |creatures| && i < |old(creatures)| ==> creatures[i] == old(creatures[i])
      ensures forall i :: |old(creatures)| <= i < |creatures| ==> fresh(creatures[i])
      ensures forall i :: 0 <= i < |creatures| ==>
        creatures[i].State() ==
          if i < |old(creatures)| then old(creatures[i].State()) else Initial(offsetFor(i), audioStarted, view)
      ensures forall i :: |creatures| <= i < |old(creatures)| ==>
        old(creatures)[i].State() == old(creatures[i].State()).(audioOn := false, disposals := old(creatures[i].disposals) + 1)
    {
      Grow(target, view, offsetFor);
      Shrink(target);
    }

    /** The spawn step of draw: a new vine on every 6th frame while fewer than 150 live. */
    method SpawnVine(frame: nat, seed: VineSeed, view: View)
      requires Valid() && ValidSeed(seed)
      modifies this
      ensures Valid() && creatures == old(creatures) && audioStarted == old(audioStarted)
      ensures SpawnGate(frame, |old(vines)|) ==>
        |vines| == |old(vines)| + 1 && vines[..|old(vines)|] == old(vines) && fresh(vines[|old(vines)|]) &&
        vines[|old(vines)|].State() == SpawnState(seed, view)
      ensures !SpawnGate(frame, |old(vines)|) ==> vines == old(vines)
      ensures forall i :: 0 <= i < |creatures| ==> creatures[i].State() == old(creatures[i].State())
    {
      if frame % SpawnPeriod == 0 && |vines| < MaxVines {
        var v := new EdgeVine(seed.edge, seed.along, seed.speed, seed.maxLen, view.width, view.height);
        vines := vines + [v];
      }
    }

    /**
     * One frame of draw, without the drawing: spawn and update the vines,
     * take the fist signal from the creatures as they stand, reconcile the
     * creatures with the hands, and step the sequencer once audio runs. The
     * result is whether the frame is drawn inverted; spawned is the vine list
     * between the spawn step and the vine loop.
     */
    method Draw(input: FrameInput) returns (invert: bool, ghost spawned: seq<EdgeVine>)
      requires Valid() && ValidInput(input)
      modifies this, music, music.notes, CreatureSet(), VineSet()
      ensures Valid() && audioStarted == old(audioStarted)
      ensures invert == old(AnyFistActive())
      // the vines
      ensures |spawned| == |old(vines)| + if SpawnGate(input.view.frame, |old(vines)|) then 1 else 0
      ensures spawned[..|old(vines)|] == old(vines)
      ensures forall k :: 0 <= k < |old(vines)| ==>
        old(vines)[k].State() == Vines.Advance(old(vines[k].State()), input.vineVel(k))
      ensures SpawnGate(input.view.frame, |old(vines)|) ==>
        fresh(spawned[|old(vines)|]) &&
        spawned[|old(vines)|].State() == Vines.Advance(SpawnState(input.seed, input.view), input.vineVel(|old(vines)|))
      ensures vines == Survivors(spawned)
      // the creatures
      ensures |creatures| == TargetCount(|input.hands|)
      ensures forall i :: 0 <= i < |creatures| && i < |old(creatures)| ==> creatures[i] == old(creatures[i])
      ensures forall i :: |old(creatures)| <= i < |creatures| ==> fresh(creatures[i])
      ensures forall i :: 0 <= i < |creatures| ==>
        creatures[i].State() == Dispatch(
          if i < |old(creatures)| then old(creatures[i].State()) else Initial(input.offsetFor(i), audioStarted, input.view),
          input.hands, i, audioStarted, input.view, input.noise)
      ensures forall i :: |creatures| <= i < |old(creatures)| ==>
        old(creatures)[i].State() == old(creatures[i].State()).(audioOn := false, disposals := old(creatures[i].disposals) + 1)
      ensures input.hands == [] ==> !AnyFistActive()
      // the sequencer
      ensures !audioStarted ==> music.log == old(music.log) && music.notes[..] == old(music.notes[..])
      ensures audioStarted && invert ==>
        music.notes[..] == old(music.notes[..]) &&
        music.log == old(music.log) + NegativeCommands(input.pulseSin, input.wobbleSin)
      ensures audioStarted && !invert ==>
        music.notes[..] == Music.Advance(old(music.notes[..]), input.jitters) &&
        music.log == old(music.log) + [BassAmp(0.0, 1.0)] + Plays(old(music.notes[..]), input.jitters, VoiceCount)
    {
      spawned := VineLayer(input.view.frame, input.seed, input.view, input.vineVel);
      invert := CreaturesAndMusic(input);
    }

    /**
     * The rest of draw after the vines: the fist signal is taken from the
     * creatures as they stand, then they are reconciled with the hands, then
     * the sequencer steps in the mode that signal selects.
     */
    method CreaturesAndMusic(input: FrameInput) returns (invert: bool)
      requires Valid() && ValidInput(input)
      modifies this, music, music.notes, CreatureSet()
      ensures Valid() && audioStarted == old(audioStarted) && vines == old(vines)
      ensures invert == old(AnyFistActive())
      ensures |creatures| == TargetCount(|input.hands|)
      ensures forall i :: 0 <= i < |creatures| && i < |old(creatures)| ==> creatures[i] == old(creatures[i])
      ensures forall i :: |old(creatures)| <= i < |creatures| ==> fresh(creatures[i])
      ensures forall i :: 0 <= i < |creatures| ==>
        creatures[i].State() == Dispatch(
          if i < |old(creatures)| then old(creatures[i].State()) else Initial(input.offsetFor(i), audioStarted, input.view),
          input.hands, i, audioStarted, input.view, input.noise)
      ensures forall i :: |creatures| <= i < |old(creatures)| ==>
        old(creatures)[i].State() == old(creatures[i].State()).(audioOn := false, disposals := old(creatures[i].disposals) + 1)
      ensures input.hands == [] ==> !AnyFistActive()
      ensures !audioStarted ==> music.log == old(music.log) && music.notes[..] == old(music.notes[..])
      ensures audioStarted && invert ==>
        music.notes[..] == old(music.notes[..]) &&
        music.log == old(music.log) + NegativeCommands(input.pulseSin, input.wobbleSin)
      ensures audioStarted && !invert ==>
        music.notes[..] == Music.Advance(old(music.notes[..]), input.jitters) &&
        music.log == old(music.log) + [BassAmp(0.0, 1.0)] + Plays(old(music.notes[..]), input.jitters, VoiceCount)
    {
      invert := AnyFistActive();
      CreatureLayer(input);
      StepMusic(invert, input);
    }

    /** The creature layer of draw: manageCreatures, after which a frame without hands raises no fist signal. */
    method CreatureLayer(input: FrameInput)
      requires Valid() && ValidInput(input)
      modifies this, CreatureSet()
      ensures Valid() && vines == old(vines) && audioStarted == old(audioStarted)
      ensures |creatures| == TargetCount(|input.hands|)
      ensures forall i :: 0 <= i < |creatures| && i < |old(creatures)| ==> creatures[i] == old(creatures[i])
      ensures forall i :: |old(creatures)| <= i < |creatures| ==> fresh(creatures[i])
      ensures forall i :: 0 <= i < |creatures| ==>
        creatures[i].State() == Dispatch(
          if i < |old(creatures)| then old(creatures[i].State()) else Initial(input.offsetFor(i), audioStarted, input.view),
          input.hands, i, audioStarted, input.view, input.noise)
      ensures forall i :: |creatures| <= i < |old(creatures)| ==>
        old(creatures)[i].State() == old(creatures[i].State()).(audioOn := false, disposals := old(creatures[i].disposals) + 1)
      ensures input.hands == [] ==> !AnyFistActive()
    {
      ManageCreatures(input.hands, input.view, input.noise, input.offsetFor);
      if input.hands == [] {
        forall i | 0 <= i < |creatures| ensures creatures[i].isIdle {
          assert i < |old(creatures)|;
          IdleDispatch(old(creatures[i].State()), input.hands, i, audioStarted, input.view, input.noise);
        }
        IdleSceneNoFist();
      }
    }

    /** The sequencer step of draw: nothing before audio has started, then one update in the given mode. */
    method StepMusic(negative: bool, input: FrameInput)
      requires Valid() && ValidInput(input)
      modifies music, music.notes
      ensures Valid()
      ensures !audioStarted ==> music.log == old(music.log) && music.notes[..] == old(music.notes[..])
      ensures audioStarted && negative ==>
        music.notes[..] == old(music.notes[..]) &&
        music.log == old(music.log) + NegativeCommands(input.pulseSin, input.wobbleSin)
      ensures audioStarted && !negative ==>
        music.notes[..] == Music.Advance(old(music.notes[..]), input.jitters) &&
        music.log == old(music.log) + [BassAmp(0.0, 1.0)] + Plays(old(music.notes[..]), input.jitters, VoiceCount)
    {
      if audioStarted {
        music.Update(negative, input.pulseSin, input.wobbleSin, input.jitters);
      }
    }

    /**
     * The vine layer of draw: the spawn step, then the vine loop. spawned is
     * the list after the spawn step; every vine of it is updated once, and the
     * survivors are what is left. Creatures and audio are untouched.
     */
    method VineLayer(frame: nat, seed: VineSeed, view: View, vineVel: nat -> Point) returns (ghost spawned: seq<EdgeVine>)
      requires Valid() && ValidSeed(seed)
      modifies this, VineSet()
      ensures Valid() && creatures == old(creatures) && audioStarted == old(audioStarted)
      ensures |spawned| == |old(vines)| + if SpawnGate(frame, |old(vines)|) then 1 else 0
      ensures spawned[..|old(vines)|] == old(vines)
      ensures forall k :: 0 <= k < |old(vines)| ==>
        old(vines)[k].State() == Vines.Advance(old(vines[k].State()), vineVel(k))
      ensures SpawnGate(frame, |old(vines)|) ==>
        fresh(spawned[|old(vines)|]) &&
        spawned[|old(vines)|].State() == Vines.Advance(SpawnState(seed, view), vineVel(|old(vines)|))
      ensures vines == Survivors(spawned)
      ensures forall i :: 0 <= i < |creatures| ==> creatures[i].State() == old(creatures[i].State())
    {
      SpawnVine(frame, seed, view);
      spawned := vines;
      UpdateVines(vineVel);
    }

    /**
     * The vine loop of draw: from the last vine to the first, each vine is
     * updated once and spliced out when dead. The vines left are exactly the
     * survivors, in their order.
     */
    method UpdateVines(vineVel: nat -> Point)
      requires Valid()
      modifies this, VineSet()
      ensures Valid() && creatures == old(creatures) && audioStarted == old(audioStarted)
      ensures forall k :: 0 <= k < |old(vines)| ==>
        old(vines)[k].State() == Vines.Advance(old(vines[k].State()), vineVel(k))
      ensures vines == Survivors(old(vines))
      ensures forall i :: 0 <= i < |creatures| ==> creatures[i].State() == old(creatures[i].State())
    {
      AdvanceVines(vineVel);
      DropDead();
    }

    /** The splice half of the vine loop, on the scene: the dead vines leave the list. */
    method DropDead()
      requires Valid()
      modifies this
      ensures Valid() && creatures == old(creatures) && audioStarted == old(audioStarted)
      ensures vines == Survivors(old(vines))
    {
      var live := RemoveDead(vines);
      SurvivorsAreLive(vines);
      forall k | 0 <= k < |live| ensures live[k].Valid() {
        assert live[k] in vines;
      }
      vines := live;
    }

    /** The update half of the vine loop: every vine, from the last to the first, is updated once. */
    method AdvanceVines(vineVel: nat -> Point)
      requires VinesValid()
      modifies VineSet()
      ensures forall k :: 0 <= k < |vines| ==>
        vines[k].Valid() && vines[k].State() == Vines.Advance(old(vines[k].State()), vineVel(k))
    {
      var i := |vines| - 1;
      while i >= 0
        invariant -1 <= i < |vines|
        invariant forall k :: 0 <= k <= i ==> vines[k].State() == old(vines[k].State())
        invariant forall k :: i < k < |vines| ==> vines[k].State() == Vines.Advance(old(vines[k].State()), vineVel(k))
      {
        vines[i].Update(vineVel(i));
        i := i - 1;
      }
    }
  }

  /**
   * The splice half of the vine loop: from the last index to the first, a
   * dead vine is spliced out of the list. What is left is the survivors.
   */
  method RemoveDead(vs: seq<EdgeVine>) returns (live: seq<EdgeVine>)
    ensures live == Survivors(vs)
  {
    ghost var dead := seq(|vs|, k requires 0 <= k < |vs| reads vs => vs[k].IsDead());
    live := vs;
    var i := |live| - 1;
    while i >= 0
      invariant -1 <= i < |vs|
      invariant live == Spliced(vs, dead, i)
    {
      if vs[i].IsDead() {
        live := live[..i] + live[i + 1..];
      }
      i := i - 1;
    }
    SplicedAllIsKept(vs, dead);
    SurvivorsAreKept(vs, dead);
  }
}
