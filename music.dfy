/**
 * The generative soundtrack's step sequencer (MusicManager): five piano voices
 * with their own countdown timers in normal mode, and a pulsing bass instead
 * while a fist is shown. Calls into the synthesis library are recorded as a
 * log of commands.
 */
module Music {
  import opened Options

  const VoiceCount: nat := 5
  /** Frames between two notes of each voice, before jitter. */
  const Intervals: seq<int> := [240, 150, 90, 192, 110]
  /** Each voice's timer when the sequencer is built. */
  const StartTimers: seq<int> := [0, 30, 60, 100, 10]
  /** C3, E3, G3, B3, D4. */
  const Frequencies: seq<real> := [130.81, 164.81, 196.00, 246.94, 293.66]
  /** A1, the bass oscillator's centre frequency. */
  const BassFrequency: real := 55.0

  /** One piano voice: its pitch, its interval and its countdown. */
  datatype Note = Note(freq: real, interval: int, timer: int)

  /** What the sequencer asks of the synthesis library, in the order it asks. */
  datatype Command =
    | PianoAmp(voice: nat, level: real, ramp: real)
    | PlayNote(voice: nat)
    | BassAmp(level: real, ramp: real)
    | BassFreq(freq: real)
    | BassStart

  /** random(-2, 2): a humanising jitter in [-2, 2). */
  predicate ValidJitter(j: real)
  {
    -2.0 <= j < 2.0
  }

  predicate ValidJitters(js: seq<real>)
  {
    forall k :: 0 <= k < |js| ==> ValidJitter(js[k])
  }

  /** A timer within the range the sequencer keeps it in. */
  predicate TimerInRange(timer: int, interval: int)
  {
    0 <= timer <= interval + 1
  }

  datatype Tick = Tick(timer: int, fired: bool)

  /**
   * One normal-mode frame of one voice: the timer counts up by one; the voice
   * fires when the count reaches interval + jitter, and its timer then restarts
   * at 0. The timer stays in range, a voice whose count reached interval + 2
   * always fires, and none fires before its count reached interval - 2.
   */
  function Step(timer: int, interval: int, jitter: real): (r: Tick)
    requires TimerInRange(timer, interval) && ValidJitter(jitter)
    ensures TimerInRange(r.timer, interval)
    ensures r.fired ==> r.timer == 0 && timer + 1 >= interval - 2
    ensures !r.fired ==> r.timer == timer + 1
    ensures timer + 1 >= interval + 2 ==> r.fired
  {
    var t := timer + 1;
    if t as real >= interval as real + jitter then Tick(0, true) else Tick(t, false)
  }

  predicate ValidNote(n: Note)
  {
    TimerInRange(n.timer, n.interval)
  }

  predicate ValidNotes(ns: seq<Note>)
  {
    |ns| == VoiceCount &&
    forall k :: 0 <= k < VoiceCount ==>
      ns[k].freq == Frequencies[k] && ns[k].interval == Intervals[k] && ValidNote(ns[k])
  }

  /** One voice after a normal-mode frame: its timer stepped, its pitch and interval kept. */
  function AdvanceNote(n: Note, jitter: real): (r: Note)
    requires ValidNote(n) && ValidJitter(jitter)
    ensures r.freq == n.freq && r.interval == n.interval && ValidNote(r)
  {
    n.(timer := Step(n.timer, n.interval, jitter).timer)
  }

  /** The voices after a normal-mode frame, voice k drawing jitter js[k]. */
  function Advance(ns: seq<Note>, js: seq<real>): (r: seq<Note>)
    requires |js| == |ns| && ValidJitters(js)
    requires forall k :: 0 <= k < |ns| ==> ValidNote(ns[k])
    ensures |r| == |ns|
    ensures forall k :: 0 <= k < |ns| ==>
      r[k].freq == ns[k].freq && r[k].interval == ns[k].interval && ValidNote(r[k])
  {
    seq(|ns|, k requires 0 <= k < |ns| && ValidNote(ns[k]) && ValidJitter(js[k]) => AdvanceNote(ns[k], js[k]))
  }

  /** A normal-mode frame keeps the five voices' pitches and intervals and their timers in range. */
  lemma AdvanceKeepsVoices(ns: seq<Note>, js: seq<real>)
    requires ValidNotes(ns) && |js| == VoiceCount && ValidJitters(js)
    ensures ValidNotes(Advance(ns, js))
  {
  }

  /** The notes the first n voices play in a normal-mode frame, in voice order. */
  function Plays(ns: seq<Note>, js: seq<real>, n: nat): (r: seq<Command>)
    requires n <= |ns| == |js| && ValidJitters(js)
    requires forall k :: 0 <= k < |ns| ==> ValidNote(ns[k])
    ensures |r| <= n
  {
    if n == 0 then []
    else
      var k := n - 1;
      Plays(ns, js, k) + (if Step(ns[k].timer, ns[k].interval, js[k]).fired then [PlayNote(k)] else [])
  }

  /** A normal-mode frame plays notes and does nothing else, and only for the first n voices. */
  lemma {:induction false} PlaysOnlyNotes(ns: seq<Note>, js: seq<real>, n: nat)
    requires n <= |ns| == |js| && ValidJitters(js)
    requires forall k :: 0 <= k < |ns| ==> ValidNote(ns[k])
    ensures forall i :: 0 <= i < |Plays(ns, js, n)| ==> Plays(ns, js, n)[i].PlayNote? && Plays(ns, js, n)[i].voice < n
    ensures forall c :: c in Plays(ns, js, n) ==> c.PlayNote? && c.voice < n
  {
    if n > 0 {
      PlaysOnlyNotes(ns, js, n - 1);
    }
  }

  /** The notes of a frame come in strictly increasing voice order, so no voice plays twice. */
  lemma {:induction false} PlaysInVoiceOrder(ns: seq<Note>, js: seq<real>, n: nat)
    requires n <= |ns| == |js| && ValidJitters(js)
    requires forall k :: 0 <= k < |ns| ==> ValidNote(ns[k])
    ensures forall i :: 0 <= i < |Plays(ns, js, n)| ==> Plays(ns, js, n)[i].PlayNote?
    ensures forall i, j :: 0 <= i < j < |Plays(ns, js, n)| ==> Plays(ns, js, n)[i].voice < Plays(ns, js, n)[j].voice
  {
    PlaysOnlyNotes(ns, js, n);
    if n > 0 {
      PlaysInVoiceOrder(ns, js, n - 1);
      PlaysOnlyNotes(ns, js, n - 1);
      var prev := Plays(ns, js, n - 1);
      var tail: seq<Command> := if Step(ns[n - 1].timer, ns[n - 1].interval, js[n - 1]).fired then [PlayNote(n - 1)] else [];
      assert Plays(ns, js, n) == prev + tail;
      forall i, j | 0 <= i < j < |prev + tail| ensures (prev + tail)[i].voice < (prev + tail)[j].voice {
        if j >= |prev| {
          assert (prev + tail)[i] == prev[i];
        }
      }
    }
  }

  /** No voice plays more than one note in a frame. */
  lemma {:induction false} PlaysAtMostOncePerVoice(ns: seq<Note>, js: seq<real>, n: nat, v: nat)
    requires n <= |ns| == |js| && ValidJitters(js)
    requires forall k :: 0 <= k < |ns| ==> ValidNote(ns[k])
    ensures multiset(Plays(ns, js, n))[PlayNote(v)] <= 1
  {
    if n > 0 {
      PlaysAtMostOncePerVoice(ns, js, n - 1, v);
      var prev := Plays(ns, js, n - 1);
      var tail: seq<Command> := if Step(ns[n - 1].timer, ns[n - 1].interval, js[n - 1]).fired then [PlayNote(n - 1)] else [];
      assert Plays(ns, js, n) == prev + tail;
      assert multiset(prev + tail) == multiset(prev) + multiset(tail);
      if v == n - 1 && tail != [] {
        PlaysOnlyNotes(ns, js, n - 1);
        assert PlayNote(v) !in multiset(prev);
      }
    }
  }

  /** A voice plays in a normal-mode frame exactly when its step fires. */
  lemma {:induction false} PlaysExactlyFired(ns: seq<Note>, js: seq<real>, n: nat, v: nat)
    requires n <= |ns| == |js| && ValidJitters(js)
    requires forall k :: 0 <= k < |ns| ==> ValidNote(ns[k])
    ensures PlayNote(v) in Plays(ns, js, n) <==> v < n && Step(ns[v].timer, ns[v].interval, js[v]).fired
  {
    if n > 0 {
      PlaysExactlyFired(ns, js, n - 1, v);
    }
  }

  /** Fist mode: every piano voice fades to silence over 0.5 s and the bass pulses. */
  function NegativeCommands(pulseSin: real, wobbleSin: real): seq<Command>
    requires -1.0 <= pulseSin <= 1.0
  {
    [PianoAmp(0, 0.0, 0.5), PianoAmp(1, 0.0, 0.5), PianoAmp(2, 0.0, 0.5), PianoAmp(3, 0.0, 0.5),
     PianoAmp(4, 0.0, 0.5), BassAmp(PulseLevel(pulseSin), 0.1), BassFreq(BassFrequency + wobbleSin * 3.0)]
  }

  /** 0.2 + 0.1 * sin(..): the bass level in fist mode, for s the sine's value. */
  function PulseLevel(s: real): (r: real)
    requires -1.0 <= s <= 1.0
    ensures 0.1 <= r <= 0.3
  {
    0.2 + s * 0.1
  }

  /**
   * Mode exclusivity, fist side: in a fist frame every piano voice's target
   * level is 0, each of the five voices is silenced, and the bass target lies
   * in [0.1, 0.3], so it is audible.
   */
  lemma NegativeMode(pulseSin: real, wobbleSin: real)
    requires -1.0 <= pulseSin <= 1.0
    ensures forall c :: c in NegativeCommands(pulseSin, wobbleSin) && c.PianoAmp? ==> c.level == 0.0
    ensures forall v :: 0 <= v < VoiceCount ==> PianoAmp(v, 0.0, 0.5) in NegativeCommands(pulseSin, wobbleSin)
    ensures forall c :: c in NegativeCommands(pulseSin, wobbleSin) && c.BassAmp? ==> 0.1 <= c.level <= 0.3
    ensures forall c :: c in NegativeCommands(pulseSin, wobbleSin) ==> !c.PlayNote?
  {
    var cs := NegativeCommands(pulseSin, wobbleSin);
    forall v | 0 <= v < VoiceCount ensures PianoAmp(v, 0.0, 0.5) in cs {
      assert cs[v] == PianoAmp(v, 0.0, 0.5);
    }
  }

  /**
   * Mode exclusivity, normal side: a normal frame fades the bass out to 0 and
   * touches no piano level; the only other commands are notes played.
   */
  lemma NormalMode(ns: seq<Note>, js: seq<real>)
    requires |ns| == |js| && ValidJitters(js)
    requires forall k :: 0 <= k < |ns| ==> ValidNote(ns[k])
    ensures forall c :: c in [BassAmp(0.0, 1.0)] + Plays(ns, js, |ns|) && c.BassAmp? ==> c.level == 0.0
    ensures forall c :: c in [BassAmp(0.0, 1.0)] + Plays(ns, js, |ns|) ==> !c.PianoAmp? && !c.BassFreq?
    ensures forall c :: c in [BassAmp(0.0, 1.0)] + Plays(ns, js, |ns|) ==> c == BassAmp(0.0, 1.0) || c.PlayNote?
    ensures forall c :: c in Plays(ns, js, |ns|) ==> c.PlayNote?
  {
    PlaysOnlyNotes(ns, js, |ns|);
  }

  /**
   * The number of normal-mode frames until a voice first fires, when each frame
   * draws the next jitter of js; None when it does not fire within |js| frames.
   */
  function FirstFire(timer: int, interval: int, js: seq<real>): (r: Option<nat>)
    requires TimerInRange(timer, interval) && ValidJitters(js)
    ensures r.Some? ==> 1 <= r.value <= |js|
    decreases |js|
  {
    if js == [] then None
    else
      var t := Step(timer, interval, js[0]);
      if t.fired then Some(1)
      else
        match FirstFire(t.timer, interval, js[1..])
        case None => None
        case Some(n) => Some(n + 1)
  }

  /**
   * The polyrhythm's window: a voice whose timer is in range fires first after
   * at least interval - 2 - timer and at most interval + 2 - timer frames,
   * whatever jitters are drawn.
   */
  lemma {:induction false} FireWindow(timer: int, interval: int, js: seq<real>)
    requires TimerInRange(timer, interval) && ValidJitters(js)
    requires |js| >= interval + 2 - timer
    decreases |js|
    ensures FirstFire(timer, interval, js).Some?
    ensures interval - 2 - timer <= FirstFire(timer, interval, js).value <= interval + 2 - timer
  {
    var t := Step(timer, interval, js[0]);
    if !t.fired {
      assert ValidJitters(js[1..]) by {
        forall k | 0 <= k < |js| - 1 ensures ValidJitter(js[1..][k]) {
          assert js[1..][k] == js[k + 1];
        }
      }
      FireWindow(t.timer, interval, js[1..]);
    }
  }

  /**
   * The G3 voice (interval 90, starting at 60) first plays after 28 to 32
   * frames; from a reset timer it plays again after 88 to 92 frames.
   */
  lemma ThirdVoiceRhythm(js: seq<real>)
    requires ValidJitters(js) && |js| >= 92
    ensures FirstFire(StartTimers[2], Intervals[2], js).Some?
    ensures 28 <= FirstFire(StartTimers[2], Intervals[2], js).value <= 32
    ensures FirstFire(0, Intervals[2], js).Some?
    ensures 88 <= FirstFire(0, Intervals[2], js).value <= 92
  {
    FireWindow(StartTimers[2], Intervals[2], js);
    FireWindow(0, Intervals[2], js);
  }

  /** What the constructor sends: every piano voice and the bass at level 0, the bass at 55 Hz. */
  const SetupCommands: seq<Command> :=
    [PianoAmp(0, 0.0, 0.0), PianoAmp(1, 0.0, 0.0), PianoAmp(2, 0.0, 0.0), PianoAmp(3, 0.0, 0.0),
     PianoAmp(4, 0.0, 0.0), BassFreq(BassFrequency), BassAmp(0.0, 0.0)]

  /** The sequencer: the five voices and the bass, with the commands sent so far. */
  class MusicManager {
    const notes: array<Note>
    var log: seq<Command>

    ghost predicate Valid()
      reads this, notes
    {
      ValidNotes(notes[..])
    }

    /** Builds the five voices with their starting timers; the oscillators start silent. */
    constructor ()
      ensures Valid() && fresh(notes)
      ensures forall k :: 0 <= k < VoiceCount ==> notes[k].timer == StartTimers[k]
      ensures log == SetupCommands
    {
      notes := new Note[VoiceCount] (k requires 0 <= k < VoiceCount => Note(Frequencies[k], Intervals[k], StartTimers[k]));
      log := SetupCommands;
    }

    /** start(): starts the bass oscillator. */
    method Start()
      modifies this
      ensures log == old(log) + [BassStart]
    {
      log := log + [BassStart];
    }

    /**
     * update(isNegative), one frame. pulseSin and wobbleSin are sin(0.2 * frame)
     * and sin(0.8 * frame); js holds the jitter each voice draws this frame.
     */
    method Update(negative: bool, pulseSin: real, wobbleSin: real, js: seq<real>)
      requires Valid()
      requires -1.0 <= pulseSin <= 1.0
      requires |js| == VoiceCount && ValidJitters(js)
      modifies this, notes
      ensures Valid()
      ensures negative ==> notes[..] == old(notes[..]) && log == old(log) + NegativeCommands(pulseSin, wobbleSin)
      ensures !negative ==> notes[..] == Advance(old(notes[..]), js)
      ensures !negative ==> log == old(log) + [BassAmp(0.0, 1.0)] + Plays(old(notes[..]), js, VoiceCount)
    {
      if negative {
        Silence(pulseSin, wobbleSin);
      } else {
        log := log + [BassAmp(0.0, 1.0)];
        RunSequencer(js);
      }
    }

    /** Fist mode: silences the piano and sets the bass pulse; no timer moves. */
    method Silence(pulseSin: real, wobbleSin: real)
      requires -1.0 <= pulseSin <= 1.0
      modifies this
      ensures log == old(log) + NegativeCommands(pulseSin, wobbleSin)
    {
      var k := 0;
      while k < VoiceCount
        invariant 0 <= k <= VoiceCount
        invariant log == old(log) + NegativeCommands(pulseSin, wobbleSin)[..k]
      {
        log := log + [PianoAmp(k, 0.0, 0.5)];
        k := k + 1;
      }
      log := log + [BassAmp(PulseLevel(pulseSin), 0.1), BassFreq(BassFrequency + wobbleSin * 3.0)];
      assert log == old(log) + NegativeCommands(pulseSin, wobbleSin);
    }

    /** Normal mode's loop over the voices: each timer counts up and its voice plays when due. */
    method RunSequencer(js: seq<real>)
      requires Valid()
      requires |js| == VoiceCount && ValidJitters(js)
      modifies this, notes
      ensures Valid()
      ensures notes[..] == Advance(old(notes[..]), js)
      ensures log == old(log) + Plays(old(notes[..]), js, VoiceCount)
    {
      ghost var before := notes[..];
      var k := 0;
      while k < VoiceCount
        invariant 0 <= k <= VoiceCount
        invariant forall v :: 0 <= v < k ==> notes[v] == AdvanceNote(before[v], js[v])
        invariant forall v :: k <= v < VoiceCount ==> notes[v] == before[v]
        invariant log == old(log) + Plays(before, js, k)
      {
        TickVoice(k, js[k]);
        k := k + 1;
      }
      assert notes[..] == Advance(before, js);
      AdvanceKeepsVoices(before, js);
    }

    /** One voice's turn in the loop: its timer counts up and it plays when due. */
    method TickVoice(k: nat, jitter: real)
      requires k < notes.Length && ValidNote(notes[k]) && ValidJitter(jitter)
      modifies this, notes
      ensures notes[k] == AdvanceNote(old(notes[k]), jitter)
      ensures forall v :: 0 <= v < notes.Length && v != k ==> notes[v] == old(notes[v])
      ensures log == old(log) + if Step(old(notes[k]).timer, old(notes[k]).interval, jitter).fired then [PlayNote(k)] else []
    {
      var n := notes[k];
      var t := n.timer + 1;
      if t as real >= n.interval as real + jitter {
        log := log + [PlayNote(k)];
        t := 0;
      }
      notes[k] := n.(timer := t);
    }
  }
}
