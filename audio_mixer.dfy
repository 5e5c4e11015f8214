/** The mixer side of AudioStudio.tsx: the effect settings, their 20-entry
    undo history (`pushToHistory`, `handleUndo`, `handleRedo`), the EQ
    presets, the node graph `connectNodes` wires, and the drum sequencer's
    step counter. */
module AudioMixer {
  import opened Numeric
  import opened SnapshotHistory

  datatype Compressor = Compressor(threshold: real, ratio: real, attack: real, release: real)

  /** The live settings the history records. */
  datatype Settings = Settings(
    volume: real, eq: seq<real>, compressor: Compressor, reverbMix: real,
    delayTime: real, delayFeedback: real, playbackRate: real, bassBoost: real,
    loudness: bool, virtualizer: real)

  /** An `AudioProjectState` entry: the settings with `loudness` stored as
      the number 1 or 0. */
  datatype ProjectState = ProjectState(
    volume: real, eq: seq<real>, compressor: Compressor, reverbMix: real,
    delayTime: real, delayFeedback: real, playbackRate: real, bassBoost: real,
    loudness: int, virtualizer: real)

  const AudioHistoryLimit: nat := 20

  /** The settings on mount: volume 0.8, a flat ten-band EQ, the default
      compressor, every effect off, normal speed. */
  function InitialSettings(): (s: Settings)
    ensures |s.eq| == 10 && !s.loudness
  {
    Settings(0.8, seq(10, _ => 0.0), Compressor(-20.0, 4.0, 0.1, 0.5), 0.0,
             0.0, 0.3, 1.0, 0.0, false, 0.0)
  }

  /** What `pushToHistory` records: `loudness ? 1 : 0`. */
  function Capture(s: Settings): (p: ProjectState)
    ensures p.loudness == 0 || p.loudness == 1
    ensures p.loudness == 1 <==> s.loudness
  {
    ProjectState(s.volume, s.eq, s.compressor, s.reverbMix, s.delayTime, s.delayFeedback,
                 s.playbackRate, s.bassBoost, if s.loudness then 1 else 0, s.virtualizer)
  }

  /** What undo and redo load back: `!!prev.loudness`, so any non-zero
      number means on. */
  function Restore(p: ProjectState): (s: Settings)
    ensures s.loudness <==> p.loudness != 0
  {
    Settings(p.volume, p.eq, p.compressor, p.reverbMix, p.delayTime, p.delayFeedback,
             p.playbackRate, p.bassBoost, p.loudness != 0, p.virtualizer)
  }

  /** Restoring a recorded state gives back exactly the settings recorded;
      recording a restored entry gives back the entry iff its loudness was
      stored as 0 or 1. */
  lemma CaptureRestoreRoundTrip(s: Settings, p: ProjectState)
    ensures Restore(Capture(s)) == s
    ensures Capture(Restore(p)) == p <==> p.loudness == 0 || p.loudness == 1
  {
  }

  /** `EQ_PRESETS[name]`: ten gains per preset, in dB. */
  function Preset(name: string): (r: Option<seq<real>>)
    ensures r.Some? ==> |r.value| == 10
  {
    if name == "Flat" then Some([0.0, 0.0, 0.0, 0.0, 0.0, 0.0, 0.0, 0.0, 0.0, 0.0])
    else if name == "Deep Bass" then Some([8.0, 6.0, 3.0, 0.0, -2.0, -2.0, 0.0, 0.0, 2.0, 3.0])
    else if name == "Heavy Metal" then Some([6.0, 4.0, 0.0, -3.0, -2.0, 2.0, 4.0, 5.0, 4.0, 3.0])
    else if name == "Vocal Boost" then Some([-2.0, -2.0, -2.0, 2.0, 5.0, 5.0, 4.0, 2.0, 1.0, 0.0])
    else if name == "Electronic" then Some([5.0, 4.0, 2.0, 0.0, -2.0, 2.0, 0.0, 2.0, 4.0, 5.0])
    else if name == "Podcast" then Some([-5.0, -2.0, 0.0, 2.0, 2.0, 3.0, 2.0, 0.0, -2.0, -5.0])
    else None
  }

  /** Every preset stays inside the sliders' range of -12 to 12 dB. */
  lemma PresetsWithinSliderRange(name: string, i: int)
    requires Preset(name).Some? && 0 <= i < 10
    ensures -12.0 <= Preset(name).value[i] <= 12.0
  {
  }

  /** The mixer's state and its history. */
  class Mixer {
    var settings: Settings
    const history: History<ProjectState>

    ghost predicate Valid()
      reads this, history
    {
      history.Valid() && history.capacity == AudioHistoryLimit
    }

    /** On mount the history is empty, so the mount effect records the
        initial settings. */
    constructor ()
      ensures Valid() && fresh(history)
      ensures settings == InitialSettings()
      ensures history.State() == Log([Capture(InitialSettings())], 0)
    {
      settings := InitialSettings();
      history := new History(AudioHistoryLimit);
      new;
      history.PushAdvance(Capture(settings));
    }

    /** `pushToHistory`: records the live settings. */
    method PushToHistory()
      requires Valid()
      modifies history
      ensures Valid()
      ensures history.State() == PushedAdvanced(old(history.State()), Capture(settings), AudioHistoryLimit)
    {
      history.PushAdvance(Capture(settings));
    }

    /** `applyPreset`: for a known preset, record the live settings, then
        replace the EQ gains; an unknown name does nothing. */
    method ApplyPreset(name: string)
      requires Valid()
      modifies this, history
      ensures Valid()
      ensures Preset(name).Some? ==>
                && history.State() == PushedAdvanced(old(history.State()), Capture(old(settings)), AudioHistoryLimit)
                && settings == old(settings).(eq := Preset(name).value)
      ensures Preset(name).None? ==> settings == old(settings) && history.State() == old(history.State())
    {
      var gains := Preset(name);
      if gains.Some? {
        PushToHistory();
        settings := settings.(eq := gains.value);
      }
    }

    /** `handleEqChange`: one band moves while the slider is dragged; the
        slider's mouse-up calls `pushToHistory` separately. */
    method SetEqBand(index: int, value: real)
      requires Valid() && 0 <= index < |settings.eq|
      modifies this
      ensures settings == old(settings).(eq := old(settings).eq[index := value])
    {
      settings := settings.(eq := settings.eq[index := value]);
    }

    /** `handleUndo`: with the cursor above 0, load the entry below it. */
    method Undo()
      requires Valid()
      modifies this, history
      ensures Valid()
      ensures var (h, restored) := Undone(old(history.State()));
              && history.State() == h
              && settings == (if restored.Some? then Restore(restored.value) else old(settings))
    {
      var restored := history.Undo();
      if restored.Some? {
        settings := Restore(restored.value);
      }
    }

    /** `handleRedo`: with the cursor below the last index, load the entry
        above it. */
    method Redo()
      requires Valid()
      modifies this, history
      ensures Valid()
      ensures var (h, restored) := Redone(old(history.State()));
              && history.State() == h
              && settings == (if restored.Some? then Restore(restored.value) else old(settings))
    {
      var restored := history.Redo();
      if restored.Some? {
        settings := Restore(restored.value);
      }
    }
  }

  /** The history after mount and `applyPreset` with gains `g1`, then with
      gains `g2`. */
  function AfterTwoPresets(s0: Settings, g1: seq<real>, g2: seq<real>): Log<ProjectState>
  {
    var h0 := Log([Capture(s0)], 0);
    var h1 := PushedAdvanced(h0, Capture(s0), AudioHistoryLimit);
    PushedAdvanced(h1, Capture(s0.(eq := g1)), AudioHistoryLimit)
  }

  /** Because `applyPreset` records the settings before it changes them,
      after mount and two presets one undo loads the settings from before
      the first preset, not those between the two. */
  lemma PresetUndoSkipsState(s0: Settings, g1: seq<real>, g2: seq<real>)
    ensures var h := AfterTwoPresets(s0, g1, g2);
            && h.entries == [Capture(s0), Capture(s0), Capture(s0.(eq := g1))]
            && Undone(h).1 == Some(Capture(s0))
            && Restore(Undone(h).1.value) == s0
  {
    var h0 := Log([Capture(s0)], 0);
    assert KeptPrefix(h0.entries, h0.step) == [Capture(s0)];
    var h1 := PushedAdvanced(h0, Capture(s0), AudioHistoryLimit);
    assert h1.entries == [Capture(s0), Capture(s0)];
    assert KeptPrefix(h1.entries, h1.step) == h1.entries;
  }

  // ---------------------------------------------------------------------
  // The node graph.

  datatype Node =
    | Source | BassBoost | Eq(band: nat) | Loudness | CompressorNode | Master
    | Reverb | ReverbGain | Delay | DelayGain | VirtDelay | VirtGain
    | Analyser | Destination

  type Edge = (Node, Node)

  /** The edge into EQ band i: from the bass boost for the first band, from
      the band before it otherwise. */
  function BandLink(i: nat): (e: Edge)
    ensures e.1 == Eq(i)
  {
    (if i == 0 then BassBoost else Eq(i - 1), Eq(i))
  }

  /** The serial chain: source, bass boost, the EQ bands in order,
      loudness, compressor, master. */
  function ChainEdges(bands: nat): set<Edge>
  {
    {(Source, BassBoost)}
    + BandLinks(bands)
    + {(if bands == 0 then BassBoost else Eq(bands - 1), Loudness),
       (Loudness, CompressorNode), (CompressorNode, Master)}
  }

  /** The three parallel sends off the compressor. */
  datatype Send = ReverbSend | DelaySend | VirtualizerSend

  /** The setting that switches a send on: the reverb mix, the delay time
      and the virtualizer amount. */
  function Level(s: Settings, send: Send): real
  {
    match send
    case ReverbSend => s.reverbMix
    case DelaySend => s.delayTime
    case VirtualizerSend => s.virtualizer
  }

  /** The effect node of a send and the gain node that returns it. */
  function Effect(send: Send): Node
  {
    match send
    case ReverbSend => Reverb
    case DelaySend => Delay
    case VirtualizerSend => VirtDelay
  }

  function Return(send: Send): Node
  {
    match send
    case ReverbSend => ReverbGain
    case DelaySend => DelayGain
    case VirtualizerSend => VirtGain
  }

  /** compressor -> effect -> return gain -> master, when the level is above 0. */
  function SendPath(s: Settings, send: Send): set<Edge>
  {
    if Level(s, send) > 0.0
    then {(CompressorNode, Effect(send)), (Effect(send), Return(send)), (Return(send), Master)}
    else {}
  }

  /** The graph `connectNodes` leaves, as the set of its connections. */
  function Wiring(s: Settings, bands: nat): set<Edge>
  {
    ChainEdges(bands)
      + SendPath(s, ReverbSend) + SendPath(s, DelaySend) + SendPath(s, VirtualizerSend)
      + {(Master, Analyser), (Master, Destination)}
  }

  function BandLinks(n: nat): set<Edge>
  {
    set j: nat | j < n :: BandLink(j)
  }

  lemma BandLinksStep(n: nat)
    ensures BandLinks(n + 1) == BandLinks(n) + {BandLink(n)}
  {
    assert BandLink(n) in BandLinks(n + 1);
  }

  /** `connectNodes`, after every node has been disconnected: the
      `currentNode` walk through the EQ bands, then the fixed connections
      and the sends. */
  method ConnectNodes(s: Settings, bands: nat) returns (edges: set<Edge>)
    ensures edges == Wiring(s, bands)
  {
    edges := {(Source, BassBoost)};
    var currentNode := BassBoost;
    var i := 0;
    while i < bands
      invariant 0 <= i <= bands
      invariant currentNode == if i == 0 then BassBoost else Eq(i - 1)
      invariant edges == {(Source, BassBoost)} + BandLinks(i)
    {
      BandLinksStep(i);
      edges := edges + {(currentNode, Eq(i))};
      currentNode := Eq(i);
      i := i + 1;
    }
    edges := edges + {(currentNode, Loudness)};
    edges := edges + {(Loudness, CompressorNode)};
    edges := edges + {(CompressorNode, Master)};
    assert edges == ChainEdges(bands);
    ghost var w := edges;
    if s.reverbMix > 0.0 {
      edges := edges + {(CompressorNode, Reverb), (Reverb, ReverbGain), (ReverbGain, Master)};
    }
    assert edges == w + SendPath(s, ReverbSend);
    w := edges;
    if s.delayTime > 0.0 {
      edges := edges + {(CompressorNode, Delay), (Delay, DelayGain), (DelayGain, Master)};
    }
    assert edges == w + SendPath(s, DelaySend);
    w := edges;
    if s.virtualizer > 0.0 {
      edges := edges + {(CompressorNode, VirtDelay), (VirtDelay, VirtGain), (VirtGain, Master)};
    }
    assert edges == w + SendPath(s, VirtualizerSend);
    edges := edges + {(Master, Analyser)};
    edges := edges + {(Master, Destination)};
  }

  /** The nodes of the serial chain. */
  predicate OnChain(n: Node)
  {
    n.Source? || n.BassBoost? || n.Eq? || n.Loudness? || n.CompressorNode? || n.Master?
  }

  /** Every edge of the serial chain joins two chain nodes, and the only one
      that enters the master gain comes from the compressor. */
  lemma ChainEdgeShape(bands: nat, e: Edge)
    requires e in ChainEdges(bands)
    ensures OnChain(e.0) && OnChain(e.1) && (e.1 == Master ==> e.0 == CompressorNode)
  {
  }

  /** Each send is wired, all three of its edges, exactly when its level is
      above 0. */
  lemma SendWiredIff(s: Settings, bands: nat, send: Send)
    ensures (CompressorNode, Effect(send)) in Wiring(s, bands) <==> Level(s, send) > 0.0
    ensures (Effect(send), Return(send)) in Wiring(s, bands) <==> Level(s, send) > 0.0
    ensures (Return(send), Master) in Wiring(s, bands) <==> Level(s, send) > 0.0
  {
    var chain := ChainEdges(bands);
    if (CompressorNode, Effect(send)) in chain {
      ChainEdgeShape(bands, (CompressorNode, Effect(send)));
    }
    if (Effect(send), Return(send)) in chain {
      ChainEdgeShape(bands, (Effect(send), Return(send)));
    }
    if (Return(send), Master) in chain {
      ChainEdgeShape(bands, (Return(send), Master));
    }
  }

  /** The EQ bands form a path in order: band i feeds band i + 1, the bass
      boost feeds the first band and the last band feeds loudness. */
  lemma EqBandsInSeries(s: Settings, bands: nat, i: nat)
    requires bands > 0 && i + 1 < bands
    ensures (Eq(i), Eq(i + 1)) in Wiring(s, bands)
    ensures (BassBoost, Eq(0)) in Wiring(s, bands)
    ensures (Eq(bands - 1), Loudness) in Wiring(s, bands)
  {
    assert BandLink(i + 1) in BandLinks(bands);
    assert BandLink(0) in BandLinks(bands);
  }

  /** The master gain is fed only by the compressor and the send returns. */
  lemma MasterInputs(s: Settings, bands: nat, a: Node)
    requires (a, Master) in Wiring(s, bands)
    ensures a in {CompressorNode, ReverbGain, DelayGain, VirtGain}
  {
    if (a, Master) in ChainEdges(bands) {
      ChainEdgeShape(bands, (a, Master));
    }
  }

  // ---------------------------------------------------------------------
  // The drum sequencer.

  /** One tick of the sequencer interval: `(prev + 1) % 16`. */
  function NextStep(prev: int): (r: int)
    ensures 0 <= r < 16
  {
    (prev + 1) % 16
  }

  function StepAfter(prev: int, n: nat): int
    decreases n
  {
    if n == 0 then prev else NextStep(StepAfter(prev, n - 1))
  }

  /** From a step in [0, 16), n ticks land on `(prev + n) % 16`. */
  lemma {:induction false} StepAfterIsModular(prev: int, n: nat)
    requires 0 <= prev < 16
    ensures StepAfter(prev, n) == (prev + n) % 16
    decreases n
  {
    if n > 0 {
      StepAfterIsModular(prev, n - 1);
    }
  }

  /** The sequencer returns to the step it started from exactly when the
      number of ticks is a multiple of 16. */
  lemma StepCycle(prev: int, n: nat)
    requires 0 <= prev < 16
    ensures StepAfter(prev, n) == prev <==> n % 16 == 0
  {
    StepAfterIsModular(prev, n);
    var q := n / 16;
    var r := n % 16;
    assert n == r + 16 * q;
    AddCycles(prev + r, q);
    assert (prev + n) % 16 == (prev + r) % 16;
    if prev + r >= 16 {
      assert (prev + r) % 16 == prev + r - 16;
    }
  }

  lemma {:induction false} AddCycles(a: int, q: nat)
    ensures (a + 16 * q) % 16 == a % 16
    decreases q
  {
    if q > 0 {
      AddCycles(a, q - 1);
      assert a + 16 * q == (a + 16 * (q - 1)) + 16;
    }
  }
}
