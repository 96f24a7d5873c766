/** Reading the core options (libretro.c: `DoOptionBoolean` and
    `UpdateOptions`). The host's answers to `RETRO_ENVIRONMENT_GET_VARIABLE`
    are a map from option key to current value: a key the map does not hold
    stands for a failed call or a NULL value. The mixer and the call that
    announces new audio/video information are recorded as effects. */
module Options {
  import opened Base
  import opened OptionTable
  import opened Colour
  import opened Video

  /** The host's current option values: both keys and values are C strings. */
  type Variables = map<CString, CString>

  /** `DoOptionBoolean`: the option is on exactly when the host answers with
      a value equal to `trueValue`; a failed query, a NULL value and any
      other value all read as off. */
  function OptionBoolean(vars: Variables, key: CString, trueValue: CString): (on: bool)
    ensures key !in vars ==> !on
    ensures key in vars ==> (on <==> vars[key] == trueValue)
    ensures on ==> |vars[key]| == |trueValue| && forall i | 0 <= i < |trueValue| :: vars[key][i] == trueValue[i]
  {
    key in vars && vars[key] == trueValue
  }

  /** A question `UpdateOptions` asks the host: a key and the value that
      counts as true. */
  datatype Query = Query(key: CString, trueValue: CString)

  function Ask(vars: Variables, q: Query): bool
  {
    OptionBoolean(vars, q.key, q.trueValue)
  }

  const TvStandardQuery: Query := Query("clownmdemu_tv_standard", "pal")
  const TallInterlaceQuery: Query := Query("clownmdemu_tall_interlace_mode_2", "enabled")
  const RegionQuery: Query := Query("clownmdemu_overseas_region", "elsewhere")
  const LowPassQuery: Query := Query("clownmdemu_lowpass_filter", "enabled")
  const SpriteQuery: Query := Query("clownmdemu_disable_sprite_plane", "enabled")
  const WindowQuery: Query := Query("clownmdemu_disable_window_plane", "enabled")
  const PlaneQueries: seq<Query> := [
    Query("clownmdemu_disable_plane_a", "enabled"),
    Query("clownmdemu_disable_plane_b", "enabled")
  ]
  const FmQueries: seq<Query> := [
    Query("clownmdemu_disable_fm1", "enabled"),
    Query("clownmdemu_disable_fm2", "enabled"),
    Query("clownmdemu_disable_fm3", "enabled"),
    Query("clownmdemu_disable_fm4", "enabled"),
    Query("clownmdemu_disable_fm5", "enabled"),
    Query("clownmdemu_disable_fm6", "enabled")
  ]
  const DacQuery: Query := Query("clownmdemu_disable_dac", "enabled")
  const LadderQuery: Query := Query("clownmdemu_ladder_effect", "enabled")
  const ToneQueries: seq<Query> := [
    Query("clownmdemu_disable_psg1", "enabled"),
    Query("clownmdemu_disable_psg2", "enabled"),
    Query("clownmdemu_disable_psg3", "enabled")
  ]
  const NoiseQuery: Query := Query("clownmdemu_disable_psg_noise", "enabled")
  const PcmQueries: seq<Query> := [
    Query("clownmdemu_disable_pcm1", "enabled"),
    Query("clownmdemu_disable_pcm2", "enabled"),
    Query("clownmdemu_disable_pcm3", "enabled"),
    Query("clownmdemu_disable_pcm4", "enabled"),
    Query("clownmdemu_disable_pcm5", "enabled"),
    Query("clownmdemu_disable_pcm6", "enabled"),
    Query("clownmdemu_disable_pcm7", "enabled"),
    Query("clownmdemu_disable_pcm8", "enabled")
  ]

  /** Every question `UpdateOptions` asks (libretro.c:776-820), in the order
      it asks them. */
  const Queries: seq<Query> :=
    [TvStandardQuery, TallInterlaceQuery, RegionQuery, LowPassQuery, SpriteQuery, WindowQuery]
    + PlaneQueries + FmQueries + [DacQuery, LadderQuery] + ToneQueries + [NoiseQuery] + PcmQueries

  /** The answers to a list of questions, in order. */
  function AskAll(vars: Variables, qs: seq<Query>): (answers: seq<bool>)
    ensures |answers| == |qs|
    ensures forall i | 0 <= i < |qs| :: answers[i] == Ask(vars, qs[i])
  {
    if qs == [] then [] else [Ask(vars, qs[0])] + AskAll(vars, qs[1..])
  }

  /** The engine settings `UpdateOptions` writes, one field per setting. */
  datatype Region = Overseas | Domestic
  datatype Standard = Pal | Ntsc

  datatype EngineConfig = EngineConfig(
    region: Region,
    standard: Standard,
    lowPassFilterDisabled: bool,
    spritesDisabled: bool,
    windowDisabled: bool,
    planesDisabled: seq<bool>,
    fmChannelsDisabled: seq<bool>,
    dacChannelDisabled: bool,
    ladderEffectDisabled: bool,
    toneDisabled: seq<bool>,
    noiseDisabled: bool,
    pcmChannelsDisabled: seq<bool>)

  /** The engine configuration for the host's answers (libretro.c:794-820);
      the TV standard follows the PAL flag, not the variable, and the low-pass
      filter and ladder effect are disabled when their options are off. */
  function ReadConfig(vars: Variables, pal: bool): (c: EngineConfig)
    ensures c.region == Overseas <==> Ask(vars, RegionQuery)
    ensures c.standard == Pal <==> pal
    ensures c.lowPassFilterDisabled <==> !Ask(vars, LowPassQuery)
    ensures c.spritesDisabled <==> Ask(vars, SpriteQuery)
    ensures c.windowDisabled <==> Ask(vars, WindowQuery)
    ensures |c.planesDisabled| == |PlaneQueries|
    ensures forall i | 0 <= i < |PlaneQueries| :: c.planesDisabled[i] <==> Ask(vars, PlaneQueries[i])
    ensures |c.fmChannelsDisabled| == |FmQueries|
    ensures forall i | 0 <= i < |FmQueries| :: c.fmChannelsDisabled[i] <==> Ask(vars, FmQueries[i])
    ensures c.dacChannelDisabled <==> Ask(vars, DacQuery)
    ensures c.ladderEffectDisabled <==> !Ask(vars, LadderQuery)
    ensures |c.toneDisabled| == |ToneQueries|
    ensures forall i | 0 <= i < |ToneQueries| :: c.toneDisabled[i] <==> Ask(vars, ToneQueries[i])
    ensures c.noiseDisabled <==> Ask(vars, NoiseQuery)
    ensures |c.pcmChannelsDisabled| == |PcmQueries|
    ensures forall i | 0 <= i < |PcmQueries| :: c.pcmChannelsDisabled[i] <==> Ask(vars, PcmQueries[i])
  {
    EngineConfig(
      if Ask(vars, RegionQuery) then Overseas else Domestic,
      if pal then Pal else Ntsc,
      !Ask(vars, LowPassQuery),
      Ask(vars, SpriteQuery),
      Ask(vars, WindowQuery),
      AskAll(vars, PlaneQueries),
      AskAll(vars, FmQueries),
      Ask(vars, DacQuery),
      !Ask(vars, LadderQuery),
      AskAll(vars, ToneQueries),
      Ask(vars, NoiseQuery),
      AskAll(vars, PcmQueries))
  }

  /** Two sets of answers that agree on every question. */
  predicate AgreeOnQueries(vars: Variables, other: Variables)
  {
    forall q | q in Queries :: Ask(vars, q) == Ask(other, q)
  }

  /** The flags the bridge keeps and the configuration it hands the engine. */
  datatype OptionState = OptionState(pal: bool, tall: bool, config: EngineConfig)

  /** What `UpdateOptions` does outside its own state: the mixer is
      re-initialised for a TV standard, a pixel format is offered to the
      host while the fallback is negotiated, new audio/video information is
      announced. */
  datatype Effect = MixerReinitialised(pal: bool) | PixelFormatOffered(format: PixelFormat) | AvInfoAnnounced(info: AvInfo)

  datatype Update = Update(state: OptionState, video: VideoState, effects: seq<Effect>)

  function Offers(formats: seq<PixelFormat>): (es: seq<Effect>)
    ensures |es| == |formats|
    ensures forall i | 0 <= i < |es| :: es[i] == PixelFormatOffered(formats[i])
  {
    if formats == [] then [] else [PixelFormatOffered(formats[0])] + Offers(formats[1..])
  }

  /** `UpdateOptions`. The PAL flag is XOR-ed with "it differs from the
      variable"; when it changed and `onlyFlags` is false, the mixer is
      re-initialised and the audio/video information, computed while the
      tall-interlace flag still holds its previous value, is announced. Then
      the tall-interlace flag and the engine configuration are refreshed.

      Whatever the previous flags, the PAL and tall-interlace flags end up
      equal to their variables; the effects happen exactly when the PAL
      flag changed outside the first call. They are then the mixer's
      restart, one offer per pixel format tried while the fallback is
      renegotiated, and the announcement of the geometry and timing the
      refreshed flags describe; the video state becomes the one
      `retro_get_system_av_info` leaves. */
  function UpdateOptions(s: OptionState, v: VideoState, vars: Variables, onlyFlags: bool,
                         accepts565: bool, accepts8888: bool): (u: Update)
    ensures u.state.pal == Ask(vars, TvStandardQuery)
    ensures u.state.tall == Ask(vars, TallInterlaceQuery)
    ensures u.state.config.standard == (if u.state.pal then Pal else Ntsc)
    ensures u.state.config == ReadConfig(vars, u.state.pal)
    ensures u.effects != [] <==> s.pal != u.state.pal && !onlyFlags
    ensures u.effects == [] ==> u.video == v
    ensures u.effects != [] ==>
      && u.effects[0] == MixerReinitialised(u.state.pal)
      && u.effects[|u.effects| - 1]
         == AvInfoAnnounced(GetSystemAvInfo(v, u.state.pal, u.state.tall, accepts565, accepts8888).info)
      && u.video.width == 320 && u.video.height == 224
    ensures u.effects != [] ==>
      var r := GetSystemAvInfo(v, u.state.pal, u.state.tall, accepts565, accepts8888);
      && u.video == r.video
      && |u.effects| == |r.asked| + 2
      && u.effects[1..|u.effects| - 1] == Offers(r.asked)
    ensures v.Valid() ==> u.video.Valid()
  {
    var changed := s.pal != Ask(vars, TvStandardQuery);
    var pal := s.pal != changed;
    var announced :=
      if changed && !onlyFlags then
        var r := GetSystemAvInfo(v, pal, s.tall, accepts565, accepts8888);
        AnnouncementIgnoresTall(v, pal, s.tall, Ask(vars, TallInterlaceQuery),
                                accepts565, accepts8888);
        Update(s, r.video, [MixerReinitialised(pal)] + Offers(r.asked) + [AvInfoAnnounced(r.info)])
      else
        Update(s, v, []);
    var tall := Ask(vars, TallInterlaceQuery);
    Update(OptionState(pal, tall, ReadConfig(vars, pal)), announced.video, announced.effects)
  }

  /** The announcement is made before the tall-interlace flag is refreshed,
      but the size it reports is 320 x 224, whose aspect ratio the flag does
      not affect, so the order does not matter. */
  lemma AnnouncementIgnoresTall(v: VideoState, pal: bool, tall: bool, tall': bool, accepts565: bool, accepts8888: bool)
    ensures GetSystemAvInfo(v, pal, tall, accepts565, accepts8888)
         == GetSystemAvInfo(v, pal, tall', accepts565, accepts8888)
  {
    TallNeverSquishes(320, 224);
  }

  /** The engine configuration depends on the variables only through the
      answers to the listed questions. */
  lemma ConfigOnlyQueries(vars: Variables, other: Variables, pal: bool)
    requires AgreeOnQueries(vars, other)
    ensures ReadConfig(vars, pal) == ReadConfig(other, pal)
  {
    QueriesCoverConfig();
    AgreeOnGroup(vars, other, PlaneQueries, Queries);
    AgreeOnGroup(vars, other, FmQueries, Queries);
    AgreeOnGroup(vars, other, ToneQueries, Queries);
    AgreeOnGroup(vars, other, PcmQueries, Queries);
  }

  /** Only the answers to the listed questions matter: the state, the video
      state and the effects are the same for two sets of variables that agree
      on them. */
  lemma OnlyQueriesMatter(s: OptionState, v: VideoState, vars: Variables, other: Variables, onlyFlags: bool,
                          accepts565: bool, accepts8888: bool)
    requires AgreeOnQueries(vars, other)
    ensures UpdateOptions(s, v, vars, onlyFlags, accepts565, accepts8888)
         == UpdateOptions(s, v, other, onlyFlags, accepts565, accepts8888)
  {
    assert Queries[0] == TvStandardQuery && Queries[1] == TallInterlaceQuery;
    ConfigOnlyQueries(vars, other, true);
    ConfigOnlyQueries(vars, other, false);
  }

  /** Every question `ReadConfig` asks is in `Queries`. */
  lemma QueriesCoverConfig()
    ensures RegionQuery in Queries && LowPassQuery in Queries && SpriteQuery in Queries && WindowQuery in Queries
    ensures DacQuery in Queries && LadderQuery in Queries && NoiseQuery in Queries
    ensures forall q | q in PlaneQueries :: q in Queries
    ensures forall q | q in FmQueries :: q in Queries
    ensures forall q | q in ToneQueries :: q in Queries
    ensures forall q | q in PcmQueries :: q in Queries
  {
    var front := [TvStandardQuery, TallInterlaceQuery, RegionQuery, LowPassQuery, SpriteQuery, WindowQuery];
    assert Queries == front + PlaneQueries + FmQueries + [DacQuery, LadderQuery] + ToneQueries + [NoiseQuery] + PcmQueries;
  }

  lemma AgreeOnGroup(vars: Variables, other: Variables, group: seq<Query>, all: seq<Query>)
    requires forall q | q in group :: q in all
    requires forall q | q in all :: Ask(vars, q) == Ask(other, q)
    ensures AskAll(vars, group) == AskAll(other, group)
  {
  }

  /** The CD add-on and widescreen options are published but never read:
      changing either variable changes nothing. */
  lemma UnreadOptions(s: OptionState, v: VideoState, vars: Variables, key: CString, value: CString, onlyFlags: bool,
                      accepts565: bool, accepts8888: bool)
    requires Some(key) == CdAddon.key || Some(key) == Widescreen.key
    ensures UpdateOptions(s, v, vars[key := value], onlyFlags, accepts565, accepts8888)
         == UpdateOptions(s, v, vars, onlyFlags, accepts565, accepts8888)
  {
    UnreadKeysNotAsked(vars, key, value);
    OnlyQueriesMatter(s, v, vars[key := value], vars, onlyFlags, accepts565, accepts8888);
  }

  /** No question asks about the CD add-on or widescreen keys. */
  lemma UnreadKeysNotAsked(vars: Variables, key: CString, value: CString)
    requires Some(key) == CdAddon.key || Some(key) == Widescreen.key
    ensures AgreeOnQueries(vars[key := value], vars)
  {
    forall q | q in Queries
      ensures Ask(vars[key := value], q) == Ask(vars, q)
    {
      assert |q.key| != |key|;
    }
  }
  // ---------------------------------------------------------------------
  // The questions against the option table
  // ---------------------------------------------------------------------

  /** The questions about debug options, in the order of the table. */
  const DebugQueries: seq<Query> :=
    [SpriteQuery, WindowQuery] + PlaneQueries + FmQueries + [DacQuery] + ToneQueries + [NoiseQuery] + PcmQueries

  /** The debug questions ask, option by option, whether the table's debug
      option is "enabled". */
  lemma DebugQueriesMatchTable()
    ensures |DebugQueries| == |DebugKeys|
    ensures forall i | 0 <= i < |DebugQueries| :: DebugQueries[i] == Query(DebugKeys[i], Enabled)
  {
  }

  /** `Queries` is the five setting questions and the debug questions. */
  lemma QueriesSplit(q: Query)
    requires q in Queries
    ensures q in DebugQueries || q in [TvStandardQuery, TallInterlaceQuery, RegionQuery, LowPassQuery, LadderQuery]
  {
  }

  /** `option` is an option of the table under `key` that lists `value`. */
  predicate Names(i: nat, key: CString, value: CString)
  {
    i < OptionCount && i < |Definitions| && Definitions[i].key == Some(key) && Lists(Definitions[i], value)
  }

  /** Every question `UpdateOptions` asks names an option of the table, and
      the value it counts as true is one of that option's values. */
  lemma QueriesNameTableOptions(q: Query)
    requires q in Queries
    ensures exists i :: Names(i, q.key, q.trueValue)
  {
    QueriesSplit(q);
    if q in DebugQueries {
      DefinitionsLayout();
      DebugOptionsWellFormed();
      DebugQueriesMatchTable();
      var i :| 0 <= i < |DebugQueries| && DebugQueries[i] == q;
      assert Definitions[i] == DebugOptions[i];
      assert Definitions[i].values[0].value == Some(Enabled);
      assert Names(i, q.key, q.trueValue);
    } else {
      SettingQueriesNameTableOptions(q);
    }
  }

  lemma SettingQueriesNameTableOptions(q: Query)
    requires q in [TvStandardQuery, TallInterlaceQuery, RegionQuery, LowPassQuery, LadderQuery]
    ensures exists i :: Names(i, q.key, q.trueValue)
  {
    DefinitionsLayout();
    if q == TvStandardQuery {
      NamedAt(23 + 0, TvStandard, q);
    } else if q == RegionQuery {
      NamedAt(23 + 1, OverseasRegion, q);
    } else if q == TallInterlaceQuery {
      NamedAt(23 + 3, TallInterlaceMode2, q);
    } else if q == LowPassQuery {
      NamedAt(23 + 5, LowpassFilter, q);
    } else {
      NamedAt(23 + 6, LadderEffect, q);
    }
  }

  lemma NamedAt(i: nat, d: Definition, q: Query)
    requires i < OptionCount && i < |Definitions| && Definitions[i] == d
    requires d.key == Some(q.key) && |d.values| > 0 && d.values[0].value == Some(q.trueValue)
    ensures Names(i, q.key, q.trueValue)
  {
    assert d.values[0].value == Some(q.trueValue);
  }

  // ---------------------------------------------------------------------
  // The defaults
  // ---------------------------------------------------------------------

  /** Every option of the table holds its default value. */
  predicate AtDefaults(vars: Variables)
  {
    forall i | 0 <= i < OptionCount && i < |Definitions| ::
      Definitions[i].key.Some? && Definitions[i].defaultValue.Some? ==>
        Definitions[i].key.value in vars && vars[Definitions[i].key.value] == Definitions[i].defaultValue.value
  }

  /** The configuration of a console sold outside Japan with every channel
      and plane on, the low-pass filter and the ladder effect on. */
  predicate IsStockConfig(c: EngineConfig)
  {
    && c.region == Overseas && c.standard == Ntsc
    && !c.lowPassFilterDisabled && !c.ladderEffectDisabled
    && !c.spritesDisabled && !c.windowDisabled && !c.dacChannelDisabled && !c.noiseDisabled
    && |c.planesDisabled| == 2 && true !in c.planesDisabled
    && |c.fmChannelsDisabled| == 6 && true !in c.fmChannelsDisabled
    && |c.toneDisabled| == 3 && true !in c.toneDisabled
    && |c.pcmChannelsDisabled| == 8 && true !in c.pcmChannelsDisabled
  }

  lemma DebugAnswersAtDefaults(vars: Variables)
    requires AtDefaults(vars)
    ensures forall q | q in DebugQueries :: !Ask(vars, q)
  {
    DefinitionsLayout();
    DebugOptionsWellFormed();
    DebugQueriesMatchTable();
    forall q | q in DebugQueries
      ensures !Ask(vars, q)
    {
      var i :| 0 <= i < |DebugQueries| && DebugQueries[i] == q;
      assert Definitions[i] == DebugOptions[i];
    }
  }

  lemma SettingAnswersAtDefaults(vars: Variables)
    requires AtDefaults(vars)
    ensures !Ask(vars, TvStandardQuery) && !Ask(vars, TallInterlaceQuery)
    ensures Ask(vars, RegionQuery) && Ask(vars, LowPassQuery) && Ask(vars, LadderQuery)
  {
    DefinitionsLayout();
    assert Definitions[23 + 0] == TvStandard;
    assert Definitions[23 + 1] == OverseasRegion;
    assert Definitions[23 + 3] == TallInterlaceMode2;
    assert Definitions[23 + 5] == LowpassFilter;
    assert Definitions[23 + 6] == LadderEffect;
  }

  lemma NoneAsked(vars: Variables, group: seq<Query>, all: seq<Query>)
    requires forall q | q in group :: q in all
    requires forall q | q in all :: !Ask(vars, q)
    ensures true !in AskAll(vars, group)
  {
  }

  /** When every variable holds its table default, `UpdateOptions` selects
      NTSC, leaves the tall-interlace flag off and hands the engine the
      stock configuration, whatever the previous state. */
  lemma DefaultsGiveStockConfig(s: OptionState, v: VideoState, vars: Variables, onlyFlags: bool,
                                accepts565: bool, accepts8888: bool)
    requires AtDefaults(vars)
    ensures var u := UpdateOptions(s, v, vars, onlyFlags, accepts565, accepts8888);
            !u.state.pal && !u.state.tall && IsStockConfig(u.state.config)
  {
    DebugAnswersAtDefaults(vars);
    SettingAnswersAtDefaults(vars);
    var debug := DebugQueries;
    assert forall q | q in PlaneQueries + FmQueries + ToneQueries + PcmQueries :: q in debug;
    NoneAsked(vars, PlaneQueries, debug);
    NoneAsked(vars, FmQueries, debug);
    NoneAsked(vars, ToneQueries, debug);
    NoneAsked(vars, PcmQueries, debug);
    assert SpriteQuery in debug && WindowQuery in debug && DacQuery in debug && NoiseQuery in debug;
  }
}
