/** The core-option definitions (libretro_core_options.h:52-607), version 2
    of the libretro core-option interface: four categories and thirty
    options, each table closed by an all-NULL sentinel. A NULL pointer is
    `None`. Every value list keeps its `{NULL, NULL}` terminator, so that the
    publisher's loops can run up to it as the C loops do. */
module OptionTable {
  import opened Base

  datatype Category = Category(key: Option<string>, desc: Option<string>, info: Option<string>)

  datatype OptionValue = OptionValue(value: Option<string>, caption: Option<string>)

  datatype Definition = Definition(
    key: Option<string>,
    desc: Option<string>,
    descCategorized: Option<string>,
    info: Option<string>,
    infoCategorized: Option<string>,
    categoryKey: Option<string>,
    values: seq<OptionValue>,
    defaultValue: Option<string>)

  const Terminator: OptionValue := OptionValue(None, None)

  const Sentinel: Definition := Definition(None, None, None, None, None, None, [Terminator], None)

  const DebugCategory: string := "debug"
  const ConsoleCategory: string := "console"
  const VideoCategory: string := "video"
  const AudioCategory: string := "audio"

  /** `option_cats_us`. */
  const Categories: seq<Category> := [
    Category(Some(DebugCategory), Some("Debug"), Some("Unusual options that are intended for debugging.")),
    Category(Some(ConsoleCategory), Some("Console"), Some("Options related to the emulated console.")),
    Category(Some(VideoCategory), Some("Video"), Some("Options related to graphical operations.")),
    Category(Some(AudioCategory), Some("Audio"), Some("Options related to sound operations.")),
    Category(None, None, None)
  ]

  const Enabled: string := "enabled"
  const Disabled: string := "disabled"

  /** The value list of every on/off option: "enabled", "disabled", no labels. */
  const ToggleValues: seq<OptionValue> := [OptionValue(Some(Enabled), None), OptionValue(Some(Disabled), None), Terminator]

  /** The texts of an option: its label, its label inside its category, and
      its description. */
  datatype Text = Text(desc: string, descCategorized: string, info: string)

  /** An on/off option; no option of the table has a categorised description. */
  function Toggle(key: string, t: Text, category: string, defaultValue: string): (d: Definition)
    ensures d.key == Some(key) && d.values == ToggleValues
    ensures d.categoryKey == Some(category) && d.defaultValue == Some(defaultValue)
    ensures d.desc == Some(t.desc) && d.info == Some(t.info)
  {
    Definition(Some(key), Some(t.desc), Some(t.descCategorized), Some(t.info), None, Some(category),
               ToggleValues, Some(defaultValue))
  }

  /** The keys of the twenty-three options of the debug category, in table
      order (libretro_core_options.h:99-420). */
  const DebugKeys: seq<string> := [
    "clownmdemu_disable_sprite_plane",
    "clownmdemu_disable_window_plane",
    "clownmdemu_disable_plane_a",
    "clownmdemu_disable_plane_b",
    "clownmdemu_disable_fm1",
    "clownmdemu_disable_fm2",
    "clownmdemu_disable_fm3",
    "clownmdemu_disable_fm4",
    "clownmdemu_disable_fm5",
    "clownmdemu_disable_fm6",
    "clownmdemu_disable_dac",
    "clownmdemu_disable_psg1",
    "clownmdemu_disable_psg2",
    "clownmdemu_disable_psg3",
    "clownmdemu_disable_psg_noise",
    "clownmdemu_disable_pcm1",
    "clownmdemu_disable_pcm2",
    "clownmdemu_disable_pcm3",
    "clownmdemu_disable_pcm4",
    "clownmdemu_disable_pcm5",
    "clownmdemu_disable_pcm6",
    "clownmdemu_disable_pcm7",
    "clownmdemu_disable_pcm8"
  ]

  /** Their texts, in the same order. */
  const DebugTexts: seq<Text> := [
    Text("Debug > Disable Sprite Plane", "Disable Sprite Plane",
      "Disable the VDP's Sprite Plane."),
    Text("Debug > Disable Window Plane", "Disable Window Plane",
      "Disable the VDP's Window Plane."),
    Text("Debug > Disable Plane A", "Disable Plane A",
      "Disable the VDP's Plane A."),
    Text("Debug > Disable Plane B", "Disable Plane B",
      "Disable the VDP's Plane B."),
    Text("Debug > Disable FM1", "Disable FM1",
      "Disable the YM2612's FM1 channel."),
    Text("Debug > Disable FM2", "Disable FM2",
      "Disable the YM2612's FM2 channel."),
    Text("Debug > Disable FM3", "Disable FM3",
      "Disable the YM2612's FM3 channel."),
    Text("Debug > Disable FM4", "Disable FM4",
      "Disable the YM2612's FM4 channel."),
    Text("Debug > Disable FM5", "Disable FM5",
      "Disable the YM2612's FM5 channel."),
    Text("Debug > Disable FM6", "Disable FM6",
      "Disable the YM2612's FM6 channel."),
    Text("Debug > Disable DAC", "Disable DAC",
      "Disable the YM2612's DAC channel."),
    Text("Debug > Disable PSG1", "Disable PSG1",
      "Disable the SN76496's PSG1 channel."),
    Text("Debug > Disable PSG2", "Disable PSG2",
      "Disable the SN76496's PSG2 channel."),
    Text("Debug > Disable PSG3", "Disable PSG3",
      "Disable the SN76496's PSG3 channel."),
    Text("Debug > Disable PSG Noise", "Disable PSG Noise",
      "Disable the SN76496's PSG Noise channel."),
    Text("Debug > Disable PCM1", "Disable PCM1",
      "Disable the RF5C164's PCM1 channel."),
    Text("Debug > Disable PCM2", "Disable PCM2",
      "Disable the RF5C164's PCM2 channel."),
    Text("Debug > Disable PCM3", "Disable PCM3",
      "Disable the RF5C164's PCM3 channel."),
    Text("Debug > Disable PCM4", "Disable PCM4",
      "Disable the RF5C164's PCM4 channel."),
    Text("Debug > Disable PCM5", "Disable PCM5",
      "Disable the RF5C164's PCM5 channel."),
    Text("Debug > Disable PCM6", "Disable PCM6",
      "Disable the RF5C164's PCM6 channel."),
    Text("Debug > Disable PCM7", "Disable PCM7",
      "Disable the RF5C164's PCM7 channel."),
    Text("Debug > Disable PCM8", "Disable PCM8",
      "Disable the RF5C164's PCM8 channel.")
  ]

  /** The debug option at index `i`: on/off, off by default. */
  function DebugOption(i: nat): Definition
    requires i < |DebugKeys| && i < |DebugTexts|
  {
    Toggle(DebugKeys[i], DebugTexts[i], DebugCategory, Disabled)
  }

  /** The first `n` debug options. */
  function DebugOptionsUpTo(n: nat): seq<Definition>
    requires n <= |DebugKeys| && n <= |DebugTexts|
  {
    seq(n, i requires 0 <= i < n => DebugOption(i))
  }

  const DebugOptions: seq<Definition> := DebugOptionsUpTo(23)

  const TvStandard: Definition :=
    Definition(Some("clownmdemu_tv_standard"), Some("Console > TV Standard"), Some("TV Standard"),
      Some("Which television standard to output in."), None, Some(ConsoleCategory),
      [OptionValue(Some("pal"), Some("PAL (50Hz)")), OptionValue(Some("ntsc"), Some("NTSC (59.94Hz)")), Terminator],
      Some("ntsc"))

  const OverseasRegion: Definition :=
    Definition(Some("clownmdemu_overseas_region"), Some("Console > Region"), Some("Region"),
      Some("Which region the console is."), None, Some(ConsoleCategory),
      [OptionValue(Some("elsewhere"), Some("Overseas (Elsewhere)")), OptionValue(Some("japan"), Some("Domestic (Japan)")), Terminator],
      Some("elsewhere"))

  const CdAddon: Definition :=
    Toggle("clownmdemu_cd_addon", Text("Console > CD Add-on", "CD Add-on",
      "Allow cartridge-only software to utilise features of the emulated Mega CD add-on, such as CD music. This may break some software."),
      ConsoleCategory, Disabled)

  const TallInterlaceMode2: Definition :=
    Toggle("clownmdemu_tall_interlace_mode_2", Text("Video > Tall Interlace Mode 2", "Tall Interlace Mode 2",
      "Makes games that use Interlace Mode 2 for split-screen not appear squashed."),
      VideoCategory, Disabled)

  const Widescreen: Definition :=
    Toggle("clownmdemu_widescreen", Text("Video > Widescreen Hack", "Widescreen Hack",
      "Widens the display. Works well with some games, badly with others."),
      VideoCategory, Disabled)

  const LowpassFilter: Definition :=
    Toggle("clownmdemu_lowpass_filter", Text("Audio > Low-Pass Filter", "Low-Pass Filter",
      "Makes the audio sound 'softer', just like on a real Mega Drive."),
      AudioCategory, Enabled)

  const LadderEffect: Definition :=
    Toggle("clownmdemu_ladder_effect", Text("Audio > Low-Volume Distortion", "Low-Volume Distortion",
      "Approximates the so-called 'ladder effect' that is present in early Mega Drives. Without this, certain sounds in some games will be too quiet."),
      AudioCategory, Enabled)

  /** The seven options of the console, video and audio categories. */
  const SettingOptions: seq<Definition> :=
    [TvStandard, OverseasRegion, CdAddon, TallInterlaceMode2, Widescreen, LowpassFilter, LadderEffect]

  /** `option_defs_us`: the debug options, the seven others, then the sentinel. */
  const Definitions: seq<Definition> := DebugOptions + SettingOptions + [Sentinel]

  /** The number of options before the sentinel. */
  const OptionCount: nat := 30

  /** The values are listed before a `{NULL, NULL}` terminator at index `n`. */
  predicate ValuesTerminatedAt(values: seq<OptionValue>, n: nat)
  {
    n < |values| && values[n].value.None? && forall j | 0 <= j < n :: values[j].value.Some?
  }

  /** `value` is one of the option's values. */
  predicate Lists(d: Definition, value: string)
  {
    exists j | 0 <= j < |d.values| :: d.values[j].value == Some(value)
  }

  /** Every option of the table: a key, a label and a description, exactly
      two values before the terminator, a default that is one of them, and a
      category that is one of the four categories. */
  predicate WellFormed(d: Definition)
  {
    && d.key.Some? && d.desc.Some? && d.info.Some? && d.categoryKey.Some?
    && ValuesTerminatedAt(d.values, 2)
    && d.defaultValue.Some?
    && (d.values[0].value == d.defaultValue || d.values[1].value == d.defaultValue)
    && (exists c | 0 <= c < 4 :: Categories[c].key == d.categoryKey)
  }

  lemma ToggleWellFormed(key: string, t: Text, c: nat, defaultValue: string)
    requires c < 4
    requires defaultValue == Enabled || defaultValue == Disabled
    ensures WellFormed(Toggle(key, t, Categories[c].key.value, defaultValue))
  {
  }

  /** Distinguishes the keys of one group: three characters from the end. */
  function Signature(k: string): (char, char, char)
  {
    if |k| < 7 then ('\0', '\0', '\0') else (k[|k| - 1], k[|k| - 3], k[|k| - 7])
  }

  lemma DebugKeysShape()
    ensures |DebugKeys| == 23 && |DebugTexts| == 23
    ensures forall i | 0 <= i < 23 :: 22 <= |DebugKeys[i]| && DebugKeys[i][11] == 'd'
  {
  }

  lemma DebugKeysDistinct(i: nat, j: nat)
    requires i < j < |DebugKeys|
    ensures DebugKeys[i] != DebugKeys[j]
  {
    assert Signature(DebugKeys[i]) != Signature(DebugKeys[j]);
  }

  /** Every debug option is an on/off option of the debug category, off by
      default, under a key of the form "clownmdemu_disable_...". */
  lemma DebugOptionsWellFormed()
    ensures |DebugOptions| == 23
    ensures forall i | 0 <= i < 23 :: WellFormed(DebugOptions[i])
    ensures forall i | 0 <= i < 23 ::
      && DebugOptions[i].key == Some(DebugKeys[i])
      && DebugOptions[i].categoryKey == Some(DebugCategory)
      && DebugOptions[i].defaultValue == Some(Disabled)
  {
    DebugKeysShape();
    forall i | 0 <= i < 23
      ensures WellFormed(DebugOptions[i])
    {
      ToggleWellFormed(DebugKeys[i], DebugTexts[i], 0, Disabled);
    }
  }

  lemma SettingOptionsWellFormed()
    ensures |SettingOptions| == 7
    ensures forall i | 0 <= i < 7 ::
      WellFormed(SettingOptions[i]) && 19 <= |SettingOptions[i].key.value| && SettingOptions[i].key.value[11] != 'd'
  {
    SettingsWellFormedByName();
    SettingKeysShape();
  }

  lemma SettingsWellFormedByName()
    ensures WellFormed(TvStandard) && WellFormed(OverseasRegion) && WellFormed(CdAddon)
    ensures WellFormed(TallInterlaceMode2) && WellFormed(Widescreen)
    ensures WellFormed(LowpassFilter) && WellFormed(LadderEffect)
  {
    assert WellFormed(TvStandard) by { assert Categories[1].key == TvStandard.categoryKey; }
    assert WellFormed(OverseasRegion) by { assert Categories[1].key == OverseasRegion.categoryKey; }
    assert WellFormed(CdAddon) by { assert Categories[1].key == CdAddon.categoryKey; }
    assert WellFormed(TallInterlaceMode2) by { assert Categories[2].key == TallInterlaceMode2.categoryKey; }
    assert WellFormed(Widescreen) by { assert Categories[2].key == Widescreen.categoryKey; }
    assert WellFormed(LowpassFilter) by { assert Categories[3].key == LowpassFilter.categoryKey; }
    assert WellFormed(LadderEffect) by { assert Categories[3].key == LadderEffect.categoryKey; }
  }

  /** The setting keys are long enough to share the "clownmdemu_" prefix,
      and none continues it with "d" as the debug keys do. */
  lemma SettingKeysShape()
    ensures forall i | 0 <= i < |SettingOptions| ::
      SettingOptions[i].key.Some? && 19 <= |SettingOptions[i].key.value| && SettingOptions[i].key.value[11] != 'd'
  {
  }

  lemma SettingKeysDistinct(i: nat, j: nat)
    requires i < j < |SettingOptions|
    ensures SettingOptions[i].key != SettingOptions[j].key
  {
    var a := SettingOptions[i].key.value;
    var b := SettingOptions[j].key.value;
    assert (|a|, Signature(a)) != (|b|, Signature(b));
  }

  /** Where each part of the table sits. */
  lemma DefinitionsLayout()
    ensures |DebugOptions| == 23 && |SettingOptions| == 7 && |Definitions| == 31
    ensures forall i | 0 <= i < 23 :: Definitions[i] == DebugOptions[i]
    ensures forall k | 0 <= k < 7 :: Definitions[23 + k] == SettingOptions[k]
    ensures Definitions[30] == Sentinel
  {
    DebugKeysShape();
    Appended(DebugOptions, SettingOptions, [Sentinel]);
  }

  lemma Appended(a: seq<Definition>, b: seq<Definition>, c: seq<Definition>)
    ensures forall i | 0 <= i < |a| :: (a + b + c)[i] == a[i]
    ensures forall k | 0 <= k < |b| :: (a + b + c)[|a| + k] == b[k]
    ensures forall k | 0 <= k < |c| :: (a + b + c)[|a| + |b| + k] == c[k]
  {
  }

  /** The table holds `OptionCount` well-formed options and then the sentinel. */
  lemma TableShape()
    ensures |Definitions| == OptionCount + 1
    ensures Definitions[OptionCount] == Sentinel
    ensures forall i | 0 <= i < OptionCount :: WellFormed(Definitions[i])
  {
    DefinitionsLayout();
    DebugOptionsWellFormed();
    SettingOptionsWellFormed();
    forall i | 0 <= i < OptionCount
      ensures WellFormed(Definitions[i])
    {
      if i < 23 {
        assert Definitions[i] == DebugOptions[i];
      } else {
        assert Definitions[23 + (i - 23)] == SettingOptions[i - 23];
      }
    }
  }

  /** No two options of the table share a key, so a key names one option. */
  lemma KeysAreUnique(i: nat, j: nat)
    requires i < j < OptionCount
    ensures Definitions[i].key != Definitions[j].key
  {
    DebugKeysShape();
    DefinitionsLayout();
    DebugOptionsWellFormed();
    SettingOptionsWellFormed();
    if j < 23 {
      assert Definitions[i] == DebugOptions[i] && Definitions[j] == DebugOptions[j];
      DebugKeysDistinct(i, j);
    } else if 23 <= i {
      assert Definitions[23 + (i - 23)] == SettingOptions[i - 23];
      assert Definitions[23 + (j - 23)] == SettingOptions[j - 23];
      SettingKeysDistinct(i - 23, j - 23);
    } else {
      assert Definitions[23 + (j - 23)] == SettingOptions[j - 23];
      assert Definitions[i].key.value[11] != Definitions[j].key.value[11];
    }
  }

  /** The four categories have distinct keys, and the table is closed by a
      sentinel. */
  lemma CategoriesShape()
    ensures |Categories| == 5 && Categories[4].key.None?
    ensures forall c | 0 <= c < 4 :: Categories[c].key.Some? && Categories[c].desc.Some?
    ensures forall c, e | 0 <= c < e < 4 :: Categories[c].key != Categories[e].key
    ensures forall c, e | 0 <= c < e < 4 :: Categories[c].desc != Categories[e].desc
  {
  }
}
