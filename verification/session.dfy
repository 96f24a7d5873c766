/** One frame of `retro_run` (libretro.c:1177-1203) as the trace of what the
    bridge does: refresh the options when the host reports new variables,
    poll input, run the engine between the mixer's begin and end, send the
    geometry, upload the frame. The engine itself is replaced by the calls
    it makes back into the bridge while it runs a frame. */
module Session {
  import opened Base
  import opened Colour
  import opened Video
  import opened Options
  import opened Scanline

  /** A callback the engine makes while it runs a frame: a palette entry
      changed, or a scanline was rendered (with the reply the host gives if
      the bridge asks it for a framebuffer). */
  datatype EngineCall =
    | ColourCall(index: nat, colour: bv32)
    | ScanlineCall(scanline: nat, left: nat, right: nat, width: nat, height: nat, reply: FramebufferReply)

  /** What the bridge does during a frame, in order. */
  datatype Event =
    | OptionEffect(effect: Effect)
    | InputPolled
    | MixerBegun
    | RowWritten(write: RowWrite)
    | MixerEnded
    | GeometrySent(geometry: Geometry)
    | FrameUploaded(target: Target, width: nat, height: nat, pitch: nat)

  /** The bridge's state between frames. */
  datatype Core = Core(options: OptionState, video: VideoState, palette: Palette)
  {
    predicate Valid()
    {
      video.Valid() && palette.Valid()
    }
  }

  /** The host's answers during a frame: the reply to
      `GET_VARIABLE_UPDATE` (None when the call fails), the variables, and
      which pixel formats it accepts. */
  datatype Host = Host(updateReply: Option<bool>, vars: Variables, accepts565: bool, accepts8888: bool)

  predicate CallsInRange(calls: seq<EngineCall>)
  {
    forall i | 0 <= i < |calls| :: calls[i].ColourCall? ==> calls[i].index < PaletteSize
  }

  /** A frame is a sequence of phases; the events of each phase come
      before those of every later one. */
  function Phase(e: Event): nat
  {
    match e
    case OptionEffect(_) => 0
    case InputPolled => 1
    case MixerBegun => 2
    case RowWritten(_) => 3
    case MixerEnded => 4
    case GeometrySent(_) => 5
    case FrameUploaded(_, _, _, _) => 6
  }

  predicate PhaseOrdered(events: seq<Event>)
  {
    forall i, j | 0 <= i < j < |events| :: Phase(events[i]) <= Phase(events[j])
  }

  /** Every event of `events` is in phase `p`. */
  predicate AllInPhase(events: seq<Event>, p: nat)
  {
    forall i | 0 <= i < |events| :: Phase(events[i]) == p
  }

  // ---------------------------------------------------------------------
  // The engine's callbacks during a frame
  // ---------------------------------------------------------------------

  datatype Emulated = Emulated(video: VideoState, palette: Palette, writes: seq<Event>)

  /** The scanlines with a zero index among the calls: only those select a
      target and latch a size. */
  predicate StartsFrame(calls: seq<EngineCall>)
  {
    exists i | 0 <= i < |calls| :: calls[i].ScanlineCall? && calls[i].scanline == 0
  }

  /** The engine's calls, handled in order: a colour goes through the
      colour callback currently installed, a scanline through
      `ScanlineRenderedCallback`. Only row writes are visible outside. */
  function Iterate(v: VideoState, p: Palette, calls: seq<EngineCall>): (r: Emulated)
    requires p.Valid() && CallsInRange(calls)
    ensures r.palette.Valid()
    ensures v.Valid() ==> r.video.Valid()
    ensures AllInPhase(r.writes, 3)
    ensures |r.writes| <= |calls|
    ensures !StartsFrame(calls) ==> r.video == v
    ensures (forall i | 0 <= i < |calls| :: calls[i].ScanlineCall?) ==> r.palette == p
    decreases |calls|
  {
    if calls == [] then Emulated(v, p, [])
    else
      assert CallsInRange(calls[1..]) by {
        forall i | 0 <= i < |calls[1..]| ensures calls[1..][i].ColourCall? ==> calls[1..][i].index < PaletteSize {
          assert calls[1..][i] == calls[i + 1];
        }
      }
      assert !StartsFrame(calls) ==> !StartsFrame(calls[1..]) by {
        if StartsFrame(calls[1..]) {
          var i :| 0 <= i < |calls[1..]| && calls[1..][i].ScanlineCall? && calls[1..][i].scanline == 0;
          assert calls[i + 1] == calls[1..][i];
        }
      }
      match calls[0]
      case ColourCall(index, colour) =>
        var rest := Iterate(v, ColourUpdated(p, v.active.colour, index, colour), calls[1..]);
        assert !calls[0].ScanlineCall?;
        rest
      case ScanlineCall(scanline, left, right, width, height, reply) =>
        var step := ScanlineRendered(v, scanline, left, right, width, height, reply);
        assert scanline != 0 || StartsFrame(calls);
        assert (forall i | 0 <= i < |calls| :: calls[i].ScanlineCall?) ==>
               (forall i | 0 <= i < |calls[1..]| :: calls[1..][i].ScanlineCall?) by {
          if forall i | 0 <= i < |calls| :: calls[i].ScanlineCall? {
            forall i | 0 <= i < |calls[1..]| ensures calls[1..][i].ScanlineCall? {
              assert calls[1..][i] == calls[i + 1];
            }
          }
        }
        var rest := Iterate(step.video, p, calls[1..]);
        var mine := if step.write.Some? then [RowWritten(step.write.value)] else [];
        Emulated(rest.video, rest.palette, mine + rest.writes)
  }

  // ---------------------------------------------------------------------
  // A colour update seen through a later row
  // ---------------------------------------------------------------------

  /** A colour update, then a row copied by the installed 16-bit writer:
      every pixel of the range whose source index is the updated entry
      becomes the colour packed in the installed format, every other pixel
      of the range takes its entry as it was, and pixels outside the range
      keep their value. */
  method ColourThenRow16(p: Palette, s: Strategy, index: nat, colour: bv32,
                         source: seq<bv8>, dest: seq<bv16>, left: nat, right: nat)
    returns (out: seq<bv16>)
    requires p.Valid() && index < PaletteSize && WidthConsistent(s) && s.writer == Bits16
    requires CanConvert(p.u16, source, dest, left, right)
    ensures |out| == |dest|
    ensures forall i | 0 <= i < |out| && left <= i < right && source[i] as int == index ::
      out[i] == (if s.colour == RGB1555 then To0RGB1555(colour) else ToRGB565(colour))
    ensures forall i | 0 <= i < |out| && left <= i < right && source[i] as int != index ::
      out[i] == p.u16[source[i]]
    ensures forall i | 0 <= i < |out| && !(left <= i < right) :: out[i] == dest[i]
  {
    var q := ColourUpdated(p, s.colour, index, colour);
    out := ConvertScanline(q.u16, source, dest, left, right);
  }

  /** The same through the 32-bit writer, whose entries are XRGB8888. */
  method ColourThenRow32(p: Palette, s: Strategy, index: nat, colour: bv32,
                         source: seq<bv8>, dest: seq<bv32>, left: nat, right: nat)
    returns (out: seq<bv32>)
    requires p.Valid() && index < PaletteSize && WidthConsistent(s) && s.writer == Bits32
    requires CanConvert(p.u32, source, dest, left, right)
    ensures |out| == |dest|
    ensures forall i | 0 <= i < |out| && left <= i < right && source[i] as int == index ::
      out[i] == ToXRGB8888(colour)
    ensures forall i | 0 <= i < |out| && left <= i < right && source[i] as int != index ::
      out[i] == p.u32[source[i]]
    ensures forall i | 0 <= i < |out| && !(left <= i < right) :: out[i] == dest[i]
  {
    var q := ColourUpdated(p, s.colour, index, colour);
    out := ConvertScanline(q.u32, source, dest, left, right);
  }

  // ---------------------------------------------------------------------
  // retro_run
  // ---------------------------------------------------------------------

  function Wrap(effects: seq<Effect>): (es: seq<Event>)
    ensures |es| == |effects|
    ensures forall i | 0 <= i < |es| :: es[i] == OptionEffect(effects[i])
  {
    if effects == [] then [] else [OptionEffect(effects[0])] + Wrap(effects[1..])
  }

  datatype Frame = Frame(core: Core, events: seq<Event>)

  /** `retro_run`. The options are refreshed, as a later call (not the
      first), exactly when the host answers that the variables changed.
      Whatever the engine does, the frame polls input once, writes rows only
      between the mixer's one begin and one end, and then sends the geometry
      for the latched size and the current tall-interlace flag, even when
      it did not change, before uploading the frame from the current target. */
  function Run(c: Core, host: Host, calls: seq<EngineCall>): (f: Frame)
    requires c.Valid() && CallsInRange(calls)
    ensures f.core.Valid()
    ensures host.updateReply == Some(true) ==>
      var u := UpdateOptions(c.options, c.video, host.vars, false, host.accepts565, host.accepts8888);
      && f.core.options == u.state
      && |u.effects| < |f.events|
      && forall i | 0 <= i < |u.effects| :: f.events[i] == OptionEffect(u.effects[i])
    ensures var video := if host.updateReply == Some(true)
                         then UpdateOptions(c.options, c.video, host.vars, false, host.accepts565, host.accepts8888).video
                         else c.video;
      var e := Iterate(video, c.palette, calls);
      && f.core.video == e.video && f.core.palette == e.palette
      && RowsOf(f.events) == e.writes
    ensures host.updateReply != Some(true) ==>
      f.core.options == c.options && forall i | 0 <= i < |f.events| :: !f.events[i].OptionEffect?
    ensures PhaseOrdered(f.events)
    ensures multiset(f.events)[InputPolled] == 1
    ensures multiset(f.events)[MixerBegun] == 1
    ensures multiset(f.events)[MixerEnded] == 1
    ensures |f.events| >= 5
    ensures f.events[|f.events| - 2]
         == GeometrySent(SetGeometry(f.core.video.width, f.core.video.height, f.core.options.tall))
    ensures f.events[|f.events| - 1]
         == FrameUploaded(f.core.video.target, f.core.video.width, f.core.video.height, f.core.video.pitch)
  {
    var u := Refresh(c, host);
    var e := Iterate(u.video, c.palette, calls);
    var geometry := SetGeometry(e.video.width, e.video.height, u.state.tall);
    var tail := [MixerEnded, GeometrySent(geometry), FrameUploaded(e.video.target, e.video.width, e.video.height, e.video.pitch)];
    Frame(Core(u.state, e.video, e.palette), FrameEvents(u.effects, e.writes, tail))
  }

  /** The options' refresh at the start of a frame: a later call's update
      when the host reports changed variables, otherwise nothing. */
  function Refresh(c: Core, host: Host): (u: Update)
    ensures c.video.Valid() ==> u.video.Valid()
    ensures host.updateReply == Some(true) ==>
      u == UpdateOptions(c.options, c.video, host.vars, false, host.accepts565, host.accepts8888)
    ensures host.updateReply != Some(true) ==> u.state == c.options && u.video == c.video && u.effects == []
  {
    if host.updateReply == Some(true)
    then UpdateOptions(c.options, c.video, host.vars, false, host.accepts565, host.accepts8888)
    else Update(c.options, c.video, [])
  }

  /** A frame's trace: the options' effects, the poll, the mixer's begin,
      the rows, then the mixer's end, the geometry and the upload. */
  function FrameEvents(effects: seq<Effect>, writes: seq<Event>, tail: seq<Event>): (events: seq<Event>)
    requires AllInPhase(writes, 3)
    requires |tail| == 3 && tail[0] == MixerEnded && tail[1].GeometrySent? && tail[2].FrameUploaded?
    ensures IsFrameTrace(events, effects, writes, tail)
  {
    FrameFacts(effects, writes, tail);
    Wrap(effects) + [InputPolled, MixerBegun] + writes + tail
  }

  /** A frame's trace: phase-ordered, with one poll and one mixer begin
      and end; the options' effects first (and none when there are none),
      then the rows exactly as the engine wrote them, and last the
      geometry and the upload. */
  predicate IsFrameTrace(events: seq<Event>, effects: seq<Effect>, writes: seq<Event>, tail: seq<Event>)
    requires |tail| == 3
  {
    && PhaseOrdered(events)
    && multiset(events)[InputPolled] == 1
    && multiset(events)[MixerBegun] == 1
    && multiset(events)[MixerEnded] == 1
    && |events| >= 5 && events[|events| - 2] == tail[1] && events[|events| - 1] == tail[2]
    && (effects == [] ==> forall i | 0 <= i < |events| :: !events[i].OptionEffect?)
    && |effects| < |events| && events[..|effects|] == Wrap(effects)
    && RowsOf(events) == writes
  }

  /** Everything `FrameEvents` promises, about its trace. */
  lemma FrameFacts(effects: seq<Effect>, writes: seq<Event>, tail: seq<Event>)
    requires AllInPhase(writes, 3)
    requires |tail| == 3 && tail[0] == MixerEnded && tail[1].GeometrySent? && tail[2].FrameUploaded?
    ensures IsFrameTrace(Wrap(effects) + [InputPolled, MixerBegun] + writes + tail, effects, writes, tail)
  {
    var events := Wrap(effects) + [InputPolled, MixerBegun] + writes + tail;
    FrameLayout(Wrap(effects), writes, tail);
    FrameRows(Wrap(effects), writes, tail);
    FrameHead(effects, writes, tail);
    assert events[|events| - 2] == tail[1] && events[|events| - 1] == tail[2];
  }

  /** A frame's trace starts with the options' effects, and holds none
      when there are none. */
  lemma FrameHead(effects: seq<Effect>, writes: seq<Event>, tail: seq<Event>)
    requires AllInPhase(writes, 3)
    requires |tail| == 3 && tail[0] == MixerEnded && tail[1].GeometrySent? && tail[2].FrameUploaded?
    ensures var events := Wrap(effects) + [InputPolled, MixerBegun] + writes + tail;
      && |effects| < |events| && events[..|effects|] == Wrap(effects)
      && (effects == [] ==> forall i | 0 <= i < |events| :: !events[i].OptionEffect?)
  {
    var events := Wrap(effects) + [InputPolled, MixerBegun] + writes + tail;
    assert events[..|effects|] == Wrap(effects);
    if effects == [] {
      forall i | 0 <= i < |events| ensures !events[i].OptionEffect? {
        assert Phase(events[i]) != 0 by {
          if i >= 2 && i < 2 + |writes| {
            assert events[i] == writes[i - 2];
          }
        }
      }
    }
  }

  /** The shape of every frame's trace: phase-ordered, with one poll and
      one mixer begin and end. */
  lemma FrameLayout(effects: seq<Event>, writes: seq<Event>, tail: seq<Event>)
    requires AllInPhase(effects, 0) && AllInPhase(writes, 3)
    requires |tail| == 3 && tail[0] == MixerEnded && tail[1].GeometrySent? && tail[2].FrameUploaded?
    ensures var events := effects + [InputPolled, MixerBegun] + writes + tail;
      && PhaseOrdered(events)
      && multiset(events)[InputPolled] == 1
      && multiset(events)[MixerBegun] == 1
      && multiset(events)[MixerEnded] == 1
  {
    var events := effects + [InputPolled, MixerBegun] + writes + tail;
    var n := |effects|;
    var m := n + 2 + |writes|;
    assert forall i | 0 <= i < n :: events[i] == effects[i];
    assert events[n] == InputPolled && events[n + 1] == MixerBegun;
    assert forall i | n + 2 <= i < m :: events[i] == writes[i - n - 2];
    assert forall i | m <= i < |events| :: events[i] == tail[i - m];
    forall i, j | 0 <= i < j < |events|
      ensures Phase(events[i]) <= Phase(events[j])
    {
      assert Phase(events[i]) == PhaseAt(i, n, m) && Phase(events[j]) == PhaseAt(j, n, m);
    }
    NotInPhase(effects, 0, InputPolled);
    NotInPhase(effects, 0, MixerBegun);
    NotInPhase(effects, 0, MixerEnded);
    NotInPhase(writes, 3, InputPolled);
    NotInPhase(writes, 3, MixerBegun);
    NotInPhase(writes, 3, MixerEnded);
    assert multiset(tail)[InputPolled] == 0 && multiset(tail)[MixerBegun] == 0;
    assert multiset(tail)[MixerEnded] == 1 by {
      assert tail == [MixerEnded] + [tail[1]] + [tail[2]];
    }
  }

  /** The row writes of a trace, in order. */
  function RowsOf(events: seq<Event>): (rows: seq<Event>)
    ensures |rows| <= |events|
  {
    if events == [] then [] else RowOf(events[0]) + RowsOf(events[1..])
  }

  /** One event as a row: itself if it is a row write, nothing otherwise. */
  function RowOf(e: Event): seq<Event>
  {
    if e.RowWritten? then [e] else []
  }

  lemma {:induction false} RowsOfAppend(a: seq<Event>, b: seq<Event>)
    ensures RowsOf(a + b) == RowsOf(a) + RowsOf(b)
  {
    if a == [] {
      assert a + b == b;
    } else {
      var ab := a + b;
      assert ab[0] == a[0] && ab[1..] == a[1..] + b;
      RowsOfAppend(a[1..], b);
      calc {
        RowsOf(ab);
        RowOf(a[0]) + RowsOf(a[1..] + b);
        RowOf(a[0]) + (RowsOf(a[1..]) + RowsOf(b));
        (RowOf(a[0]) + RowsOf(a[1..])) + RowsOf(b);
      }
    }
  }

  /** A trace all in one phase is all rows (phase 3) or holds none. */
  lemma {:induction false} RowsOfPhase(events: seq<Event>, p: nat)
    requires AllInPhase(events, p)
    ensures RowsOf(events) == (if p == 3 then events else [])
  {
    if events != [] {
      assert AllInPhase(events[1..], p) by {
        forall i | 0 <= i < |events[1..]| ensures Phase(events[1..][i]) == p {
          assert events[1..][i] == events[i + 1];
        }
      }
      RowsOfPhase(events[1..], p);
      assert Phase(events[0]) == p;
      if p == 3 {
        assert events == [events[0]] + events[1..];
      }
    }
  }

  /** The rows of a frame's trace are exactly the engine's row writes. */
  lemma FrameRows(effects: seq<Event>, writes: seq<Event>, tail: seq<Event>)
    requires AllInPhase(effects, 0) && AllInPhase(writes, 3)
    requires |tail| == 3 && tail[0] == MixerEnded && tail[1].GeometrySent? && tail[2].FrameUploaded?
    ensures RowsOf(effects + [InputPolled, MixerBegun] + writes + tail) == writes
  {
    var head := [InputPolled, MixerBegun];
    RowsOfAppend(effects + head + writes, tail);
    RowsOfAppend(effects + head, writes);
    RowsOfAppend(effects, head);
    RowsOfPhase(effects, 0);
    RowsOfPhase(writes, 3);
    assert RowsOf(head) == [] by {
      assert head[1..] == [MixerBegun];
      assert head[1..][1..] == [];
    }
    assert RowsOf(tail) == [] by {
      var last := tail[2..];
      assert last[0] == tail[2] && last[1..] == [];
      assert RowsOf(last) == [];
      assert tail[1..][0] == tail[1] && tail[1..][1..] == last;
      assert RowsOf(tail[1..]) == [];
    }
  }

  /** The phase of position `i` of a frame whose head ends at `n + 2` and
      whose rows end at `m`. */
  function PhaseAt(i: nat, n: nat, m: nat): nat
  {
    if i < n then 0 else if i == n then 1 else if i == n + 1 then 2 else if i < m then 3
    else if i == m then 4 else if i == m + 1 then 5 else 6
  }

  lemma NotInPhase(events: seq<Event>, p: nat, e: Event)
    requires AllInPhase(events, p) && Phase(e) != p
    ensures multiset(events)[e] == 0
  {
  }

  /** In a phase-ordered trace every row write comes after every mixer
      begin and before every mixer end. */
  lemma RowsInsideMixer(events: seq<Event>)
    requires PhaseOrdered(events)
    ensures forall i, j | 0 <= i < |events| && 0 <= j < |events| && events[i].RowWritten? ::
              (events[j] == MixerBegun ==> j < i) && (events[j] == MixerEnded ==> i < j)
  {
  }

  /** The palette is not re-converted when the host's format changes: an
      entry set to red (0x00F) while 0RGB1555 is installed holds the
      0RGB1555 pixel 0x7C00 after the frame switches to an RGB565 host
      buffer, where red would be 0xF800. */
  lemma PaletteKeptAcrossFormatSwitch(v: VideoState, p: Palette)
    requires v.Valid() && p.Valid() && v.active == Strategy(RGB1555, Bits16)
    ensures var r := Iterate(v, p, [ColourCall(0, 0x00F), ScanlineCall(0, 0, 320, 320, 224, Framebuffer(Supported(RGB565), 640))]);
      && r.video.active == Strategy(RGB565, Bits16)
      && r.palette.u16[0] == 0x7C00
      && ToRGB565(0x00F) == 0xF800
  {
    var calls := [ColourCall(0, 0x00F), ScanlineCall(0, 0, 320, 320, 224, Framebuffer(Supported(RGB565), 640))];
    var q := ColourUpdated(p, RGB1555, 0, 0x00F);
    assert q.u16[0] == To0RGB1555(0x00F) == 0x7C00;
    assert calls[1..] == [calls[1]];
    assert calls[1..][1..] == [];
    var step := ScanlineRendered(v, 0, 0, 320, 320, 224, Framebuffer(Supported(RGB565), 640));
    assert step.video.active == Strategy(RGB565, Bits16);
  }
}
