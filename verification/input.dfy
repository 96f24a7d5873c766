/** Controller input (libretro.c: `InputRequestedCallback` and the input
    descriptor table given to the host in `retro_set_environment`). The
    engine asks about one of the twelve Mega Drive buttons; the bridge asks
    the host about the corresponding RetroPad button. */
module Input {
  import opened Base

  /** The engine's buttons. `Unlisted` is any other value of the engine's
      button enumeration, which the switch sends to its default branch. */
  datatype Button = Up | Down | Left | Right | A | B | C | X | Y | Z | Start | Mode | Unlisted(code: int)

  /** The RetroPad ids of the libretro API and its joypad device class. */
  const JoypadB: nat := 0
  const JoypadY: nat := 1
  const JoypadSelect: nat := 2
  const JoypadStart: nat := 3
  const JoypadUp: nat := 4
  const JoypadDown: nat := 5
  const JoypadLeft: nat := 6
  const JoypadRight: nat := 7
  const JoypadA: nat := 8
  const JoypadX: nat := 9
  const JoypadL: nat := 10
  const JoypadR: nat := 11
  const DeviceJoypad: nat := 1

  /** The twelve buttons in the order of the descriptor table. */
  const Buttons: seq<Button> := [Up, Down, Left, Right, A, B, C, X, Y, Z, Start, Mode]

  /** The switch of libretro.c:440-491. The face buttons are rotated onto
      the RetroPad's layout: A is the left face button Y, B stays B, C is
      the right face button A; X, Y, Z become L, X, R; Mode becomes Select.
      Anything unlisted falls through to Up. */
  function JoypadId(b: Button): (id: nat)
    ensures id < 12
    ensures b in Buttons ==> ButtonForId(id) == Some(b)
    ensures b.Unlisted? ==> id == JoypadUp
  {
    match b
    case Up => JoypadUp
    case Down => JoypadDown
    case Left => JoypadLeft
    case Right => JoypadRight
    case A => JoypadY
    case B => JoypadB
    case C => JoypadA
    case X => JoypadL
    case Y => JoypadX
    case Z => JoypadR
    case Start => JoypadStart
    case Mode => JoypadSelect
    case Unlisted(_) => JoypadUp
  }

  /** The engine button read through each RetroPad id, if any. */
  function ButtonForId(id: nat): Option<Button>
  {
    match id
    case 0 => Some(B)
    case 1 => Some(A)
    case 2 => Some(Mode)
    case 3 => Some(Start)
    case 4 => Some(Up)
    case 5 => Some(Down)
    case 6 => Some(Left)
    case 7 => Some(Right)
    case 8 => Some(C)
    case 9 => Some(Y)
    case 10 => Some(X)
    case 11 => Some(Z)
    case _ => None
  }

  /** The mapping is a bijection from the twelve buttons onto the RetroPad
      ids 0-11: `ButtonForId` undoes it, and it undoes `ButtonForId`. An
      unlisted button reads as Up. */
  lemma JoypadIdIsBijective(b: Button, id: nat)
    ensures b in Buttons ==> ButtonForId(JoypadId(b)) == Some(b)
    ensures id < 12 <==> ButtonForId(id).Some?
    ensures id < 12 ==> ButtonForId(id).value in Buttons && JoypadId(ButtonForId(id).value) == id
    ensures b.Unlisted? ==> JoypadId(b) == JoypadId(Up)
  {
  }

  /** `InputRequestedCallback`: the host's joypad state for the mapped id,
      on the engine's player port, device index 0. For a listed button that
      is the id the descriptor table reads back as the same button; anything
      else reads the host's Up. */
  function InputRequested(player: nat, b: Button, inputState: (nat, nat, nat, nat) -> bool): (pressed: bool)
    ensures forall id | ButtonForId(id) == Some(b) :: pressed == inputState(player, DeviceJoypad, 0, id)
    ensures b in Buttons ==> exists id | id < 12 :: ButtonForId(id) == Some(b)
    ensures b.Unlisted? ==> pressed == inputState(player, DeviceJoypad, 0, JoypadUp)
  {
    inputState(player, DeviceJoypad, 0, JoypadId(b))
  }

  // ---------------------------------------------------------------------
  // The input descriptor table (libretro.c:1091-1120)
  // ---------------------------------------------------------------------

  datatype Descriptor = Descriptor(port: nat, device: nat, index: nat, id: nat, description: Option<string>)

  /** The label the host shows for a button: the Mega Drive button's name. */
  function Label(b: Button): string
  {
    match b
    case Up => "Up"
    case Down => "Down"
    case Left => "Left"
    case Right => "Right"
    case A => "A"
    case B => "B"
    case C => "C"
    case X => "X"
    case Y => "Y"
    case Z => "Z"
    case Start => "Start"
    case Mode => "Mode"
    case Unlisted(_) => ""
  }

  function PlayerDescriptors(port: nat): seq<Descriptor>
  {
    [ Descriptor(port, DeviceJoypad, 0, JoypadUp, Some("Up")),
      Descriptor(port, DeviceJoypad, 0, JoypadDown, Some("Down")),
      Descriptor(port, DeviceJoypad, 0, JoypadLeft, Some("Left")),
      Descriptor(port, DeviceJoypad, 0, JoypadRight, Some("Right")),
      Descriptor(port, DeviceJoypad, 0, JoypadY, Some("A")),
      Descriptor(port, DeviceJoypad, 0, JoypadB, Some("B")),
      Descriptor(port, DeviceJoypad, 0, JoypadA, Some("C")),
      Descriptor(port, DeviceJoypad, 0, JoypadL, Some("X")),
      Descriptor(port, DeviceJoypad, 0, JoypadX, Some("Y")),
      Descriptor(port, DeviceJoypad, 0, JoypadR, Some("Z")),
      Descriptor(port, DeviceJoypad, 0, JoypadStart, Some("Start")),
      Descriptor(port, DeviceJoypad, 0, JoypadSelect, Some("Mode")) ]
  }

  /** Player 1, player 2, then the all-zero terminator. */
  const Descriptors: seq<Descriptor> :=
    PlayerDescriptors(0) + PlayerDescriptors(1) + [Descriptor(0, 0, 0, 0, None)]

  /** For both players, the descriptor at the id the mapping reads carries
      the name of the engine button that is read there, so the labels the
      host shows agree with `InputRequestedCallback`. */
  lemma DescriptorsAgreeWithMapping(player: nat, i: nat)
    requires player < 2 && i < |Buttons|
    ensures Descriptors[12 * player + i]
            == Descriptor(player, DeviceJoypad, 0, JoypadId(Buttons[i]), Some(Label(Buttons[i])))
  {
    assert Descriptors[12 * player + i] == PlayerDescriptors(player)[i];
  }

  /** The table lists exactly 24 descriptors before its terminator, none of
      them with an empty label. */
  lemma DescriptorTableShape()
    ensures |Descriptors| == 25
    ensures Descriptors[24].description == None
    ensures forall k | 0 <= k < 24 :: Descriptors[k].description.Some? && Descriptors[k].port == k / 12
  {
  }
}
