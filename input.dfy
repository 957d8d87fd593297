/** The engine's Input class: a double-buffered snapshot of the keyboard and
    the mouse, edge queries over the two snapshots, and a table of XInput
    gamepads with per-pad deadzones.

    Every device read of the original (the keyboard and mouse GetDeviceState,
    the cursor position, XInputGetState) is a parameter here. */
module EngineInput {
  import opened Wrappers

  type byte = bv8
  type int16 = x: int | -0x8000 <= x < 0x8000
  type uint16 = x: int | 0 <= x < 0x1_0000
  type int32 = x: int | -0x8000_0000 <= x < 0x8000_0000
  type uint32 = x: int | 0 <= x < 0x1_0000_0000

  /** Size of the keyboard snapshot: one byte per DirectInput key code. */
  const KeyCount: nat := 256

  /** XUSER_MAX_COUNT: the XInput user slots that exist. */
  const XUserMaxCount: nat := 4

  /** XINPUT_GAMEPAD_LEFT_THUMB_DEADZONE and XINPUT_GAMEPAD_RIGHT_THUMB_DEADZONE. */
  const LeftThumbDeadZone: int32 := 7849
  const RightThumbDeadZone: int32 := 8689

  /** The eight button bytes of a DIMOUSESTATE2. */
  type ButtonBytes = s: seq<byte> | |s| == 8 witness [0, 0, 0, 0, 0, 0, 0, 0]

  /** DIMOUSESTATE2: relative motion, wheel and button bytes of one sample. */
  datatype MouseState = MouseState(lX: int32, lY: int32, lZ: int32, rgbButtons: ButtonBytes)

  /** The `= {}` initial value of both mouse snapshots. */
  const ZeroMouse: MouseState := MouseState(0, 0, 0, [0, 0, 0, 0, 0, 0, 0, 0])

  datatype Point = Point(x: int32, y: int32)

  datatype PadType = DirectInput | XInput

  /** One registered pad: independent left and right deadzones and its API. */
  datatype Joystick = Joystick(deadZoneL: int32, deadZoneR: int32, padType: PadType)

  /** The entry Initialize registers for every connected XInput pad. */
  const DefaultJoystick: Joystick := Joystick(LeftThumbDeadZone, RightThumbDeadZone, XInput)

  /** XINPUT_GAMEPAD and XINPUT_STATE. */
  datatype Gamepad = Gamepad(
    buttons: uint16, leftTrigger: byte, rightTrigger: byte,
    thumbLX: int16, thumbLY: int16, thumbRX: int16, thumbRY: int16)

  datatype XInputState = XInputState(packetNumber: uint32, gamepad: Gamepad)

  /** What XInputGetState reports for each user slot at the time of a call:
      Some(state) for ERROR_SUCCESS, None for a pad that is not connected. */
  type PadSlots = s: seq<Option<XInputState>> | |s| == XUserMaxCount witness [None, None, None, None]

  /** XInputGetState(userIndex): an index past the last slot is refused. */
  function Poll(slots: PadSlots, userIndex: int): Option<XInputState>
  {
    if 0 <= userIndex < XUserMaxCount then slots[userIndex] else None
  }

  /** DirectInput reports a held mouse button by the high bit of its byte. */
  predicate Held(b: byte)
  {
    (b & 0x80) != 0
  }

  function Abs(v: int): nat
  {
    if v < 0 then -v else v
  }

  // ---------------------------------------------------------------------
  // Gamepad registration and deadzones

  /** The joysticks the enumeration loop of Initialize registers: one
      default XInput entry per slot that answers, in slot order. */
  function EnumeratePads(slots: seq<Option<XInputState>>): (js: seq<Joystick>)
    ensures |js| <= |slots|
    ensures forall j | 0 <= j < |js| :: js[j] == DefaultJoystick
    ensures js == [] <==> forall i | 0 <= i < |slots| :: slots[i].None?
  {
    if slots == [] then []
    else
      var init := slots[..|slots| - 1];
      var js := EnumeratePads(init) + if slots[|slots| - 1].Some? then [DefaultJoystick] else [];
      assert forall i | 0 <= i < |init| :: init[i] == slots[i];
      js
  }

  /** The slots whose poll answers. */
  function Connected(slots: seq<Option<XInputState>>): set<int>
  {
    set i | 0 <= i < |slots| && slots[i].Some?
  }

  /** Registration adds exactly one entry per slot that answers. */
  lemma {:induction false} EnumeratePadsCount(slots: seq<Option<XInputState>>)
    ensures |EnumeratePads(slots)| == |Connected(slots)|
  {
    if slots != [] {
      var n := |slots| - 1;
      var init := slots[..n];
      EnumeratePadsCount(init);
      assert forall i | 0 <= i < n :: init[i] == slots[i];
      if slots[n].Some? {
        assert Connected(slots) == Connected(init) + {n};
        assert n !in Connected(init);
      } else {
        assert Connected(slots) == Connected(init);
      }
    } else {
      assert Connected(slots) == {};
    }
  }

  /** `out` is the axis value `raw` after a deadzone of `dz`: zero exactly
      when `raw` lies strictly inside the zone (or was zero), otherwise untouched. */
  predicate DeadZoned(raw: int, out: int, dz: int)
  {
    && (out == 0 <==> raw == 0 || Abs(raw) < dz)
    && (out != 0 ==> out == raw)
  }

  function ClampAxis(v: int16, dz: int32): int16
  {
    if Abs(v) < dz then 0 else v
  }

  /** The deadzone step of GetJoystickState, with the threshold it is given
      applied to all four thumb axes. */
  function ApplyDeadZone(raw: XInputState, dz: int32): (s: XInputState)
    ensures DeadZoned(raw.gamepad.thumbLX, s.gamepad.thumbLX, dz)
    ensures DeadZoned(raw.gamepad.thumbLY, s.gamepad.thumbLY, dz)
    ensures DeadZoned(raw.gamepad.thumbRX, s.gamepad.thumbRX, dz)
    ensures DeadZoned(raw.gamepad.thumbRY, s.gamepad.thumbRY, dz)
    ensures s.packetNumber == raw.packetNumber
    ensures s.gamepad.buttons == raw.gamepad.buttons
    ensures s.gamepad.leftTrigger == raw.gamepad.leftTrigger
    ensures s.gamepad.rightTrigger == raw.gamepad.rightTrigger
  {
    var g := raw.gamepad;
    raw.(gamepad := g.(
      thumbLX := ClampAxis(g.thumbLX, dz), thumbLY := ClampAxis(g.thumbLY, dz),
      thumbRX := ClampAxis(g.thumbRX, dz), thumbRY := ClampAxis(g.thumbRY, dz)))
  }

  /** What GetJoystickState yields for pad `stickNo`: None for the `false`
      return, otherwise the state it leaves in `out`. */
  function ReadJoystick(joysticks: seq<Joystick>, stickNo: int, slots: PadSlots): (r: Option<XInputState>)
    ensures r.None? <==>
      || stickNo < 0 || stickNo >= |joysticks|
      || joysticks[stickNo].padType != XInput
      || Poll(slots, stickNo).None?
    ensures r.Some? ==>
      r == Some(ApplyDeadZone(Poll(slots, stickNo).value, joysticks[stickNo].deadZoneL))
  {
    if stickNo < 0 || stickNo >= |joysticks| then None
    else if joysticks[stickNo].padType != XInput then None
    else match Poll(slots, stickNo)
      case None => None
      case Some(raw) => Some(ApplyDeadZone(raw, joysticks[stickNo].deadZoneL))
  }

  /** The table after SetJoystickDeadZone(stickNo, deadZoneL, deadZoneR). */
  function WithDeadZones(joysticks: seq<Joystick>, stickNo: int, deadZoneL: int32, deadZoneR: int32): (r: seq<Joystick>)
    ensures |r| == |joysticks|
    ensures !(0 <= stickNo < |joysticks|) ==> r == joysticks
    ensures 0 <= stickNo < |joysticks| ==>
      && r[stickNo].deadZoneL == deadZoneL
      && r[stickNo].deadZoneR == deadZoneR
      && r[stickNo].padType == joysticks[stickNo].padType
    ensures forall j | 0 <= j < |r| && j != stickNo :: r[j] == joysticks[j]
  {
    if stickNo < 0 || stickNo >= |joysticks| then joysticks
    else joysticks[stickNo := joysticks[stickNo].(deadZoneL := deadZoneL, deadZoneR := deadZoneR)]
  }

  /** Only the left deadzone is ever consulted: the right-stick axes are
      clamped with it too, so changing any entry's right deadzone changes no
      reading. */
  lemma RightDeadZoneNeverRead(joysticks: seq<Joystick>, slots: PadSlots, stickNo: int, i: int, deadZoneR: int32)
    requires 0 <= i < |joysticks|
    ensures ReadJoystick(joysticks[i := joysticks[i].(deadZoneR := deadZoneR)], stickNo, slots)
         == ReadJoystick(joysticks, stickNo, slots)
  {
  }

  /** Setting a pad's deadzones changes what that pad reads, through the new
      left deadzone only, and no other pad's reading. */
  lemma DeadZoneSetThenRead(joysticks: seq<Joystick>, slots: PadSlots, i: int, deadZoneL: int32, deadZoneR: int32, stickNo: int)
    ensures var after := WithDeadZones(joysticks, i, deadZoneL, deadZoneR);
      && ReadJoystick(after, stickNo, slots).Some? == ReadJoystick(joysticks, stickNo, slots).Some?
      && (stickNo != i ==> ReadJoystick(after, stickNo, slots) == ReadJoystick(joysticks, stickNo, slots))
      && (stickNo == i && ReadJoystick(after, stickNo, slots).Some? ==>
            ReadJoystick(after, stickNo, slots) == Some(ApplyDeadZone(Poll(slots, i).value, deadZoneL)))
  {
  }

  /** A pad's position in the table is what is passed to XInputGetState as
      its user slot. A pad connected only in slot 1 is registered as
      joystick 0, yet reading joystick 0 polls the empty slot 0. */
  lemma PadIndexIsPolledAsSlot(s: XInputState)
    ensures var slots: PadSlots := [None, Some(s), None, None];
      && EnumeratePads(slots) == [DefaultJoystick]
      && ReadJoystick(EnumeratePads(slots), 0, slots) == None
  {
    var slots: PadSlots := [None, Some(s), None, None];
    var one: seq<Option<XInputState>> := [None];
    var two := [None, Some(s)];
    var three := [None, Some(s), None];
    assert one[..0] == [] && two[..1] == one && three[..2] == two && slots[..3] == three;
    assert EnumeratePads(one) == [];
    assert EnumeratePads(two) == [DefaultJoystick];
    assert EnumeratePads(three) == [DefaultJoystick];
  }

  // ---------------------------------------------------------------------
  // The Input object

  class Input {
    /** key_ and keyPre: the current and previous keyboard snapshots. */
    const key: array<byte>
    const keyPre: array<byte>
    /** mouseState_ and mouseStatePre_. */
    var mouseState: MouseState
    var mouseStatePre: MouseState
    /** mousePosition_, in window client coordinates; not double-buffered. */
    var mousePosition: Point
    /** joysticks_ */
    var joysticks: seq<Joystick>

    ghost predicate Valid()
    {
      key.Length == KeyCount && keyPre.Length == KeyCount && key != keyPre
    }

    /** The zero-initialized object: nothing is pressed, triggered or
        released before the first Update, and the mouse has not moved. */
    constructor ()
      ensures Valid() && fresh(key) && fresh(keyPre)
      ensures forall i | 0 <= i < KeyCount :: key[i] == 0 && keyPre[i] == 0
      ensures mouseState == ZeroMouse && mouseStatePre == ZeroMouse
      ensures mousePosition == Point(0, 0)
      ensures joysticks == []
      ensures forall k: byte :: !PushKey(k) && !TriggerKey(k) && !ReleaseKey(k)
      ensures forall b: int32 :: !IsPressMouse(b) && !IsTriggerMouse(b)
      ensures GetMouseMove() == Point(0, 0) && GetWheel() == 0
    {
      key := new byte[KeyCount](_ => 0);
      keyPre := new byte[KeyCount](_ => 0);
      mouseState := ZeroMouse;
      mouseStatePre := ZeroMouse;
      mousePosition := Point(0, 0);
      joysticks := [];
    }

    /** The gamepad registration loop of Initialize. Entries are appended to
        whatever the table already holds. */
    method Initialize(slots: PadSlots)
      modifies this`joysticks
      ensures joysticks == old(joysticks) + EnumeratePads(slots)
      ensures |joysticks| == |old(joysticks)| + |Connected(slots)|
    {
      for i := 0 to XUserMaxCount
        invariant joysticks == old(joysticks) + EnumeratePads(slots[..i])
      {
        assert slots[..i + 1][..i] == slots[..i];
        if slots[i].Some? {
          joysticks := joysticks + [DefaultJoystick];
        }
      }
      assert slots[..XUserMaxCount] == slots;
      EnumeratePadsCount(slots);
    }

    /** Once per frame: the current snapshots become the previous ones and
        the fresh samples become current. */
    method Update(keySample: seq<byte>, mouseSample: MouseState, cursor: Point)
      requires Valid() && |keySample| == KeyCount
      modifies key, keyPre, this`mouseState, this`mouseStatePre, this`mousePosition
      ensures Valid()
      ensures keyPre[..] == old(key[..]) && key[..] == keySample
      ensures mouseStatePre == old(mouseState) && mouseState == mouseSample
      ensures mousePosition == cursor
      ensures forall k: byte :: TriggerKey(k) <==> keySample[k as int] != 0 && old(key[k as int]) == 0
      ensures forall k: byte :: ReleaseKey(k) <==> keySample[k as int] == 0 && old(key[k as int]) != 0
      ensures keySample == old(key[..]) ==> forall k: byte :: !TriggerKey(k) && !ReleaseKey(k)
      ensures mouseSample == old(mouseState) ==> forall b: int32 :: !IsTriggerMouse(b)
      ensures GetMouseMove() == Point(mouseSample.lX, mouseSample.lY) && GetWheel() == mouseSample.lZ
    {
      forall i | 0 <= i < KeyCount {
        keyPre[i] := key[i];
      }
      forall i | 0 <= i < KeyCount {
        key[i] := keySample[i];
      }
      mouseStatePre := mouseState;
      mouseState := mouseSample;
      mousePosition := cursor;
    }

    function PushKey(keyNumber: byte): (r: bool)
      requires Valid()
      reads key
      ensures r <==> key[keyNumber as int] != 0
    {
      key[keyNumber as int] != 0
    }

    function TriggerKey(keyNumber: byte): (r: bool)
      requires Valid()
      reads key, keyPre
      ensures r ==> PushKey(keyNumber)
      ensures r <==> PushKey(keyNumber) && keyPre[keyNumber as int] == 0
    {
      key[keyNumber as int] != 0 && keyPre[keyNumber as int] == 0
    }

    function ReleaseKey(keyNumber: byte): (r: bool)
      requires Valid()
      reads key, keyPre
      ensures r ==> !PushKey(keyNumber) && !TriggerKey(keyNumber)
      ensures r <==> !PushKey(keyNumber) && keyPre[keyNumber as int] != 0
    {
      key[keyNumber as int] == 0 && keyPre[keyNumber as int] != 0
    }

    function IsPressMouse(mouseNumber: int32): (r: bool)
      reads this
      ensures r ==> 0 <= mouseNumber <= 3
      ensures 0 <= mouseNumber <= 3 ==> (r <==> Held(mouseState.rgbButtons[mouseNumber]))
    {
      if mouseNumber < 0 || mouseNumber > 3 then false
      else Held(mouseState.rgbButtons[mouseNumber])
    }

    function IsTriggerMouse(mouseNumber: int32): (r: bool)
      reads this
      ensures r ==> IsPressMouse(mouseNumber)
      ensures 0 <= mouseNumber <= 3 ==>
        (r <==> IsPressMouse(mouseNumber) && !Held(mouseStatePre.rgbButtons[mouseNumber]))
    {
      if mouseNumber < 0 || mouseNumber > 3 then false
      else !Held(mouseStatePre.rgbButtons[mouseNumber]) && Held(mouseState.rgbButtons[mouseNumber])
    }

    function GetMouseMove(): (r: Point)
      reads this
      ensures r == Point(mouseState.lX, mouseState.lY)
    {
      Point(mouseState.lX, mouseState.lY)
    }

    function GetWheel(): (r: int32)
      reads this
      ensures r == mouseState.lZ
    {
      mouseState.lZ
    }

    function GetMousePosition(): (r: Point)
      reads this
      ensures r == mousePosition
    {
      mousePosition
    }

    /** Reads pad `stickNo` into `out`, whose prior contents are `out0`. */
    method GetJoystickState(stickNo: int32, slots: PadSlots, out0: XInputState) returns (ok: bool, out: XInputState)
      ensures ok == ReadJoystick(joysticks, stickNo, slots).Some?
      ensures out == if ok then ReadJoystick(joysticks, stickNo, slots).value else out0
    {
      out := out0;
      if stickNo < 0 || stickNo >= |joysticks| {
        return false, out;
      }
      var joystick := joysticks[stickNo];
      if joystick.padType != XInput {
        return false, out;
      }
      var polled := Poll(slots, stickNo);
      if polled.None? {
        return false, out;
      }
      out := polled.value;
      var dz := joysticks[stickNo].deadZoneL;
      if Abs(out.gamepad.thumbLX) < dz {
        out := out.(gamepad := out.gamepad.(thumbLX := 0));
      }
      if Abs(out.gamepad.thumbLY) < dz {
        out := out.(gamepad := out.gamepad.(thumbLY := 0));
      }
      if Abs(out.gamepad.thumbRX) < dz {
        out := out.(gamepad := out.gamepad.(thumbRX := 0));
      }
      if Abs(out.gamepad.thumbRY) < dz {
        out := out.(gamepad := out.gamepad.(thumbRY := 0));
      }
      return true, out;
    }

    method SetJoystickDeadZone(stickNo: int32, deadZoneL: int32, deadZoneR: int32)
      modifies this`joysticks
      ensures joysticks == WithDeadZones(old(joysticks), stickNo, deadZoneL, deadZoneR)
    {
      if stickNo < 0 || stickNo >= |joysticks| {
        return;
      }
      var joystick := joysticks[stickNo];
      joysticks := joysticks[stickNo := joystick.(deadZoneL := deadZoneL, deadZoneR := deadZoneR)];
    }
  }

  /** An edge fires exactly when the two snapshots disagree about the key,
      and pressed-this-frame and released-this-frame never fire together. */
  lemma KeyEdgeIffChanged(input: Input, keyNumber: byte)
    requires input.Valid()
    ensures !(input.TriggerKey(keyNumber) && input.ReleaseKey(keyNumber))
    ensures input.TriggerKey(keyNumber) || input.ReleaseKey(keyNumber)
        <==> (input.key[keyNumber as int] != 0) != (input.keyPre[keyNumber as int] != 0)
  {
  }
}
