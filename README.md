# Engine input state and scene factory, in Dafny

This project models two small parts of a game engine.

**Input** (`input.dfy`, module `EngineInput`). This is the engine's `Input` class, a polling layer over keyboard, mouse and gamepads.
- It keeps two 256-byte keyboard snapshots, `key_` and `keyPre`, modelled as two `array<bv8>`.
- It keeps two `DIMOUSESTATE2` mouse snapshots: relative motion `lX`/`lY`, wheel `lZ` and eight button bytes.
- It keeps the cursor position in window coordinates.
- It keeps `joysticks_`, a table of registered XInput pads, each with a left deadzone, a right deadzone and a pad type.
- `Update` copies the current snapshots into the previous ones and stores new samples.
- The key and mouse queries are edge detectors over the two snapshots. A mouse button counts as held when bit `0x80` of its byte is set.
- Only buttons 0..3 are ever reported, although a `DIMOUSESTATE2` carries eight.
- `GetJoystickState` range-checks the pad number, checks the pad type, polls the device and then applies the deadzone to the four thumb axes.
- `SetJoystickDeadZone` rewrites one table entry.

Every device read is a parameter of the method that performs it:
- `GetDeviceState` for the keyboard and the mouse, the cursor position after `ScreenToClient`, and `XInputGetState` are all passed in.
- The XInput backend is the `PadSlots` value. It gives the state reported for each of the `XUSER_MAX_COUNT` = 4 user slots, or `None` for a slot with no pad.

The model keeps these behaviours of the code:
- The right-stick axes are clamped with the LEFT deadzone, `deadZoneL_`. `deadZoneR_` is stored but never read (`RightDeadZoneNeverRead`).
- `GetJoystickState(stickNo)` passes the table index `stickNo` to `XInputGetState` as the user slot. A pad registered from slot 1 as entry 0 is therefore read from slot 0 (`PadIndexIsPolledAsSlot`).
- `Initialize` appends to the table without clearing it. Calling it twice registers the pads twice.
- `mousePosition_` has no initializer in `Input.h`. The engine's instance is the zero-initialised function-local static returned by `GetInstance`, and the model starts the cursor at (0, 0).

**Scene factory** (`scene_factory.dfy`, module `SceneFactory`). `CreateScene` maps exactly "TEST", "TITLE" and "GAMEPLAY" to a new `TestScene`, `TitleScene` or `GamePlayScene`. It calls `Initialize` on the new scene once before returning it. Any other name gives null, modelled as `None`. A scene is a value that records its variant and how many times `Initialize` has run on it.

`wrappers.dfy` holds the `Option` type.

## Model

| member | source | states |
|---|---|---|
| `EngineInput.Input.constructor` | project/Engine/Input/Input.h:131-144 | Both key arrays hold 256 zero bytes and both mouse states are zero. So before the first Update no key is pushed, triggered or released, no mouse button is pressed or triggered, and motion and wheel are 0. The pad table is empty. |
| `EngineInput.EnumeratePads` | project/Engine/Input/Input.cpp:46-57 | The registration loop adds at most one entry per slot; `EnumeratePadsCount` makes it exactly one per slot that answers. Every entry is XInput with the default deadzones 7849 (left) and 8689 (right). The result is empty iff no slot answers. |
| `EngineInput.EnumeratePadsCount` | project/Engine/Input/Input.cpp:46-57 | The registration loop adds exactly one entry per slot that answers: the number of entries equals the number of answering slots. |
| `EngineInput.Input.Initialize` | project/Engine/Input/Input.cpp:46-57 | The loop over the four slots appends EnumeratePads of the slots to the existing table, so the table grows by exactly the number of answering slots. Nothing else changes. |
| `EngineInput.Input.Update` | project/Engine/Input/Input.cpp:60-83 | keyPre becomes the old key contents and key becomes the sample. mouseStatePre becomes the old mouseState and mouseState becomes the sample. The cursor is stored. Afterwards TriggerKey/ReleaseKey are exactly the 0-to-non-zero / non-zero-to-0 changes between old key and the sample. An unchanged sample gives no key edge and no mouse trigger. The pad table is untouched. |
| `EngineInput.Input.PushKey` | project/Engine/Input/Input.cpp:85-92 | True iff the key's byte in the current snapshot is non-zero. It reads only the current array. |
| `EngineInput.Input.TriggerKey` | project/Engine/Input/Input.cpp:94-101 | A trigger implies PushKey. It is true iff the key is pushed now and its previous byte was 0. |
| `EngineInput.Input.ReleaseKey` | project/Engine/Input/Input.cpp:103-110 | A release implies neither PushKey nor TriggerKey. It is true iff the key is not pushed now and its previous byte was non-zero. |
| `EngineInput.KeyEdgeIffChanged` | project/Engine/Input/Input.cpp:94-110 | Trigger and release never hold together. One of them holds iff the two snapshots disagree on whether the key is down. |
| `EngineInput.Input.IsPressMouse` | project/Engine/Input/Input.cpp:112-119 | False for any button outside 0..3, including buttons 4..7 of the state. Inside 0..3 it is true iff bit 0x80 of the current button byte is set. |
| `EngineInput.Input.IsTriggerMouse` | project/Engine/Input/Input.cpp:121-129 | A trigger implies IsPressMouse, so it is false outside 0..3. Inside 0..3 it is true iff the button is pressed now and bit 0x80 was clear in the previous state. A button held across both frames is not a trigger. |
| `EngineInput.Input.GetMouseMove` | project/Engine/Input/Input.cpp:131-134 | Returns the current snapshot's relative motion (lX, lY). Update sets it to the new sample's motion. |
| `EngineInput.Input.GetWheel` | project/Engine/Input/Input.cpp:136 | Returns the current snapshot's wheel delta lZ. Update sets it to the new sample's wheel value. |
| `EngineInput.Input.GetMousePosition` | project/Engine/Input/Input.cpp:138 | Returns the stored cursor position, which Update sets. |
| `EngineInput.ApplyDeadZone` | project/Engine/Input/Input.cpp:164-177 | Each of the four thumb axes becomes 0 iff its magnitude is below the threshold (or it was 0). Otherwise it is unchanged. Packet number, buttons and triggers are unchanged. |
| `EngineInput.ReadJoystick` | project/Engine/Input/Input.cpp:140-180 | The read fails iff stickNo < 0, stickNo >= the table size, the entry is not XInput, or XInputGetState fails for user slot stickNo. On success the result is the polled state clamped with that entry's deadZoneL on all four axes. |
| `EngineInput.Input.GetJoystickState` | project/Engine/Input/Input.cpp:140-180 | The returned flag is ReadJoystick's success. On success `out` is ReadJoystick's state. On failure `out` keeps its prior contents. The Input object is not modified. |
| `EngineInput.RightDeadZoneNeverRead` | project/Engine/Input/Input.cpp:171-177 | Changing any entry's right deadzone changes no joystick reading. |
| `EngineInput.PadIndexIsPolledAsSlot` | project/Engine/Input/Input.cpp:154-155 | With a pad only in slot 1, the table is a single default entry. Reading entry 0 still fails, because slot 0 is polled. |
| `EngineInput.WithDeadZones` | project/Engine/Input/Input.cpp:182-194 | An out-of-range index leaves the table unchanged. Otherwise only that entry's two deadzone fields take the new values. Its pad type, every other entry and the length are kept. |
| `EngineInput.Input.SetJoystickDeadZone` | project/Engine/Input/Input.cpp:182-194 | The table becomes WithDeadZones of the old table. Only the `joysticks` field may change. |
| `EngineInput.DeadZoneSetThenRead` | project/Engine/Input/Input.cpp:182-194 | Setting entry i's deadzones never changes whether any read succeeds. Other entries read as before. Entry i reads as its polled state clamped with the new left deadzone. |
| `SceneFactory.CreateScene` | project/Engine/Scene/SceneFactory.cpp:6-23 | A non-null result is the variant whose identifier equals the name, with Initialize called exactly once. The result is null iff no variant has that identifier. |
| `SceneFactory.CreateSceneByName` | project/Engine/Scene/SceneFactory.cpp:11-19 | "TEST", "TITLE" and "GAMEPLAY" give TestScene, TitleScene and GamePlayScene respectively, each initialized once. |
| `SceneFactory.SceneNamesDistinct` | project/Engine/Scene/SceneFactory.cpp:11-20 | Identifiers are distinct, so the branches are mutually exclusive and at most one scene is constructed per call. |
| `SceneFactory.ExactMatchOnly` | project/Engine/Scene/SceneFactory.cpp:9-22 | Matching is exact string equality. Case variants such as "title" or "Title", a leading blank and the empty name all give null. |

## Left out

- The debug camera (`project/Engine/3D/DebugCamera.cpp`) is not modelled. It is floating-point vector and matrix arithmetic over a matrix library that is not part of this model.
- The rest of `Input::Initialize` is not modelled: `DirectInput8Create`, `CreateDevice`, `SetDataFormat`, `SetCooperativeLevel`, and the `assert`s on their results. These are foreign device set-up with no state in the model.
- `Acquire`, `GetDeviceState`, `GetCursorPos`, `ScreenToClient` and `XInputGetState` are not modelled. Their outputs are method parameters.
- The source ignores the result codes of `Acquire` and `GetDeviceState`. A failed read is represented by whatever buffer contents the caller passes.
- The conversion from screen to client coordinates is not modelled. Update receives the converted position.
- `EngineInput.Input.GetJoystickState`: when `XInputGetState` fails, the model leaves `out` unchanged. The real call may already have written into it.
- A non-static `Input` object is not modelled. For such an object `mousePosition_` is indeterminate until the first Update; the model always starts it at (0, 0).
- `EngineInput.Input.GetMousePosition`: the source returns a `const POINT&`, so a caller that keeps the reference sees later Updates. The model returns a copy, so this aliasing is not captured.
- The `GetInstance` singleton, the `ComPtr` device handles and the stored window pointer are not modelled. They are ownership and plumbing.
- The `device_`, `state_` and `statePre_` fields of a joystick and the `State` union are not modelled. No modelled code reads or writes them.
- The scene variants' own `Initialize` bodies are not part of this model. Their only effect here is the count of calls.
- Heap ownership of the returned scene is not modelled. The caller's duty to delete it is out of scope.
