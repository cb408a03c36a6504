/** The controller sampler run from the vertical-blank interrupt: `joyread`
    shifts the previous sample into `joypad_last`, stores the new one in
    `joypad` and computes the newly pressed buttons in `joytrg`; the
    interrupt handler also counts frames. */
module Pad {
  import opened Machine

  // Button bits of a PC-FX pad word.
  const JOY_I: bv32 := 1
  const JOY_II: bv32 := 2
  const JOY_III: bv32 := 4
  const JOY_IV: bv32 := 8
  const JOY_V: bv32 := 16
  const JOY_VI: bv32 := 32
  const JOY_SELECT: bv32 := 64
  const JOY_RUN: bv32 := 128
  const JOY_UP: bv32 := 256
  const JOY_RIGHT: bv32 := 512
  const JOY_DOWN: bv32 := 1024
  const JOY_LEFT: bv32 := 2048
  const JOY_MODE1: bv32 := 4096
  const JOY_MODE2: bv32 := 16384

  /** Device tag of a standard PC-FX pad, held in the top four bits of the
      word the pad port returns. */
  const PAD_TYPE_FXPAD: bv32 := 0xF

  /** A pad word carrying the standard pad's tag and no button down. */
  const FX_PAD_IDLE: bv32 := PAD_TYPE_FXPAD << 28

  /** The status bit of the HuC6270 that marks a vertical-blank interrupt. */
  const VDC_STATUS_VD: bv16 := 0x20

  /** The device tag: `(w >> 28) & 0x0F`. */
  function PadType(w: bv32): (t: bv32)
    ensures t < 16
  {
    (w >> 28) & 0xF
  }

  /** The word comes from a standard pad. */
  predicate IsFxPad(w: bv32)
  {
    PadType(w) == PAD_TYPE_FXPAD
  }

  /** `joyread` tests `temp >> 28` without the mask; on a 32-bit word the
      mask changes nothing, so it agrees with the main loop's test. */
  lemma PadTypeUnmasked(w: bv32)
    ensures PadType(w) == w >> 28
  {
  }

  /** Buttons down in `cur` that were up in `prev`. */
  function Pressed(prev: bv32, cur: bv32): (p: bv32)
    ensures p & prev == 0
    ensures p | cur == cur
  {
    !prev & cur
  }

  /** One of the button bits a pad word can carry. */
  predicate IsButton(b: bv32)
  {
    b == JOY_I || b == JOY_II || b == JOY_III || b == JOY_IV || b == JOY_V || b == JOY_VI ||
    b == JOY_SELECT || b == JOY_RUN || b == JOY_UP || b == JOY_RIGHT || b == JOY_DOWN ||
    b == JOY_LEFT || b == JOY_MODE1 || b == JOY_MODE2
  }

  /** A button shows in `Pressed` exactly when it was up in `prev` and is
      down in `cur`. */
  lemma PressedButton(prev: bv32, cur: bv32, b: bv32)
    requires IsButton(b)
    ensures Pressed(prev, cur) & b != 0 <==> prev & b == 0 && cur & b != 0
  {
  }

  /** What `joytrg` is evidently meant to hold after a sample: the buttons
      newly pressed since the previous sample, or nothing when no standard
      pad is connected. */
  function IntendedTrigger(previous: bv32, sample: bv32): (t: bv32)
    ensures t & previous == 0
    ensures t | sample == sample
  {
    if sample >> 28 == PAD_TYPE_FXPAD then Pressed(previous, sample) else 0
  }

  /** What line 108 computes: `joypad` is still the previous sample there,
      so the expression is `~previous & previous`. */
  function TriggerAsWritten(previous: bv32, sample: bv32): (t: bv32)
    ensures t == 0
  {
    if sample >> 28 == PAD_TYPE_FXPAD then Pressed(previous, previous) else 0
  }

  /** A press of UP on a standard pad: the intended trigger reports it, the
      trigger as written does not. */
  lemma MissedPress()
    ensures IntendedTrigger(FX_PAD_IDLE, FX_PAD_IDLE | JOY_UP) == JOY_UP
    ensures TriggerAsWritten(FX_PAD_IDLE, FX_PAD_IDLE | JOY_UP) == 0
  {
  }

  /** The pad globals and the frame counter the interrupt maintains. */
  class PadState {
    var joypad: bv32
    var joypadLast: bv32
    var joytrg: bv32
    var frameCount: int

    /** Zero-initialised globals. */
    constructor ()
      ensures joypad == 0 && joypadLast == 0 && joytrg == 0 && frameCount == 0
    {
      joypad := 0;
      joypadLast := 0;
      joytrg := 0;
      frameCount := 0;
    }

    /** `joyread` as written: `sample` is what `eris_pad_read(0)` returns.
        The trigger is taken before `joypad` is updated, so it is always 0. */
    method JoyRead(sample: bv32)
      modifies this
      ensures joypadLast == old(joypad) && joypad == sample
      ensures joytrg == TriggerAsWritten(old(joypad), sample) == 0
      ensures frameCount == old(frameCount)
    {
      joypadLast := joypad;
      var temp := sample;
      if temp >> 28 == PAD_TYPE_FXPAD {
        joytrg := !joypadLast & joypad;
      } else {
        joytrg := 0;
      }
      joypad := temp;
    }

    /** `joyread` with the trigger taken from the new sample. */
    method JoyReadFixed(sample: bv32)
      modifies this
      ensures joypadLast == old(joypad) && joypad == sample
      ensures joytrg == IntendedTrigger(old(joypad), sample)
      ensures frameCount == old(frameCount)
    {
      joypadLast := joypad;
      var temp := sample;
      if temp >> 28 == PAD_TYPE_FXPAD {
        joytrg := !joypadLast & temp;
      } else {
        joytrg := 0;
      }
      joypad := temp;
    }

    /** The body of `my_vblank_irq`: `status` is the value read from the
        HuC6270 status register. The frame counter advances exactly when
        the vertical-blank bit is set; then the pad is sampled. */
    method VblankIrq(status: bv16, sample: bv32)
      modifies this
      ensures frameCount == old(frameCount) + (if status & VDC_STATUS_VD != 0 then 1 else 0)
      ensures joypadLast == old(joypad) && joypad == sample && joytrg == 0
    {
      var vdcStatus := status;
      if vdcStatus & 0x20 != 0 {
        frameCount := frameCount + 1;
      }
      JoyRead(sample);
    }
  }
}
