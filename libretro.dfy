/** The parts of the libretro ABI and of the frontend's globals that the
    environment callback reads or writes. Function pointers and driver
    objects are opaque values: only their identity matters here. */
module Libretro {

  import opened CStrings

  // enum retro_pixel_format
  const PIXEL_FORMAT_0RGB1555: int := 0
  const PIXEL_FORMAT_XRGB8888: int := 1
  const PIXEL_FORMAT_RGB565: int := 2

  // enum retro_hw_context_type
  const HW_CONTEXT_NONE: int := 0
  const HW_CONTEXT_OPENGL: int := 1
  const HW_CONTEXT_OPENGLES2: int := 2

  /** RETRO_DEVICE_JOYPAD */
  const DEVICE_JOYPAD: nat := 1

  /** Rows of the frontend's input-description table (one per player). */
  const MAX_PLAYERS: nat := 8

  /** Columns of that table: the sixteen named RetroPad buttons, B to R3. */
  const FIRST_CUSTOM_BIND: nat := 16

  /** An opaque function pointer: NULL, one supplied by the core, or one of
      the two video-driver hooks the frontend hands out. */
  datatype Fn = Null | CoreFn(id: nat) | DriverGetCurrentFramebuffer | DriverGetProcAddress

  /** A video driver (`driver.video` points at one); only whether it has a
      `set_rotation` hook is consulted. */
  datatype VideoDriver = VideoDriver(ident: nat, hasSetRotation: bool)

  /** struct retro_hw_render_callback */
  datatype HwRenderCallback = HwRenderCallback(
    contextType: int,
    contextReset: Fn,
    getCurrentFramebuffer: Fn,
    getProcAddress: Fn)

  /** struct retro_disk_control_callback, copied by value. */
  datatype DiskControl = DiskControl(
    setEjectState: Fn,
    getEjectState: Fn,
    getImageIndex: Fn,
    setImageIndex: Fn,
    getNumImages: Fn,
    replaceImageIndex: Fn,
    addImageIndex: Fn)

  const NoDiskControl: DiskControl := DiskControl(Null, Null, Null, Null, Null, Null, Null)
  const NoHwRender: HwRenderCallback := HwRenderCallback(HW_CONTEXT_NONE, Null, Null, Null)

  /** struct retro_input_descriptor; a NULL description ends the table. */
  datatype InputDescriptor = InputDescriptor(
    port: nat,
    device: nat,
    index: nat,
    id: nat,
    description: Option<string>)

  /** struct retro_variable */
  datatype Variable = Variable(key: Option<string>, value: Option<string>)

  /** One call of `msg_queue_push(queue, text, priority, frames)`. */
  datatype Message = Message(text: string, priority: nat, frames: nat)
}
