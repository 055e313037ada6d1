/** The environment callback a loaded core calls to query or configure the
    frontend (`environment_cb`), over the frontend state it reads and
    writes: `g_extern.system`, `driver.video` and the message queue. */
module Environment {

  import opened CStrings
  import opened Libretro
  import opened Variables

  /** The read-only settings the callback consults. */
  datatype Settings = Settings(cropOverscan: bool, allowRotate: bool, systemDirectory: string)

  /** Which GL family the frontend was compiled against (HAVE_OPENGLES2
      wins over HAVE_OPENGL), and the GL-capable video driver (`video_gl`). */
  datatype GlFamily = NoGl | OpenGl | OpenGlEs2
  datatype Build = Build(gl: GlFamily, glDriver: VideoDriver)

  /** One call of the callback: the command code with its payload. */
  datatype Request =
    | GetOverscan
    | GetCanDupe
    | GetVariable(key: Option<string>)
    | SetVariables(variables: seq<Variable>)
    | SetMessage(text: string, frames: nat)
    | SetRotation(rotation: nat)
    | Shutdown
    | SetPerformanceLevel(level: nat)
    | GetSystemDirectory
    | SetPixelFormat(format: int)
    | SetInputDescriptors(descriptors: seq<InputDescriptor>)
    | SetKeyboardCallback(callback: Fn)
    | SetDiskControlInterface(control: DiskControl)
    | SetHwRender(hwRender: HwRenderCallback)
    | Unsupported(cmd: nat)

  /** What the callback writes back through the payload pointer. */
  datatype Reply =
    | NoReply
    | BoolOut(flag: bool)
    | VariableOut(value: VarPtr)
    | DirectoryOut(directory: Option<string>)
    | HwRenderOut(hwRender: HwRenderCallback)

  /** The scalar part of the frontend state, as the callback sees it.
      `messages` and `rotationCalls` record the calls made to
      `msg_queue_push` and `video_set_rotation_func`. */
  datatype SystemView = SystemView(
    pixFmt: int,
    rotation: nat,
    shutdown: bool,
    performanceLevel: nat,
    keyEvent: Fn,
    diskControl: DiskControl,
    hwRender: HwRenderCallback,
    video: Option<VideoDriver>,
    videoData: bool,
    msgQueue: bool,
    messages: seq<Message>,
    rotationCalls: seq<nat>)

  datatype Outcome = Outcome(ok: bool, reply: Reply, view: SystemView)

  predicate IsPixelFormat(format: int) {
    format == PIXEL_FORMAT_0RGB1555 || format == PIXEL_FORMAT_RGB565 || format == PIXEL_FORMAT_XRGB8888
  }

  /** How SET_HW_RENDER treats a requested context type. */
  datatype HwDecision = HwReject | HwKeepDriver | HwSwitchToGl

  /** NONE is always accepted and keeps the driver; the family the build
      was compiled against is accepted and switches to the GL driver; the
      other family and unknown types are rejected. */
  function HwContextDecision(gl: GlFamily, contextType: int): (d: HwDecision)
    ensures d == HwKeepDriver <==> contextType == HW_CONTEXT_NONE
    ensures d == HwSwitchToGl <==>
      (contextType == HW_CONTEXT_OPENGL && gl == OpenGl) ||
      (contextType == HW_CONTEXT_OPENGLES2 && gl == OpenGlEs2)
  {
    if contextType == HW_CONTEXT_NONE then HwKeepDriver
    else if gl == OpenGlEs2 && contextType == HW_CONTEXT_OPENGLES2 then HwSwitchToGl
    else if gl == OpenGl && contextType == HW_CONTEXT_OPENGL then HwSwitchToGl
    else HwReject
  }

  /** The specification of one callback invocation, apart from the
      input-description table: the result, what is written back, and the
      new state. */
  function Respond(v: SystemView, req: Request, settings: Settings, build: Build, env: string): (r: Outcome)
    ensures !r.ok ==> r.reply == NoReply
    ensures req.GetOverscan? || req.GetCanDupe? || req.GetVariable? || req.GetSystemDirectory? ==>
      r.ok && r.view == v
    ensures r.view.videoData == v.videoData && r.view.msgQueue == v.msgQueue
    ensures v.messages <= r.view.messages && v.rotationCalls <= r.view.rotationCalls
  {
    match req
    case GetOverscan => Outcome(true, BoolOut(!settings.cropOverscan), v)
    case GetCanDupe => Outcome(true, BoolOut(true), v)
    case GetVariable(key) => Outcome(true, VariableOut(LookupVariable(env, key)), v)
    case SetVariables(_) => Outcome(true, NoReply, v)
    case SetMessage(text, frames) =>
      Outcome(true, NoReply,
        if v.msgQueue then v.(messages := v.messages + [Message(text, 1, frames)]) else v)
    case SetRotation(r) =>
      if !settings.allowRotate then Outcome(true, NoReply, v)
      else if v.video.Some? && v.video.value.hasSetRotation then
        Outcome(true, NoReply,
          v.(rotation := r, rotationCalls := if v.videoData then v.rotationCalls + [r] else v.rotationCalls))
      else Outcome(false, NoReply, v.(rotation := r))
    case Shutdown => Outcome(true, NoReply, v.(shutdown := true))
    case SetPerformanceLevel(level) => Outcome(true, NoReply, v.(performanceLevel := level))
    case GetSystemDirectory =>
      Outcome(true, DirectoryOut(if settings.systemDirectory == [] then None else Some(settings.systemDirectory)), v)
    case SetPixelFormat(format) =>
      if IsPixelFormat(format) then Outcome(true, NoReply, v.(pixFmt := format))
      else Outcome(false, NoReply, v)
    case SetInputDescriptors(_) => Outcome(true, NoReply, v)
    case SetKeyboardCallback(callback) => Outcome(true, NoReply, v.(keyEvent := callback))
    case SetDiskControlInterface(control) => Outcome(true, NoReply, v.(diskControl := control))
    case SetHwRender(cb) =>
      var d := HwContextDecision(build.gl, cb.contextType);
      if d == HwReject then Outcome(false, NoReply, v)
      else
        var filled := cb.(getCurrentFramebuffer := DriverGetCurrentFramebuffer,
                          getProcAddress := DriverGetProcAddress);
        Outcome(true, HwRenderOut(filled),
          v.(hwRender := filled, video := if d == HwSwitchToGl then Some(build.glDriver) else v.video))
    case Unsupported(_) => Outcome(false, NoReply, v)
  }

  /** The callback rejects exactly: unknown codes, a pixel format outside
      the three, a permitted rotation with no driver rotation hook, and a
      hardware context the build cannot provide. */
  lemma RejectionPaths(v: SystemView, req: Request, settings: Settings, build: Build, env: string)
    ensures !Respond(v, req, settings, build, env).ok <==>
      || req.Unsupported?
      || (req.SetPixelFormat? && !IsPixelFormat(req.format))
      || (req.SetRotation? && settings.allowRotate && !(v.video.Some? && v.video.value.hasSetRotation))
      || (req.SetHwRender? && HwContextDecision(build.gl, req.hwRender.contextType) == HwReject)
    ensures !Respond(v, req, settings, build, env).ok ==>
      Respond(v, req, settings, build, env).reply == NoReply &&
      Respond(v, req, settings, build, env).view == (if req.SetRotation? then v.(rotation := req.rotation) else v)
  {
  }

  /** An unrecognised command is refused and writes nothing. */
  lemma UnsupportedIsRejected(v: SystemView, cmd: nat, settings: Settings, build: Build, env: string)
    ensures Respond(v, Unsupported(cmd), settings, build, env) == Outcome(false, NoReply, v)
  {
  }

  /** SET_PIXEL_FORMAT accepts and stores exactly the three formats. */
  lemma PixelFormatStored(v: SystemView, format: int, settings: Settings, build: Build, env: string)
    ensures var o := Respond(v, SetPixelFormat(format), settings, build, env);
      (o.ok <==> format in {PIXEL_FORMAT_0RGB1555, PIXEL_FORMAT_RGB565, PIXEL_FORMAT_XRGB8888}) &&
      o.view == (if o.ok then v.(pixFmt := format) else v)
  {
  }

  /** SET_ROTATION: a no-op success when rotation is disallowed; otherwise
      the rotation is stored even when the request then fails for want of a
      driver hook, and the hook runs only with live driver data. */
  lemma RotationRules(v: SystemView, r: nat, settings: Settings, build: Build, env: string)
    ensures var o := Respond(v, SetRotation(r), settings, build, env);
      && (!settings.allowRotate ==> o.ok && o.view == v)
      && (settings.allowRotate ==> o.view.rotation == r)
      && (settings.allowRotate ==> (o.ok <==> v.video.Some? && v.video.value.hasSetRotation))
      && (o.view.rotationCalls == if settings.allowRotate && o.ok && v.videoData
                                  then v.rotationCalls + [r] else v.rotationCalls)
      && (settings.allowRotate && o.ok ==>
            o.view == v.(rotation := r,
                         rotationCalls := if v.videoData then v.rotationCalls + [r] else v.rotationCalls))
  {
  }

  /** SET_HW_RENDER: NONE keeps the driver, the build's own family switches
      to the GL driver, anything else is refused with nothing changed; on
      acceptance the stored record carries the frontend's two hooks. */
  lemma HwRenderRules(v: SystemView, cb: HwRenderCallback, settings: Settings, build: Build, env: string)
    ensures var o := Respond(v, SetHwRender(cb), settings, build, env);
      && (cb.contextType == HW_CONTEXT_NONE ==> o.ok && o.view.video == v.video)
      && (build.gl == OpenGl && cb.contextType == HW_CONTEXT_OPENGL ==> o.ok && o.view.video == Some(build.glDriver))
      && (build.gl == OpenGlEs2 && cb.contextType == HW_CONTEXT_OPENGLES2 ==> o.ok && o.view.video == Some(build.glDriver))
      && (build.gl == OpenGl && cb.contextType == HW_CONTEXT_OPENGLES2 ==> !o.ok && o.view == v)
      && (build.gl == OpenGlEs2 && cb.contextType == HW_CONTEXT_OPENGL ==> !o.ok && o.view == v)
      && (cb.contextType !in {HW_CONTEXT_NONE, HW_CONTEXT_OPENGL, HW_CONTEXT_OPENGLES2} ==> !o.ok && o.view == v)
      && (build.gl == NoGl && cb.contextType != HW_CONTEXT_NONE ==> !o.ok && o.view == v)
      && (o.ok ==> o.view.hwRender == o.reply.hwRender == cb.(getCurrentFramebuffer := DriverGetCurrentFramebuffer,
                                                              getProcAddress := DriverGetProcAddress))
      && (o.ok ==> o.view == v.(hwRender := o.reply.hwRender,
                                video := if cb.contextType == HW_CONTEXT_NONE then v.video else Some(build.glDriver)))
  {
  }

  /** The descriptor `d` is recorded in slot (`p`, `b`) of the table. */
  predicate Records(d: InputDescriptor, p: nat, b: nat) {
    && d.description.Some?
    && d.port < MAX_PLAYERS && d.device == DEVICE_JOYPAD && d.id < FIRST_CUSTOM_BIND
    && d.port == p && d.id == b
  }

  /** The number of descriptors before the first NULL description (the
      terminator), or all of them if there is none. */
  function Terminator(descs: seq<InputDescriptor>): (n: nat)
    ensures n <= |descs|
    ensures forall i :: 0 <= i < n ==> descs[i].description.Some?
    ensures n < |descs| ==> descs[n].description.None?
  {
    if descs == [] || descs[0].description.None? then 0 else 1 + Terminator(descs[1..])
  }

  /** The description left in slot (`p`, `b`) after the first `n`
      descriptors have been applied to a cleared table. */
  function LastDesc(descs: seq<InputDescriptor>, n: nat, p: nat, b: nat): Option<string>
    requires n <= |descs|
  {
    if n == 0 then None
    else if Records(descs[n - 1], p, b) then descs[n - 1].description
    else LastDesc(descs, n - 1, p, b)
  }

  /** The table slot (`p`, `b`) after SET_INPUT_DESCRIPTORS. */
  function DescSlot(descs: seq<InputDescriptor>, p: nat, b: nat): Option<string> {
    LastDesc(descs, Terminator(descs), p, b)
  }

  /** The latest descriptor recorded in a slot is the one that stays. */
  lemma {:induction false} LastDescIsLatest(descs: seq<InputDescriptor>, n: nat, p: nat, b: nat, j: nat)
    requires j < n <= |descs| && Records(descs[j], p, b)
    requires forall k :: j < k < n ==> !Records(descs[k], p, b)
    ensures LastDesc(descs, n, p, b) == descs[j].description
  {
    if j < n - 1 {
      LastDescIsLatest(descs, n - 1, p, b, j);
    }
  }

  /** A slot stays empty exactly when no descriptor is recorded in it. */
  lemma {:induction false} LastDescEmpty(descs: seq<InputDescriptor>, n: nat, p: nat, b: nat)
    requires n <= |descs|
    ensures LastDesc(descs, n, p, b).None? <==> forall k :: 0 <= k < n ==> !Records(descs[k], p, b)
  {
    if n > 0 {
      LastDescEmpty(descs, n - 1, p, b);
    }
  }

  /** A descriptor for port 0, button 0 named "Jump", then the terminator,
      fills that slot; one whose port is MAX_PLAYERS changes no slot. */
  lemma InputDescriptorExample(p: nat, b: nat)
    ensures DescSlot([InputDescriptor(0, DEVICE_JOYPAD, 0, 0, Some("Jump")),
                      InputDescriptor(0, 0, 0, 0, None)], 0, 0) == Some("Jump")
    ensures DescSlot([InputDescriptor(MAX_PLAYERS, DEVICE_JOYPAD, 0, 0, Some("Jump")),
                      InputDescriptor(0, 0, 0, 0, None)], p, b) == None
  {
    var one := [InputDescriptor(0, DEVICE_JOYPAD, 0, 0, Some("Jump")), InputDescriptor(0, 0, 0, 0, None)];
    assert Terminator(one[1..]) == 0;
    var skipped := [InputDescriptor(MAX_PLAYERS, DEVICE_JOYPAD, 0, 0, Some("Jump")), InputDescriptor(0, 0, 0, 0, None)];
    assert Terminator(skipped[1..]) == 0;
    assert Terminator(skipped) == 1;
    assert !Records(skipped[0], p, b);
    assert LastDesc(skipped, 1, p, b) == LastDesc(skipped, 0, p, b);
  }

  /** The frontend state the callback works on: the relevant fields of
      `g_extern.system`, `driver.video`/`driver.video_data`, whether the
      message queue exists, and the calls made to the two foreign hooks. */
  class FrontendState {
    var pixFmt: int
    var rotation: nat
    var shutdown: bool
    var performanceLevel: nat
    var keyEvent: Fn
    var diskControl: DiskControl
    var hwRender: HwRenderCallback
    var video: Option<VideoDriver>
    var videoData: bool
    var msgQueue: bool
    var messages: seq<Message>
    var rotationCalls: seq<nat>
    /** input_desc_btn[port][button] */
    var inputDescBtn: array2<Option<string>>
    /** The raw variable string and its split copy (with terminator). */
    var environment: string
    var environmentSplit: array<char>

    ghost predicate Valid()
      reads this
    {
      && inputDescBtn.Length0 == MAX_PLAYERS
      && inputDescBtn.Length1 == FIRST_CUSTOM_BIND
      && NoNul(environment)
      && environmentSplit.Length == |environment| + 1
    }

    function View(): SystemView
      reads this
    {
      SystemView(pixFmt, rotation, shutdown, performanceLevel, keyEvent, diskControl,
                 hwRender, video, videoData, msgQueue, messages, rotationCalls)
    }

    /** Zero-initialised state for a session with variable string `env`,
        both buffers holding `env`. */
    constructor (env: string, video: Option<VideoDriver>, videoData: bool, msgQueue: bool)
      requires NoNul(env)
      ensures Valid() && fresh(inputDescBtn) && fresh(environmentSplit)
      ensures environment == env && environmentSplit[..] == env + [NUL]
      ensures View() == SystemView(PIXEL_FORMAT_0RGB1555, 0, false, 0, Null, NoDiskControl, NoHwRender,
                                   video, videoData, msgQueue, [], [])
      ensures forall p, b :: 0 <= p < MAX_PLAYERS && 0 <= b < FIRST_CUSTOM_BIND ==> inputDescBtn[p, b] == None
    {
      pixFmt, rotation, shutdown, performanceLevel := PIXEL_FORMAT_0RGB1555, 0, false, 0;
      keyEvent, diskControl, hwRender := Null, NoDiskControl, NoHwRender;
      this.video, this.videoData, this.msgQueue := video, videoData, msgQueue;
      messages, rotationCalls := [], [];
      inputDescBtn := new Option<string>[MAX_PLAYERS, FIRST_CUSTOM_BIND]((p, b) => None);
      environment := env;
      environmentSplit := new char[|env| + 1](i => if 0 <= i < |env| then env[i] else NUL);
    }

    /** `set_environment_defaults`: runs `strtok_r(…, ";", …)` over the
        split copy until it returns NULL. */
    method SetEnvironmentDefaults()
      requires Valid() && environmentSplit[..] == environment + [NUL]
      modifies environmentSplit
      ensures environmentSplit[..] == SplitString(environment) + [NUL]
    {
      var buf := environmentSplit;
      ghost var orig := environment + [NUL];
      ghost var image := SplitString(environment) + [NUL];
      var save := 0;
      var more := true;
      while more
        invariant 0 <= save < buf.Length == |orig|
        invariant forall i :: 0 <= i < save ==> buf[i] == image[i]
        invariant forall i :: save <= i < buf.Length ==> buf[i] == orig[i]
        invariant save == 0 || environment[save - 1] == ';' || save == |environment|
        invariant !more ==> save == |environment|
        decreases buf.Length - save, if more then 1 else 0
      {
        var token: Option<nat>;
        ghost var end: nat;
        ghost var start := save;
        ghost var before := buf[..];
        token, save, end := Strtok(buf, save, ';');
        // Delimiters skipped from `start` are not cuts: each follows `;`
        // or the beginning of the string.
        forall i | start <= i < |environment| && (token.None? || i < token.value)
          ensures buf[i] == image[i]
        {
          assert before[i] == ';';
          assert i == start || before[i - 1] == ';';
          assert !IsCut(environment, i);
        }
        if token.Some? {
          forall i | token.value <= i < save ensures buf[i] == image[i] {
            if i < end {
              assert before[i] != ';' && before[i] == orig[i];
            } else {
              assert before[end - 1] != ';';
              assert IsCut(environment, end);
            }
          }
        }
        more := token.Some?;
      }
      assert buf[..] == image;
    }

    /** SET_INPUT_DESCRIPTORS: clears the whole table, then records each
        descriptor up to the terminator whose port, device and button are
        in range; a later descriptor overwrites an earlier one. */
    method SetInputDescriptors(descs: seq<InputDescriptor>)
      requires Valid()
      modifies inputDescBtn
      ensures forall p, b :: 0 <= p < MAX_PLAYERS && 0 <= b < FIRST_CUSTOM_BIND ==>
        inputDescBtn[p, b] == DescSlot(descs, p, b)
    {
      forall p, b | 0 <= p < MAX_PLAYERS && 0 <= b < FIRST_CUSTOM_BIND {
        inputDescBtn[p, b] := None;
      }
      var i := 0;
      while i < |descs| && descs[i].description.Some?
        invariant i <= Terminator(descs)
        invariant forall p, b :: 0 <= p < MAX_PLAYERS && 0 <= b < FIRST_CUSTOM_BIND ==>
          inputDescBtn[p, b] == LastDesc(descs, i, p, b)
      {
        var d := descs[i];
        if d.port < MAX_PLAYERS && d.device == DEVICE_JOYPAD && d.id < FIRST_CUSTOM_BIND {
          inputDescBtn[d.port, d.id] := d.description;
        }
        i := i + 1;
      }
    }

    /** SET_ROTATION: stores the rotation when rotation is allowed, then
        fails unless the driver has a rotation hook, which it calls only
        with live driver data. */
    method ApplyRotation(r: nat, settings: Settings, build: Build) returns (ok: bool)
      modifies this
      ensures inputDescBtn == old(inputDescBtn)
      ensures environment == old(environment) && environmentSplit == old(environmentSplit)
      ensures Outcome(ok, NoReply, View()) == Respond(old(View()), SetRotation(r), settings, build, environment)
    {
      ok := true;
      if settings.allowRotate {
        rotation := r;
        if video.Some? && video.value.hasSetRotation {
          if videoData {
            rotationCalls := rotationCalls + [r];
          }
        } else {
          ok := false;
        }
      }
    }

    /** SET_PIXEL_FORMAT: stores one of the three known formats. */
    method ApplyPixelFormat(format: int, settings: Settings, build: Build) returns (ok: bool)
      modifies this
      ensures inputDescBtn == old(inputDescBtn)
      ensures environment == old(environment) && environmentSplit == old(environmentSplit)
      ensures Outcome(ok, NoReply, View()) == Respond(old(View()), SetPixelFormat(format), settings, build, environment)
    {
      ok := IsPixelFormat(format);
      if ok {
        pixFmt := format;
      }
    }

    /** SET_HW_RENDER: accepts NONE or the build's own GL family (switching
        to the GL driver for the latter) and fills in the frontend's hooks. */
    method ApplyHwRender(cb: HwRenderCallback, settings: Settings, build: Build) returns (ok: bool, reply: Reply)
      modifies this
      ensures inputDescBtn == old(inputDescBtn)
      ensures environment == old(environment) && environmentSplit == old(environmentSplit)
      ensures Outcome(ok, reply, View()) == Respond(old(View()), SetHwRender(cb), settings, build, environment)
    {
      ok, reply := true, NoReply;
      var t := cb.contextType;
      if t == HW_CONTEXT_NONE {
      } else if build.gl == OpenGlEs2 && t == HW_CONTEXT_OPENGLES2 {
        video := Some(build.glDriver);
      } else if build.gl == OpenGl && t == HW_CONTEXT_OPENGL {
        video := Some(build.glDriver);
      } else {
        ok := false;
      }
      if ok {
        var filled := cb.(getCurrentFramebuffer := DriverGetCurrentFramebuffer,
                          getProcAddress := DriverGetProcAddress);
        hwRender := filled;
        reply := HwRenderOut(filled);
      }
    }

    /** `environment_cb`. */
    method EnvironmentCb(req: Request, settings: Settings, build: Build) returns (ok: bool, reply: Reply)
      requires Valid()
      modifies this, inputDescBtn
      ensures Valid()
      ensures inputDescBtn == old(inputDescBtn)
      ensures environment == old(environment) && environmentSplit == old(environmentSplit)
      ensures Outcome(ok, reply, View()) == Respond(old(View()), req, settings, build, environment)
      ensures req.SetInputDescriptors? ==>
        forall p, b :: 0 <= p < MAX_PLAYERS && 0 <= b < FIRST_CUSTOM_BIND ==>
          inputDescBtn[p, b] == DescSlot(req.descriptors, p, b)
      ensures !req.SetInputDescriptors? ==>
        forall p, b :: 0 <= p < MAX_PLAYERS && 0 <= b < FIRST_CUSTOM_BIND ==>
          inputDescBtn[p, b] == old(inputDescBtn[p, b])
    {
      ok, reply := true, NoReply;
      match req {
        case GetOverscan =>
          reply := BoolOut(!settings.cropOverscan);
        case GetCanDupe =>
          reply := BoolOut(true);
        case GetVariable(key) =>
          reply := VariableOut(LookupVariable(environment, key));
        case SetVariables(_) =>
        case SetMessage(text, frames) =>
          if msgQueue {
            messages := messages + [Message(text, 1, frames)];
          }
        case SetRotation(r) =>
          ok := ApplyRotation(r, settings, build);
        case Shutdown =>
          shutdown := true;
        case SetPerformanceLevel(level) =>
          performanceLevel := level;
        case GetSystemDirectory =>
          reply := DirectoryOut(if settings.systemDirectory != [] then Some(settings.systemDirectory) else None);
        case SetPixelFormat(format) =>
          ok := ApplyPixelFormat(format, settings, build);
        case SetInputDescriptors(descs) =>
          SetInputDescriptors(descs);
        case SetKeyboardCallback(callback) =>
          keyEvent := callback;
        case SetDiskControlInterface(control) =>
          diskControl := control;
        case SetHwRender(cb) =>
          ok, reply := ApplyHwRender(cb, settings, build);
        case Unsupported(_) =>
          ok := false;
      }
    }
  }
}
