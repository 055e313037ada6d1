# RetroArch dynamic-core environment callback, modelled in Dafny

This project models the decision logic of RetroArch's `dynamic.c`, the
frontend side of the libretro plugin ABI:

- the **environment callback** `environment_cb`, through which a loaded core
  queries and configures the frontend. It covers overscan and frame-dupe
  queries, variable lookup, rotation, pixel format, the input-descriptor
  table, the hardware-render context, shutdown, performance level, the
  system directory, and the keyboard and disk-control callbacks. Unknown
  codes are refused;
- the **variable store**: the raw `key=value;key=value` string, the copy that
  `set_environment_defaults` splits in place with `strtok_r`, and the
  GET_VARIABLE lookup that maps an offset in the raw string to the split copy;
- **core discovery** (`find_first_libretro`): pick the first library of a
  directory listing whose advertised `|`-separated extensions contain the
  content's extension;
- the **core-name sanitiser** (`libretro_get_current_core_pathname`).

Files:

- `cstrings.dfy` (`CStrings`): C-string notions the code relies on.
  `strstr` is `Strstr`/`FindFrom`. What a `char *` denotes is `CStringAt`.
  glibc's `strtok_r` is `Strtok`, with `strspn`/`strcspn` as `Span`/`CSpan`.
- `libretro.dfy` (`Libretro`): the ABI constants and records. Function
  pointers and drivers are opaque values.
- `variables.dfy` (`Variables`): the split rule, the lookup and their lemmas.
- `environment.dfy` (`Environment`): the request and reply datatypes. It
  holds `Respond`, the specification function of one callback invocation,
  and the lemmas about it. The class `FrontendState` holds the fields of
  `g_extern.system` the callback writes, plus `driver.video`. Its method
  `EnvironmentCb` is proved equal to `Respond`, together with the exact
  contents of the input-description table.
- `discovery.dfy` (`Discovery`), `core_name.dfy` (`CoreName`).

Modelling choices:

- The build's GL family (`HAVE_OPENGLES2`, else `HAVE_OPENGL`, else neither)
  and the GL video driver `video_gl` are the `Build` parameter.
- The settings `crop_overscan`, `allow_rotate` and `system_directory` are the
  immutable `Settings` record.
- Calls the callback makes into code outside the file are recorded, not
  executed. `msg_queue_push` calls go into `messages`, and
  `video_set_rotation_func` calls go into `rotationCalls`.
- A C `char` is a Dafny `char`, and each one stands for one byte (value below 256). So `|id|` is `strlen(id)`. A UTF-8 name must be given one byte per `char` for the fit test of `GetCurrentCorePathname` to match the C one.
- The probe load in discovery is a map from library path to its
  `valid_extensions`. A path missing from the map fails to load.

Where the intended protocol and the code differ, the model follows the
code:

- SET_ROTATION stores the rotation before it can return `false`.
- SET_HW_RENDER with context NONE is accepted but does not switch the video
  driver. Only the build's own GL family switches it.
- GET_VARIABLE examines only the first occurrence of the key. So a key found
  inside a longer key masks a later real assignment (`FirstOccurrenceOnlyExample`),
  and a key that is a suffix of another key matches it (`SuffixKeyExample`).
- `strtok_r` overwrites a `;` with NUL only when it directly follows a token
  byte. A leading or repeated `;` stays in the split copy. Offsets stay
  aligned either way.

## Model

| member | source | states |
|---|---|---|
| CStrings.FindFrom | dynamic.c:400 | the result is an occurrence of the key at or after the start, no earlier position there is one, and None means there is none at all |
| CStrings.Strstr | dynamic.c:400 | `strstr` returns a position exactly when the key occurs, and then it is the first occurrence |
| CStrings.CStringAt | dynamic.c:405 | the string read through a `char *` is the bytes up to the first NUL: NUL-free, a slice of the buffer, followed by NUL or the buffer's end |
| CStrings.CStringAtTerminated | dynamic.c:410-411 | a NUL-free string stored with its terminator reads back as itself, whatever follows the terminator |
| CStrings.Span | dynamic.c:617-619 | `strspn` stops at the first non-delimiter inside the C string, and every byte it skipped is a delimiter |
| CStrings.CSpan | dynamic.c:617-619 | `strcspn` stops at the first delimiter or the terminator, and every byte it skipped is a token byte |
| CStrings.Strtok | dynamic.c:617-619 | one `strtok_r` call skips delimiters and either returns NULL with the buffer unchanged, or returns the token start and replaces only the delimiter ending the token with NUL |
| Variables.SplitString | dynamic.c:612-620 | the buffer `set_environment_defaults` leaves: as long as the raw string, a byte changes only from `;` to NUL, and every cut `;` is NUL. SplitOnlyCutsSemicolons and SplitReadsField state the rest |
| Variables.SplitOnlyCutsSemicolons | dynamic.c:612-620 | the split copy is as long as the raw string and differs from it only where a `;` became NUL, exactly at the `;` that follow a token byte |
| Variables.UntilSemicolon | dynamic.c:405 | the value text of a field is the longest `;`-free prefix |
| Variables.LookupVariable | dynamic.c:393-411 | a NULL key yields the raw string. Otherwise the result is an offset exactly when the first occurrence of the key is followed by `=`, and it points one past that `=` and inside the split buffer. NULL means no first occurrence is followed by `=` |
| Variables.SplitReadsField | dynamic.c:398-405 | reading the split copy from just after `=` or a value byte gives the raw text up to the next `;` |
| Variables.LookupReadsValue | dynamic.c:398-406 | the pointer GET_VARIABLE returns reads, in the split copy, exactly the matched field's value up to the next `;` |
| Variables.NullKeyReadsWholeEnvironment | dynamic.c:410-411 | a NULL key returns the raw string, which reads back unchanged |
| Variables.LookupExample | dynamic.c:400-406 | `X=1;Y=2` with key `X` points at offset 2 and reads `1` |
| Variables.PrefixKeyExample | dynamic.c:400-408 | `XY=1` with key `X` gives NULL |
| Variables.FirstOccurrenceOnlyExample | dynamic.c:400-408 | `XY=1;X=2` with key `X` gives NULL: only the first occurrence is checked |
| Variables.SuffixKeyExample | dynamic.c:400-405 | `XY=1` with key `Y` matches inside `XY` and points at `1` |
| Environment.HwContextDecision | dynamic.c:563-592 | NONE keeps the driver. The build's own GL family, and only that, switches to the GL driver. Everything else is rejected |
| Environment.Respond | dynamic.c:379-605 | one callback invocation: a rejection writes no reply; the four queries succeed and change no state; the callback never creates or drops the driver data or the message queue; calls to the two foreign hooks are only appended. RejectionPaths, PixelFormatStored, RotationRules and HwRenderRules state each command's effect |
| Environment.RejectionPaths | dynamic.c:599-604 | the callback returns `false` exactly for unknown codes, a bad pixel format, a permitted rotation without a driver hook, and an unusable HW context. A rejection writes no reply and no state, except the rotation stored before that rejection |
| Environment.UnsupportedIsRejected | dynamic.c:599-601 | an unknown code returns `false` and changes nothing |
| Environment.PixelFormatStored | dynamic.c:480-501 | accepted exactly for 0RGB1555, RGB565 and XRGB8888, and then stored. Otherwise the state is unchanged |
| Environment.RotationRules | dynamic.c:446-463 | disallowed rotation is a no-op success. Allowed rotation is stored, and success means the driver has a rotation hook. The hook is called only with live driver data. On success nothing but the rotation and the hook calls changes |
| Environment.HwRenderRules | dynamic.c:559-596 | NONE is accepted with the driver unchanged. The build's family is accepted and selects the GL driver. The other family, any GL type in a build with neither family, and unknown types are refused with the state unchanged. On acceptance the stored record and the payload both carry the two frontend hooks, and nothing but that record and the driver changes |
| Environment.Terminator | dynamic.c:508 | the descriptor scan stops at the first NULL description: all earlier ones have descriptions |
| Environment.LastDescIsLatest | dynamic.c:508-520 | a slot holds the description of the latest in-range joypad descriptor for it before the terminator |
| Environment.LastDescEmpty | dynamic.c:505-520 | a slot is empty after the call exactly when no such descriptor names it |
| Environment.InputDescriptorExample | dynamic.c:503-520 | {port 0, JOYPAD, id 0, "Jump"} then the terminator fills slot (0,0). A descriptor with port MAX_PLAYERS fills no slot |
| Environment.FrontendState.SetEnvironmentDefaults | dynamic.c:612-620 | running `strtok_r` on `;` until NULL leaves the split buffer equal to the split image of the raw string, plus its terminator |
| Environment.FrontendState.SetInputDescriptors | dynamic.c:503-520 | after clearing, every table slot equals the latest recorded descriptor for it, or NULL |
| Environment.FrontendState.ApplyRotation | dynamic.c:446-463 | result and new state equal `Respond` for SET_ROTATION; the table and variable buffers are untouched |
| Environment.FrontendState.ApplyPixelFormat | dynamic.c:480-501 | result and new state equal `Respond` for SET_PIXEL_FORMAT; the table and variable buffers are untouched |
| Environment.FrontendState.ApplyHwRender | dynamic.c:559-596 | result, reply and new state equal `Respond` for SET_HW_RENDER; the table and variable buffers are untouched |
| Environment.FrontendState.EnvironmentCb | dynamic.c:379-605 | result, reply and new state equal `Respond` of the old state. The table is rewritten only by SET_INPUT_DESCRIPTORS. The variable buffers are untouched |
| Discovery.RunLength | dynamic.c:181 | the leading delimiter-free run ends at a delimiter or the end |
| Discovery.Tokens | dynamic.c:181 | every token of the split extension list is non-empty and free of `|` |
| Discovery.TokenIsField | dynamic.c:181-183 | every token is a whole `|`-bounded field of the list |
| Discovery.FieldIsToken | dynamic.c:181-183 | every non-empty, `|`-free whole field is a token |
| Discovery.ExtensionListContains | dynamic.c:181-183 | an extension matches exactly when it is non-empty, `|`-free and a whole field of the advertised list |
| Discovery.FindFirstLibretro | dynamic.c:146-195 | no extension or no listing gives `false` with nothing probed. Otherwise libraries are probed in listing order, and the result is the first one that supports the extension. Probing stops there; every earlier one failed, or all were probed and none matched |
| CoreName.ToLower | dynamic.c:283 | an upper-case ASCII letter maps to the code point 32 higher (its lower-case form); everything else is unchanged |
| CoreName.Sanitize | dynamic.c:277-284 | same length, no whitespace or upper case left. Each whitespace character becomes `_`, every other character becomes its `ToLower`, and a NUL-free name stays NUL-free |
| CoreName.GetCurrentCorePathname | dynamic.c:260-285 | size 0 writes nothing. A name as long as the buffer or longer writes the empty string. Otherwise the buffer holds the sanitised name (or "Unknown") and its terminator, and nothing after it changes |

## Left out

- Dynamic loading and symbol binding are left out because they are OS loader calls and end in process termination. This covers `dylib_load`, `dylib_proc`, `dylib_close`, the `SYM` macro, `load_symbols`, the static-link probe of `init_libretro_sym`, and `uninit_libretro_sym`.
- `libretro_get_system_info` and `libretro_free_system_info` are left out: they copy strings around a foreign call.
- `set_environment` is left out: it only hands the callback to the core.
- All logging is left out, including the button-name listing after SET_INPUT_DESCRIPTORS.
- SET_VARIABLES is modelled as success with no effect, because the code only logs the list.
- Numeric command codes are not modelled. `libretro.h` is not part of this model, so each command is a constructor of `Request`, and an unknown code is `Unsupported`. The pixel-format, context-type and device values, and `MAX_PLAYERS` (8), are the libretro and RetroArch header values. `general.h` is not part of this model either.
- `msg_queue_push`, `video_set_rotation_func`, `driver_get_current_framebuffer` and `driver_get_proc_address` are not executed. The model records whether and with what arguments the first two are called, and it represents the last two as opaque hook values.
- `path_get_extension`, `dir_list_new`, `string_list_find_elem` and `strlcpy` are not part of this model. Their results are inputs, an exact comparison, and the untruncated path.
- Environment.FrontendState.SetEnvironmentDefaults: does not model a NULL split buffer, because the raw and split strings are taken to be always allocated.
- Environment.FrontendState.EnvironmentCb: does not model a NULL payload pointer, which would crash the C code. It also takes the raw variable string to be non-NULL. With a NULL raw string, a NULL key returns NULL (dynamic.c:410-411), which `RawEnvironment` cannot express, and a non-NULL key passes NULL to `strstr` (dynamic.c:400).
- Environment.FrontendState.SetInputDescriptors: a descriptor list with no terminator is treated as ending at its last element. The C loop would read past the array.
- Discovery.FindFirstLibretro: does not truncate the chosen path to the output buffer size, and does not model closing the probed libraries.
- CoreName.GetCurrentCorePathname: takes `size` to be the buffer's length. It does not model `tolower` on negative `char` values.
- Unsigned widths are not modelled (rotation, performance level, ports, button ids and frame counts are `nat`). These values are only stored or compared, so no wrap-around arises.
