/** `libretro_get_current_core_pathname`: the loaded core's library name
    made fit for use in a file name, written into a caller's buffer. */
module CoreName {

  import opened CStrings

  /** `isspace` in the C locale. */
  predicate IsSpace(c: char) {
    c == ' ' || c == '\t' || c == '\n' || c == '\U{B}' || c == '\U{C}' || c == '\r'
  }

  /** `isblank` in the C locale. */
  predicate IsBlank(c: char) {
    c == ' ' || c == '\t'
  }

  predicate IsUpper(c: char) {
    'A' <= c <= 'Z'
  }

  /** `tolower` in the C locale. */
  function ToLower(c: char): (r: char)
    ensures !IsUpper(r)
    ensures IsUpper(c) ==> r as int == c as int + 32
    ensures !IsUpper(c) ==> r == c
  {
    if IsUpper(c) then (c as int + 32) as char else c
  }

  function SanitizeChar(c: char): char {
    if IsSpace(c) || IsBlank(c) then '_' else ToLower(c)
  }

  /** The name with whitespace replaced by `_` and letters lower-cased. */
  function Sanitize(id: string): (r: string)
    ensures |r| == |id|
    ensures forall i :: 0 <= i < |r| ==> !IsSpace(r[i]) && !IsUpper(r[i])
    ensures forall i :: 0 <= i < |r| ==> (IsSpace(id[i]) <==> r[i] == '_' && id[i] != '_')
    ensures forall i :: 0 <= i < |r| && !IsSpace(id[i]) ==> r[i] == ToLower(id[i])
    ensures forall i :: 0 <= i < |r| && !IsSpace(id[i]) && !IsUpper(id[i]) ==> r[i] == id[i]
    ensures NoNul(id) ==> NoNul(r)
  {
    seq(|id|, i requires 0 <= i < |id| => SanitizeChar(id[i]))
  }

  /** The name used when the core reports none. */
  function CoreId(libraryName: Option<string>): string {
    if libraryName.Some? then libraryName.value else "Unknown"
  }

  /** Fills `name` (of size `name.Length`) from the library name reported
      by the core's `retro_get_system_info`: nothing for an empty buffer,
      an empty string when the name does not fit, else the sanitised name. */
  method GetCurrentCorePathname(name: array<char>, libraryName: Option<string>)
    requires libraryName.Some? ==> NoNul(libraryName.value)
    modifies name
    ensures name.Length == 0 ==> name[..] == old(name[..])
    ensures 0 < name.Length <= |CoreId(libraryName)| ==>
      name[..] == old(name[..])[0 := NUL] && CStringAt(name[..], 0) == []
    ensures |CoreId(libraryName)| < name.Length ==>
      var id := CoreId(libraryName);
      && name[..|id|] == Sanitize(id) && name[|id|] == NUL
      && name[|id| + 1..] == old(name[|id| + 1..])
      && CStringAt(name[..], 0) == Sanitize(id)
  {
    if name.Length == 0 {
      return;
    }
    var id := CoreId(libraryName);
    if |id| >= name.Length {
      name[0] := NUL;
      return;
    }
    ghost var before := name[..];
    name[|id|] := NUL;
    var i := 0;
    while i < |id|
      invariant 0 <= i <= |id|
      invariant forall k :: 0 <= k < i ==> name[k] == SanitizeChar(id[k])
      invariant name[|id|] == NUL
      invariant forall k :: |id| < k < name.Length ==> name[k] == before[k]
    {
      var c := id[i];
      if IsSpace(c) || IsBlank(c) {
        name[i] := '_';
      } else {
        name[i] := ToLower(c);
      }
      i := i + 1;
    }
    var result := Sanitize(id);
    assert name[..|id|] == result;
    assert name[|id| + 1..] == before[|id| + 1..];
    assert name[..] == result + [NUL] + name[|id| + 1..];
    CStringAtTerminated(result, name[|id| + 1..], 0);
  }
}
