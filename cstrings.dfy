/** C-string primitives the frontend relies on: NUL-terminated buffers,
    `strstr`, reading a `char *` at an offset, and glibc's `strtok_r`. */
module CStrings {

  /** A nullable value: `None` stands for a NULL pointer. */
  datatype Option<+T> = None | Some(value: T)

  const NUL: char := '\0'

  /** `s` can be held in a C string (no embedded terminator). */
  predicate NoNul(s: string) {
    forall i :: 0 <= i < |s| ==> s[i] != NUL
  }

  /** `needle` occurs in `hay` starting at index `i`. */
  predicate OccursAt(hay: string, needle: string, i: nat) {
    i + |needle| <= |hay| && hay[i..i + |needle|] == needle
  }

  /** `i` is where `strstr(hay, needle)` points: the first occurrence. */
  predicate FirstOccurrence(hay: string, needle: string, i: nat) {
    OccursAt(hay, needle, i) && forall j :: 0 <= j < i ==> !OccursAt(hay, needle, j)
  }

  /** The first occurrence of `needle` in `hay` at or after `from`. */
  function FindFrom(hay: string, needle: string, from: nat): (r: Option<nat>)
    requires from <= |hay|
    ensures r.Some? ==> from <= r.value && OccursAt(hay, needle, r.value)
    ensures r.Some? ==> forall j :: from <= j < r.value ==> !OccursAt(hay, needle, j)
    ensures r.None? ==> forall j :: from <= j ==> !OccursAt(hay, needle, j)
    decreases |hay| - from
  {
    if OccursAt(hay, needle, from) then Some(from)
    else if from == |hay| then None
    else FindFrom(hay, needle, from + 1)
  }

  /** `strstr`: the offset of the first occurrence, or NULL. */
  function Strstr(hay: string, needle: string): (r: Option<nat>)
    ensures r.Some? <==> exists i :: OccursAt(hay, needle, i)
    ensures r.Some? ==> FirstOccurrence(hay, needle, r.value)
  {
    FindFrom(hay, needle, 0)
  }

  /** The string a `char *` pointing at `buf[i]` denotes: the bytes up to
      the first NUL (or the end of the buffer). */
  function CStringAt(buf: seq<char>, i: nat): (r: string)
    ensures NoNul(r)
    ensures i + |r| <= |buf| ==> buf[i..i + |r|] == r
    ensures i < |buf| ==> i + |r| <= |buf|
    ensures i + |r| < |buf| ==> buf[i + |r|] == NUL
    ensures i >= |buf| ==> r == []
    decreases |buf| - i
  {
    if i >= |buf| || buf[i] == NUL then [] else [buf[i]] + CStringAt(buf, i + 1)
  }

  /** A C string `s` stored with its terminator, whatever follows, is read
      back as `s`. */
  lemma {:induction false} CStringAtTerminated(s: string, tail: seq<char>, i: nat)
    requires NoNul(s) && i <= |s|
    ensures CStringAt(s + [NUL] + tail, i) == s[i..]
    decreases |s| - i
  {
    if i < |s| {
      CStringAtTerminated(s, tail, i + 1);
      assert s[i..] == [s[i]] + s[i + 1..];
    } else {
      assert (s + [NUL] + tail)[i] == NUL;
    }
  }

  /** From `from` to the last cell, `buf` holds the tail of one C string. */
  ghost predicate IsCTail(buf: array<char>, from: nat)
    reads buf
  {
    from < buf.Length && buf[buf.Length - 1] == NUL &&
    forall i :: from <= i < buf.Length - 1 ==> buf[i] != NUL
  }

  /** `strspn(buf + from, delim)`: skips a run of delimiters. */
  method Span(buf: array<char>, from: nat, delim: char) returns (k: nat)
    requires IsCTail(buf, from) && delim != NUL
    ensures from <= k < buf.Length && buf[k] != delim
    ensures forall i :: from <= i < k ==> buf[i] == delim
  {
    k := from;
    while buf[k] == delim
      invariant from <= k < buf.Length
      invariant forall i :: from <= i < k ==> buf[i] == delim
      decreases buf.Length - k
    {
      k := k + 1;
    }
  }

  /** `strcspn(buf + from, delim)`: skips a run of token bytes. */
  method CSpan(buf: array<char>, from: nat, delim: char) returns (k: nat)
    requires IsCTail(buf, from)
    ensures from <= k < buf.Length && (buf[k] == delim || buf[k] == NUL)
    ensures forall i :: from <= i < k ==> buf[i] != delim && buf[i] != NUL
  {
    k := from;
    while buf[k] != delim && buf[k] != NUL
      invariant from <= k < buf.Length
      invariant forall i :: from <= i < k ==> buf[i] != delim && buf[i] != NUL
      decreases buf.Length - k
    {
      k := k + 1;
    }
  }

  /** glibc's `strtok_r(NULL, delim, &save)` with the save pointer held as
      the index `save`: skips leading delimiters, returns the start of the
      next token (or NULL), overwrites the delimiter that ends the token
      with NUL and moves `save` past it. `end` is where the token stops. */
  method Strtok(buf: array<char>, save: nat, delim: char)
    returns (token: Option<nat>, next: nat, ghost end: nat)
    requires IsCTail(buf, save) && delim != NUL
    modifies buf
    ensures save <= next < buf.Length
    ensures token.None? ==>
      buf[..] == old(buf[..]) && next == buf.Length - 1 &&
      forall i :: save <= i < buf.Length - 1 ==> old(buf[i]) == delim
    ensures token.Some? ==>
      && save <= token.value < end <= buf.Length - 1
      && (forall i :: save <= i < token.value ==> old(buf[i]) == delim)
      && (forall i :: token.value <= i < end ==> old(buf[i]) != delim)
      && (end == buf.Length - 1 ==> next == end && buf[..] == old(buf[..]))
      && (end < buf.Length - 1 ==>
            old(buf[end]) == delim && next == end + 1 && buf[..] == old(buf[..])[end := NUL])
  {
    if buf[save] == NUL {
      return None, save, save;
    }
    var s := Span(buf, save, delim);
    if buf[s] == NUL {
      return None, s, s;
    }
    var e := CSpan(buf, s, delim);
    if buf[e] == NUL {
      return Some(s), e, e;
    }
    buf[e] := NUL;
    return Some(s), e + 1, e;
  }
}
