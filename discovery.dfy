/** Core discovery (`find_first_libretro`): given the content's extension,
    probe each library of a directory listing in order and pick the first
    whose advertised `|`-separated extension list contains it. */
module Discovery {

  import opened CStrings

  /** The length of the leading run of `s` free of `d`. */
  function RunLength(s: string, d: char): (n: nat)
    ensures n <= |s|
    ensures forall j :: 0 <= j < n ==> s[j] != d
    ensures n < |s| ==> s[n] == d
  {
    if s == [] || s[0] == d then 0 else 1 + RunLength(s[1..], d)
  }

  /** `string_split(s, d)`, which tokenises with `strtok_r`: the maximal
      non-empty runs of `s` free of `d`, in order. */
  function Tokens(s: string, d: char): (r: seq<string>)
    ensures forall t :: t in r ==> t != [] && d !in t
    decreases |s|
  {
    if s == [] then []
    else if s[0] == d then Tokens(s[1..], d)
    else
      var n := RunLength(s, d);
      [s[..n]] + Tokens(s[n..], d)
  }

  /** `e` is a whole field of `s`: it starts at `i` and is bounded on both
      sides by `d` or by an end of `s`. */
  predicate IsField(s: string, d: char, i: nat, e: string) {
    && i + |e| <= |s| && s[i..i + |e|] == e
    && (i == 0 || s[i - 1] == d)
    && (i + |e| == |s| || s[i + |e|] == d)
  }

  /** Every token is a whole field of the split string. */
  lemma {:induction false} TokenIsField(s: string, d: char, e: string)
    requires e in Tokens(s, d)
    ensures exists i :: IsField(s, d, i, e)
    decreases |s|
  {
    if s[0] == d {
      TokenIsField(s[1..], d, e);
      var i: nat :| IsField(s[1..], d, i, e);
      assert s[1..][i..i + |e|] == s[i + 1..i + 1 + |e|];
      assert IsField(s, d, i + 1, e);
    } else {
      var n := RunLength(s, d);
      if e == s[..n] {
        assert IsField(s, d, 0, e);
      } else {
        var rest := s[n..];
        assert e in Tokens(rest, d);
        TokenIsField(rest, d, e);
        var i: nat :| IsField(rest, d, i, e);
        assert rest[0] == d;
        assert i != 0;
        assert rest[i..i + |e|] == s[n + i..n + i + |e|];
        assert IsField(s, d, n + i, e);
      }
    }
  }

  /** Every non-empty, delimiter-free whole field is a token. */
  lemma {:induction false} FieldIsToken(s: string, d: char, e: string, i: nat)
    requires e != [] && d !in e && IsField(s, d, i, e)
    ensures e in Tokens(s, d)
    decreases |s|
  {
    assert s[i] == e[0];
    if s[0] == d {
      assert i != 0;
      assert s[1..][i - 1..i - 1 + |e|] == s[i..i + |e|];
      FieldIsToken(s[1..], d, e, i - 1);
    } else {
      var n := RunLength(s, d);
      if i == 0 {
        assert e == s[..n];
      } else {
        assert s[i - 1] == d;
        assert i > n;
        var rest := s[n..];
        assert rest[i - n..i - n + |e|] == s[i..i + |e|];
        assert IsField(rest, d, i - n, e);
        FieldIsToken(rest, d, e, i - n);
      }
    }
  }

  /** A content extension is found in an advertised list exactly when it
      is non-empty, free of `|`, and one of the list's `|`-bounded fields. */
  lemma ExtensionListContains(list: string, ext: string)
    ensures ext in Tokens(list, '|') <==>
      ext != [] && '|' !in ext && exists i :: IsField(list, '|', i, ext)
  {
    if ext in Tokens(list, '|') {
      TokenIsField(list, '|', ext);
    }
    if ext != [] && '|' !in ext && exists i :: IsField(list, '|', i, ext) {
      var i: nat :| IsField(list, '|', i, ext);
      FieldIsToken(list, '|', ext, i);
    }
  }

  /** The library at `path` loads, advertises an extension list, and that
      list names `ext`. `probe` maps each loadable library to its
      `valid_extensions` (None for NULL); a path outside it fails to load. */
  predicate Supports(probe: map<string, Option<string>>, path: string, ext: string) {
    path in probe && probe[path].Some? && ext in Tokens(probe[path].value, '|')
  }

  /** `find_first_libretro`. `ext` is the content's extension (None for
      NULL), `listing` the directory listing (None if it cannot be opened).
      Returns the chosen path (None for `false`) and the libraries probed,
      in order. */
  method FindFirstLibretro(ext: Option<string>, listing: Option<seq<string>>, probe: map<string, Option<string>>)
    returns (path: Option<string>, probed: seq<string>)
    ensures ext.None? || ext.value == [] || listing.None? ==> path.None? && probed == []
    ensures path.Some? ==>
      && ext.Some? && listing.Some?
      && 0 < |probed| <= |listing.value| && probed == listing.value[..|probed|]
      && path.value == probed[|probed| - 1] && Supports(probe, path.value, ext.value)
      && forall j :: 0 <= j < |probed| - 1 ==> !Supports(probe, probed[j], ext.value)
    ensures path.None? && ext.Some? && ext.value != [] && listing.Some? ==>
      probed == listing.value && forall j :: 0 <= j < |probed| ==> !Supports(probe, probed[j], ext.value)
  {
    path, probed := None, [];
    if ext.None? || ext.value == [] {
      return;
    }
    if listing.None? {
      return;
    }
    var list, e := listing.value, ext.value;
    var ret := false;
    var i := 0;
    while i < |list| && !ret
      invariant 0 <= i <= |list| && probed == list[..i]
      invariant ret <==> path.Some?
      invariant ret ==> 0 < i && path.value == list[i - 1] && Supports(probe, list[i - 1], e)
      invariant forall j :: 0 <= j < (if ret then i - 1 else i) ==> !Supports(probe, list[j], e)
    {
      var lib := list[i];
      probed := probed + [lib];
      if lib in probe && probe[lib].Some? {
        var supported := Tokens(probe[lib].value, '|');
        if e in supported {
          path := Some(lib);
          ret := true;
        }
      }
      i := i + 1;
    }
    assert probed == list[..i];
  }
}
