/** The core-variable store: the raw `key=value;key=value` string given to
    the frontend, the copy of it that `set_environment_defaults` splits at
    `;`, and the GET_VARIABLE lookup that finds a key in the raw string and
    answers with a pointer into the split copy at the same offset. */
module Variables {

  import opened CStrings

  /** Where GET_VARIABLE leaves `var->value`: NULL, the raw environment
      string itself, or the split copy at some offset. */
  datatype VarPtr = NullPtr | RawEnvironment | SplitAt(offset: nat)

  /** Whether `strtok_r(…, ";", …)` run to exhaustion over `s` overwrites
      the byte at `i` with NUL: a `;` that directly follows a token byte.
      A leading `;`, or one that follows another `;`, is skipped as a
      delimiter and left in place. */
  predicate IsCut(s: string, i: nat) {
    0 < i < |s| && s[i] == ';' && s[i - 1] != ';'
  }

  /** The contents of the split copy after `set_environment_defaults`. */
  function SplitString(s: string): (r: string)
    ensures |r| == |s|
    ensures forall i :: 0 <= i < |s| ==> r[i] == s[i] || (s[i] == ';' && r[i] == NUL)
    ensures forall i :: 0 <= i < |s| && IsCut(s, i) ==> r[i] == NUL
  {
    seq(|s|, i requires 0 <= i < |s| => if IsCut(s, i) then NUL else s[i])
  }

  /** The split copy is index-aligned with the raw string and differs from
      it only where a `;` became NUL. */
  lemma SplitOnlyCutsSemicolons(s: string)
    requires NoNul(s)
    ensures |SplitString(s)| == |s|
    ensures forall i :: 0 <= i < |s| && SplitString(s)[i] != s[i] ==> s[i] == ';' && SplitString(s)[i] == NUL
    ensures forall i :: 0 <= i < |s| ==> (SplitString(s)[i] == NUL <==> IsCut(s, i))
  {
  }

  /** The text of a `key=value` field that starts at the beginning of `s`:
      everything up to the next `;`. */
  function UntilSemicolon(s: string): (r: string)
    ensures |r| <= |s| && r == s[..|r|]
    ensures forall i :: 0 <= i < |r| ==> r[i] != ';'
    ensures |r| < |s| ==> s[|r|] == ';'
  {
    if s == [] || s[0] == ';' then [] else [s[0]] + UntilSemicolon(s[1..])
  }

  /** `m` is where `strstr(environment, key)` lands and the byte after the
      key there is `=`. */
  predicate Assigns(env: string, key: string, m: nat) {
    FirstOccurrence(env, key, m) && m + |key| < |env| && env[m + |key|] == '='
  }

  /** GET_VARIABLE: a NULL key yields the whole raw string; otherwise the
      first occurrence of the key must be followed by `=`, and the answer is
      the split copy just past that `=`. */
  function LookupVariable(env: string, key: Option<string>): (p: VarPtr)
    ensures key.None? <==> p == RawEnvironment
    ensures p.SplitAt? ==>
      key.Some? && |key.value| + 1 <= p.offset <= |env| &&
      Assigns(env, key.value, p.offset - |key.value| - 1)
    ensures key.Some? && p == NullPtr ==> forall m :: !Assigns(env, key.value, m)
  {
    match key
    case None => RawEnvironment
    case Some(k) =>
      match Strstr(env, k)
      case None => NullPtr
      case Some(m) =>
        if m + |k| < |env| && env[m + |k|] == '=' then SplitAt(m + |k| + 1) else NullPtr
  }

  /** Reading the split copy from just after a `=` or a value byte yields
      the raw text up to the next `;`. */
  lemma {:induction false} SplitReadsField(env: string, i: nat)
    requires NoNul(env)
    requires 0 < i <= |env| && env[i - 1] != ';'
    ensures CStringAt(SplitString(env) + [NUL], i) == UntilSemicolon(env[i..])
    decreases |env| - i
  {
    var buf := SplitString(env) + [NUL];
    if i == |env| {
      assert buf[i] == NUL;
      assert env[i..] == [];
    } else if env[i] == ';' {
      assert IsCut(env, i);
      assert buf[i] == NUL;
    } else {
      assert buf[i] == env[i];
      SplitReadsField(env, i + 1);
      assert env[i..][1..] == env[i + 1..];
    }
  }

  /** What a core reads through the pointer GET_VARIABLE returns, once the
      copy has been split: exactly the value text of the matched field,
      up to the next `;` of the raw string. */
  lemma LookupReadsValue(env: string, key: string)
    requires NoNul(env)
    requires LookupVariable(env, Some(key)).SplitAt?
    ensures var off := LookupVariable(env, Some(key)).offset;
      CStringAt(SplitString(env) + [NUL], off) == UntilSemicolon(env[off..])
  {
    var off := LookupVariable(env, Some(key)).offset;
    assert env[off - 1] == '=';
    SplitReadsField(env, off);
  }

  /** A NULL key returns the raw string, which reads back unchanged. */
  lemma NullKeyReadsWholeEnvironment(env: string)
    requires NoNul(env)
    ensures LookupVariable(env, None) == RawEnvironment
    ensures CStringAt(env + [NUL], 0) == env
  {
    CStringAtTerminated(env, [], 0);
    assert env + [NUL] + [] == env + [NUL];
  }

  /** `X=1;Y=2` with key `X`: the value is `1`. */
  lemma LookupExample()
    ensures LookupVariable("X=1;Y=2", Some("X")) == SplitAt(2)
    ensures CStringAt(SplitString("X=1;Y=2") + [NUL], 2) == "1"
  {
    var env := "X=1;Y=2";
    assert SplitString(env) + [NUL] == ['X', '=', '1', NUL, 'Y', '=', '2', NUL] by {
      assert IsCut(env, 3);
    }
    assert OccursAt(env, "X", 0);
    assert FindFrom(env, "X", 0) == Some(0);
    LookupReadsValue(env, "X");
    assert env[2..] == "1;Y=2";
    assert UntilSemicolon(env[2..]) == "1" by {
      assert env[2..][1..] == ";Y=2";
    }
  }

  /** `XY=1` with key `X`: the occurrence is not followed by `=`, so the
      value is NULL (a key does not match a longer key it is a prefix of). */
  lemma PrefixKeyExample()
    ensures LookupVariable("XY=1", Some("X")) == NullPtr
  {
    assert OccursAt("XY=1", "X", 0);
    assert FindFrom("XY=1", "X", 0) == Some(0);
  }

  /** Only the first occurrence is examined: in `XY=1;X=2` the key `X` is
      found inside `XY`, is not followed by `=`, and the later `X=2` is
      never reached. */
  lemma FirstOccurrenceOnlyExample()
    ensures LookupVariable("XY=1;X=2", Some("X")) == NullPtr
  {
    assert OccursAt("XY=1;X=2", "X", 0);
    assert FindFrom("XY=1;X=2", "X", 0) == Some(0);
  }

  /** A key that is a suffix of another key matches inside it: `Y` in
      `XY=1` yields the value of `XY`. */
  lemma SuffixKeyExample()
    ensures LookupVariable("XY=1", Some("Y")) == SplitAt(3)
  {
    var env := "XY=1";
    assert env[0..1] != "Y" by { assert env[0..1][0] == 'X'; }
    assert OccursAt(env, "Y", 1);
    assert FindFrom(env, "Y", 1) == Some(1);
  }
}
