/** Keys as both caches of the backend spell them. */
module CacheKeys {
  import opened Lists

  datatype Scope = Shared | User

  /** The session's part of a user key. */
  function SessionText(session: Option<string>): string {
    if session.Some? then session.value else ""
  }

  predicate IsSpace(c: char) {
    var n := c as int;
    9 <= n <= 13 || n == 0x20 || n == 0x85 || n == 0xA0 || n == 0x1680 || 0x2000 <= n <= 0x200A
    || n == 0x2028 || n == 0x2029 || n == 0x202F || n == 0x205F || n == 0x3000
  }

  function TrimStart(s: string): (r: string)
    ensures |r| <= |s| && (r != [] ==> !IsSpace(r[0]))
    ensures s == [] || !IsSpace(s[0]) ==> r == s
    ensures s != [] && IsSpace(s[0]) ==> |r| < |s|
  {
    if s != [] && IsSpace(s[0]) then TrimStart(s[1..]) else s
  }

  function TrimEnd(s: string): (r: string)
    ensures |r| <= |s| && (r != [] ==> !IsSpace(r[|r| - 1]))
    ensures s == [] || !IsSpace(s[|s| - 1]) ==> r == s
    ensures s != [] && IsSpace(s[|s| - 1]) ==> |r| < |s|
  {
    if s != [] && IsSpace(s[|s| - 1]) then TrimEnd(s[..|s| - 1]) else s
  }

  function Trim(s: string): string {
    TrimEnd(TrimStart(s))
  }

  /** Trimming leaves a string alone exactly when it neither starts nor ends in white space. */
  lemma TrimIdentityIff(s: string)
    ensures Trim(s) == s <==> s == [] || (!IsSpace(s[0]) && !IsSpace(s[|s| - 1]))
  {
  }

  predicate Blank(s: string) {
    forall i :: 0 <= i < |s| ==> IsSpace(s[i])
  }

  lemma {:induction false} TrimStartPadding(pad: string, rest: string)
    requires Blank(pad) && (rest != [] ==> !IsSpace(rest[0]))
    ensures TrimStart(pad + rest) == rest
  {
    if pad == [] {
      assert pad + rest == rest;
    } else {
      assert (pad + rest)[1..] == pad[1..] + rest;
      TrimStartPadding(pad[1..], rest);
    }
  }

  lemma {:induction false} TrimEndPadding(core: string, pad: string)
    requires Blank(pad) && (core != [] ==> !IsSpace(core[|core| - 1]))
    ensures TrimEnd(core + pad) == core
  {
    if pad == [] {
      assert core + pad == core;
    } else {
      var n := |pad| - 1;
      assert (core + pad)[..|core + pad| - 1] == core + pad[..n];
      TrimEndPadding(core, pad[..n]);
    }
  }

  /** Trimming takes off exactly the white space around a key, and leaves nothing of a blank one. */
  lemma TrimPadding(before: string, core: string, after: string)
    requires Blank(before) && Blank(after) && (core != [] ==> !IsSpace(core[0]) && !IsSpace(core[|core| - 1]))
    ensures Trim(before + core + after) == core
  {
    if core == [] {
      assert before + core + after == (before + after) + [];
      TrimStartPadding(before + after, []);
    } else {
      assert before + core + after == before + (core + after);
      TrimStartPadding(before, core + after);
      TrimEndPadding(core, after);
    }
  }

  /** The keys asked for, trimmed, without blanks and repeats. */
  function TrimmedKeys(cacheKeys: seq<string>): (r: set<string>)
    ensures forall t :: t in r ==> t != []
  {
    set k | k in cacheKeys && Trim(k) != [] :: Trim(k)
  }

  lemma TrimmedSnoc(keys: seq<string>, i: nat)
    requires i < |keys|
    ensures TrimmedKeys(keys[..i + 1]) == TrimmedKeys(keys[..i]) + (if Trim(keys[i]) == [] then {} else {Trim(keys[i])})
  {
    assert keys[..i + 1] == keys[..i] + [keys[i]];
  }

  /** The loop both invalidations start with. */
  method CollectTrimmed(cacheKeys: seq<string>) returns (seen: set<string>)
    ensures seen == TrimmedKeys(cacheKeys)
  {
    seen := {};
    var i := 0;
    while i < |cacheKeys|
      invariant 0 <= i <= |cacheKeys|
      invariant seen == TrimmedKeys(cacheKeys[..i])
    {
      TrimmedSnoc(cacheKeys, i);
      var t := Trim(cacheKeys[i]);
      if t != [] {
        seen := seen + {t};
      }
      i := i + 1;
    }
    assert cacheKeys[..i] == cacheKeys;
  }
}
