/** Recovering the environment a container was created with. */
module EnvMerge {

  import opened Wrappers

  // strings.Cut at the first "=".
  function EnvKey(entry: string): string {
    if entry == "" || entry[0] == '=' then "" else [entry[0]] + EnvKey(entry[1..])
  }

  /** A variable's name is all of the entry, or what is before its first "=". */
  lemma {:induction false} NameEnds(entry: string)
    ensures '=' !in EnvKey(entry) && (EnvKey(entry) == entry || EnvKey(entry) + "=" <= entry)
  {
    if entry != "" && entry[0] != '=' {
      NameEnds(entry[1..]);
      assert entry == [entry[0]] + entry[1..];
      if EnvKey(entry[1..]) + "=" <= entry[1..] {
        assert EnvKey(entry) + "=" == [entry[0]] + (EnvKey(entry[1..]) + "=");
      }
    }
  }

  predicate Listed(env: seq<string>, name: string) {
    exists e :: e in env && EnvKey(e) == name
  }

  // Each image variable is appended unless its name is already listed.
  function Appended(merged: seq<string>, image: seq<string>): seq<string>
    decreases |image|
  {
    if image == [] then merged
    else Appended(if Listed(merged, EnvKey(image[0])) then merged else merged + [image[0]], image[1..])
  }

  function Merge(own: seq<string>, image: seq<string>): seq<string> {
    if own == [] then image else Appended(own, image)
  }

  /** mergeEnv. */
  method MergeEnv(own: seq<string>, image: seq<string>) returns (merged: seq<string>)
    ensures merged == Merge(own, image)
  {
    if |own| == 0 {
      return image;
    }
    merged := own;
    for i := 0 to |image|
      invariant Appended(merged, image[i..]) == Appended(own, image)
    {
      assert image[i..][1..] == image[i + 1..];
      if !Listed(merged, EnvKey(image[i])) {
        merged := merged + [image[i]];
      }
    }
  }

  /** The value a variable has: its last entry. */
  function Last(env: seq<string>, name: string): Option<string> {
    if env == [] then None
    else if EnvKey(env[|env| - 1]) == name then Some(env[|env| - 1])
    else Last(env[..|env| - 1], name)
  }

  function First(env: seq<string>, name: string): Option<string> {
    if env == [] then None
    else if EnvKey(env[0]) == name then Some(env[0])
    else First(env[1..], name)
  }

  ghost predicate SameValues(a: seq<string>, b: seq<string>) {
    forall name :: Last(a, name) == Last(b, name)
  }

  // The shortest prefix

  /** The image variable that merging appends first. */
  function Appends(own: seq<string>, image: seq<string>): Option<string> {
    if image == [] then None
    else if Listed(own, EnvKey(image[0])) then Appends(own, image[1..])
    else Some(image[0])
  }

  lemma {:induction false} AppendsFirst(own: seq<string>, image: seq<string>)
    ensures own <= Appended(own, image)
    ensures Appends(own, image).None? ==> Appended(own, image) == own
    ensures Appends(own, image).Some? ==>
      var next := own + [Appends(own, image).value];
      next <= Appended(own, image) && Appended(next, image) == Appended(own, image)
    decreases |image|
  {
    if image != [] {
      if Listed(own, EnvKey(image[0])) {
        AppendsFirst(own, image[1..]);
        if Appends(own, image).Some? {
          var next := own + [Appends(own, image).value];
          var e :| e in own && EnvKey(e) == EnvKey(image[0]);
          assert e in next;
        }
      } else {
        var next := own + [image[0]];
        assert image[0] in next;
        AppendsFirst(next, image[1..]);
      }
    }
  }

  /** A nonempty prefix merges back exactly when what follows it is what merging
    * appends; then every longer prefix does too. */
  lemma PrefixGrows(env: seq<string>, image: seq<string>, split: nat)
    requires 0 < split < |env|
    ensures Merge(env[..split], image) == env <==>
      Appends(env[..split], image) == Some(env[split]) && Merge(env[..split + 1], image) == env
  {
    var own := env[..split];
    AppendsFirst(own, image);
    assert own + [env[split]] == env[..split + 1];
    if Merge(own, image) == env {
      assert Appends(own, image).None? ==> |env| == |own|;
      var next := own + [Appends(own, image).value];
      assert next[split] == env[split];
    }
  }

  lemma {:induction false} PrefixesGrow(env: seq<string>, image: seq<string>, split: nat, longer: nat)
    requires 0 < split <= longer < |env| && Merge(env[..split], image) == env
    ensures Merge(env[..longer], image) == env
    decreases longer - split
  {
    if split < longer {
      PrefixGrows(env, image, split);
      PrefixesGrow(env, image, split + 1, longer);
    }
  }

  // The fallback

  /** Some entry of the variable is not the image's. */
  predicate Changed(env: seq<string>, image: seq<string>, name: string) {
    exists e :: e in env && EnvKey(e) == name && e !in image
  }

  // Every entry of every changed variable, in order; env is a part of all.
  function Fallback(env: seq<string>, all: seq<string>, image: seq<string>): seq<string> {
    if env == [] then []
    else
      var last := env[|env| - 1];
      Fallback(env[..|env| - 1], all, image) + if Changed(all, image, EnvKey(last)) then [last] else []
  }

  /** ownEnv: the shortest proper prefix that merges back to exactly env, or,
    * when there is none, every entry of the variables that changed. */
  method OwnEnv(env: seq<string>, image: seq<string>) returns (own: seq<string>)
    ensures Found(env, image) ==> own < env && Merge(own, image) == env && Shortest(env, image, |own|)
    ensures !Found(env, image) ==> own == Fallback(env, env, image)
  {
    for split := 0 to |env|
      invariant Shortest(env, image, split)
    {
      var merged := MergeEnv(env[..split], image);
      if merged == env {
        return env[..split];
      }
    }
    var changed: set<string> := {};
    for i := 0 to |env|
      invariant forall n :: n in changed <==> Changed(env[..i], image, n)
    {
      assert env[..i + 1] == env[..i] + [env[i]];
      if env[i] !in image {
        assert env[i] in env[..i + 1];
        changed := changed + {EnvKey(env[i])};
      }
    }
    assert env[..|env|] == env;
    own := [];
    for i := 0 to |env|
      invariant own == Fallback(env[..i], env, image)
    {
      assert env[..i + 1][..i] == env[..i];
      if EnvKey(env[i]) in changed {
        own := own + [env[i]];
      }
    }
  }

  // No shorter prefix merges back to env.
  ghost predicate Shortest(env: seq<string>, image: seq<string>, split: nat) {
    split <= |env| && forall k :: 0 <= k < split ==> Merge(env[..k], image) != env
  }

  ghost predicate Found(env: seq<string>, image: seq<string>) {
    !Shortest(env, image, |env|)
  }

  lemma {:induction false} LastListed(env: seq<string>, name: string)
    ensures Last(env, name).Some? <==> Listed(env, name)
    ensures Last(env, name).Some? ==> Last(env, name).value in env && EnvKey(Last(env, name).value) == name
  {
    if env != [] {
      LastListed(env[..|env| - 1], name);
      assert env == env[..|env| - 1] + [env[|env| - 1]];
    }
  }

  lemma {:induction false} FirstListed(env: seq<string>, name: string)
    ensures First(env, name).Some? <==> Listed(env, name)
    ensures First(env, name).Some? ==> First(env, name).value in env && EnvKey(First(env, name).value) == name
  {
    if env != [] {
      FirstListed(env[1..], name);
      assert env == [env[0]] + env[1..];
    }
  }

  lemma {:induction false} LastAppended(own: seq<string>, image: seq<string>, name: string)
    ensures Last(Appended(own, image), name) == if Listed(own, name) then Last(own, name) else First(image, name)
    decreases |image|
  {
    LastListed(own, name);
    if image != [] {
      var next := own + [image[0]];
      assert next[..|own|] == own;
      if Listed(own, EnvKey(image[0])) {
        LastAppended(own, image[1..], name);
      } else {
        LastAppended(next, image[1..], name);
        LastListed(next, name);
      }
    }
  }

  lemma {:induction false} LastFallback(env: seq<string>, all: seq<string>, image: seq<string>, name: string)
    ensures Last(Fallback(env, all, image), name) == if Changed(all, image, name) then Last(env, name) else None
  {
    if env != [] {
      var before := Fallback(env[..|env| - 1], all, image);
      LastFallback(env[..|env| - 1], all, image, name);
      assert before + [] == before;
      assert (before + [env[|env| - 1]])[..|before|] == before;
    }
  }

  // What the image gives a variable that the fallback leaves out.
  function Inherited(env: seq<string>, image: seq<string>, name: string): Option<string> {
    if Fallback(env, env, image) == [] then Last(image, name) else First(image, name)
  }

  lemma FallbackValue(env: seq<string>, image: seq<string>, name: string)
    ensures Last(Merge(Fallback(env, env, image), image), name)
         == if Changed(env, image, name) then Last(env, name) else Inherited(env, image, name)
  {
    var own := Fallback(env, env, image);
    LastFallback(env, env, image, name);
    LastListed(own, name);
    LastListed(env, name);
    if own != [] {
      LastAppended(own, image, name);
    }
    if Changed(env, image, name) {
      var e :| e in env && EnvKey(e) == name && e !in image;
      assert Listed(env, name);
    }
  }

  /** The fallback keeps every value exactly when every variable left out is
    * inherited with the value it has. */
  lemma FallbackKeeps(env: seq<string>, image: seq<string>)
    ensures SameValues(Merge(Fallback(env, env, image), image), env) <==>
      forall name :: !Changed(env, image, name) ==> Inherited(env, image, name) == Last(env, name)
  {
    forall name: string
      ensures Last(Merge(Fallback(env, env, image), image), name)
           == if Changed(env, image, name) then Last(env, name) else Inherited(env, image, name)
    {
      FallbackValue(env, image, name);
    }
  }

  predicate DistinctNames(image: seq<string>) {
    forall i, j :: 0 <= i < j < |image| ==> EnvKey(image[i]) != EnvKey(image[j])
  }

  /** Every variable of the image is listed. */
  predicate Covers(env: seq<string>, image: seq<string>) {
    forall e :: e in image ==> Listed(env, EnvKey(e))
  }

  lemma {:induction false} DistinctFirst(image: seq<string>, name: string)
    requires DistinctNames(image)
    ensures First(image, name) == Last(image, name)
    ensures forall e :: e in image && EnvKey(e) == name ==> Last(image, name) == Some(e)
  {
    FirstListed(image, name);
    LastListed(image, name);
  }

  /** For an image with distinct names, the fallback keeps every value exactly
    * when every variable of the image is listed. */
  lemma FallbackForDistinct(env: seq<string>, image: seq<string>)
    requires DistinctNames(image)
    ensures SameValues(Merge(Fallback(env, env, image), image), env) <==> Covers(env, image)
  {
    FallbackKeeps(env, image);
    if Covers(env, image) {
      forall name | !Changed(env, image, name)
        ensures Inherited(env, image, name) == Last(env, name)
      {
        DistinctFirst(image, name);
        LastListed(env, name);
        LastListed(image, name);
        if Last(env, name).Some? {
          assert Last(env, name).value in image;
        }
      }
    }
    if e :| e in image && !Listed(env, EnvKey(e)) {
      var name := EnvKey(e);
      DistinctFirst(image, name);
      LastListed(env, name);
      assert !Changed(env, image, name) && Inherited(env, image, name) != Last(env, name);
    }
  }

  lemma {:induction false} AppendedCovers(own: seq<string>, image: seq<string>)
    ensures Covers(Appended(own, image), image)
    decreases |image|
  {
    if image != [] {
      var next := if Listed(own, EnvKey(image[0])) then own else own + [image[0]];
      assert Listed(next, EnvKey(image[0])) by {
        if next != own {
          assert image[0] in next;
        }
      }
      AppendedCovers(next, image[1..]);
      AppendsFirst(next, image[1..]);
      var e :| e in next && EnvKey(e) == EnvKey(image[0]);
      assert e in Appended(own, image);
      assert image == [image[0]] + image[1..];
    }
  }

  /** Recreating a container from what was recovered gives every variable the
    * value it has, for every environment Docker made from an image whose names
    * are distinct. */
  lemma RecoveredKeepsValues(own: seq<string>, image: seq<string>, env: seq<string>, recovered: seq<string>)
    requires env == Merge(own, image) && DistinctNames(image)
    requires Found(env, image) ==> Merge(recovered, image) == env
    requires !Found(env, image) ==> recovered == Fallback(env, env, image)
    ensures SameValues(Merge(recovered, image), env)
    ensures Found(env, image) ==> Merge(recovered, image) == env
  {
    if own == [] {
      forall e | e in image
        ensures Listed(env, EnvKey(e))
      {
      }
    } else {
      AppendedCovers(own, image);
    }
    FallbackForDistinct(env, image);
  }

  /** With a repeated name in the image the fallback can lose a value. */
  lemma RepeatedNameLosesValue()
    ensures var image, own := ["A=1", "A=2"], ["A=1"];
      var env := Merge(own, image);
      env == own && !Found(env, image) && Last(Merge(Fallback(env, env, image), image), "A") != Last(env, "A")
  {
  }

  /** An own list that merging extends is recovered exactly when the environment
    * is not just the image's and its last entry is not what merging would append
    * anyway. One that merging leaves as it is falls back on the same condition:
    * no proper prefix of it merges back. */
  lemma OwnIsFound(own: seq<string>, image: seq<string>)
    requires own != []
    ensures var env, k := Merge(own, image), |own| - 1;
      var implied := |own| > 1 && Appends(own[..k], image) == Some(own[k]);
      && own <= env && (own < env ==> Found(env, image))
      && (Shortest(env, image, |own|) <==> env != image && !implied)
      && (own == env ==> (Found(env, image) <==> env == image || implied))
  {
    var env, k := Merge(own, image), |own| - 1;
    AppendsFirst(own, image);
    assert env[..|own|] == own;
    assert Merge(env[..|own|], image) == env;
    assert env[..0] == [];
    assert env[..k] == own[..k] && env[k] == own[k];
    if |own| > 1 {
      PrefixGrows(env, image, k);
      forall s | 0 < s < |own| && Merge(env[..s], image) == env
        ensures Merge(env[..k], image) == env
      {
        PrefixesGrow(env, image, s, k);
      }
    }
  }

  /** So a variable the owner set to the image's default is not always kept: a
    * new image's default can replace it. */
  lemma DefaultIsLost()
    ensures var own, image, newer := ["A=1", "B=2"], ["B=2", "C=3"], ["B=9", "C=3"];
      var env := Merge(own, image);
      && own < env && Merge(env[..1], image) == env
      && Last(Merge(own, newer), "B") == Some("B=2") && Last(Merge(env[..1], newer), "B") == Some("B=9")
  {
    var own, image, newer := ["A=1", "B=2"], ["B=2", "C=3"], ["B=9", "C=3"];
    assert EnvKey("A=1") == "A" && EnvKey("B=2") == "B" && EnvKey("C=3") == "C" && EnvKey("B=9") == "B";
    assert image[1..] == ["C=3"] && newer[1..] == ["C=3"];
    assert "B=2" in own && Listed(own, "B") && !Listed(own, "C");
    assert Appended(own, image) == Appended(own, ["C=3"]) == ["A=1", "B=2", "C=3"];
    var env := Merge(own, image);
    assert env[..1] == ["A=1"];
    assert !Listed(["A=1"], "B") && Appended(["A=1"], image) == Appended(["A=1", "B=2"], ["C=3"]);
    LastAppended(own, newer, "B");
    assert Last(own, "B") == Some("B=2");
    LastAppended(["A=1"], newer, "B");
  }
}
