/**
 * The manifest: a list of deployments, each naming a resource file, how long to wait for it
 * and the names of the deployments it depends on. The bean-validation annotations on the
 * Java class become the predicate `Valid`.
 */
module Manifest {

  const DefaultMaxWaitSeconds: int := 300

  /** A manifest entry. A name or location the YAML leaves out is the empty string here. */
  datatype Deployment = Deployment(name: string, maxWaitSeconds: int, location: string, dependencies: set<string>)

  datatype TugManifest = TugManifest(deployments: seq<Deployment>)

  /** A manifest whose YAML gives no deployments. */
  function EmptyManifest(): (m: TugManifest)
    ensures |m.deployments| == 0
  {
    TugManifest([])
  }

  /** An entry whose YAML gives only a name and a location: every other field keeps its default. */
  function NewDeployment(name: string, location: string): (d: Deployment)
    ensures d.name == name && d.location == location
    ensures d.maxWaitSeconds == DefaultMaxWaitSeconds && d.dependencies == {}
    ensures Valid(d) <==> NotBlank(name) && NotBlank(location)
  {
    Deployment(name, DefaultMaxWaitSeconds, location, {})
  }

  /** Java's String.trim removes every leading and trailing character at or below U+0020. */
  predicate Trimmable(c: char) {
    c <= ' '
  }

  function TrimStart(s: string): (r: string)
    ensures |r| <= |s| && r == s[|s| - |r|..]
    ensures r == [] || !Trimmable(r[0])
  {
    if s == [] || !Trimmable(s[0]) then s else TrimStart(s[1..])
  }

  function TrimEnd(s: string): (r: string)
    ensures |r| <= |s| && r == s[..|r|]
    ensures r == [] || !Trimmable(r[|r| - 1])
  {
    if s == [] || !Trimmable(s[|s| - 1]) then s else TrimEnd(s[..|s| - 1])
  }

  function Trim(s: string): string {
    TrimEnd(TrimStart(s))
  }

  /** @NotBlank: the trimmed text is not empty. */
  predicate NotBlank(s: string) {
    |Trim(s)| > 0
  }

  /** TrimStart only drops trimmable characters. */
  lemma {:induction false} TrimStartDropsBlanks(s: string)
    ensures forall i :: 0 <= i < |s| - |TrimStart(s)| ==> Trimmable(s[i])
  {
    if s != [] && Trimmable(s[0]) {
      TrimStartDropsBlanks(s[1..]);
      forall i | 0 < i < |s| - |TrimStart(s)| ensures Trimmable(s[i]) {
        assert s[i] == s[1..][i - 1];
      }
    }
  }

  /** TrimEnd only drops trimmable characters. */
  lemma {:induction false} TrimEndDropsBlanks(s: string)
    ensures forall i :: |TrimEnd(s)| <= i < |s| ==> Trimmable(s[i])
  {
    if s != [] && Trimmable(s[|s| - 1]) {
      TrimEndDropsBlanks(s[..|s| - 1]);
      forall i | |TrimEnd(s)| <= i < |s| - 1 ensures Trimmable(s[i]) {
        assert s[i] == s[..|s| - 1][i];
      }
    }
  }

  /** A text is not blank exactly when one of its characters lies above U+0020. */
  lemma NotBlankHasVisibleChar(s: string)
    ensures NotBlank(s) <==> exists i :: 0 <= i < |s| && !Trimmable(s[i])
  {
    var a := TrimStart(s);
    var b := TrimEnd(a);
    TrimStartDropsBlanks(s);
    TrimEndDropsBlanks(a);
    if |b| > 0 {
      assert !Trimmable(b[0]);
      assert b[0] == a[0] == s[|s| - |a|];
    } else {
      forall i | 0 <= i < |s| ensures Trimmable(s[i]) {
        if i >= |s| - |a| {
          assert s[i] == a[i - (|s| - |a|)];
        }
      }
    }
  }

  /** The declared constraints of one entry: @NotBlank name and location, @Min(1) maxWaitSeconds. */
  predicate Valid(d: Deployment) {
    NotBlank(d.name) && d.maxWaitSeconds >= 1 && NotBlank(d.location)
  }

  /** @Valid on the list: every entry satisfies its constraints. */
  predicate ValidManifest(m: TugManifest) {
    forall i :: 0 <= i < |m.deployments| ==> Valid(m.deployments[i])
  }

  /** The empty manifest satisfies every constraint; a default entry with a visible name and location does too. */
  lemma DefaultsAreValid(name: string, location: string)
    requires exists i :: 0 <= i < |name| && !Trimmable(name[i])
    requires exists i :: 0 <= i < |location| && !Trimmable(location[i])
    ensures ValidManifest(EmptyManifest())
    ensures ValidManifest(TugManifest([NewDeployment(name, location)]))
  {
    assert NotBlank(name) by {
      NotBlankHasVisibleChar(name);
    }
    assert NotBlank(location) by {
      NotBlankHasVisibleChar(location);
    }
    assert Valid(NewDeployment(name, location));
  }
}
