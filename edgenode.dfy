/**
  Node identity for edge nodes: `GetHostname(override)` and
  `GetPodManifestPath()` of the `edgenode` package, with the contract its
  table-driven test fixes. The operating-system lookup `osHostName`, which the
  test swaps for a stub, is a function parameter.
*/
module EdgeNode {
  import opened Wrappers
  import opened Strings

  datatype HostnameError = InvalidHostname | HostnameLookupFailed

  /** What the OS hostname provider answers: a name, or a failure (Go's non-nil error). */
  datatype OsHostname = OsName(name: string) | OsFailure

  /** Go's `(string, error)` result: on an error the name is always "". */
  datatype Hostname = Hostname(name: string, err: Option<HostnameError>)

  /** The directory of static pod manifests. */
  const KubernetesDir := "/etc/kubernetes"

  function GetPodManifestPath(): (path: string)
    ensures path == "/etc/kubernetes/manifests"
  {
    KubernetesDir + "/manifests"
  }

  /** A canonical node name: no surrounding white space and no upper-case letter. */
  ghost predicate Normal(name: string) {
    Tight(name) && NoUpper(name)
  }

  /**
    A non-empty override is trimmed and lower-cased, and rejected when nothing
    is left; an empty override asks the provider and normalizes its answer.
  */
  function GetHostname(hostnameOverride: string, osHostName: () -> OsHostname): (r: Hostname)
    ensures r.err.Some? ==> r.name == []
    ensures r.err.None? ==> Normal(r.name)
    ensures hostnameOverride != [] ==>
      (r.err == Some(InvalidHostname) <==> SpaceOnly(hostnameOverride)) &&
      r.err != Some(HostnameLookupFailed) &&
      (r.err.None? ==> r.name != [] && |r.name| <= |hostnameOverride|)
    ensures hostnameOverride == [] ==>
      (r.err == Some(HostnameLookupFailed) <==> osHostName().OsFailure?) &&
      r.err != Some(InvalidHostname)
  {
    if hostnameOverride != [] then
      var h := TrimSpace(hostnameOverride);
      if h == [] then Hostname([], Some(InvalidHostname))
      else
        ToLowerKeepsSpace(h);
        Hostname(ToLower(h), None)
    else
      match osHostName()
      case OsFailure => Hostname([], Some(HostnameLookupFailed))
      case OsName(n) =>
        ToLowerKeepsSpace(TrimSpace(n));
        Hostname(ToLower(TrimSpace(n)), None)
  }

  /** A non-empty override never consults the provider. */
  lemma OverrideIgnoresProvider(hostnameOverride: string, p: () -> OsHostname, q: () -> OsHostname)
    requires hostnameOverride != []
    ensures GetHostname(hostnameOverride, p) == GetHostname(hostnameOverride, q)
  {
  }

  /** A white-space-only override is an error with the empty name, whatever the provider says. */
  lemma WhitespaceOnlyIsInvalid(hostnameOverride: string, p: () -> OsHostname)
    requires hostnameOverride != [] && SpaceOnly(hostnameOverride)
    ensures GetHostname(hostnameOverride, p) == Hostname([], Some(InvalidHostname))
  {
  }

  /** An empty override gives the provider's name, normalized in the same way. */
  lemma EmptyOverrideUsesProvider(p: () -> OsHostname, n: string)
    requires p() == OsName(n)
    ensures GetHostname([], p) == Hostname(ToLower(TrimSpace(n)), None)
  {
  }

  /** Normalizing a name that came out of `GetHostname` gives it back unchanged. */
  lemma {:induction false} GetHostnameIdempotent(hostnameOverride: string, p: () -> OsHostname)
    requires GetHostname(hostnameOverride, p).err.None?
    requires GetHostname(hostnameOverride, p).name != []
    ensures GetHostname(GetHostname(hostnameOverride, p).name, p) == GetHostname(hostnameOverride, p)
  {
    var n := GetHostname(hostnameOverride, p).name;
    TrimTight(n);
    ToLowerOfLower(n);
  }

  // The cases of the table-driven test, with the provider stubbed to "test_host".

  function StubHostName(): OsHostname {
    OsName("test_host")
  }

  lemma NormalNameIsKept(name: string)
    requires name != [] && Normal(name)
    ensures GetHostname(name, StubHostName) == Hostname(name, None)
  {
    TrimTight(name);
    ToLowerOfLower(name);
  }

  /** A usable override comes back trimmed and lower-cased, whatever the provider says. */
  lemma OverrideIsNormalized(hostnameOverride: string, p: () -> OsHostname)
    requires !SpaceOnly(hostnameOverride)
    ensures GetHostname(hostnameOverride, p) == Hostname(ToLower(TrimSpace(hostnameOverride)), None)
  {
  }

  /** An override with no white space at its ends is only lower-cased. */
  lemma TightOverrideIsLowered(hostnameOverride: string, p: () -> OsHostname)
    requires hostnameOverride != [] && Tight(hostnameOverride)
    ensures GetHostname(hostnameOverride, p) == Hostname(ToLower(hostnameOverride), None)
  {
    TrimTight(hostnameOverride);
  }

  lemma UpperCaseFolds()
    ensures ToLower("TEST_HOST") == "test_host"
  {
  }

  lemma TestUpperCase()
    ensures GetHostname("TEST_HOST", StubHostName) == Hostname("test_host", None)
  {
    TightOverrideIsLowered("TEST_HOST", StubHostName);
    UpperCaseFolds();
  }

  /** White space in front of a canonical name is dropped, whatever the provider says. */
  lemma LeadingSpaceIsDropped(pre: string, name: string, p: () -> OsHostname)
    requires SpaceOnly(pre) && name != [] && Normal(name)
    ensures GetHostname(pre + name, p) == Hostname(name, None)
  {
    var s := pre + name;
    assert s[|pre|..] == name && s[..|pre|] == pre;
    assert !IsSpace(s[|pre|]);
    OverrideIsNormalized(s, p);
    TrimSpacePrefix(s, |pre|);
    ToLowerOfLower(name);
  }

  lemma TestLeadingSpace()
    ensures GetHostname("    test_host", StubHostName) == Hostname("test_host", None)
  {
    var pre, name := "    ", "test_host";
    assert pre + name == "    test_host";
    LeadingSpaceIsDropped(pre, name, StubHostName);
  }

  lemma TestValidName()
    ensures GetHostname("test_host", StubHostName) == Hostname("test_host", None)
  {
    NormalNameIsKept("test_host");
  }

  lemma TestInvalidName()
    ensures GetHostname("    ", StubHostName) == Hostname("", Some(InvalidHostname))
  {
    WhitespaceOnlyIsInvalid("    ", StubHostName);
  }

  lemma TestFromOs()
    ensures GetHostname("", StubHostName) == Hostname("test_host", None)
  {
    TrimTight("test_host");
    ToLowerOfLower("test_host");
  }
}
