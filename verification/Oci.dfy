/** OCI image references and package URLs: the image parser, the Helm parser and the normaliser. */
module Oci {
  import opened Prelude

  const REPOSITORY_URL := "repository_url"
  const TAG := "tag"

  datatype Purl = Purl(kind: string, name: string, version: Option<string>, qualifiers: seq<(string, string)>)

  // ---------------------------------------------------------------- string operations

  function Find(s: string, c: char): (i: Option<nat>)
    ensures i.Some? ==> i.value < |s| && s[i.value] == c && c !in s[..i.value]
    ensures i.None? ==> c !in s
  {
    if s == "" then None
    else if s[0] == c then Some(0)
    else
      var i := Find(s[1..], c);
      if i.None? then None else (assert s[..i.value + 1] == [s[0]] + s[1..][..i.value]; Some(i.value + 1))
  }

  function FindLast(s: string, c: char): (i: Option<nat>)
    ensures i.Some? ==> i.value < |s| && s[i.value] == c && c !in s[i.value + 1..]
    ensures i.None? ==> c !in s
  {
    if s == "" then None
    else if s[|s| - 1] == c then Some(|s| - 1)
    else
      var i := FindLast(s[..|s| - 1], c);
      if i.None? then None
      else (assert s[i.value + 1..] == s[..|s| - 1][i.value + 1..] + [s[|s| - 1]]; i)
  }

  /** The first place where `pattern` stands. */
  function FindStr(s: string, pattern: string): (i: Option<nat>)
    ensures i.Some? ==> i.value <= |s| && pattern <= s[i.value..]
    ensures i.Some? ==> forall j :: 0 <= j < i.value ==> !(pattern <= s[j..])
    ensures i.None? ==> forall j :: 0 <= j <= |s| ==> !(pattern <= s[j..])
  {
    if pattern <= s then Some(0)
    else if s == "" then None
    else
      var i := FindStr(s[1..], pattern);
      assert forall j :: 0 < j <= |s| ==> s[1..][j - 1..] == s[j..];
      if i.None? then None else Some(i.value + 1)
  }

  function Split(s: string): (parts: seq<string>)
    ensures parts != []
    decreases |s|
  {
    var i := Find(s, '/');
    if i.None? then [s] else [s[..i.value]] + Split(s[i.value + 1..])
  }

  function Join(parts: seq<string>): string {
    if parts == [] then "" else if |parts| == 1 then parts[0] else parts[0] + "/" + Join(parts[1..])
  }

  lemma {:induction false} FindFirst(a: string, c: char, b: string)
    requires c !in a
    ensures Find(a + [c] + b, c) == Some(|a|)
  {
    if a != "" {
      assert (a + [c] + b)[1..] == a[1..] + [c] + b;
      FindFirst(a[1..], c, b);
    }
  }

  lemma {:induction false} FindLastOne(a: string, c: char, b: string)
    requires c !in b
    ensures FindLast(a + [c] + b, c) == Some(|a|)
  {
    if b != "" {
      assert (a + [c] + b)[..|a| + |b|] == a + [c] + b[..|b| - 1];
      FindLastOne(a, c, b[..|b| - 1]);
    }
  }

  lemma SplitCons(first: string, rest: string)
    requires '/' !in first
    ensures Split(first + "/" + rest) == [first] + Split(rest)
  {
    hide Find;
    FindFirst(first, '/', rest);
    var s := first + "/" + rest;
    assert s[..|first|] == first && s[|first| + 1..] == rest;
  }

  lemma JoinCons(first: string, parts: seq<string>)
    requires parts != []
    ensures Join([first] + parts) == first + "/" + Join(parts)
  {
    assert ([first] + parts)[1..] == parts;
  }

  lemma JoinOne(part: string)
    ensures Join([part]) == part
  {
  }

  lemma SplitPlain(s: string)
    requires '/' !in s
    ensures Split(s) == [s]
  {
  }

  lemma {:induction false} SplitJoins(parts: seq<string>)
    requires parts != [] && forall p :: p in parts ==> '/' !in p
    ensures Split(Join(parts)) == parts
  {
    hide Join, Split;
    var first, rest := parts[0], parts[1..];
    assert parts == [first] + rest && first in parts;
    if rest == [] {
      assert parts == [first];
      JoinOne(first);
      SplitPlain(first);
    } else {
      SplitJoins(rest);
      JoinCons(first, rest);
      SplitCons(first, Join(rest));
    }
  }

  lemma {:induction false} JoinSnoc(parts: seq<string>, last: string)
    requires parts != []
    ensures Join(parts + [last]) == Join(parts) + "/" + last
  {
    if |parts| == 1 {
      assert (parts + [last])[1..] == [last];
    } else {
      JoinSnoc(parts[1..], last);
      assert (parts + [last])[1..] == parts[1..] + [last];
      assert parts[0] + "/" + (Join(parts[1..]) + "/" + last) == parts[0] + "/" + Join(parts[1..]) + "/" + last;
    }
  }

  lemma {:induction false} JoinNotIn(parts: seq<string>, c: char)
    requires c != '/' && forall p :: p in parts ==> c !in p
    ensures c !in Join(parts)
  {
    if parts != [] {
      assert parts[0] in parts;
      JoinNotIn(parts[1..], c);
    }
  }

  // ---------------------------------------------------------------- the image parser

  const SHA256 := "sha256:"

  function WithAlgorithm(digest: string): string { if SHA256 <= digest then digest else SHA256 + digest }

  /** The reference without its digest, and the digest or the empty string. */
  function CutDigest(image: string): (string, string) {
    var prefixed := FindStr(image, "@" + SHA256);
    if prefixed.Some? then (image[..prefixed.value], image[prefixed.value + 1..])
    else
      var at := Find(image, '@');
      if at.Some? then (image[..at.value], WithAlgorithm(image[at.value + 1..])) else (image, "")
  }

  /** The reference without its tag: after the last colon, unless a slash follows, which makes it a port. */
  function CutTag(s: string): (string, string) {
    var colon := FindLast(s, ':');
    if colon.Some? && '/' !in s[colon.value + 1..] then (s[..colon.value], s[colon.value + 1..]) else (s, "")
  }

  predicate IsHost(part: string) { '.' in part || part == "localhost" }

  function RepositoryUrl(parts: seq<string>): string {
    if parts == [] then "docker.io/library"
    else
      var registry := if IsHost(parts[0]) then parts[0] else "docker.io";
      var namespace := Join(if IsHost(parts[0]) then parts[1..] else parts);
      if namespace == "" then registry else registry + "/" + namespace
  }

  function PurlOf(image: string): Purl {
    var (named, digest) := CutDigest(image);
    var (path, given) := CutTag(named);
    var tag := if given == "" && digest == "" then "latest" else given;
    var parts := Split(path);
    Purl("oci", parts[|parts| - 1], if digest == "" then None else Some("@" + digest),
         [(REPOSITORY_URL, RepositoryUrl(parts[..|parts| - 1]))] + if tag != "" then [(TAG, tag)] else [])
  }

  method ExtractDigest(image: string) returns (repoAndName: string, digest: string)
    ensures (repoAndName, digest) == CutDigest(image)
  {
    hide FindStr, Find, SHA256;
    repoAndName, digest := image, "";
    var prefixed := FindStr(image, "@" + SHA256);
    var at := Find(image, '@');
    if prefixed.Some? {
      repoAndName := image[..prefixed.value];
      digest := image[prefixed.value + 1..];
    } else if at.Some? {
      repoAndName := image[..at.value];
      var part := image[at.value + 1..];
      digest := if SHA256 <= part then part else SHA256 + part;
    }
  }

  method ExtractTag(given: string) returns (repoAndName: string, tag: string)
    ensures (repoAndName, tag) == CutTag(given)
  {
    hide FindLast;
    repoAndName, tag := given, "";
    var colon := FindLast(repoAndName, ':');
    if colon.Some? {
      var potential := repoAndName[colon.value + 1..];
      if '/' !in potential {
        tag := potential;
        repoAndName := repoAndName[..colon.value];
      }
    }
  }

  method ParseOciImage(image: string) returns (purl: Purl)
    ensures purl == PurlOf(image)
    ensures '/' !in purl.name && Normalised(purl) == purl
    ensures forall r: Reference :: r.Valid() && r.Text() == image ==>
              Describes(purl, r) && Render(purl) == Canonical(r).Text()
  {
    hide CutDigest, CutTag, Split, Join, RepositoryUrl, Render, Normalised, Reference.Valid, Reference.Text, Describes;
    ImagesAreNormal(image);
    forall r: Reference | r.Valid() && r.Text() == image
      ensures Describes(PurlOf(image), r) && Render(PurlOf(image)) == Canonical(r).Text()
    {
      ImageParts(r);
      RenderGivesCanonical(r);
    }
    var repoAndName, digest := ExtractDigest(image);
    var tag;
    repoAndName, tag := ExtractTag(repoAndName);
    if tag == "" && digest == "" {
      tag := "latest";
    }
    var parts := Split(repoAndName);
    var name, repoParts := parts[|parts| - 1], parts[..|parts| - 1];
    var url := RepositoryUrlOf(repoParts);
    var version := if digest == "" then None else Some("@" + digest);
    purl := Purl("oci", name, version, [(REPOSITORY_URL, url)] + if tag != "" then [(TAG, tag)] else []);
  }

  method RepositoryUrlOf(repoParts: seq<string>) returns (url: string)
    ensures url == RepositoryUrl(repoParts)
  {
    hide Join;
    var registry, namespace;
    if repoParts == [] {
      registry, namespace := "docker.io", "library";
    } else if '.' !in repoParts[0] && repoParts[0] != "localhost" {
      registry, namespace := "docker.io", Join(repoParts);
    } else {
      registry, namespace := repoParts[0], Join(repoParts[1..]);
    }
    url := if namespace == "" then registry else registry + "/" + namespace;
    if repoParts == [] { assert url == "docker.io/library"; }
  }

  // ---------------------------------------------------------------- references and their canonical form

  datatype Reference = Reference(path: seq<string>, tag: Option<string>, digest: Option<string>) {
    predicate Valid() {
      && path != []
      && (forall p :: p in path ==> p != "" && '/' !in p && '@' !in p)
      && ':' !in path[|path| - 1]
      && (tag.Some? ==> tag.value != "" && '/' !in tag.value && ':' !in tag.value && '@' !in tag.value)
      && (digest.Some? ==> '@' !in digest.value)
    }

    function TagPart(): string { if tag.Some? then ":" + tag.value else "" }

    function DigestPart(): string { if digest.Some? then "@" + digest.value else "" }

    function Text(): string { Join(path) + TagPart() + DigestPart() }
  }

  /** What a reference stands for: registry, library namespace, latest tag and digest algorithm filled in. */
  function Canonical(r: Reference): Reference
    requires r.Valid()
  {
    Reference(
      FullPath(r.path),
      if r.tag.None? && r.digest.None? then Some("latest") else r.tag,
      if r.digest.Some? then Some(WithAlgorithm(r.digest.value)) else None)
  }

  predicate FullyQualified(r: Reference)
    requires r.Valid()
  {
    && |r.path| >= 2 && IsHost(r.path[0])
    && (r.tag.Some? || r.digest.Some?)
    && (r.digest.Some? ==> SHA256 <= r.digest.value)
  }

  function Qualifier(q: seq<(string, string)>, key: string): (v: Option<string>) {
    if q == [] then None else if q[0].0 == key then Some(q[0].1) else Qualifier(q[1..], key)
  }

  /** The image reference a package URL names. */
  function Render(p: Purl): string {
    var url, tag := Qualifier(p.qualifiers, REPOSITORY_URL), Qualifier(p.qualifiers, TAG);
    (if url.Some? then url.value + "/" else "") + p.name
    + (if tag.Some? then ":" + tag.value else "") + if p.version.Some? then p.version.value else ""
  }

  lemma CutDigestOf(before: string, digest: string)
    requires '@' !in before && '@' !in digest
    ensures CutDigest(before + "@" + digest) == (before, WithAlgorithm(digest))
  {
    var image := before + "@" + digest;
    var pattern := "@" + SHA256;
    FindFirst(before, '@', digest);
    assert image[..|before|] == before && image[|before| + 1..] == digest;
    assert image[|before|..] == "@" + digest;
    forall j | 0 <= j <= |image| && j != |before|
      ensures !(pattern <= image[j..])
    {
      assert j < |image| ==> image[j] == if j < |before| then before[j] else digest[j - |before| - 1];
      NotHere(image, j);
    }
    assert pattern <= "@" + digest <==> SHA256 <= digest by { PrefixAfterAt(digest); }
    hide FindStr, Find;
  }

  lemma NotHere(image: string, j: nat)
    requires j <= |image| && (j < |image| ==> image[j] != '@')
    ensures !("@" + SHA256 <= image[j..])
  {
    if j < |image| { assert image[j..][0] == image[j]; }
  }

  lemma PrefixAfterAt(digest: string)
    ensures "@" + SHA256 <= "@" + digest <==> SHA256 <= digest
  {
    if SHA256 <= digest { assert "@" + digest == "@" + SHA256 + digest[|SHA256|..]; }
    if "@" + SHA256 <= "@" + digest {
      assert ("@" + digest)[1..] == digest && ("@" + SHA256)[1..] == SHA256;
    }
  }

  lemma NoDigest(image: string)
    requires '@' !in image
    ensures CutDigest(image) == (image, "")
  {
    forall j | 0 <= j <= |image|
      ensures !("@" + SHA256 <= image[j..])
    {
      NotHere(image, j);
    }
    hide SHA256;
  }

  lemma CutTagOf(path: string, tag: string)
    requires ':' !in tag && '/' !in tag
    ensures CutTag(path + ":" + tag) == (path, tag)
  {
    FindLastOne(path, ':', tag);
    var s := path + ":" + tag;
    assert s[..|path|] == path && s[|path| + 1..] == tag;
  }

  lemma PortIsNoTag(before: string, last: string)
    requires ':' !in last
    ensures CutTag(before + "/" + last) == (before + "/" + last, "")
  {
    var s := before + "/" + last;
    var colon := FindLast(s, ':');
    forall k | |before| <= k < |s|
      ensures s[k] != ':'
    {
      assert k > |before| ==> s[k] == last[k - |before| - 1];
    }
    if colon.Some? {
      assert s[colon.value + 1..][|before| - colon.value - 1] == s[|before|] == '/';
    }
  }

  lemma PlainIsNoTag(name: string)
    requires ':' !in name
    ensures CutTag(name) == (name, "")
  {
  }

  /** A colon that belongs to a registry's port is not taken for a tag. */
  lemma NoTag(path: seq<string>)
    requires path != [] && ':' !in path[|path| - 1]
    ensures CutTag(Join(path)) == (Join(path), "")
  {
    hide CutTag, Join;
    var init, last := path[..|path| - 1], path[|path| - 1];
    assert init + [last] == path;
    if init == [] {
      assert path == [last];
      JoinOne(last);
      PlainIsNoTag(last);
    } else {
      JoinSnoc(init, last);
      PortIsNoTag(Join(init), last);
    }
  }

  function FullPath(path: seq<string>): seq<string>
    requires path != []
  {
    if |path| == 1 then ["docker.io", "library"] + path else if IsHost(path[0]) then path else ["docker.io"] + path
  }

  lemma HostPath(init: seq<string>)
    requires init != [] && IsHost(init[0]) && (|init| > 1 ==> init[1] != "")
    ensures RepositoryUrl(init) == Join(init)
  {
    var host, rest := init[0], init[1..];
    assert init == [host] + rest;
    if rest == [] {
      JoinOne(host);
    } else {
      JoinCons(host, rest);
      JoinNonEmpty(rest);
    }
  }

  lemma ImplicitPath(init: seq<string>)
    requires init != [] && !IsHost(init[0]) && init[0] != ""
    ensures RepositoryUrl(init) == Join(["docker.io"] + init)
  {
    JoinNonEmpty(init);
    JoinCons("docker.io", init);
  }

  lemma RepositoryPath(path: seq<string>)
    requires path != [] && forall p :: p in path ==> p != ""
    ensures RepositoryUrl(path[..|path| - 1]) + "/" + path[|path| - 1] == Join(FullPath(path))
  {
    hide Join, IsHost;
    var n := |path| - 1;
    var init, last := path[..n], path[n];
    assert init + [last] == path;
    if n == 0 {
      ShortPath(last);
      assert path == [last] && init == [];
    } else {
      assert path[0] in path && path[0] == init[0];
      assert n > 1 ==> path[1] in path && init[1] == path[1];
      hide RepositoryUrl;
      if IsHost(path[0]) {
        HostPath(init);
        JoinSnoc(init, last);
      } else {
        ImplicitPath(init);
        JoinSnoc(["docker.io"] + init, last);
        assert ["docker.io"] + init + [last] == ["docker.io"] + path;
      }
    }
  }

  lemma ShortPath(name: string)
    ensures "docker.io/library" + "/" + name == Join(["docker.io", "library"] + [name])
  {
    assert ["docker.io", "library"] + [name] == ["docker.io"] + (["library"] + [name]);
    JoinCons("docker.io", ["library"] + [name]);
    JoinCons("library", [name]);
    assert "docker.io" + "/" + ("library" + "/" + name) == "docker.io/library" + "/" + name;
  }

  lemma JoinNonEmpty(parts: seq<string>)
    requires parts != [] && parts[0] != ""
    ensures Join(parts) != ""
  {
  }

  lemma OneAt(r: Reference)
    requires r.Valid()
    ensures '@' !in Join(r.path) + r.TagPart() && (r.digest.Some? ==> '@' !in r.digest.value)
  {
    JoinNotIn(r.path, '@');
  }

  lemma AlgorithmGiven(digest: string)
    ensures WithAlgorithm(digest) != ""
  {
  }

  lemma CutsDigest(r: Reference)
    requires r.Valid()
    ensures var digest := if r.digest.Some? then WithAlgorithm(r.digest.value) else "";
            CutDigest(r.Text()) == (Join(r.path) + r.TagPart(), digest) && (r.digest.Some? ==> digest != "")
  {
    hide CutDigest, Join, Reference.TagPart, Reference.Valid, WithAlgorithm;
    OneAt(r);
    var named := Join(r.path) + r.TagPart();
    if r.digest.Some? {
      CutDigestOf(named, r.digest.value);
      AlgorithmGiven(r.digest.value);
      assert r.Text() == named + "@" + r.digest.value;
    } else {
      NoDigest(named);
      assert r.Text() == named;
    }
  }

  lemma CutsTag(r: Reference)
    requires r.Valid()
    ensures CutTag(Join(r.path) + r.TagPart()) == (Join(r.path), if r.tag.Some? then r.tag.value else "")
  {
    hide CutTag, Join;
    var named := Join(r.path) + r.TagPart();
    if r.tag.Some? {
      CutTagOf(Join(r.path), r.tag.value);
      assert named == Join(r.path) + ":" + r.tag.value;
    } else {
      NoTag(r.path);
      assert named == Join(r.path);
    }
  }

  /**
   * Every well-formed reference is parsed to what it stands for: re-rendering repository URL, name, tag and
   * version gives its canonical form.
   */
  lemma RenderGivesCanonical(r: Reference)
    requires r.Valid()
    ensures Render(PurlOf(r.Text())) == Canonical(r).Text()
  {
    SplitJoins(r.path);
    RepositoryPath(r.path);
    hide CutDigest, CutTag, RepositoryUrl, Join, Split, WithAlgorithm, Reference.Valid, IsHost, SHA256, FullPath;
    CutsDigest(r);
    CutsTag(r);
    var p := PurlOf(r.Text());
    var url, tag := RepositoryUrl(r.path[..|r.path| - 1]), Canonical(r).tag;
    assert p.qualifiers == [(REPOSITORY_URL, url)] + if tag.Some? then [(TAG, tag.value)] else [];
    QualifiersOf(url, tag);
  }

  /** A package URL that says part by part what a reference names. */
  ghost predicate Describes(p: Purl, r: Reference)
    requires r.Valid()
  {
    var n := |r.path| - 1;
    var host := '.' in r.path[0] || r.path[0] == "localhost";
    var url := if n == 0 then "docker.io/library"
               else if host then Join(r.path[..n]) else "docker.io/" + Join(r.path[..n]);
    && p.kind == "oci" && p.name == r.path[n]
    && p.version == (if r.digest.None? then None
                     else if "sha256:" <= r.digest.value then Some("@" + r.digest.value)
                     else Some("@sha256:" + r.digest.value))
    && p.qualifiers == [("repository_url", url)]
                       + (if r.tag.Some? then [("tag", r.tag.value)]
                          else if r.digest.None? then [("tag", "latest")] else [])
  }

  lemma UrlOf(path: seq<string>)
    requires path != [] && forall p :: p in path ==> p != ""
    ensures var init := path[..|path| - 1];
            RepositoryUrl(init) == if init == [] then "docker.io/library"
                                   else if '.' in path[0] || path[0] == "localhost" then Join(init)
                                   else "docker.io/" + Join(init)
  {
    var init := path[..|path| - 1];
    if init != [] {
      assert init[0] == path[0] && path[0] in path;
      assert |init| > 1 ==> path[1] in path && init[1] == path[1];
      hide Join;
      if IsHost(init[0]) {
        HostPath(init);
      } else {
        hide RepositoryUrl;
        ImplicitPath(init);
        JoinCons("docker.io", init);
        assert "docker.io" + "/" == "docker.io/";
      }
    }
  }

  /** What every well-formed reference is parsed to, part by part. */
  lemma ImageParts(r: Reference)
    requires r.Valid()
    ensures Describes(PurlOf(r.Text()), r)
  {
    SplitJoins(r.path);
    UrlOf(r.path);
    AlgorithmFilledIn(r.digest);
    hide CutDigest, CutTag, RepositoryUrl, Join, Split, WithAlgorithm, IsHost, SHA256, Reference.Text;
    CutsDigest(r);
    CutsTag(r);
  }

  lemma AlgorithmFilledIn(digest: Option<string>)
    ensures digest.Some? ==>
              "@" + WithAlgorithm(digest.value)
              == if "sha256:" <= digest.value then "@" + digest.value else "@sha256:" + digest.value
  {
    assert "@" + "sha256:" == "@sha256:";
  }

  lemma QualifiersOf(url: string, tag: Option<string>)
    ensures var q := [(REPOSITORY_URL, url)] + if tag.Some? then [(TAG, tag.value)] else [];
            Qualifier(q, REPOSITORY_URL) == Some(url) && Qualifier(q, TAG) == tag
  {
    var q := [(REPOSITORY_URL, url)] + if tag.Some? then [(TAG, tag.value)] else [];
    assert q[1..] == if tag.Some? then [(TAG, tag.value)] else [];
    assert REPOSITORY_URL[0] != TAG[0];
    if tag.Some? { assert q[1..][1..] == []; }
  }

  /**
   * Parsing and re-rendering gives a reference back unchanged exactly when it is fully qualified: a host with
   * a dot (or plain localhost), a path below it, and a tag or a sha256 digest.
   */
  lemma RoundTripExactlyWhen(r: Reference)
    requires r.Valid()
    ensures Render(PurlOf(r.Text())) == r.Text() <==>
              && |r.path| >= 2 && ('.' in r.path[0] || r.path[0] == "localhost")
              && (r.tag.Some? || r.digest.Some?) && (r.digest.Some? ==> "sha256:" <= r.digest.value)
  {
    RenderGivesCanonical(r);
    var c := Canonical(r);
    if FullyQualified(r) {
      assert c == r;
    } else {
      LongerPath(r);
      assert |c.TagPart()| >= |r.TagPart()| && |c.DigestPart()| >= |r.DigestPart()|;
      assert |c.Text()| > |r.Text()|;
    }
  }

  lemma LongerPath(r: Reference)
    requires r.Valid()
    ensures |Join(Canonical(r).path)| >= |Join(r.path)|
    ensures |r.path| == 1 || !IsHost(r.path[0]) ==> |Join(Canonical(r).path)| > |Join(r.path)|
  {
    if |r.path| == 1 {
      assert (["docker.io", "library"] + r.path)[1..] == ["library"] + r.path;
      assert (["library"] + r.path)[1..] == r.path;
    } else if !IsHost(r.path[0]) {
      assert (["docker.io"] + r.path)[1..] == r.path;
    }
  }

  /** A reference whose first component is no host is read as one on docker.io. */
  lemma ImplicitRegistry(r: Reference)
    requires r.Valid() && |r.path| >= 2 && !IsHost(r.path[0]) && (r.tag.Some? || r.digest.Some?)
    requires r.digest.Some? ==> SHA256 <= r.digest.value
    ensures !FullyQualified(r) && Render(PurlOf(r.Text())) == "docker.io" + "/" + r.Text()
  {
    RenderGivesCanonical(r);
    hide Render, PurlOf, Reference.Valid, IsHost, SHA256, Join;
    JoinCons("docker.io", r.path);
    assert Canonical(r).tag == r.tag && Canonical(r).digest == r.digest;
    hide Reference.TagPart, Reference.DigestPart;
    Prefixed("docker.io" + "/", Join(r.path), r.TagPart(), r.DigestPart());
  }

  lemma Prefixed(a: string, b: string, c: string, d: string)
    ensures a + b + c + d == a + (b + c + d)
  {
  }

  function LocalRegistry(): Reference { Reference(["localhost:5000", "app"], Some("1"), None) }

  /** `localhost:5000/app:1` is read as a repository on docker.io, although it names a registry with its port. */
  lemma LocalhostWithPort()
    ensures LocalRegistry().Valid() && !FullyQualified(LocalRegistry())
    ensures Render(PurlOf(LocalRegistry().Text())) == "docker.io" + "/" + LocalRegistry().Text()
  {
    var r := LocalRegistry();
    NotLocalhost(r.path[0]);
    assert r.Valid() by {
      forall p | p in r.path
        ensures p != "" && '/' !in p && '@' !in p
      {
        assert p == "localhost:5000" || p == "app";
      }
    }
    ImplicitRegistry(r);
  }

  lemma NotLocalhost(s: string)
    requires s == "localhost:5000"
    ensures !IsHost(s)
  {
    assert |s| == 14 && |"localhost"| == 9;
  }

  // ---------------------------------------------------------------- Helm charts and the normaliser

  predicate IsOciRegistry(url: string) { !("http://" <= url) && !("https://" <= url) }

  /** What stands before and after the last slash. */
  function CutLast(s: string): (r: Option<(string, string)>)
    ensures r.Some? ==> s == r.value.0 + "/" + r.value.1 && '/' !in r.value.1
    ensures r.None? ==> '/' !in s
  {
    var i := FindLast(s, '/');
    if i.None? then None
    else (assert s == s[..i.value] + "/" + s[i.value + 1..]; Some((s[..i.value], s[i.value + 1..])))
  }

  function HelmPurl(repoUrl: string, chart: string, revision: string): Purl {
    if IsOciRegistry(repoUrl) then
      var cut := CutLast(chart);
      if cut.Some? then Purl("oci", cut.value.1, Some(revision), [(REPOSITORY_URL, repoUrl + "/" + cut.value.0)])
      else Purl("oci", chart, Some(revision), [(REPOSITORY_URL, repoUrl)])
    else Purl("generic", chart, Some(revision), [("download_url", repoUrl), ("type", "helm")])
  }

  /** Replaces the first value of the repository URL, or adds one. */
  function WithPrefix(q: seq<(string, string)>, prefix: string): seq<(string, string)> {
    if q == [] then [(REPOSITORY_URL, prefix)]
    else if q[0].0 == REPOSITORY_URL then [(REPOSITORY_URL, q[0].1 + "/" + prefix)] + q[1..]
    else [q[0]] + WithPrefix(q[1..], prefix)
  }

  function Normalised(p: Purl): Purl {
    var cut := CutLast(p.name);
    if p.kind != "oci" || cut.None? then p
    else p.(name := cut.value.1, qualifiers := WithPrefix(p.qualifiers, cut.value.0))
  }

  lemma PrefixSkips(q: seq<(string, string)>, i: nat, prefix: string)
    requires i < |q| && q[i].0 != REPOSITORY_URL
    ensures q[..i] + WithPrefix(q[i..], prefix) == q[..i + 1] + WithPrefix(q[i + 1..], prefix)
  {
    hide REPOSITORY_URL;
    assert q[i..][1..] == q[i + 1..];
    assert q[..i] + ([q[i]] + WithPrefix(q[i + 1..], prefix)) == q[..i + 1] + WithPrefix(q[i + 1..], prefix);
  }

  lemma PrefixHere(q: seq<(string, string)>, prefix: string)
    requires q != [] && q[0].0 == REPOSITORY_URL
    ensures WithPrefix(q, prefix) == [(REPOSITORY_URL, q[0].1 + "/" + prefix)] + q[1..]
  {
  }

  lemma Replaced(q: seq<(string, string)>, i: nat, x: (string, string))
    requires i < |q|
    ensures q[..i] + ([x] + q[i..][1..]) == q[i := x]
  {
  }

  lemma PrefixStops(q: seq<(string, string)>, i: nat, prefix: string)
    requires i <= |q| && (i < |q| ==> q[i].0 == REPOSITORY_URL)
    ensures q[..i] + WithPrefix(q[i..], prefix) ==
              if i < |q| then q[i := (REPOSITORY_URL, q[i].1 + "/" + prefix)] else q + [(REPOSITORY_URL, prefix)]
  {
    hide REPOSITORY_URL;
    if i < |q| {
      var rest, merged := q[i..], (REPOSITORY_URL, q[i].1 + "/" + prefix);
      assert rest[0] == q[i];
      PrefixHere(rest, prefix);
      Replaced(q, i, merged);
    } else {
      assert q[..i] == q && q[i..] == [];
    }
  }

  /** The normalisation inside `purl_object_to_string`, which edits the qualifier vector in place. */
  method Normalise(p: Purl) returns (r: Purl)
    ensures r == Normalised(p)
  {
    hide WithPrefix, REPOSITORY_URL;
    var qualifiers := p.qualifiers;
    var name := p.name;
    if p.kind == "oci" {
      var cut := CutLast(p.name);
      if cut.Some? {
        var (prefix, base) := cut.value;
        var i := 0;
        while i < |qualifiers| && qualifiers[i].0 != REPOSITORY_URL
          invariant 0 <= i <= |qualifiers|
          invariant WithPrefix(qualifiers, prefix) == qualifiers[..i] + WithPrefix(qualifiers[i..], prefix)
        {
          PrefixSkips(qualifiers, i, prefix);
          i := i + 1;
        }
        PrefixStops(qualifiers, i, prefix);
        if i < |qualifiers| {
          qualifiers := qualifiers[i := (REPOSITORY_URL, qualifiers[i].1 + "/" + prefix)];
        } else {
          qualifiers := qualifiers + [(REPOSITORY_URL, prefix)];
        }
        name := base;
      }
    }
    r := p.(name := name, qualifiers := qualifiers);
  }

  /** The registry path and name together: what a normalisation must not change. */
  function Location(p: Purl): string {
    var url := Qualifier(p.qualifiers, REPOSITORY_URL);
    if url.Some? then url.value + "/" + p.name else p.name
  }

  lemma {:induction false} WithPrefixFinds(q: seq<(string, string)>, prefix: string)
    ensures var url := Qualifier(q, REPOSITORY_URL);
            Qualifier(WithPrefix(q, prefix), REPOSITORY_URL) ==
              Some(if url.Some? then url.value + "/" + prefix else prefix)
    ensures forall key :: key != REPOSITORY_URL ==> Qualifier(WithPrefix(q, prefix), key) == Qualifier(q, key)
  {
    if q != [] && q[0].0 != REPOSITORY_URL {
      WithPrefixFinds(q[1..], prefix);
      assert WithPrefix(q, prefix)[1..] == WithPrefix(q[1..], prefix);
    } else if q != [] {
      assert WithPrefix(q, prefix)[1..] == q[1..];
    } else {
      assert WithPrefix(q, prefix)[1..] == [];
    }
  }

  /**
   * The normaliser leaves no slash in an OCI name, changes neither the location nor any other qualifier, and
   * a second application changes nothing.
   */
  lemma NormaliserKeepsLocation(p: Purl)
    ensures var n := Normalised(p);
            && Location(n) == Location(p) && Normalised(n) == n
            && (p.kind == "oci" ==> '/' !in n.name)
            && (forall key :: key != REPOSITORY_URL ==> Qualifier(n.qualifiers, key) == Qualifier(p.qualifiers, key))
            && n.kind == p.kind && n.version == p.version && (p.kind != "oci" ==> n == p)
  {
    var cut := CutLast(p.name);
    if cut.Some? {
      WithPrefixFinds(p.qualifiers, cut.value.0);
      var url := Qualifier(p.qualifiers, REPOSITORY_URL);
      if url.Some? {
        Regroup(url.value, cut.value.0, cut.value.1);
      }
    }
  }

  lemma Regroup(a: string, b: string, c: string)
    ensures a + "/" + b + "/" + c == a + "/" + (b + "/" + c)
  {
  }

  /** For an OCI registry the Helm parser and the normaliser agree on every chart path. */
  lemma HelmAgreesWithNormaliser(repoUrl: string, chart: string, revision: string)
    requires IsOciRegistry(repoUrl)
    ensures var raw := Purl("oci", chart, Some(revision), [(REPOSITORY_URL, repoUrl)]);
            && Normalised(raw) == HelmPurl(repoUrl, chart, revision)
            && Location(HelmPurl(repoUrl, chart, revision)) == repoUrl + "/" + chart
  {
    var raw := Purl("oci", chart, Some(revision), [(REPOSITORY_URL, repoUrl)]);
    assert raw.qualifiers[1..] == [];
    NormaliserKeepsLocation(raw);
  }

  /**
   * What a Helm source is parsed to: a chart of an HTTP repository keeps its name and is found at that
   * address; any other registry takes all of the chart's path but its last component.
   */
  lemma HelmParts(repoUrl: string, chart: string, revision: string)
    ensures var p := HelmPurl(repoUrl, chart, revision);
            && p.version == Some(revision)
            && ("http://" <= repoUrl || "https://" <= repoUrl ==>
                  p.kind == "generic" && p.name == chart
                  && p.qualifiers == [("download_url", repoUrl), ("type", "helm")])
            && (!("http://" <= repoUrl) && !("https://" <= repoUrl) ==>
                  && p.kind == "oci" && '/' !in p.name
                  && ((p.name == chart && p.qualifiers == [("repository_url", repoUrl)])
                      || exists prefix: string :: chart == prefix + "/" + p.name
                           && p.qualifiers == [("repository_url", repoUrl + "/" + prefix)]))
  {
    hide FindLast;
    var cut := CutLast(chart);
    hide CutLast;
    if cut.Some? {
      var prefix := cut.value.0;
      assert chart == prefix + "/" + cut.value.1;
    }
  }

  /** What the image parser produces is already normal. */
  lemma ImagesAreNormal(image: string)
    ensures Normalised(PurlOf(image)) == PurlOf(image) && '/' !in PurlOf(image).name
  {
    LastHasNoSlash(CutTag(CutDigest(image).0).0);
  }

  lemma {:induction false} LastHasNoSlash(s: string)
    ensures '/' !in Split(s)[|Split(s)| - 1]
    decreases |s|
  {
    var i := Find(s, '/');
    if i.Some? {
      LastHasNoSlash(s[i.value + 1..]);
    }
  }
}
