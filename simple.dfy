/** The owned snapshots of `src/simple.rs` and their `Display` output.

    A builder reads a view's accessors; a required accessor that finds a null
    pointer panics, and that panic is the builder's `Failure`. Fields are read
    in the order the struct literal lists them, so the first failing one
    decides the message. `view.versions().map(..).collect()` and
    `view.origin_iter().next()` walk a fresh cursor, which yields its
    elements in order (see `CIter.NextYields`), so here they are written over
    the view's list directly. */
module Simple {
  import opened Wrappers
  import opened Sane
  import Text

  const NoBackingFile: string := "a version's origin should always have a backing file"

  /** `BinaryPackage` */
  datatype BinaryPackage = BinaryPackage(
    name: string, arch: string, currentVersion: Option<string>, candidateVersion: Option<string>)
  {
    /** `Display for BinaryPackage`: `name:arch`, then ` @ current`, then ` -> candidate`. */
    function Display(): (s: string)
      ensures var head := name + ":" + arch;
        && |s| == |head| + (if currentVersion.Some? then 3 + |currentVersion.value| else 0)
                         + (if candidateVersion.Some? then 4 + |candidateVersion.value| else 0)
        && s[..|head|] == head
        && (currentVersion.Some? ==> s[|head|..|head| + 3 + |currentVersion.value|] == " @ " + currentVersion.value)
        && (candidateVersion.Some? ==> s[|s| - 4 - |candidateVersion.value|..] == " -> " + candidateVersion.value)
        && (currentVersion.None? && candidateVersion.None? ==> s == head)
    {
      var head := name + ":" + arch;
      var current := if currentVersion.Some? then " @ " + currentVersion.value else "";
      var candidate := if candidateVersion.Some? then " -> " + candidateVersion.value else "";
      assert (head + current + candidate)[..|head|] == head;
      assert (head + current + candidate)[|head|..|head| + |current|] == current;
      head + current + candidate
    }
  }

  /** `BinaryPackage::new` */
  function NewBinaryPackage(view: PkgView): (r: Result<BinaryPackage, Panic>)
    ensures r.Success? <==> view.namePtr.Ptr? && view.archPtr.Ptr?
    ensures view.namePtr.Null? ==> r == Failure(Panic("packages always have names"))
    ensures r.Success? ==> && view.Name() == Success(r.value.name)
                           && view.Arch() == Success(r.value.arch)
                           && r.value.currentVersion == view.CurrentVersion()
                           && r.value.candidateVersion == view.CandidateVersion()
  {
    var name :- view.Name();
    var arch :- view.Arch();
    Success(BinaryPackage(name, arch, view.CurrentVersion(), view.CandidateVersion()))
  }

  /** `VersionDetails` */
  datatype VersionDetails = VersionDetails(
    shortDesc: Option<string>, longDesc: Option<string>,
    maintainer: Option<string>, homepage: Option<string>)

  /** `VersionDetails::default` */
  function DefaultDetails(): (d: VersionDetails)
    ensures d.shortDesc.None? && d.longDesc.None? && d.maintainer.None? && d.homepage.None?
  {
    VersionDetails(None, None, None, None)
  }

  /** The details read from one version-file view. */
  function DetailsOf(view: VerFileView): (d: VersionDetails)
    ensures d.shortDesc == view.ShortDesc() && d.longDesc == view.LongDesc()
    ensures d.maintainer == view.Maintainer() && d.homepage == view.Homepage()
  {
    VersionDetails(view.ShortDesc(), view.LongDesc(), view.Maintainer(), view.Homepage())
  }

  /** `Version` (the default build, with source package, source version and priority). */
  datatype Version = Version(
    version: string, arch: string, section: Option<string>,
    sourcePackage: string, sourceVersion: string, priority: int32,
    details: VersionDetails)
  {
    /** `Display for Version`: `version:arch`, an optional ` in section`, then
        ` from source_package:source_version at priority`. */
    function Display(): (s: string)
      ensures var head := version + ":" + arch;
        var sectionPart := if section.Some? then " in " + section.value else "";
        var from := " from " + sourcePackage + ":" + sourceVersion + " at ";
        var rest := |head| + |sectionPart|;
        && |s| == rest + |from| + |Text.IntToString(priority as int)|
        && s[..|head|] == head
        && s[|head|..rest] == sectionPart
        && s[rest..rest + |from|] == from
        && Text.ParseInt(s[rest + |from|..]) == Some(priority as int)
    {
      var head := version + ":" + arch;
      var sectionPart := if section.Some? then " in " + section.value else "";
      var from := " from " + sourcePackage + ":" + sourceVersion + " at ";
      var digits := Text.IntToString(priority as int);
      Text.IntToStringRoundTrip(priority as int);
      Text.ConcatParts(head, sectionPart, from, digits);
      head + sectionPart + from + digits
    }
  }

  /** `Version::new`: details come from the first origin only, or are all
      absent when the version has no origin. */
  function NewVersion(view: VerView): (r: Result<Version, Panic>)
    ensures r.Success? <==> && view.versionPtr.Ptr? && view.archPtr.Ptr?
                            && view.sourcePackagePtr.Ptr? && view.sourceVersionPtr.Ptr?
    ensures view.versionPtr.Null? ==> r == Failure(Panic("versions always have a version"))
    ensures r.Success? ==> r.value.details == if view.origins == [] then DefaultDetails() else DetailsOf(view.origins[0])
    ensures r.Success? ==> && view.Version() == Success(r.value.version)
                           && view.Arch() == Success(r.value.arch)
                           && r.value.section == view.Section()
                           && view.SourcePackage() == Success(r.value.sourcePackage)
                           && view.SourceVersion() == Success(r.value.sourceVersion)
                           && r.value.priority == view.priority
  {
    var details := if view.origins != [] then DetailsOf(view.origins[0]) else DefaultDetails();
    var version :- view.Version();
    var arch :- view.Arch();
    var section := view.Section();
    var sourcePackage :- view.SourcePackage();
    var sourceVersion :- view.SourceVersion();
    Success(Version(version, arch, section, sourcePackage, sourceVersion, view.priority, details))
  }

  /** `Origin` */
  datatype Origin = Origin(
    fileName: string, archive: string, version: Option<string>, origin: Option<string>,
    codename: Option<string>, labelName: Option<string>, site: Option<string>,
    component: string, architecture: Option<string>, indexType: string)
  {
    predicate HasFullLocation()
    {
      site.Some? && origin.Some? && labelName.Some? && codename.Some? && architecture.Some?
    }

    /** `Display for Origin`: the long `TODO://` form when site, origin, label,
        codename and architecture are all known, otherwise just the file name. */
    function Display(): (s: string)
      ensures !HasFullLocation() ==> s == fileName
      ensures HasFullLocation() ==>
        s == "TODO://" + site.value + "/TODO(o:" + origin.value + "/l:" + labelName.value
             + "/c:" + codename.value + ") " + archive + "/" + component + " "
             + architecture.value + " (f:" + fileName + ")"
      ensures HasFullLocation() ==> && |s| > 7 + |site.value| + 4 + |fileName|
                                    && s[..7 + |site.value|] == "TODO://" + site.value
                                    && s[|s| - 4 - |fileName|..] == "(f:" + fileName + ")"
    {
      if HasFullLocation() then
        var tail := "(f:" + fileName + ")";
        var s := "TODO://" + site.value + "/TODO(o:" + origin.value + "/l:" + labelName.value
          + "/c:" + codename.value + ") " + archive + "/" + component + " "
          + architecture.value + " " + tail;
        assert s[..7 + |site.value|] == "TODO://" + site.value;
        assert s[|s| - |tail|..] == tail;
        s
      else
        fileName
    }
  }

  /** `Origin::new` */
  function NewOrigin(view: PkgFileView): (r: Result<Origin, Panic>)
    ensures r.Success? <==> && view.fileNamePtr.Ptr? && view.archivePtr.Ptr?
                            && view.componentPtr.Ptr? && view.indexTypePtr.Ptr?
    ensures view.fileNamePtr.Null? ==> r == Failure(Panic("package file always has a file name"))
    ensures r.Success? ==> && view.FileName() == Success(r.value.fileName)
                           && view.Archive() == Success(r.value.archive)
                           && r.value.version == view.Version()
                           && r.value.origin == view.Origin()
                           && r.value.codename == view.Codename()
                           && r.value.labelName == view.Label()
                           && r.value.site == view.Site()
                           && view.Component() == Success(r.value.component)
                           && r.value.architecture == view.Architecture()
                           && view.IndexType() == Success(r.value.indexType)
  {
    var fileName :- view.FileName();
    var archive :- view.Archive();
    var version, origin, codename, labelName, site := view.Version(), view.Origin(), view.Codename(), view.Label(), view.Site();
    var component :- view.Component();
    var architecture := view.Architecture();
    var indexType :- view.IndexType();
    Success(Origin(fileName, archive, version, origin, codename, labelName, site, component, architecture, indexType))
  }

  /** `Origin::from_ver_file`: the origin of the first package file, or `None`
      when the version file has none. */
  function FromVerFile(view: VerFileView): (r: Result<Option<Origin>, Panic>)
    ensures r == Success(None) <==> view.files == []
    ensures view.files != [] ==> (r.Success? <==> NewOrigin(view.files[0]).Success?)
    ensures view.files != [] && r.Success? ==> r.value == Some(NewOrigin(view.files[0]).value)
  {
    if view.files == [] then Success(None)
    else
      var origin :- NewOrigin(view.files[0]);
      Success(Some(origin))
  }

  /** An origin that has a backing file, and whose file yields an `Origin`. */
  predicate HasOrigin(view: VerFileView)
  {
    view.files != [] && NewOrigin(view.files[0]).Success?
  }

  /** `origin_iter().map(|o| Origin::from_ver_file(o).expect(..)).collect()`:
      one origin per element, in order, panicking at the first that has none. */
  function OriginsOf(views: seq<VerFileView>): (r: Result<seq<Origin>, Panic>)
    ensures r.Success? <==> forall i :: 0 <= i < |views| ==> HasOrigin(views[i])
    ensures r.Success? ==> && |r.value| == |views|
                           && forall i :: 0 <= i < |views| ==> r.value[i] == NewOrigin(views[i].files[0]).value
  {
    if views == [] then Success([])
    else
      var first :- FromVerFile(views[0]);
      var origin :- if first.Some? then Success(first.value) else Failure(Panic(NoBackingFile));
      var rest :- OriginsOf(views[1..]);
      assert forall i :: 1 <= i < |views| ==> views[i] == views[1..][i - 1];
      Success([origin] + rest)
  }

  /** `VersionOrigins` */
  datatype VersionOrigins = VersionOrigins(version: Version, origins: seq<Origin>)

  /** `VersionOrigins::new`: the version first, then its origins. */
  function NewVersionOrigins(view: VerView): (r: Result<VersionOrigins, Panic>)
    ensures r.Success? <==> NewVersion(view).Success? && forall i :: 0 <= i < |view.origins| ==> HasOrigin(view.origins[i])
    ensures NewVersion(view).Failure? ==> r == Failure(NewVersion(view).error)
    ensures r.Success? ==> && r.value.version == NewVersion(view).value
                           && |r.value.origins| == |view.origins|
                           && forall i :: 0 <= i < |view.origins| ==> r.value.origins[i] == NewOrigin(view.origins[i].files[0]).value
  {
    var version :- NewVersion(view);
    var origins :- OriginsOf(view.origins);
    Success(VersionOrigins(version, origins))
  }

  /** `view.versions().map(Version::new).collect()`: one version per element,
      in order, panicking at the first that cannot be built. */
  function VersionsOf(views: seq<VerView>): (r: Result<seq<Version>, Panic>)
    ensures r.Success? <==> forall i :: 0 <= i < |views| ==> NewVersion(views[i]).Success?
    ensures r.Success? ==> && |r.value| == |views|
                           && forall i :: 0 <= i < |views| ==> r.value[i] == NewVersion(views[i]).value
  {
    if views == [] then Success([])
    else
      var version :- NewVersion(views[0]);
      var rest :- VersionsOf(views[1..]);
      assert forall i :: 1 <= i < |views| ==> views[i] == views[1..][i - 1];
      Success([version] + rest)
  }

  /** `BinaryPackageVersions` */
  datatype BinaryPackageVersions = BinaryPackageVersions(pkg: BinaryPackage, versions: seq<Version>)
  {
    /** `Display for BinaryPackageVersions`: the package, ` + `, the number of
        versions in decimal, ` versions`. */
    function Display(): (s: string)
      ensures var p := pkg.Display();
        && |s| > |p| + 3 + 9
        && s[..|p| + 3] == p + " + "
        && s[|s| - 9..] == " versions"
        && s[|p| + 3..|s| - 9] == Text.NatToString(|versions|)
        && Text.IsDigits(s[|p| + 3..|s| - 9])
        && (s[|p| + 3] == '0' ==> |versions| == 0)
        && Text.DigitsValue(s[|p| + 3..|s| - 9]) == |versions|
    {
      var p := pkg.Display();
      var count := Text.NatToString(|versions|);
      var s := p + " + " + count + " versions";
      Text.NatToStringRoundTrip(|versions|);
      assert s[..|p| + 3] == p + " + ";
      assert s[|p| + 3..|s| - 9] == count;
      assert s[|s| - 9..] == " versions";
      s
    }
  }

  /** `BinaryPackageVersions::new`: the package, then its versions in cursor order. */
  function NewBinaryPackageVersions(view: PkgView): (r: Result<BinaryPackageVersions, Panic>)
    ensures r.Success? <==> NewBinaryPackage(view).Success? && forall i :: 0 <= i < |view.versions| ==> NewVersion(view.versions[i]).Success?
    ensures r.Success? ==> && r.value.pkg == NewBinaryPackage(view).value
                           && |r.value.versions| == |view.versions|
                           && forall i :: 0 <= i < |view.versions| ==> r.value.versions[i] == NewVersion(view.versions[i]).value
  {
    var pkg :- NewBinaryPackage(view);
    var versions :- VersionsOf(view.versions);
    Success(BinaryPackageVersions(pkg, versions))
  }
}
