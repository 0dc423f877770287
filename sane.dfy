/** The safe layer of `src/sane.rs`: the four cursor kinds, their views and
    accessors, and the package cache whose lock a root cursor holds for as
    long as it lives.

    The native engine is abstract. Each view is the engine record under a
    cursor; a text field of that record is the `*const c_char` the shim
    returns (null, or the memory it points at), and a nested list is what
    the child cursor opened from that view walks. */
module Sane {
  import opened Wrappers
  import opened Mutex
  import opened CIter

  newtype int32 = x: int | -0x8000_0000 <= x < 0x8000_0000

  const NUL: char := 0 as char

  /** A `*const c_char` handed out by the engine. */
  datatype CPtr = Null | Ptr(mem: seq<char>)

  /** `std::ffi::NulError`: where the first interior NUL is, and the text
      that was to be converted. */
  datatype NulError = NulError(position: nat, bytes: string)

  /** A Rust panic: an `expect` with its message, or the `unwrap()` of a
      `CString::new` that failed, which reports the `NulError` it found. */
  datatype Panic = Panic(message: string) | UnwrapNul(error: NulError)

  /** `CStr::from_ptr`: the text runs up to the first NUL (or the end of the
      memory the model knows about). */
  function CStrFromPtr(mem: seq<char>): (s: string)
    ensures |s| <= |mem| && s == mem[..|s|]
    ensures NUL !in s
    ensures |s| < |mem| ==> mem[|s|] == NUL
  {
    if mem == [] || mem[0] == NUL then [] else [mem[0]] + CStrFromPtr(mem[1..])
  }

  /** The index of the first NUL in `s`, or `|s|` when there is none. */
  function FirstNul(s: string): (i: nat)
    ensures i <= |s| && NUL !in s[..i]
    ensures i < |s| ==> s[i] == NUL
  {
    if s == [] then 0
    else if s[0] == NUL then 0
    else
      var i := 1 + FirstNul(s[1..]);
      assert s[..i] == [s[0]] + s[1..][..i - 1];
      i
  }

  /** `CString::new`: fails on an interior NUL, otherwise the text plus its terminator. */
  function CStringNew(s: string): (r: Result<seq<char>, NulError>)
    ensures r.Success? <==> NUL !in s
    ensures r.Success? ==> |r.value| == |s| + 1 && r.value[|s|] == NUL && r.value[..|s|] == s
    ensures r.Failure? ==> r.error.position < |s| && s[r.error.position] == NUL && NUL !in s[..r.error.position]
    ensures r.Failure? ==> r.error.bytes == s
  {
    var i := FirstNul(s);
    if i == |s| then
      assert s[..i] == s;
      Success(s + [NUL])
    else Failure(NulError(i, s))
  }

  /** What the engine reads back from a `CString` is the original text: it
      follows from the two contracts above (the terminator is the first NUL). */
  lemma CStringRoundTrip(s: string)
    requires NUL !in s
    ensures CStrFromPtr(CStringNew(s).value) == s
  {
  }

  /** `make_owned_ascii_string`: `None` for a null pointer, otherwise the text
      the pointer designates. */
  function MakeOwnedAsciiString(p: CPtr): (r: Option<string>)
    ensures r.None? <==> p.Null?
    ensures r.Some? ==> NUL !in r.value && |r.value| <= |p.mem| && r.value == p.mem[..|r.value|]
    ensures r.Some? && |r.value| < |p.mem| ==> p.mem[|r.value|] == NUL
  {
    if p.Null? then None else Some(CStrFromPtr(p.mem))
  }

  /** A required accessor: `make_owned_ascii_string(..).expect(message)`. */
  function Required(p: CPtr, message: string): (r: Result<string, Panic>)
    ensures r.Failure? <==> p.Null?
    ensures r.Failure? ==> r.error == Panic(message)
    ensures r.Success? ==> MakeOwnedAsciiString(p) == Some(r.value)
  {
    match MakeOwnedAsciiString(p)
    case None => Failure(Panic(message))
    case Some(s) => Success(s)
  }

  /** The record under a package-file cursor. */
  datatype PkgFileView = PkgFileView(
    fileNamePtr: CPtr, archivePtr: CPtr, versionPtr: CPtr, originPtr: CPtr,
    codenamePtr: CPtr, labelPtr: CPtr, sitePtr: CPtr, componentPtr: CPtr,
    architecturePtr: CPtr, indexTypePtr: CPtr)
  {
    function FileName(): (r: Result<string, Panic>)
      ensures r.Failure? <==> fileNamePtr.Null?
    {
      Required(fileNamePtr, "package file always has a file name")
    }

    function Archive(): (r: Result<string, Panic>)
      ensures r.Failure? <==> archivePtr.Null?
    {
      Required(archivePtr, "package file always has an archive")
    }

    function Version(): (r: Option<string>)
      ensures r.None? <==> versionPtr.Null?
    {
      MakeOwnedAsciiString(versionPtr)
    }

    function Origin(): (r: Option<string>)
      ensures r.None? <==> originPtr.Null?
    {
      MakeOwnedAsciiString(originPtr)
    }

    function Codename(): (r: Option<string>)
      ensures r.None? <==> codenamePtr.Null?
    {
      MakeOwnedAsciiString(codenamePtr)
    }

    function Label(): (r: Option<string>)
      ensures r.None? <==> labelPtr.Null?
    {
      MakeOwnedAsciiString(labelPtr)
    }

    function Site(): (r: Option<string>)
      ensures r.None? <==> sitePtr.Null?
    {
      MakeOwnedAsciiString(sitePtr)
    }

    function Component(): (r: Result<string, Panic>)
      ensures r.Failure? <==> componentPtr.Null?
    {
      Required(componentPtr, "package file always has a component")
    }

    function Architecture(): (r: Option<string>)
      ensures r.None? <==> architecturePtr.Null?
    {
      MakeOwnedAsciiString(architecturePtr)
    }

    function IndexType(): (r: Result<string, Panic>)
      ensures r.Failure? <==> indexTypePtr.Null?
    {
      Required(indexTypePtr, "package file always has a index_type")
    }
  }

  /** The record under a version-file (origin) cursor: the package files it
      walks, and the description record the engine looks up for it. */
  datatype VerFileView = VerFileView(
    files: seq<PkgFileView>,
    shortDescPtr: CPtr, longDescPtr: CPtr, maintainerPtr: CPtr, homepagePtr: CPtr)
  {
    /** `VerFileView::file`: a fresh, unadvanced package-file cursor. */
    method File() returns (it: CIterator<PkgFileView>)
      ensures fresh(it) && fresh(it.raw) && it.Valid()
      ensures it.first && it.raw.pos == 0 && it.calls == 0 && it.raw.guard == null
      ensures it.raw.items == files
    {
      var cursor := new Cursor.Open(files, null);
      it := new CIterator(cursor);
    }

    function ShortDesc(): (r: Option<string>)
      ensures r.None? <==> shortDescPtr.Null?
    {
      MakeOwnedAsciiString(shortDescPtr)
    }

    function LongDesc(): (r: Option<string>)
      ensures r.None? <==> longDescPtr.Null?
    {
      MakeOwnedAsciiString(longDescPtr)
    }

    function Maintainer(): (r: Option<string>)
      ensures r.None? <==> maintainerPtr.Null?
    {
      MakeOwnedAsciiString(maintainerPtr)
    }

    function Homepage(): (r: Option<string>)
      ensures r.None? <==> homepagePtr.Null?
    {
      MakeOwnedAsciiString(homepagePtr)
    }
  }

  /** The record under a version cursor. */
  datatype VerView = VerView(
    versionPtr: CPtr, archPtr: CPtr, sectionPtr: CPtr,
    sourcePackagePtr: CPtr, sourceVersionPtr: CPtr, priority: int32,
    origins: seq<VerFileView>)
  {
    function Version(): (r: Result<string, Panic>)
      ensures r.Failure? <==> versionPtr.Null?
    {
      Required(versionPtr, "versions always have a version")
    }

    function Arch(): (r: Result<string, Panic>)
      ensures r.Failure? <==> archPtr.Null?
    {
      Required(archPtr, "versions always have an arch")
    }

    function Section(): (r: Option<string>)
      ensures r.None? <==> sectionPtr.Null?
    {
      MakeOwnedAsciiString(sectionPtr)
    }

    function SourcePackage(): (r: Result<string, Panic>)
      ensures r.Failure? <==> sourcePackagePtr.Null?
    {
      Required(sourcePackagePtr, "versions always have a source package")
    }

    function SourceVersion(): (r: Result<string, Panic>)
      ensures r.Failure? <==> sourceVersionPtr.Null?
    {
      Required(sourceVersionPtr, "versions always have a source_version")
    }

    /** `VerView::origin_iter`: a fresh, unadvanced version-file cursor. */
    method OriginIter() returns (it: CIterator<VerFileView>)
      ensures fresh(it) && fresh(it.raw) && it.Valid()
      ensures it.first && it.raw.pos == 0 && it.calls == 0 && it.raw.guard == null
      ensures it.raw.items == origins
    {
      var cursor := new Cursor.Open(origins, null);
      it := new CIterator(cursor);
    }
  }

  /** The record under a package cursor. */
  datatype PkgView = PkgView(
    namePtr: CPtr, archPtr: CPtr, currentVersionPtr: CPtr, candidateVersionPtr: CPtr,
    versions: seq<VerView>)
  {
    function Name(): (r: Result<string, Panic>)
      ensures r.Failure? <==> namePtr.Null?
    {
      Required(namePtr, "packages always have names")
    }

    function Arch(): (r: Result<string, Panic>)
      ensures r.Failure? <==> archPtr.Null?
    {
      Required(archPtr, "packages always have architectures")
    }

    function CurrentVersion(): (r: Option<string>)
      ensures r.None? <==> currentVersionPtr.Null?
    {
      MakeOwnedAsciiString(currentVersionPtr)
    }

    function CandidateVersion(): (r: Option<string>)
      ensures r.None? <==> candidateVersionPtr.Null?
    {
      MakeOwnedAsciiString(candidateVersionPtr)
    }

    /** `PkgView::versions`: a fresh, unadvanced version cursor. */
    method Versions() returns (it: CIterator<VerView>)
      ensures fresh(it) && fresh(it.raw) && it.Valid()
      ensures it.first && it.raw.pos == 0 && it.calls == 0 && it.raw.guard == null
      ensures it.raw.items == versions
    {
      var cursor := new Cursor.Open(versions, null);
      it := new CIterator(cursor);
    }
  }

  /** `std::cmp::Ordering` */
  datatype Ordering = Less | Equal | Greater

  /** `n.cmp(&0)` on the engine's signed comparison result. */
  function OrderingOf(n: int32): (o: Ordering)
    ensures o == Less <==> n < 0
    ensures o == Equal <==> n == 0
    ensures o == Greater <==> n > 0
  {
    if n < 0 then Less else if n == 0 then Equal else Greater
  }

  /** The engine state behind the cache handle: the package list in engine
      order, the lists `FindPkg` positions on, and the version comparison. */
  datatype Engine = Engine(
    packages: seq<PkgView>,
    findName: string -> seq<PkgView>,
    findNameArch: (string, string) -> seq<PkgView>,
    compareVersions: (string, string) -> int32)

  /** `CACHE_SINGLETON`: the one process-wide engine state and the mutex
      around it. It is created once; every `Cache` handle refers to it. */
  class CacheHolder {
    const lock: Lock
    var engine: Engine

    /** The lazy initialisation of the singleton, with the engine state it
        builds. */
    constructor (engine: Engine)
      ensures this.engine == engine && fresh(lock) && !lock.held
    {
      this.engine := engine;
      lock := new Lock();
    }
  }

  /** A handle on the package cache singleton. */
  class Cache {
    const holder: CacheHolder

    /** `Cache::get_singleton`: a handle on the shared singleton. Nothing
        about the singleton changes: its lock may already be held through
        another handle. */
    constructor GetSingleton(holder: CacheHolder)
      ensures this.holder == holder
    {
      this.holder := holder;
    }

    /** `Cache::reload`: under the lock, discard the engine state and build a
        new one (whatever the engine now reads is `rebuilt`). Every handle
        sees the new state. */
    method Reload(rebuilt: Engine)
      requires !holder.lock.held
      modifies holder, holder.lock
      ensures holder.engine == rebuilt && !holder.lock.held
    {
      holder.lock.Acquire();
      holder.engine := rebuilt;
      holder.lock.Unlock();
    }

    /** `Cache::iter`: a root cursor over every package, holding the lock. */
    method Iter() returns (it: CIterator<PkgView>)
      requires !holder.lock.held
      modifies holder.lock
      ensures fresh(it) && fresh(it.raw) && it.Valid()
      ensures it.first && it.raw.pos == 0 && it.calls == 0
      ensures it.raw.items == holder.engine.packages
      ensures it.raw.guard == holder.lock && holder.lock.held
    {
      holder.lock.Acquire();
      var cursor := new Cursor.Open(holder.engine.packages, holder.lock);
      it := new CIterator(cursor);
    }

    /** `Cache::find_by_name`. The lock is taken first; a name with a NUL
        panics before the engine is asked, and the guard is dropped while
        unwinding. */
    method FindByName(name: string) returns (r: Result<CIterator<PkgView>, Panic>)
      requires !holder.lock.held
      modifies holder.lock
      ensures r.Failure? <==> NUL in name
      ensures r.Failure? ==> r.error == UnwrapNul(CStringNew(name).error) && !holder.lock.held
      ensures r.Success? ==> fresh(r.value) && fresh(r.value.raw) && r.value.Valid()
      ensures r.Success? ==> r.value.first && r.value.raw.pos == 0 && r.value.calls == 0
      ensures r.Success? ==> r.value.raw.items == holder.engine.findName(name)
      ensures r.Success? ==> r.value.raw.guard == holder.lock && holder.lock.held
    {
      holder.lock.Acquire();
      var cname := CStringNew(name);
      if cname.Failure? {
        holder.lock.Unlock();
        return Failure(UnwrapNul(cname.error));
      }
      CStringRoundTrip(name);
      var cursor := new Cursor.Open(holder.engine.findName(CStrFromPtr(cname.value)), holder.lock);
      var it := new CIterator(cursor);
      r := Success(it);
    }

    /** `Cache::find_by_name_arch`: as `FindByName`, with the name converted
        before the architecture. */
    method FindByNameArch(name: string, arch: string) returns (r: Result<CIterator<PkgView>, Panic>)
      requires !holder.lock.held
      modifies holder.lock
      ensures r.Failure? <==> NUL in name || NUL in arch
      ensures r.Failure? ==> !holder.lock.held
      ensures NUL in name ==> r == Failure(UnwrapNul(CStringNew(name).error))
      ensures NUL !in name && NUL in arch ==> r == Failure(UnwrapNul(CStringNew(arch).error))
      ensures r.Success? ==> fresh(r.value) && fresh(r.value.raw) && r.value.Valid()
      ensures r.Success? ==> r.value.first && r.value.raw.pos == 0 && r.value.calls == 0
      ensures r.Success? ==> r.value.raw.items == holder.engine.findNameArch(name, arch)
      ensures r.Success? ==> r.value.raw.guard == holder.lock && holder.lock.held
    {
      holder.lock.Acquire();
      var cname := CStringNew(name);
      if cname.Failure? {
        holder.lock.Unlock();
        return Failure(UnwrapNul(cname.error));
      }
      var carch := CStringNew(arch);
      if carch.Failure? {
        holder.lock.Unlock();
        return Failure(UnwrapNul(carch.error));
      }
      CStringRoundTrip(name);
      CStringRoundTrip(arch);
      var found := holder.engine.findNameArch(CStrFromPtr(cname.value), CStrFromPtr(carch.value));
      var cursor := new Cursor.Open(found, holder.lock);
      var it := new CIterator(cursor);
      r := Success(it);
    }

    /** `Cache::compare_versions`. Both strings are converted before the lock
        is taken, so a NUL panics even while a cursor holds the lock; otherwise
        the lock is taken for the engine call and dropped on return. */
    method CompareVersions(left: string, right: string) returns (r: Result<Ordering, Panic>)
      requires NUL !in left && NUL !in right ==> !holder.lock.held
      modifies holder.lock
      ensures holder.lock.held == old(holder.lock.held)
      ensures r.Failure? <==> NUL in left || NUL in right
      ensures NUL in left ==> r == Failure(UnwrapNul(CStringNew(left).error))
      ensures NUL !in left && NUL in right ==> r == Failure(UnwrapNul(CStringNew(right).error))
      ensures r.Success? ==> r.value == OrderingOf(holder.engine.compareVersions(left, right))
    {
      var cleft := CStringNew(left);
      if cleft.Failure? {
        return Failure(UnwrapNul(cleft.error));
      }
      var cright := CStringNew(right);
      if cright.Failure? {
        return Failure(UnwrapNul(cright.error));
      }
      holder.lock.Acquire();
      CStringRoundTrip(left);
      CStringRoundTrip(right);
      var n := holder.engine.compareVersions(CStrFromPtr(cleft.value), CStrFromPtr(cright.value));
      holder.lock.Unlock();
      r := Success(OrderingOf(n));
    }
  }
}
