# apt-pkg-native: a Dafny model of the safe cursor layer

`apt-pkg-native` is a Rust binding to the APT package engine. The engine
hands out native cursors: a cursor over all packages, over one package's
versions, over one version's origins (version files), or over one origin's
package files. A freshly created cursor already sits on its first element,
and `is_end` says when the end marker is reached. The Rust layer does four
things with these cursors:

- `CIterator` (`src/citer.rs`) wraps a cursor in a "next item or nothing"
  protocol. Its `first` flag makes the first call of `next` return the
  element the cursor already sits on, without advancing. `CMap` applies a
  function to each view.
- `src/sane.rs` defines the cursor kinds and their views. Each accessor turns
  a C string from the engine into an owned `String`. A required field panics
  with a fixed message when the engine returns a null pointer; an optional
  field becomes `None`. `Cache` is the process-wide handle. Its mutex guard
  travels inside the root package cursor and is freed when that cursor is
  dropped. The handle also looks packages up by name and compares version
  strings.
- `src/simple.rs` copies views into owned records (`BinaryPackage`, `Version`,
  `Origin`, …) and defines their `Display` text.
- `src/raw.rs` guards the engine's configuration initialisation so that it
  runs once.
- `examples/sources.rs` groups every source version by source package,
  optionally skipping versions that come from a given archive, and prints
  `src=ver` lines sorted by source and then by version.

The model has these modules:

- `CIter`: the generic cursor class, the adapter and the mapped adapter.
  `CIterator.Next` is proved against a pure transition function `Step`. The
  lemmas about `Step` show that call k+1 yields the k-th element while there
  is one and `None` ever after.
- `Mutex`: the cache lock, a token that is either held or free.
- `Sane`: C-string conversion with its round trip, the views as records of
  engine pointers, their accessors with the panic messages, the one shared
  `CacheHolder` (engine state and lock) and the `Cache` handles on it.
- `Simple`: the builders and `Display` functions, each specified by what the
  text contains.
- `Raw`: the run-once flag, with a ghost log of engine calls.
- `Text`: the `Ord` of strings and decimal formatting with its parse-back.
- `Sources`: the example program. Grouping and flattening are folds, the
  loops are methods proved against them, and sorting is an insertion sort
  on an array.

A panic from `expect` is a `Failure(Panic(message))`; the `unwrap` of a failed `CString::new` is a `Failure(UnwrapNul(error))` carrying the `NulError`. Struct
fields are read in the order the struct literal lists them, so the first
failing field decides the message.

## Model

| member | source | states |
|---|---|---|
| `CIter.Step` | src/citer.rs:27-40 | One call of `next` as a transition. A returned value is the element under the new position. `None` only at the end marker, where the phase does not change. |
| `CIter.After` | src/citer.rs:27-40 | The phase after k calls never passes the end marker. |
| `CIter.AfterClosedForm` | src/citer.rs:27-40 | After k calls the flag is still set only if k is 0 or the list is empty, and the cursor has moved min(k-1, n) times. |
| `CIter.NextYields` | src/citer.rs:27-40 | Call k+1 yields the k-th element while there is one, and `None` for every later call. |
| `CIter.Cursor.Open` | src/sane.rs:45 | A native cursor starts on its first element and is not released. |
| `CIter.Cursor.IsEnd` | src/sane.rs:127-129 | The cursor is at its end marker exactly when no element is under it. |
| `CIter.Cursor.Next` | src/sane.rs:131-133 | Advancing moves the cursor exactly one position. |
| `CIter.Cursor.AsView` | src/sane.rs:135-142 | A view exists only off the end marker, and it is an element of the cursor's list. |
| `CIter.Cursor.Release` | src/sane.rs:144-146 | Releasing marks the native cursor as handed back. |
| `CIter.CIterator.constructor` | src/sane.rs:109-114 | A new adapter has `first` set, has made no calls, and all of its list is still to come. |
| `CIter.CIterator.Next` | src/citer.rs:27-40 | Result and new phase equal `Step` on the old phase. The k-th call returns the k-th element or `None`. Yielded views grow by the returned one. `Some` exactly when the cursor is off the end marker, and then the value is the current view. The cursor advances only on calls after the first. |
| `CIter.CIterator.Drop` | src/citer.rs:18-23 | Dropping releases the native cursor and frees the cache lock when the cursor holds it. |
| `CIter.CIterator.Map` | src/citer.rs:42-47 | `map` wraps this adapter and the function, with the same remaining elements. |
| `CIter.CMap.Next` | src/citer.rs:64-69 | Yields `f` of the next element of the underlying adapter, or `None` exactly when none remain. |
| `CIter.CMap.Collect` | src/simple.rs:213 | Collecting gives `f` of every remaining element, in order, then drops the adapter and frees its lock. |
| `Mutex.Lock.Acquire` | src/sane.rs:43 | Taking the cache lock requires it to be free (a single thread would otherwise wait for ever) and leaves it held. |
| `Mutex.Lock.Unlock` | src/citer.rs:20-22 | Dropping the guard frees the lock. |
| `Sane.CStrFromPtr` | src/sane.rs:413 | The text read from a C pointer is the longest NUL-free prefix of the memory, followed by NUL when it stops early. |
| `Sane.CStringNew` | src/sane.rs:57 | Fails exactly when the text has a NUL, with a `NulError` holding the first NUL's position and the whole text. Otherwise it is the text plus one terminating NUL. |
| `Sane.CStringRoundTrip` | src/sane.rs:57-58 | What the engine reads back from a converted string is the original string. |
| `Sane.MakeOwnedAsciiString` | src/sane.rs:408-419 | `None` exactly for a null pointer. Otherwise the text is a NUL-free prefix of the pointed memory, ending at the first NUL. |
| `Sane.Required` | src/sane.rs:152-157 | A required accessor panics with its message exactly when the pointer is null. Otherwise it returns the owned text. |
| `Sane.PkgFileView.FileName` | src/sane.rs:364-369 | Panics exactly when the engine has no file name. |
| `Sane.PkgFileView.Archive` | src/sane.rs:370-375 | Panics exactly when the engine has no archive. |
| `Sane.PkgFileView.Version` | src/sane.rs:376-378 | `None` exactly when the engine has no version. |
| `Sane.PkgFileView.Origin` | src/sane.rs:379-381 | `None` exactly when the engine has no origin. |
| `Sane.PkgFileView.Codename` | src/sane.rs:382-384 | `None` exactly when the engine has no codename. |
| `Sane.PkgFileView.Label` | src/sane.rs:385-387 | `None` exactly when the engine has no label. |
| `Sane.PkgFileView.Site` | src/sane.rs:388-390 | `None` exactly when the engine has no site. |
| `Sane.PkgFileView.Component` | src/sane.rs:391-396 | Panics exactly when the engine has no component. |
| `Sane.PkgFileView.Architecture` | src/sane.rs:397-399 | `None` exactly when the engine has no architecture. |
| `Sane.PkgFileView.IndexType` | src/sane.rs:400-405 | Panics exactly when the engine has no index type. |
| `Sane.VerFileView.File` | src/sane.rs:313-321 | A fresh, unadvanced cursor over the origin's package files, with `first` set and no lock. |
| `Sane.VerFileView.ShortDesc` | src/simple.rs:79 | `None` exactly when the engine has no short description. |
| `Sane.VerFileView.LongDesc` | src/simple.rs:80 | `None` exactly when the engine has no long description. |
| `Sane.VerFileView.Maintainer` | src/simple.rs:81 | `None` exactly when the engine has no maintainer. |
| `Sane.VerFileView.Homepage` | src/simple.rs:82 | `None` exactly when the engine has no homepage. |
| `Sane.VerView.Version` | src/sane.rs:223-228 | Panics exactly when the engine has no version string. |
| `Sane.VerView.Arch` | src/sane.rs:230-235 | Panics exactly when the engine has no architecture. |
| `Sane.VerView.Section` | src/sane.rs:237-239 | `None` exactly when the engine has no section. |
| `Sane.VerView.SourcePackage` | src/sane.rs:242-247 | Panics exactly when the engine has no source package. |
| `Sane.VerView.SourceVersion` | src/sane.rs:250-255 | Panics exactly when the engine has no source version. |
| `Sane.VerView.OriginIter` | src/sane.rs:262-270 | A fresh, unadvanced cursor over the version's origins, with `first` set and no lock. |
| `Sane.PkgView.Name` | src/sane.rs:152-157 | Panics exactly when the engine has no name. |
| `Sane.PkgView.Arch` | src/sane.rs:159-164 | Panics exactly when the engine has no architecture. |
| `Sane.PkgView.CurrentVersion` | src/sane.rs:166-168 | `None` exactly when no version is installed. |
| `Sane.PkgView.CandidateVersion` | src/sane.rs:170-172 | `None` exactly when there is no candidate. |
| `Sane.PkgView.Versions` | src/sane.rs:174-182 | A fresh, unadvanced cursor over the package's versions, with `first` set and no lock. |
| `Sane.OrderingOf` | src/sane.rs:96 | `Less`, `Equal` or `Greater` exactly when the engine's result is negative, zero or positive. |
| `Sane.CacheHolder.constructor` | src/sane.rs:16 | The one process-wide singleton starts with its engine state and its lock free. |
| `Sane.Cache.GetSingleton` | src/sane.rs:21-25 | Every handle refers to the one shared singleton and changes nothing about it; its lock may already be held. |
| `Sane.Cache.Reload` | src/sane.rs:33-35 | Under the shared lock, the singleton's engine state is replaced by the rebuilt one, seen through every handle, and the lock is free again afterwards. |
| `Sane.Cache.Iter` | src/sane.rs:42-48 | Takes the lock and returns a fresh adapter over all packages, in engine order. The adapter's cursor holds the lock. |
| `Sane.Cache.FindByName` | src/sane.rs:54-61 | Panics exactly when the name has a NUL, with the `unwrap` of that `NulError`, and the lock is freed again then. Otherwise it returns a fresh adapter over the engine's matches for the same name, holding the lock. |
| `Sane.Cache.FindByNameArch` | src/sane.rs:66-74 | Panics exactly when name or architecture has a NUL, with the name's `NulError` when the name has one and the architecture's otherwise. Otherwise it returns a fresh adapter over the matches for both, holding the lock. |
| `Sane.Cache.CompareVersions` | src/sane.rs:90-98 | Panics exactly when either string has a NUL, with the left string's `NulError` first, and the conversion comes before locking. Otherwise the result is the sign of the engine's comparison. The lock is held afterwards exactly when it was held before. |
| `Simple.BinaryPackage.Display` | src/simple.rs:26-37 | Starts with `name:arch`. ` @ current` follows when there is a current version. Ends with ` -> candidate` when there is a candidate. The length adds up, so nothing else appears. |
| `Simple.NewBinaryPackage` | src/simple.rs:16-23 | Succeeds exactly when name and architecture exist, and the name's panic comes first. The fields are the accessors' results. |
| `Simple.DefaultDetails` | src/simple.rs:47-56 | Every detail is absent. |
| `Simple.DetailsOf` | src/simple.rs:78-83 | The four details are the origin's four accessors. |
| `Simple.Version.Display` | src/simple.rs:103-118 | Contains, in order: `version:arch`, the optional ` in section`, ` from src:ver at `, and a decimal that reads back as the priority. |
| `Simple.NewVersion` | src/simple.rs:75-100 | Succeeds exactly when the four required fields exist, and the version's panic comes first. Details come from the first origin, or are all absent without one. The other fields are the accessors' results. |
| `Simple.Origin.Display` | src/simple.rs:155-180 | Just the file name unless site, origin, label, codename and architecture are all present. In that case the text is the `TODO://site/TODO(o:origin/l:label/c:codename) archive/component architecture (f:file)` form, so it starts with `TODO://site` and ends with `(f:file)`. |
| `Simple.NewOrigin` | src/simple.rs:139-152 | Succeeds exactly when file name, archive, component and index type exist, and the file name's panic comes first. The fields are the accessors' results. |
| `Simple.FromVerFile` | src/simple.rs:135-137 | `None` exactly when the origin has no package file. Otherwise the result is the first file's `Origin`, or its panic. |
| `Simple.OriginsOf` | src/simple.rs:192-198 | Succeeds exactly when every origin has a buildable backing file, giving one `Origin` per origin, in order. |
| `Simple.NewVersionOrigins` | src/simple.rs:189-200 | The version's panic comes first. Success needs the version and every origin, and then the result holds both, in order. |
| `Simple.VersionsOf` | src/simple.rs:213 | Succeeds exactly when every version builds, giving one `Version` per element, in order. |
| `Simple.BinaryPackageVersions.Display` | src/simple.rs:218-222 | The package's text, then ` + `, then the decimal of the number of versions (no leading zero, reading back as that number), then ` versions`. |
| `Simple.NewBinaryPackageVersions` | src/simple.rs:210-215 | The package's panic comes first. Success needs every version, and then the result holds the package and its versions, in order. |
| `Raw.ConfigSystem.constructor` | src/raw.rs:37 | The flag starts false, and nothing has run. |
| `Raw.ConfigSystem.InitConfigSystemOnce` | src/raw.rs:39-47 | After any number of calls the native initialisation has run exactly once. The flag is set before the native call. A repeated call does nothing. |
| `Text.LessEq` | examples/sources.rs:76 | A prefix comes first, and a non-empty string is never below one whose first character is smaller. |
| `Text.Less` | examples/sources.rs:76 | The strict order holds exactly when the reverse non-strict order fails. |
| `Text.LessEqReflexive` | examples/sources.rs:72 | The string order is reflexive. |
| `Text.LessEqAntisymmetric` | examples/sources.rs:72 | The string order is antisymmetric. |
| `Text.LessEqTransitive` | examples/sources.rs:72 | The string order is transitive. |
| `Text.LessEqTotal` | examples/sources.rs:72 | The string order is total. |
| `Text.SortedUnique` | examples/sources.rs:76 | Two sorted sequences with the same elements are equal, so the sorted output does not depend on the sorting algorithm. |
| `Text.SortedNoRepeatsIsStrict` | examples/sources.rs:63-64 | Sorting the elements of a set, each occurring once, gives a strictly ascending list. |
| `Text.NatToString` | src/simple.rs:220 | Formats as non-empty decimal digits with no leading zero. |
| `Text.IntToString` | src/simple.rs:113 | Formats as non-empty text that starts with `-` exactly for a negative number. |
| `Text.NatToStringRoundTrip` | src/simple.rs:220 | The formatted digits read back as the number. |
| `Text.IntToStringRoundTrip` | src/simple.rs:110-114 | The formatted signed number reads back as the number. |
| `Sources.Skipped` | examples/sources.rs:46-53 | Without a filter nothing is skipped; with one, a version is skipped exactly when one of its origins' archives is the target. |
| `Sources.Insert` | examples/sources.rs:56-59 | Adds the key if it is new, adds the version to that key's set, and leaves every other key unchanged. |
| `Sources.GroupMembership` | examples/sources.rs:42-61 | A source version is recorded under a source package exactly when some visited version has both and is not skipped. |
| `Sources.GroupValuesNonEmpty` | examples/sources.rs:56-59 | Every recorded source package has at least one version. |
| `Sources.UnfilteredRecordsEverything` | examples/sources.rs:46 | Without an archive filter, every version is recorded. |
| `Sources.RepeatIsRecordedOnce` | examples/sources.rs:56-59 | Visiting the same version twice records the same map as visiting it once. |
| `Sources.AnyArchiveIs` | examples/sources.rs:47-50 | True exactly when one of the origins' archives is the target. |
| `Sources.CollectSourceVersions` | examples/sources.rs:41-61 | The nested loops build the map of `Group` over all versions of all packages, in order. |
| `Sources.Elements` | examples/sources.rs:63 | A hash set's iteration yields each element once, in some order. |
| `Sources.SortInPlace` | examples/sources.rs:76 | After sorting, the array is ascending and a permutation of what it held. |
| `Sources.LexographicSort` | examples/sources.rs:70-78 | The output is ascending and a permutation of the input. |
| `Sources.SortedElements` | examples/sources.rs:63-64 | Sorting a set's elements gives a strictly ascending list of exactly that set. |
| `Sources.PrintSource` | examples/sources.rs:64-66 | Appends one line per version of one source, in ascending order after the lines already printed. |
| `Sources.PrintSorted` | examples/sources.rs:63-67 | Prints every (source, version) pair of the map exactly once, strictly ascending by source and then by version. |
| `Sources.ListSourceVersions` | examples/sources.rs:35-68 | The printed pairs are exactly the (source package, source version) pairs of the versions not skipped by the filter, strictly ascending. |

## Left out

- Concurrency is not modelled. `lock()` blocks while another thread holds the mutex; the model has one thread, so taking a held lock is a precondition violation rather than a wait.
- Mutex poisoning (`expect("poisoned mutex")`) is not modelled. A panic in `find_by_name` happens while the guard is held, which in Rust would poison the mutex; the model frees the lock instead.
- Sane.MakeOwnedAsciiString: does not model the `to_str().expect("value should always be low-ascii")` panic on text that is not UTF-8, because characters are not bytes here.
- CIter.Cursor.AsView: the `assert!(!self.is_end())` panic is a precondition instead. `CIterator::next` never calls `as_view` at the end marker, so no reachable panic is lost.
- The native engine is abstract. A view is the engine record under a cursor, and the package lookup and version comparison are functions supplied with the engine. The Debian version ordering itself is not modelled.
- The FFI declarations, raw pointers, lifetimes and `PhantomData` are not modelled. `raw::pkg_cache_get_singleton`, `CacheHolder::re_up`, `raw::pkg_cache_compare_versions`, `raw::pkg_iter_candidate_version`, the version-iterator functions, and the `short_desc`/`long_desc`/`maintainer`/`homepage` accessors of `VerFileView` are not part of this model. `src/sane.rs` and `src/simple.rs` call them, but `src/raw.rs` and `src/sane.rs` do not declare them, so their results are fields of the engine records.
- A view is an immutable record here. In the library a view holds the cursor's own native pointer, which the cursor's `next` advances in place and its `release` frees. So a view read after the next `next` sees the new position, and a view read after the cursor is dropped reads freed memory. The model does not capture this aliasing; it treats each view as the record that was under the cursor when the view was made.
- The lazy creation of the `CACHE_SINGLETON` static is not modelled as a global: the one `CacheHolder` is created by the caller and passed to every `Cache.GetSingleton`.
- The `CMap` closure is a pure function. A `FnMut` closure's own state is not modelled.
- `CIterator` has only `next` and `map`. `any`, `count` and the other adapters come from std's `Iterator`, implemented by `CMap`; only the `collect` and `any` uses that the library and the `sources` example make are modelled (`CIter.CMap.Collect`, `Sources.AnyArchiveIs`).
- Sane.CStringNew: the `NulError` position is a character index, where Rust gives a byte index into the UTF-8 encoding; the two agree on ASCII text. The panic is the `UnwrapNul` value carrying the `NulError`, not the rendered message text.
- The `ye-olde-apt` feature is not modelled. The model is the default build, with source package, source version and priority.
- Sources.ListSourceVersions: does not model the panics of `origin.file().next().unwrap()`, `archive()`, `source_package()` and `source_version()`, because the example's versions are records that already hold those values.
- Sources.ListSourceVersions: `env::args().nth(1)` is the `filter` parameter, and each `println!("{}={}")` line is a returned (source, version) pair.
- Sources.LexographicSort: Rust's `sort` is a stable merge sort and the model uses insertion sort. For a total order the sorted permutation is unique (`Text.SortedUnique`), so the results agree.
- `src/lib.rs`, `build.rs`, the C++ shim and the `list`, `policy` and `epochs` examples are not part of this model.
