/**
 * The module-loading handshake of abi_stable's `LibHeader` and `AbiHeader`.
 *
 * A dynamic library exports a `LibHeader` that starts with an `AbiHeader`.
 * The loader first checks the `AbiHeader` (magic string and abi_stable
 * version), runs the C-ABI tests and installs its process globals into the
 * library, then checks the library's version number, then the layout of the
 * root module, and only then constructs the root module, exactly once.
 *
 * What the loader links in but this model cannot see (the layout checker,
 * version-string parsing, the C-ABI tests, `AbiHeader::VALUE`) is carried by
 * a `Host` value and by the `Globals` object it points to.
 */
module LibHeaders {
  import opened Wrappers

  newtype u32 = x: int | 0 <= x < 0x1_0000_0000

  /** The fixed 32-byte magic string that identifies an abi_stable library. */
  type MagicString = s: seq<bv8> | |s| == 32 witness seq(32, _ => 0 as bv8)

  /** The abi_stable version a library was compiled with. */
  datatype AbiHeader = AbiHeader(magicString: MagicString, abiMajor: u32, abiMinor: u32)

  // ---------------------------------------------------------------------------
  // The abi_stable version rule

  /** `AbiHeader::is_compatible`: same magic string, same major, and before
      1.0 also the same minor. Equivalently: the same magic string and the
      same epoch. */
  predicate IsCompatible(h: AbiHeader, other: AbiHeader)
    ensures IsCompatible(h, other) <==> h.magicString == other.magicString && AbiEpoch(h) == AbiEpoch(other)
  {
    && h.magicString == other.magicString
    && h.abiMajor == other.abiMajor
    && (h.abiMajor != 0 || h.abiMinor == other.abiMinor)
  }

  /** `AbiHeader::is_valid`: compatible with `value`, the `AbiHeader::VALUE`
      compiled into the binary that does the check. The verdict is the same
      whichever of the two binaries does the checking. */
  predicate IsValid(h: AbiHeader, value: AbiHeader)
    ensures IsValid(h, value) <==> IsCompatible(value, h)
  {
    IsCompatible(h, value)
  }

  /** The part of an abi_stable version that two binaries must share:
      only the major from 1.0 on, the major together with the minor before. */
  function AbiEpoch(h: AbiHeader): (u32, u32)
  {
    if h.abiMajor == 0 then (0, h.abiMinor) else (h.abiMajor, 0)
  }

  /** Header compatibility is an equivalence relation. Dafny derives it
      from the epoch form in the contract of `IsCompatible`. */
  lemma AbiCompatibilityIsEquivalence(a: AbiHeader, b: AbiHeader, c: AbiHeader)
    ensures IsCompatible(a, a)
    ensures IsCompatible(a, b) ==> IsCompatible(b, a)
    ensures IsCompatible(a, b) && IsCompatible(b, c) ==> IsCompatible(a, c)
  {
  }

  /** Before 1.0 a header whose minor differs from the loader's is rejected,
      whichever of the two is newer. */
  lemma AbiMinorMustMatchBeforeOne(h: AbiHeader, value: AbiHeader)
    requires h.magicString == value.magicString && h.abiMajor == value.abiMajor == 0
    ensures IsValid(h, value) <==> h.abiMinor == value.abiMinor
  {
  }

  // ---------------------------------------------------------------------------
  // The library version rule

  /** A parsed `major.minor.patch` version number (`VersionNumber`). */
  datatype VersionNumber = VersionNumber(major: u32, minor: u32, patch: u32)

  /** The unparsed version string a library reports (`VersionStrings`). */
  datatype VersionStrings = VersionStrings(version: string)

  /** What `VersionNumber::new` reports for a string it cannot parse. */
  datatype ParseVersionError = InvalidVersionString(versionStrings: VersionStrings)

  /** The reference rule: a library at `actual` may stand in for the `expected`
      version when it has the same major and, before 1.0, a minor that is
      not older. A library is never accepted across majors, and always at
      exactly the expected version. */
  predicate VersionAccepted(expected: VersionNumber, actual: VersionNumber)
    ensures VersionAccepted(expected, actual) ==> actual.major == expected.major
    ensures expected == actual ==> VersionAccepted(expected, actual)
  {
    if expected.major == 0 then actual.major == 0 && expected.minor <= actual.minor
    else actual.major == expected.major
  }

  /** A library that accepts a version accepted by an older requirement
      also satisfies that older requirement. */
  lemma VersionAcceptedTransitive(a: VersionNumber, b: VersionNumber, c: VersionNumber)
    requires VersionAccepted(a, b) && VersionAccepted(b, c)
    ensures VersionAccepted(a, c)
  {
  }

  /** From 1.0 on, the minor and the patch do not matter at all: a library
      with an older minor is still accepted. */
  lemma VersionMinorIgnoredFromOne(expected: VersionNumber, actual: VersionNumber)
    requires expected.major != 0
    ensures VersionAccepted(expected, actual) <==> expected.major == actual.major
  {
  }

  // ---------------------------------------------------------------------------
  // Entities of the handshake

  /** An opaque reference to a type-layout description (`&'static TypeLayout`). */
  datatype TypeLayout = TypeLayout(address: nat)

  /** The report the layout checker gives when two layouts disagree
      (`AbiInstabilityErrors`), opaque here. */
  datatype AbiInstabilityErrors = AbiInstabilityErrors(report: string)

  /** Whether the library ships the layout of its root module
      (`IsLayoutChecked`). `No` means the author opted out of the check. */
  datatype IsLayoutChecked = Yes(layout: TypeLayout) | No

  /** The C-ABI testing functions the library exports, opaque here. */
  datatype CAbiTestingFns = CAbiTestingFns(address: nat)

  /** The constants of the library's root module (`ErasedRootModuleConsts`). */
  datatype RootModuleConsts = RootModuleConsts(
    versionStrings: VersionStrings,
    layout: IsLayoutChecked,
    cAbiTestingFns: CAbiTestingFns)

  /** What the loader knows of the root module type `M` it expects:
      `M::NAME`, `M::VERSION_STRINGS` and `M::LAYOUT`. */
  datatype RootModule = RootModule(name: string, versionStrings: VersionStrings, layout: TypeLayout)

  /** A pointer to the root module's function table (`PrefixRef<ErasedPrefix>`). */
  datatype PrefixRef = PrefixRef(address: nat)

  /** The function that builds the root module. `AbortingConstructor` is the
      placeholder `from_module` stores, which aborts the process if called. */
  datatype Constructor = Constructor(produces: PrefixRef) | AbortingConstructor

  /** The errors of the handshake (`LibraryError`). */
  datatype LibraryError =
    | ParseVersionError(parseError: ParseVersionError)
    | IncompatibleVersionNumber(libraryName: string, expectedVersion: VersionNumber, actualVersion: VersionNumber)
    | AbiInstability(errors: AbiInstabilityErrors)
    | InvalidAbiHeader(header: AbiHeader)
    | InvalidCAbi(details: string)

  /** The process-wide layout checker: compares the expected layout with the
      one the library carries. */
  type LayoutChecker = (TypeLayout, TypeLayout) -> Result<(), AbiInstabilityErrors>

  /** The process-wide globals (`Globals`): set up once and shared, by
      reference, with every library the process loads. */
  class Globals {
    const layoutChecking: LayoutChecker

    constructor (layoutChecking: LayoutChecker)
      ensures this.layoutChecking == layoutChecking
    {
      this.layoutChecking := layoutChecking;
    }
  }

  /** The loading binary: its own `AbiHeader::VALUE`, what
      `globals::initialized_globals()` returns in it, and the bodies this
      model does not see (`c_abi_testing::run_tests`, `VersionNumber::new`). */
  datatype Host = Host(
    abiHeader: AbiHeader,
    globals: Globals,
    runCAbiTests: CAbiTestingFns -> Result<(), LibraryError>,
    parseVersion: VersionStrings -> Result<VersionNumber, ParseVersionError>)

  /** The observable steps of a handshake, in the order they happen to one
      library. */
  datatype Event =
    | RanCAbiTests
    | InstalledGlobals(globals: Globals)
    | ConsultedLayoutChecker
    | RanConstructor

  /** `e` occurs at most once in `trace`. */
  ghost predicate AtMostOnce(trace: seq<Event>, e: Event)
  {
    forall i, j :: 0 <= i < j < |trace| && trace[i] == e ==> trace[j] != e
  }

  // ---------------------------------------------------------------------------
  // The library header

  /** `LibHeader`: the header a dynamic library exports. `rootModule` is the
      write-once cell (`LateStaticRef`) that holds the root module once it is
      built; `libraryGlobals` is the library's write-once cell for the loader's
      globals, filled by `init_globals_with`; `trace` records what the handshake did. */
  class LibHeader {
    const header: AbiHeader
    const rootModConsts: RootModuleConsts
    const moduleConstructor: Constructor
    var rootModule: Option<PrefixRef>
    var libraryGlobals: Option<Globals>
    ghost var trace: seq<Event>

    /** The cell is set once and for all; the constructor runs at most once,
        only while the cell was empty, and what it produced is in the cell;
        an empty cell always has a real constructor to fill it. */
    ghost predicate Valid()
      reads this
    {
      && (rootModule.None? ==> moduleConstructor.Constructor? && RanConstructor !in trace)
      && AtMostOnce(trace, RanConstructor)
      && (RanConstructor in trace ==> moduleConstructor.Constructor? && rootModule == Some(moduleConstructor.produces))
    }

    /** `LibHeader::from_constructor`: the header `export_root_module`
        builds, with an empty cell and the library's root-module loader. The
        aborting placeholder is private to the header, so callers never pass
        it here. */
    constructor FromConstructor(abiHeader: AbiHeader, ctor: Constructor, consts: RootModuleConsts)
      requires ctor.Constructor?
      ensures Valid()
      ensures header == abiHeader && rootModConsts == consts && moduleConstructor == ctor
      ensures rootModule == None && libraryGlobals == None && trace == []
    {
      header := abiHeader;
      rootModConsts := consts;
      moduleConstructor := ctor;
      rootModule := None;
      libraryGlobals := None;
      trace := [];
    }

    /** `LibHeader::from_module`: the header for a module that already
        exists. The cell starts filled, and the constructor is the aborting
        placeholder, which therefore can never run. */
    constructor FromModule(abiHeader: AbiHeader, value: PrefixRef, consts: RootModuleConsts)
      ensures Valid()
      ensures header == abiHeader && rootModConsts == consts && moduleConstructor == AbortingConstructor
      ensures rootModule == Some(value) && libraryGlobals == None && trace == []
    {
      header := abiHeader;
      rootModConsts := consts;
      moduleConstructor := AbortingConstructor;
      rootModule := Some(value);
      libraryGlobals := None;
      trace := [];
    }

    /** `LibHeader::layout`: the root module's layout, or `None` when the
        library opted out of the layout check. */
    function Layout(): (r: Option<TypeLayout>)
      ensures r.None? <==> rootModConsts.layout.No?
      ensures r.Some? ==> rootModConsts.layout == Yes(r.value)
    {
      match rootModConsts.layout
      case Yes(l) => Some(l)
      case No => None
    }

    /** `LibHeader::check_version`: parses the version the loader expects,
        then the library's, and compares them. */
    function CheckVersion(host: Host, m: RootModule): (r: Result<(), LibraryError>)
      ensures host.parseVersion(m.versionStrings).Failure? ==>
        r == Failure(ParseVersionError(host.parseVersion(m.versionStrings).error))
      ensures host.parseVersion(m.versionStrings).Success? && host.parseVersion(rootModConsts.versionStrings).Failure? ==>
        r == Failure(ParseVersionError(host.parseVersion(rootModConsts.versionStrings).error))
      ensures host.parseVersion(m.versionStrings).Success? && host.parseVersion(rootModConsts.versionStrings).Success? ==>
        var expected, actual := host.parseVersion(m.versionStrings).value, host.parseVersion(rootModConsts.versionStrings).value;
        && (r.Success? <==> VersionAccepted(expected, actual))
        && (r.Failure? ==> r.error == IncompatibleVersionNumber(m.name, expected, actual))
    {
      match host.parseVersion(m.versionStrings)
      case Failure(e) => Failure(ParseVersionError(e))
      case Success(expected) =>
        match host.parseVersion(rootModConsts.versionStrings)
        case Failure(e) => Failure(ParseVersionError(e))
        case Success(actual) =>
          if expected.major != actual.major || (expected.major == 0 && expected.minor > actual.minor) then
            Failure(IncompatibleVersionNumber(m.name, expected, actual))
          else
            Success(())
    }

    /** The error the layout check of `check_layout` reports, if any. The
        checker is consulted only when the library carries its layout. */
    ghost function LayoutError(host: Host, m: RootModule): Option<LibraryError>
    {
      match rootModConsts.layout
      case No => None
      case Yes(found) =>
        match host.globals.layoutChecking(m.layout, found)
        case Success(_) => None
        case Failure(e) => Some(AbiInstability(e))
    }

    /** The events of consulting the checker in `check_layout`. */
    ghost function LayoutCheckEvents(): seq<Event>
    {
      if rootModConsts.layout.Yes? then [ConsultedLayoutChecker] else []
    }

    /** The events of reading the cell: the constructor runs only if the
        cell was empty. */
    ghost function InitEvents(cell: Option<PrefixRef>): seq<Event>
    {
      if cell.None? then [RanConstructor] else []
    }

    /** `LateStaticRef::init` with the header's constructor: returns the
        cell's pointer, building it first if the cell is empty. */
    method InitModule() returns (p: PrefixRef)
      requires Valid()
      modifies this
      ensures Valid()
      ensures rootModule == Some(p)
      ensures old(rootModule).Some? ==> p == old(rootModule).value
      ensures old(rootModule).None? ==> p == moduleConstructor.produces
      ensures trace == old(trace) + InitEvents(old(rootModule))
      ensures libraryGlobals == old(libraryGlobals)
    {
      match rootModule
      case Some(q) =>
        p := q;
      case None =>
        p := moduleConstructor.produces;
        trace := trace + [RanConstructor];
        rootModule := Some(p);
    }

    /** `LibHeader::check_layout`: when the library carries its layout, the
        process-wide checker compares it with `M::LAYOUT` and a mismatch is
        an `AbiInstability` that leaves the cell untouched; otherwise the
        root module is taken from the cell, built on first use. */
    method CheckLayout(host: Host, m: RootModule) returns (r: Result<PrefixRef, LibraryError>)
      requires Valid()
      modifies this
      ensures Valid()
      ensures libraryGlobals == old(libraryGlobals)
      ensures LayoutError(host, m).Some? ==>
        && r == Failure(LayoutError(host, m).value)
        && rootModule == old(rootModule)
        && trace == old(trace) + LayoutCheckEvents()
      ensures LayoutError(host, m).None? ==>
        && rootModule.Some? && r == Success(rootModule.value)
        && (old(rootModule).Some? ==> rootModule == old(rootModule))
        && (old(rootModule).None? ==> rootModule == Some(moduleConstructor.produces))
        && trace == old(trace) + LayoutCheckEvents() + InitEvents(old(rootModule))
    {
      if rootModConsts.layout.Yes? {
        var outcome := host.globals.layoutChecking(m.layout, rootModConsts.layout.layout);
        trace := trace + [ConsultedLayoutChecker];
        if outcome.Failure? {
          return Failure(AbiInstability(outcome.error));
        }
      }
      var p := InitModule();
      r := Success(p);
    }

    /** `LibHeader::unchecked_layout`: the root module from the cell, built
        on first use, with no layout check at all. */
    method UncheckedLayout() returns (p: PrefixRef)
      requires Valid()
      modifies this
      ensures Valid()
      ensures rootModule == Some(p)
      ensures old(rootModule).Some? ==> p == old(rootModule).value
      ensures old(rootModule).None? ==> p == moduleConstructor.produces
      ensures trace == old(trace) + InitEvents(old(rootModule))
      ensures libraryGlobals == old(libraryGlobals)
    {
      p := InitModule();
    }

    /** `LibHeader::init_root_module`: the version check, then the layout
        check. A failed version check touches nothing. */
    method InitRootModule(host: Host, m: RootModule) returns (r: Result<PrefixRef, LibraryError>)
      requires Valid()
      modifies this
      ensures Valid()
      ensures CheckVersion(host, m).Failure? ==>
        r == Failure(CheckVersion(host, m).error) && unchanged(this)
      ensures CheckVersion(host, m).Success? && LayoutError(host, m).Some? ==>
        && r == Failure(LayoutError(host, m).value)
        && rootModule == old(rootModule) && libraryGlobals == old(libraryGlobals)
        && trace == old(trace) + LayoutCheckEvents()
      ensures CheckVersion(host, m).Success? && LayoutError(host, m).None? ==>
        && rootModule.Some? && r == Success(rootModule.value)
        && (old(rootModule).Some? ==> rootModule == old(rootModule))
        && (old(rootModule).None? ==> rootModule == Some(moduleConstructor.produces))
        && libraryGlobals == old(libraryGlobals)
        && trace == old(trace) + LayoutCheckEvents() + InitEvents(old(rootModule))
    {
      var version := CheckVersion(host, m);
      if version.Failure? {
        return Failure(version.error);
      }
      r := CheckLayout(host, m);
    }

    /** `LibHeader::init_root_module_with_unchecked_layout`: the version
        check, then the root module with no layout check. */
    method InitRootModuleWithUncheckedLayout(host: Host, m: RootModule) returns (r: Result<PrefixRef, LibraryError>)
      requires Valid()
      modifies this
      ensures Valid()
      ensures CheckVersion(host, m).Failure? ==>
        r == Failure(CheckVersion(host, m).error) && unchanged(this)
      ensures CheckVersion(host, m).Success? ==>
        && rootModule.Some? && r == Success(rootModule.value)
        && (old(rootModule).Some? ==> rootModule == old(rootModule))
        && (old(rootModule).None? ==> rootModule == Some(moduleConstructor.produces))
        && libraryGlobals == old(libraryGlobals)
        && trace == old(trace) + InitEvents(old(rootModule))
    {
      var version := CheckVersion(host, m);
      if version.Failure? {
        return Failure(version.error);
      }
      var p := UncheckedLayout();
      r := Success(p);
    }

    /** `AbiHeader::upgrade`, applied to the `AbiHeader` this header starts
        with: an invalid header is rejected before anything else; otherwise
        the C-ABI tests run, and only if they pass are the loader's globals
        installed into the library. The library keeps its globals in a
        write-once cell, so a second install leaves the first in place. */
    method Upgrade(host: Host) returns (r: Result<LibHeader, LibraryError>)
      requires Valid()
      modifies this
      ensures Valid()
      ensures rootModule == old(rootModule)
      ensures !IsValid(header, host.abiHeader) ==>
        r == Failure(InvalidAbiHeader(header)) && unchanged(this)
      ensures IsValid(header, host.abiHeader) && host.runCAbiTests(rootModConsts.cAbiTestingFns).Failure? ==>
        && r == Failure(host.runCAbiTests(rootModConsts.cAbiTestingFns).error)
        && libraryGlobals == old(libraryGlobals)
        && trace == old(trace) + [RanCAbiTests]
      ensures IsValid(header, host.abiHeader) && host.runCAbiTests(rootModConsts.cAbiTestingFns).Success? ==>
        && r == Success(this)
        && libraryGlobals == (if old(libraryGlobals).None? then Some(host.globals) else old(libraryGlobals))
        && trace == old(trace) + [RanCAbiTests, InstalledGlobals(host.globals)]
    {
      if !IsValid(header, host.abiHeader) {
        return Failure(InvalidAbiHeader(header));
      }
      var tests := host.runCAbiTests(rootModConsts.cAbiTestingFns);
      trace := trace + [RanCAbiTests];
      if tests.Failure? {
        return Failure(tests.error);
      }
      if libraryGlobals.None? {
        libraryGlobals := Some(host.globals);
      }
      trace := trace + [InstalledGlobals(host.globals)];
      r := Success(this);
    }
  }

  /** A loader's whole handshake with a freshly exported header: `upgrade`,
      then `init_root_module`. On success the steps ran in the order header,
      C-ABI tests, globals, version, layout, construction, and the layout
      checker consulted is the one installed into the library. */
  method Load(lib: LibHeader, host: Host, m: RootModule) returns (r: Result<PrefixRef, LibraryError>)
    requires lib.Valid() && lib.rootModule.None? && lib.libraryGlobals.None? && lib.trace == []
    modifies lib
    ensures lib.Valid()
    ensures r.Success? ==>
      && IsValid(lib.header, host.abiHeader)
      && lib.CheckVersion(host, m).Success?
      && lib.LayoutError(host, m).None?
      && lib.libraryGlobals == Some(host.globals)
      && lib.rootModule == Some(lib.moduleConstructor.produces) && r.value == lib.moduleConstructor.produces
      && lib.trace == [RanCAbiTests, InstalledGlobals(host.globals)] + lib.LayoutCheckEvents() + [RanConstructor]
    ensures r.Failure? ==> lib.rootModule.None? && RanConstructor !in lib.trace
  {
    var upgraded := lib.Upgrade(host);
    if upgraded.Failure? {
      return Failure(upgraded.error);
    }
    r := lib.InitRootModule(host, m);
  }

  /** The two version rules differ before 1.0: a library whose minor is
      ahead of what the loader expects passes the version check (but not the
      other way round), while headers whose abi_stable minors differ fail the
      header check whichever side is ahead. */
  lemma HeaderAndVersionRulesDiffer(e: VersionNumber, a: VersionNumber, h: AbiHeader, v: AbiHeader)
    requires e.major == 0 && a.major == 0 && e.minor < a.minor
    requires h.magicString == v.magicString && h.abiMajor == v.abiMajor == 0 && v.abiMinor < h.abiMinor
    ensures VersionAccepted(e, a) && !VersionAccepted(a, e)
    ensures !IsValid(h, v) && !IsValid(v, h)
  {
  }
}
