# abi_stable: library loading handshake and the text-operations example, in Dafny

This project models two parts of the `abi_stable` Rust crate and proves
properties of them.

- **`LibHeader` / `AbiHeader`** (`lib_header.dfy`, module `LibHeaders`). A
  dynamic library built with abi_stable exports a `LibHeader` that starts with
  an `AbiHeader`. The loader then goes through a fixed series of gates:
  1. It checks the header: the magic string and the abi_stable version.
  2. It runs the C-ABI tests and installs its process globals into the library.
  3. It checks the library's version number against the one it expects.
  4. If the library ships the layout of its root module, it has the
     process-wide layout checker compare it with the expected layout.
  5. Only then does it read the write-once cell (`LateStaticRef`) that holds
     the root module, running the library's constructor if the cell is empty.

  `LibHeader` is a class. Its cell and its copy of the globals are mutable
  fields. A ghost trace records which of these steps ran, and in what order.
  The loader's environment is a `Host` value. It holds `AbiHeader::VALUE`,
  the initialised globals (whose `layoutChecking` is the layout checker), the
  C-ABI tests and version-string parsing.
- **The text-operations implementation crate** (`text_ops.dfy`, module
  `TextOps`). `TextOperationState` counts the bytes it has processed. Two
  string operations update that counter:
  - `reverse_lines` writes the lines in reverse order, each followed by '\n';
  - `remove_words` drops listed words and the separator run after each
    dropped word.

  `run_command_inner` interprets `Command`s, including nested batches,
  threading the state through. The static `INITIAL_PROCESSED_BYTES` is a
  class `TextOpsStatics` whose `New` starts a state from it. Each imperative
  loop is proved against pure reference functions: `Lines`, `Reversed`,
  `JoinLines`, `Runs` (maximal runs, which is `split_while`), `Deleted`,
  `KeptRuns`, and `Run`/`RunAll`. The properties of the loops are then
  lemmas about those functions.

`wrappers.dfy` holds the `Option` and `Result` types.

## Model

| member | source | states |
|---|---|---|
| LibHeaders.IsCompatible | abi_stable/src/library/lib_header.rs:317-321 | `is_compatible` holds iff the magic strings are equal and the headers share an epoch: the major from 1.0 on, the major and minor before 1.0 |
| LibHeaders.IsValid | abi_stable/src/library/lib_header.rs:325-327 | `is_valid` against the loader's header holds iff the loader's header is compatible with the library's, so the verdict does not depend on which side checks |
| LibHeaders.AbiCompatibilityIsEquivalence | abi_stable/src/library/lib_header.rs:317-321 | `is_compatible` is reflexive, symmetric and transitive |
| LibHeaders.AbiMinorMustMatchBeforeOne | abi_stable/src/library/lib_header.rs:320-327 | at abi major 0, `is_valid` holds iff the minor equals the loader's minor, whether the library's minor is older or newer |
| LibHeaders.VersionAccepted | abi_stable/src/library/lib_header.rs:86-87 | the reference rule for library versions never accepts a different major, and always accepts exactly the expected version |
| LibHeaders.VersionAcceptedTransitive | abi_stable/src/library/lib_header.rs:86-87 | the library-version rule is transitive |
| LibHeaders.VersionMinorIgnoredFromOne | abi_stable/src/library/lib_header.rs:86-87 | from major 1 on, only the major decides acceptance; an older minor is accepted |
| LibHeaders.HeaderAndVersionRulesDiffer | abi_stable/src/library/lib_header.rs:86-87 | for every pair of 0.x versions with different minors, the library version check (86-87) accepts the newer library but not the older one, while the header check (line 320) rejects headers whose abi_stable minors differ, whichever side is newer |
| LibHeaders.LibHeader.FromConstructor | abi_stable/src/library/lib_header.rs:22-34 | a new header has the given header, constants and real constructor, an empty cell, no globals, and nothing has run |
| LibHeaders.LibHeader.FromModule | abi_stable/src/library/lib_header.rs:37-51 | the cell starts holding the given module and the constructor is the aborting placeholder; the invariant then rules out that it ever runs |
| LibHeaders.LibHeader.Layout | abi_stable/src/library/lib_header.rs:68-70 | `None` iff the library opted out of the layout constant; otherwise it is the layout the constants carry |
| LibHeaders.LibHeader.CheckVersion | abi_stable/src/library/lib_header.rs:77-96 | the expected version's parse error comes first, then the library's; when both parse, the check succeeds iff the reference rule accepts the pair, and otherwise fails with `IncompatibleVersionNumber` carrying the name and both versions |
| LibHeaders.LibHeader.InitModule | abi_stable/src/library/lib_header.rs:217-220 | returns the cell's pointer; an empty cell is filled with what the constructor produces, which runs exactly then; a full cell is returned unchanged and nothing runs |
| LibHeaders.LibHeader.CheckLayout | abi_stable/src/library/lib_header.rs:190-222 | the checker is consulted iff the layout is present; a reported mismatch is `AbiInstability` and leaves the cell as it was; otherwise the module comes from the write-once cell |
| LibHeaders.LibHeader.UncheckedLayout | abi_stable/src/library/lib_header.rs:237-244 | the module comes from the write-once cell without consulting the checker |
| LibHeaders.LibHeader.InitRootModule | abi_stable/src/library/lib_header.rs:134-140 | a failed version check returns its error and changes nothing, so neither the checker nor the constructor runs; otherwise it behaves as `CheckLayout` |
| LibHeaders.LibHeader.InitRootModuleWithUncheckedLayout | abi_stable/src/library/lib_header.rs:176-184 | a failed version check returns its error and changes nothing; otherwise it returns the cell's module with no layout check |
| LibHeaders.LibHeader.Upgrade | abi_stable/src/library/lib_header.rs:343-360 | an invalid header gives `InvalidAbiHeader` of that header and changes nothing; a failed C-ABI test returns its error and installs no globals; otherwise the loader's globals are installed into the library's write-once globals cell after the tests, and the header is returned |
| LibHeaders.Load | abi_stable/src/library/lib_header.rs:134-140 | the model's own composition of `upgrade` (343-360) followed by `init_root_module` (134-140), since the loader that performs it is not part of this model; on a fresh header, success means every gate passed, in the order header, tests, globals, layout check, then the one constructor run; on failure the constructor never ran |
| TextOps.AddBytes | examples/0_modules_and_interface_types/impl/src/lib.rs:208 | the counter update `+= n as u64` gives the exact sum when it fits in 64 bits, and is always congruent to it modulo 2^64 |
| TextOps.AddBytesAssociative | examples/0_modules_and_interface_types/impl/src/lib.rs:208 | two wrapping additions to the u64 counter equal one wrapping addition of their sum |
| TextOps.ByteLen | examples/0_modules_and_interface_types/impl/src/lib.rs:208 | `str::len`: a string takes between one and four UTF-8 bytes per character |
| TextOps.ByteLenAppend | examples/0_modules_and_interface_types/impl/src/lib.rs:208 | the UTF-8 byte length (`str::len`) of a concatenation is the sum of the lengths |
| TextOps.Lines | examples/0_modules_and_interface_types/impl/src/lib.rs:210 | no line returned by `str::lines` contains a '\n' |
| TextOps.Reversed | examples/0_modules_and_interface_types/impl/src/lib.rs:211 | the reversal has the same length, and element k is element n-1-k of the input |
| TextOps.LinesOfJoinLines | examples/0_modules_and_interface_types/impl/src/lib.rs:212-216 | splitting lines joined by '\n' gives back the lines, when none holds a '\n' |
| TextOps.JoinLinesOfLines | examples/0_modules_and_interface_types/impl/src/lib.rs:210-216 | joining the lines of a text gives back the text, with a final '\n' added if it lacked one |
| TextOps.ReverseLinesOutputLines | examples/0_modules_and_interface_types/impl/src/lib.rs:210-216 | the lines of `reverse_lines`' output are the input's lines in reverse order |
| TextOps.ReverseLinesTwice | examples/0_modules_and_interface_types/impl/src/lib.rs:210-216 | `reverse_lines` applied twice restores the text, up to a final '\n' |
| TextOps.ReverseLinesLength | examples/0_modules_and_interface_types/impl/src/lib.rs:210-216 | the output length is the sum of the line lengths plus the number of lines |
| TextOps.Runs | examples/0_modules_and_interface_types/impl/src/lib.rs:238 | the runs of `split_while`, put back together, are the string |
| TextOps.RunLength | examples/0_modules_and_interface_types/impl/src/lib.rs:238 | the first run of a non-empty string is non-empty, uniform under the predicate, and maximal |
| TextOps.RunsWellFormed | examples/0_modules_and_interface_types/impl/src/lib.rs:238 | every run is non-empty and uniform with its key; neighbouring runs have different keys; the first key is the predicate on the first character |
| TextOps.RunsUnique | examples/0_modules_and_interface_types/impl/src/lib.rs:238 | any cut into non-empty, uniform, alternating runs is the one `split_while` makes |
| TextOps.WordSet | examples/0_modules_and_interface_types/impl/src/lib.rs:230-233 | a string is in the set iff it is one of the listed words |
| TextOps.DeletedIffAfterListedWord | examples/0_modules_and_interface_types/impl/src/lib.rs:242 | on any sequence of runs, the single pass drops a run iff it is a listed word or follows one with only non-word runs in between |
| TextOps.DeletedIffListed | examples/0_modules_and_interface_types/impl/src/lib.rs:236-247 | a word run is dropped iff it is listed; a separator run is dropped iff the run before it is a listed word |
| TextOps.RemoveNoWords | examples/0_modules_and_interface_types/impl/src/lib.rs:236-249 | with no words listed, the output is the input |
| TextOps.RemoveWordsShrinks | examples/0_modules_and_interface_types/impl/src/lib.rs:243-245 | the output is never longer than the input, in characters or in bytes |
| TextOps.KeptRunsShape | examples/0_modules_and_interface_types/impl/src/lib.rs:236-247 | every kept run is a run of the input, no kept word is listed, and the kept runs still alternate |
| TextOps.KeptRunsInOrder | examples/0_modules_and_interface_types/impl/src/lib.rs:236-247 | the kept runs are exactly the runs that are not dropped, in their original order: kept run k is input run idx[k], the indices strictly increase, and every run that is not dropped is among them |
| TextOps.RunsOfRemoveWords | examples/0_modules_and_interface_types/impl/src/lib.rs:236-249 | the output's own runs are exactly the kept runs |
| TextOps.NoListedWordRemains | examples/0_modules_and_interface_types/impl/src/lib.rs:236-249 | no word run of the output is a listed word |
| TextOps.RemoveWordsIdempotent | examples/0_modules_and_interface_types/impl/src/lib.rs:236-249 | removing the same words a second time changes nothing |
| TextOps.Run | examples/0_modules_and_interface_types/impl/src/lib.rs:265-295 | the reference interpreter: the return value has its command's variant, and a batch returns one matching value per command |
| TextOps.RunAll | examples/0_modules_and_interface_types/impl/src/lib.rs:289-293 | a batch runs left to right, each command on the counter the previous one left, and yields as many results as commands, each matching its command |
| TextOps.RunCounts | examples/0_modules_and_interface_types/impl/src/lib.rs:265-295 | a command adds to the counter (wrapping) the byte length of every string it processes, batches included; `GetProcessedBytes` adds nothing |
| TextOps.RunAllCounts | examples/0_modules_and_interface_types/impl/src/lib.rs:289-293 | a batch adds the bytes of all its commands |
| TextOps.RunAllAppend | examples/0_modules_and_interface_types/impl/src/lib.rs:289-293 | running `a + b` left to right is running `a`, then `b` on the counter `a` left, with the results concatenated |
| TextOps.TextOperationState.constructor | examples/0_modules_and_interface_types/impl/src/lib.rs:69-72 | the state holds the given counter |
| TextOps.TextOperationState.GetProcessedBytes | examples/0_modules_and_interface_types/impl/src/lib.rs:255-258 | returns the counter and modifies nothing |
| TextOps.TextOperationState.ReverseLines | examples/0_modules_and_interface_types/impl/src/lib.rs:205-218 | the counter grows by the text's byte length (wrapping), and the output is the reversed lines, each followed by '\n' |
| TextOps.TextOperationState.RemoveWords | examples/0_modules_and_interface_types/impl/src/lib.rs:225-250 | the counter grows by the string's byte length (wrapping), and the output is the kept runs of the single pass, in order |
| TextOps.TextOperationState.RunCommandInner | examples/0_modules_and_interface_types/impl/src/lib.rs:265-295 | the new counter and the return value are those of the reference interpreter `Run`, so a batch runs left to right on the shared state |
| TextOps.TextOpsStatics.constructor | examples/0_modules_and_interface_types/impl/src/lib.rs:191 | the static starts at 0, with nothing stored |
| TextOps.TextOpsStatics.SetInitialProcessedBytes | examples/0_modules_and_interface_types/impl/src/lib.rs:261-263 | records the stored value; the static holds the last value stored |
| TextOps.TextOpsStatics.New | examples/0_modules_and_interface_types/impl/src/lib.rs:196-201 | a fresh state whose counter is the last value passed to `set_initial_processed_bytes`, or 0 if there was none |

`ReverseLinesText`, `RemoveWordsText`, `KeptRuns` and `KeptIndices` are the
pure definitions that specify the operations' outputs. They carry no contract
of their own. Their properties are the lemmas above: `ReverseLinesOutputLines`,
`ReverseLinesTwice` and `ReverseLinesLength` for `reverse_lines`, and
`DeletedIffListed`, `KeptRunsInOrder`, `RunsOfRemoveWords`, `RemoveNoWords`,
`RemoveWordsShrinks` and `RemoveWordsIdempotent` for `remove_words`.
`Deleted` is the flag `is_deleted` of the single pass. Its characterisation is
`DeletedIffAfterListedWord`.

## Left out

- Oracles. These are parameters of `Host` and `Globals`, and their bodies are not part of this model:
  - the layout-compatibility checker (`abi_checking`);
  - `c_abi_testing::run_tests`;
  - `VersionNumber::new`;
  - `AbiHeader::VALUE` (macro-generated);
  - `globals::initialized_globals`.
- Unsafe operations are not modelled:
  - `transmute_reference`, `PrefixRef::cast` and `M::from_prefix_ref` are represented only by the module pointer being returned after the checks;
  - the memory-ordering effect of `compiler_fence` is not represented.
- `to_formatted_error`: the model carries the checker's error report unchanged inside `AbiInstability`.
- LibHeaders.LibHeader.Upgrade: the body of `initialize_globals_with` (the function `init_globals_with` points to) is not part of this model. The install is modelled as a write into a write-once cell: a library that already has globals keeps them.
- `root_mod_consts`, `version_strings` and `initialize_library_globals` are folded into their callers as field reads and the installing step of `Upgrade`.
- The aborting constructor of `from_module` is modelled as a placeholder that the class invariant proves is never called. Its panic-and-abort is not modelled.
- `FromConstructor` requires a real constructor. The aborting one is private to the header.
- Concurrency of `LateStaticRef` and of the atomic `INITIAL_PROCESSED_BYTES` is not modelled: both are plain fields, and the load and store orderings are ignored.
- The counter does not model a debug-build overflow panic. `processed_bytes += … as u64` is modelled with release-build wrap-around at 2^64.
- `Lines`: does not strip a '\r' before a '\n' as `str::lines` does. Lines are split on '\n' only, and one trailing empty line is dropped.
- `char::is_alphabetic` is a parameter, because Unicode's alphabetic property is not modelled.
- `TextOps.TextOperationState.ReverseLines`: `Vec::reverse` is modelled on values (`Reversed`), not in place.
- `HashSet` is a Dafny `set`. The `RCow`/`Cow` conversions of the words are identity.
- `str::len` is the UTF-8 length of the string's code points (`ByteLen`). Strings are sequences of Unicode scalar values.
- Not modelled:
  - serde JSON (de)serialisation: `serialize_json`, `deserialize_json` and the `deserialize_*` functions;
  - `DynTrait` boxing and downcasting, and the `RArc`/`RBox` wrappers;
  - `run_command`, which is only a downcast around `run_command_inner`;
  - `instantiate_root_module`, which just lists the functions.
- `abi_stable/src/external_types/crossbeam_channel/iteration.rs` (a blocking channel receive), `abi_stable/src/abi_stability.rs` (re-exports) and the compile-fail UI tests are not part of this model.
