# Verification of the launcher's Python test-proof observers

The launcher observes one selected test through four Python files: a stestr
worker observer, an installed pytest entry, the diagnostic graph both of them
share, and the source binding that moves imports from an original checkout to a
candidate. This project models what these files compute and proves what they
promise. `dafny verify dfyconfig.toml` checks all of it.

* **Instrumentation** (`PyAst`, `PyEval`, `Instrumentation`, `InstrumentationMeaning`,
  `ReachName`, `Shadowing`, `Directive`, `ScalarFault`). A reference interpreter for a fragment of Python
  gives modules a meaning; the probe transformer, an in-place visitor, is shown to
  preserve it for every fuel, and the two independent falsifiers to agree. `fuel`
  bounds call depth and loop iterations only and every statement holds for all of
  it, so diverging programs are covered prefix by prefix.
* **Diagnostic graph** (`PyHeap`, `ValueEncoding`, `ValueRoundTrip`, `ValueFields`,
  `ErrorEncoding`, `ErrorGraph`, `DiagnosticGraph`, `Budget`, `ErrorCodes`). Values and exceptions are
  objects of a possibly cyclic heap. The specification functions say what one call
  appends; the class is the encoder; the theorems relate the tables to the heap.
* **Source binding** (`Paths`, `SourceBinding`, `Finders`, `Bind`). `realpath` is an
  arbitrary function to component sequences and finders are arbitrary functions, so
  the guarantees hold for every layout of links, roots and finder chains.
* **Channel and protocol** (`Json`, `JsonRoundTrip`, `Channel`, `Tracer`, `Recording`,
  `Observer`). Threads are a step relation with short and failing writes; trace events
  and test scripts are arbitrary streams.

SHA-256, the Python parser, JSON decoding of directives, file system queries,
serialized sizes and `str` of constants are function parameters.

What turned out not to hold without a condition is stated with its exact condition
and an input on which it fails:

* a docstring-only function loses `__doc__` (`DocstringKept`);
* a module that binds the reach name, as a parameter or by assigning it, may not be
  preserved (`PreservedExactly`, `ShadowingBreaksMeaning`, `AssigningBreaksMeaning`);
* the transformer substitutes functions the falsifier refuses (`AgreementExactly`,
  `InstrumentationAcceptsMore`);
* a write that fails after part of a line glues the next record to it
  (`FramingSurvivesFailuresExactly`, `TornLineGlues`);
* a generated finder with local NAMESPACES but no local MAPPING entry keeps them
  (`NamespaceLeftBehindExactly`, `NamespaceLeftBehind`); what it then finds, the guard
  maps or refuses, subject to the next point;
* the guard answers None for a spec it maps to a file without a known suffix, and the
  finders behind it then import the original; and an empty search list is completed
  with the mapped file's directory, which may link back to the original
  (`InstalledChainLeaksExactly`, `SuffixlessSourceLeaks`, `LinkedPackageLeaks`);
* the three prefix tests differ at `/` (`PrefixTestsAtRoot`);
* collection is deduplicated by id but reported by class and method name, and another
  test's start is reported under its own such name, so one name can be reported twice
  and the selected test's bracket can be left open (`CollectedOnceExactly`,
  `SessionProtocol`, `SameTestCollectedTwice`, `NamesakeLeavesBracketOpen`).

## Model

| member | source | states |
|---|---|---|
| `Instrumentation.ModuleInstrumentation.Probe` | packages/agent-launch-cli/src/lib/test-execution/observers/stestr_observer.py:94-108 | the visitor's probe step inserts the token call after a docstring that does not stand alone, otherwise first, or records the name of a function without a string token |
| `Instrumentation.KeyReadsBack` | packages/agent-launch-cli/src/lib/test-execution/observers/stestr_observer.py:94-96 | a probe key, read up to its first colon, gives back the line, and after it the name |
| `Instrumentation.ProbeInPlace` | packages/agent-launch-cli/src/lib/test-execution/observers/stestr_observer.py:99-108 | every function with a token, async or not, gets its probe first, or second after a docstring that has company, and is otherwise only visited |
| `PyAst.NodesAre` | packages/agent-launch-cli/src/lib/test-execution/observers/stestr_observer.py:106-119 | the two node tests accept exactly bare string statements and returns of a constant |
| `Instrumentation.ModuleInstrumentation.SubstituteScalar` | packages/agent-launch-cli/src/lib/test-execution/observers/stestr_observer.py:112-120 | the declared top-level synchronous function whose only non-string statement is a constant return gets the replacement, and `substituted` is set exactly then |
| `Instrumentation.ModuleInstrumentation.VisitFunction` | packages/agent-launch-cli/src/lib/test-execution/observers/stestr_observer.py:110-122 | one function is visited body first, substituted only at top level, then probed; names without tokens are recorded innermost first |
| `Instrumentation.ModuleInstrumentation.VisitModule` | packages/agent-launch-cli/src/lib/test-execution/observers/stestr_observer.py:124-130 | the in-place visitor computes: substitute in the original module, then probe every function at every nesting; `unprobed` lists exactly the functions without a token and `substituted` holds exactly when some direct member was replaced |
| `Instrumentation.EraseInst` | packages/agent-launch-cli/src/lib/test-execution/observers/stestr_observer.py:85-136 | for every tree whose functions all have tokens, erasing the probes gives back the tree, at any nesting |
| `Instrumentation.MutateVisited` | packages/agent-launch-cli/src/lib/test-execution/observers/stestr_observer.py:110-122 | replacing the return in an already visited body is the same as visiting a replaced body |
| `Instrumentation.UntokenedIff` | packages/agent-launch-cli/src/lib/test-execution/observers/stestr_observer.py:176-177 | nothing is recorded as unprobed exactly when every function has a token |
| `InstrumentationMeaning.DocstringKept` | packages/agent-launch-cli/src/lib/test-execution/observers/stestr_observer.py:106-108 | the probe keeps a function's `__doc__` if and only if its body is not a docstring alone |
| `InstrumentationMeaning.InstKeepsLocals` | packages/agent-launch-cli/src/lib/test-execution/observers/stestr_observer.py:94-108 | instrumenting a function does not change which names are its locals |
| `InstrumentationMeaning.MutateKeepsLocals` | packages/agent-launch-cli/src/lib/test-execution/observers/stestr_observer.py:112-120 | neither does substituting its return |
| `InstrumentationMeaning.MeaningPreserved` | packages/agent-launch-cli/src/lib/test-execution/observers/stestr_observer.py:85-136 | for every module, interpreter primitive set and fuel: if every function has a token, either no body is a docstring alone or nothing reads `__doc__`, and the reach name means the builtin wherever the plain run enters a function, then the instrumented (and substituted) module ends as the plain one does, with the same frames up to instrumented functions, and with the plain trace in which each function entry is followed by its token |
| `InstrumentationMeaning.ResultsPreserved` | packages/agent-launch-cli/src/lib/test-execution/observers/stestr_observer.py:85-136 | under the same condition, without a substitution: every name that the original run leaves bound to a constant or class is bound to the same value, nothing else is bound, and the run ends, raises or diverges alike |
| `InstrumentationMeaning.ReachTraceIsEntries` | packages/agent-launch-cli/src/lib/test-execution/observers/stestr_observer.py:99-108 | under the same condition: the instrumented run enters the same functions in the same order and the observer receives exactly one token per entry, in that order, between whatever the module itself announces |
| `InstrumentationMeaning.ProbeRunsExactly` | packages/agent-launch-cli/src/lib/test-execution/observers/stestr_observer.py:99-105 | at a function entry, for any state and whatever the name is bound to, the probe announces its token and changes nothing else if and only if the reach name, looked up from there, is the builtin |
| `ReachName.PreservedExactly` | packages/agent-launch-cli/src/lib/test-execution/observers/stestr_observer.py:85-136 | of a module that does not itself read the reach name, the instrumented run is the picture of the plain run if and only if the name means the builtin wherever the plain run enters a function |
| `ReachName.PreservedIfUnbound` | packages/agent-launch-cli/src/lib/test-execution/observers/stestr_observer.py:85-136 | the preservation theorem under a condition read off the source: nothing in the module binds the reach name |
| `ReachName.UnboundReaches` | packages/agent-launch-cli/src/lib/test-execution/observers/stestr_observer.py:99-105 | if nothing in a module binds the reach name, it means the builtin at every function entry of every run |
| `Shadowing.ImitationHidesShadowing` | packages/agent-launch-cli/src/lib/test-execution/observers/stestr_observer.py:99-105 | a module that calls the reach name itself can make up for a failing probe, which is why the exact condition asks that it does not read the name |
| `Shadowing.ShadowingBreaksMeaning` | packages/agent-launch-cli/src/lib/test-execution/observers/stestr_observer.py:100-105 | an input on which meaning is lost: a function with a parameter of the reach name ends in a TypeError once instrumented |
| `Shadowing.AssigningBreaksMeaning` | packages/agent-launch-cli/src/lib/test-execution/observers/stestr_observer.py:100-105 | the other kind of input: a function that assigns the reach name makes it its local, so the probe at its start ends in an UnboundLocalError |
| `Directive.SplitSound` | packages/agent-launch-cli/src/lib/test-execution/observers/stestr_observer.py:139-149 | anything `split_directive` returns is a prefix of the data, of the recorded length, ending no later than the final marker line |
| `Directive.MarkerSpells` | packages/agent-launch-cli/src/lib/test-execution/observers/stestr_observer.py:57-57 | the marker is the byte string of the source |
| `Directive.DirectiveRoundTrip` | packages/agent-launch-cli/src/lib/test-execution/observers/stestr_observer.py:139-149 | for every original, also one with marker lines or without a final newline: a newline-free directive line that records the original's length is split off again exactly |
| `Directive.UnseparatedExactly` | packages/agent-launch-cli/src/lib/test-execution/observers/stestr_observer.py:139-149 | a directive line appended without a separating newline is found if and only if the original is empty or ends a line |
| `Directive.GetCode` | packages/agent-launch-cli/src/lib/test-execution/observers/stestr_observer.py:163-180 | the loader compiles exactly when the directive is found, the digest matches, the source parses, every function has a token and a declared return was found; what it compiles erases to the substituted source, and a refusal names what is wrong |
| `ScalarFault.Eligible` | packages/agent-launch-cli/src/lib/workspace_agent_test_proof_pytest.py:147-172 | an accepted function is the only definition of its name, synchronous, undecorated, its body is a constant return, optionally after one docstring, and the returned constant is a scalar other than the replacement |
| `ScalarFault.RefusedBecause` | packages/agent-launch-cli/src/lib/workspace_agent_test_proof_pytest.py:147-172 | why a function is refused, the first reason first: not unique, async, decorated, not a single return, not a scalar, not distinct |
| `ScalarFault.RefusedAsAbsent` | packages/agent-launch-cli/src/lib/workspace_agent_test_proof_pytest.py:148-152 | a name without a definition is refused as absent |
| `ScalarFault.FalsifiersAgree` | packages/agent-launch-cli/src/lib/workspace_agent_test_proof_pytest.py:147-172 | whenever the pytest falsifier accepts a function, the stestr transformer given its name, line and replacement also substitutes, makes the same tree, and its output erases to exactly that tree |
| `ScalarFault.AgreementExactly` | packages/agent-launch-cli/src/lib/workspace_agent_test_proof_pytest.py:147-172 | the converse, exactly: of the functions the transformer substitutes, the falsifier accepts those that are the only definition of their name, undecorated, with a body that is the return after at most one docstring, returning a scalar other than the replacement |
| `ScalarFault.FalsifiedRunsAgree` | packages/agent-launch-cli/src/lib/workspace_agent_test_proof_pytest.py:198-213 | where the reach name means the builtin at every entry: running the stestr-falsified module is running the pytest-falsified module, with each function entry followed by its token |
| `ScalarFault.OneConstantDiffers` | packages/agent-launch-cli/src/lib/workspace_agent_test_proof_pytest.py:209-213 | the falsified tree has the original's shape and its constants differ in exactly one place, where the original was not the replacement |
| `ScalarFault.InstrumentationAcceptsMore` | packages/agent-launch-cli/src/lib/test-execution/observers/stestr_observer.py:113-120 | an input where the agreement is one way: a decorated function is substituted by the transformer and refused by the falsifier |
| `ScalarFault.ScalarReturnFault.Prevalidate` | packages/agent-launch-cli/src/lib/workspace_agent_test_proof_pytest.py:174-196 | prevalidation succeeds exactly for a readable, parsable source with an eligible function and a scalar replacement, and then holds that source's digest, line and original value; otherwise the status names the first reason |
| `ScalarFault.ScalarReturnFault.CompileMutated` | packages/agent-launch-cli/src/lib/workspace_agent_test_proof_pytest.py:198-213 | after an accepted prevalidation the same source compiles to the falsified tree and counts one compilation; unless digests collide, the only refusal left is a moved source, which is compiled unchanged |
| `ValueEncoding.ScalarRoundTrip` | packages/agent-launch-cli/src/lib/workspace_agent_test_proof_diagnostic_graph.py:78-94 | every scalar, including integers beyond the safe range and non-finite floats, is read back unchanged |
| `ValueFields.NumbersAreSafe` | packages/agent-launch-cli/src/lib/workspace_agent_test_proof_diagnostic_graph.py:82-86 | integers are numbers exactly within 2 ** 53 - 1 of zero, and decimal text beyond |
| `ValueEncoding.EncodingFaithful` | packages/agent-launch-cli/src/lib/workspace_agent_test_proof_diagnostic_graph.py:69-115 | for every heap, cyclic or not, the entries decode from the returned id to a faithful reading of the source value (`FaithfulMeans` says what that is) |
| `ValueFields.FaithfulMeans` | packages/agent-launch-cli/src/lib/workspace_agent_test_proof_diagnostic_graph.py:78-114 | a reading is faithful if and only if it is marked lost under the value's own type, or is its own scalar, or an array of exactly its elements in order, or an object of exactly its string-keyed entries in order, each read faithfully in turn |
| `ValueFields.ContainersDecode` | packages/agent-launch-cli/src/lib/workspace_agent_test_proof_diagnostic_graph.py:95-107 | within the budget a list or tuple is an array entry that records its length and reads back to its elements at their indexes, a dictionary an object entry that reads back to its string-keyed entries |
| `ValueFields.UnfoldArray` | packages/agent-launch-cli/src/lib/workspace_agent_test_proof_diagnostic_graph.py:95-99 | the unfolding that the round trips recover has element i of a list or tuple at index i |
| `ValueFields.UnfoldDict` | packages/agent-launch-cli/src/lib/workspace_agent_test_proof_diagnostic_graph.py:100-107 | and each entry of a dictionary under its own key |
| `ValueFields.IssuesPointAtLosses` | packages/agent-launch-cli/src/lib/workspace_agent_test_proof_diagnostic_graph.py:69-115 | every issue's path leads, by elements and keys, from the encoded value to the unreadable value, the dictionary with a key that is no string, or the value at which the budget ran out |
| `ValueFields.UnreadableRecorded` | packages/agent-launch-cli/src/lib/workspace_agent_test_proof_diagnostic_graph.py:108-114 | there is one issue per entry marked unreadable |
| `ValueEncoding.SkippedKeysRecorded` | packages/agent-launch-cli/src/lib/workspace_agent_test_proof_diagnostic_graph.py:100-107 | the number of symbol-key issues is exactly the number of keys the decoded value leaves out |
| `ValueRoundTrip.ValueRoundTrips` | packages/agent-launch-cli/src/lib/workspace_agent_test_proof_diagnostic_graph.py:69-115 | if no reached entry is unavailable and no issue was added, decoding recovers the source value, at every unfolding depth |
| `ValueRoundTrip.NoIssueExactly` | packages/agent-launch-cli/src/lib/workspace_agent_test_proof_diagnostic_graph.py:69-115 | no issue is added if and only if the value is readable under string keys within the remaining depth and its entry count fits what is left of 4096 entries |
| `ValueRoundTrip.NoIssueRecovers` | packages/agent-launch-cli/src/lib/workspace_agent_test_proof_diagnostic_graph.py:69-115 | without an issue the table decodes to the full unfolding of the source, in which only values of unsupported types are marked lost |
| `ValueRoundTrip.SmallValuesRecovered` | packages/agent-launch-cli/src/lib/workspace_agent_test_proof_diagnostic_graph.py:69-115 | the round trip under a condition on the source value alone: readable, string-keyed, within the remaining depth and small enough for the remaining budget, it is recovered from the table up to its unsupported leaves |
| `ValueRoundTrip.EncodedWellFormed` | packages/agent-launch-cli/src/lib/workspace_agent_test_proof_diagnostic_graph.py:70-77 | entry k has id k, links lead forward inside what the call appended, and every entry at index 4096 or later is unavailable |
| `ValueRoundTrip.EntriesBounded` | packages/agent-launch-cli/src/lib/workspace_agent_test_proof_diagnostic_graph.py:69-115 | a call on a full table appends one entry; any other call, also on a container that holds itself, leaves at most 4096 + (levels left) * (widest container) entries |
| `ErrorGraph.ErrorProgress` | packages/agent-launch-cli/src/lib/workspace_agent_test_proof_diagnostic_graph.py:168-206 | one call leaves old entries alone, completes every entry it adds, and adds only exceptions reachable from its argument |
| `ErrorGraph.EncodingIsTheReachableGraph` | packages/agent-launch-cli/src/lib/workspace_agent_test_proof_diagnostic_graph.py:168-206 | for every finite exception graph, cyclic or not: the entries are exactly the exceptions reachable through cause, context that is not suppressed, and group members, once each, root first; entry i has id i, mirrors its exception's fields, has a cause link exactly if it was raised from one and then to that one, and member links exactly if it is a group; unreadable text and argument losses are admitted under a path that leads to it |
| `ErrorGraph.ArgumentsFaithful` | packages/agent-launch-cli/src/lib/workspace_agent_test_proof_diagnostic_graph.py:194-196 | each entry's value is absent exactly when there are no arguments, and otherwise reads the only argument, or the list of all of them, faithfully |
| `ErrorGraph.TableBounded` | packages/agent-launch-cli/src/lib/workspace_agent_test_proof_diagnostic_graph.py:194-196 | the value table of one graph has at most 4096 + 33 * (widest container) + (number of exceptions) entries, all past the first 4096 unavailable |
| `DiagnosticGraph.DiagnosticGraph.Value` | packages/agent-launch-cli/src/lib/workspace_agent_test_proof_diagnostic_graph.py:69-115 | the recursive in-place encoder appends exactly the entries and issues of the specification and returns the position of its first entry |
| `DiagnosticGraph.DiagnosticGraph.Error` | packages/agent-launch-cli/src/lib/workspace_agent_test_proof_diagnostic_graph.py:168-206 | the recursive in-place encoder terminates on cyclic graphs, reaches the specified state, keeps its id table in step and returns the exception's position |
| `Budget.Bound` | packages/agent-launch-cli/src/lib/workspace_agent_test_proof_diagnostic_graph.py:226-243 | the loops that build the reduced lists compute: the graph if it fits, else the graph without values if that fits, else the unavailable form |
| `Budget.BoundedKeepsRefs` | packages/agent-launch-cli/src/lib/workspace_agent_test_proof_diagnostic_graph.py:226-243 | whatever the serialized sizes are, the reduction keeps all id references closed |
| `Budget.BoundedKeepsCapture` | packages/agent-launch-cli/src/lib/workspace_agent_test_proof_diagnostic_graph.py:230-242 | a graph that stays captured keeps its root, origin and every entry but its value fields, and gains exactly one budget issue per removed field; the new issues name a field of an entry if and only if that field was there |
| `Budget.IssuesNameFields` | packages/agent-launch-cli/src/lib/workspace_agent_test_proof_diagnostic_graph.py:235-238 | the issues of the reduction name exactly the value fields the entries had |
| `Budget.LossesDistinct` | packages/agent-launch-cli/src/lib/workspace_agent_test_proof_diagnostic_graph.py:235-238 | no two of those issues name the same field of the same entry |
| `Budget.BoundedSettles` | packages/agent-launch-cli/src/lib/workspace_agent_test_proof_diagnostic_graph.py:226-243 | the result fits the ceiling or is the explicit unavailable form with the same origin, and reducing it again changes nothing |
| `Budget.BoundedExactly` | packages/agent-launch-cli/src/lib/workspace_agent_test_proof_diagnostic_graph.py:226-243 | a graph that fits is not touched; an oversized one stays captured if and only if it is captured, has values and fits without them; the origin is always kept |
| `Budget.UnavailableMeans` | packages/agent-launch-cli/src/lib/workspace_agent_test_proof_diagnostic_graph.py:216-223 | the unavailable form captures nothing, keeps the origin it is given and always has a reason |
| `Budget.ProjectedRefsClosed` | packages/agent-launch-cli/src/lib/workspace_agent_test_proof_diagnostic_graph.py:208-213 | every id mentioned in a graph read from a finite heap names one of its entries |
| `Budget.FailureDiagnostic` | packages/agent-launch-cli/src/lib/workspace_agent_test_proof_diagnostic_graph.py:246-255 | the diagnosis of an exception is the bounded projection of its reachable graph with the given origin; anything else, and a capture that raises, is explicitly unavailable; references are closed and the ceiling is kept |
| `ErrorCodes.ErrorCodes` | packages/agent-launch-cli/src/lib/workspace_agent_test_proof_pytest.py:110-128 | the two loops terminate on cyclic chains and compute the deduplicated phase code, names and string codes along the chain |
| `ErrorCodes.CodesAreOfChain` | packages/agent-launch-cli/src/lib/workspace_agent_test_proof_pytest.py:110-128 | a code is among the error codes if and only if it is the phase, or the name or string code of an exception reached by walking from each exception to the one it was raised from |
| `ErrorCodes.SuppressedContextEndsChain` | packages/agent-launch-cli/src/lib/workspace_agent_test_proof_pytest.py:119-122 | an exception with a suppressed context and no cause has no cause link and ends the chain of codes |
| `ErrorCodes.DedupKeepsFirsts` | packages/agent-launch-cli/src/lib/workspace_agent_test_proof_pytest.py:124-128 | deduplication keeps the same codes, each once, in the order of first occurrence |
| `ErrorCodes.CodesAgreeWithGraph` | packages/agent-launch-cli/src/lib/workspace_agent_test_proof_pytest.py:110-128 | the error codes equal those read off the diagnostic graph by following cause links from its root until an entry repeats, also after the reduction dropped the values |
| `Paths.PrefixTestsAgree` | packages/agent-launch-cli/src/lib/workspace_agent_test_proof_pytest.py:449-450 | for every canonical root but `/`, the three string prefix tests are the component prefix test (the one in `_relative` the proper one) |
| `Paths.PrefixTestsAtRoot` | packages/agent-launch-cli/src/lib/test-execution/python_source_binding.py:19-20 | at root `/` they part: the binding's test holds only of `/` itself, the other two of every file |
| `SourceBinding.LocalExactly` | packages/agent-launch-cli/src/lib/test-execution/python_source_binding.py:38-41 | a file is local if and only if its real path is under the original by components, and under neither the candidate nor an installation |
| `SourceBinding.MappedExactly` | packages/agent-launch-cli/src/lib/test-execution/python_source_binding.py:43-51 | a file that is not local stays; a local one is refused exactly when its counterpart really lies outside the candidate, or has to exist and does not; otherwise it becomes its counterpart |
| `SourceBinding.MappedIsProjection` | packages/agent-launch-cli/src/lib/test-execution/python_source_binding.py:38-51 | for any nesting of the roots and any links, a mapped path is never local and mapping it again changes nothing |
| `SourceBinding.MappedReplacesPrefix` | packages/agent-launch-cli/src/lib/test-execution/python_source_binding.py:46-51 | on local files the original's components are replaced by the candidate's |
| `SourceBinding.MappedInjective` | packages/agent-launch-cli/src/lib/test-execution/python_source_binding.py:46-51 | two local files that map to one path have the same real path |
| `SourceBinding.MapAllMaps` | packages/agent-launch-cli/src/lib/test-execution/python_source_binding.py:160-161 | a list of paths is mapped if and only if each of its entries can be, and then entry by entry |
| `Finders.GuardFindSpec` | packages/agent-launch-cli/src/lib/test-execution/python_source_binding.py:146-168 | the guard's loop over its finders refuses, finds nothing, or returns a spec that has no local origin or search location unless an empty search list was completed with a local directory |
| `Finders.FirstAnswers` | packages/agent-launch-cli/src/lib/test-execution/python_source_binding.py:147-152 | a chain of finders answers as its first finder that does not pass, and None only if all pass |
| `Finders.GuardAnswersByMapping` | packages/agent-launch-cli/src/lib/test-execution/python_source_binding.py:146-168 | where a guarded answer points: a local source spec has its origin where it maps to, its search locations mapped entry by entry or completed if empty, None only if it was None, and the loader of the mapped suffix; a spec with only local search locations keeps everything else; what cannot be mapped or is not plain source is refused |
| `Finders.LoaderForMeans` | packages/agent-launch-cli/src/lib/test-execution/python_source_binding.py:162-163 | importlib has a loader exactly for extension, source and bytecode suffixes, in that order |
| `Finders.GuardNeverResolvesToOriginal` | packages/agent-launch-cli/src/lib/test-execution/python_source_binding.py:145-170 | for every finder list and file system: what a guarded lookup yields is free of local paths if and only if it did not complete an empty search list with a local directory; it returns an already clean spec unchanged, passes on refusals and misses, and answers None for a found spec exactly when it maps it but importlib knows no loader for the mapped file's suffix |
| `Finders.GuardFirst` | packages/agent-launch-cli/src/lib/test-execution/python_source_binding.py:142-170 | a chain with the guard in front answers as the guard does, except that a spec the guard maps but cannot rebuild is found again, unmapped, by the finders behind it |
| `Finders.GuardedChainLeaksExactly` | packages/agent-launch-cli/src/lib/test-execution/python_source_binding.py:142-170 | such a chain finds a spec with a local path if and only if the first spec found has a local origin, a plain source loader and mappable paths, and either its mapped origin has no known suffix or its empty search list is completed with a local directory |
| `Finders.SuffixlessSourceLeaks` | packages/agent-launch-cli/src/lib/test-execution/python_source_binding.py:153-163 | an input on which that happens: a source file without a suffix is imported from the original although the candidate has it |
| `Finders.LinkedPackageLeaks` | packages/agent-launch-cli/src/lib/test-execution/python_source_binding.py:159-163 | the other input: a mapped package file in a directory that links back to the original |
| `Finders.FaultFinderIsTransparent` | packages/agent-launch-cli/src/lib/workspace_agent_test_proof_pytest.py:250-268 | in front of any chain of deterministic finders the fault finder changes no resolution, except that the spec whose real origin is the declared module, and no other, gets the fault loader and, if its search list is empty, the directory of its file |
| `Finders.FaultOverGuard` | packages/agent-launch-cli/src/lib/workspace_agent_test_proof_pytest.py:250-268 | fault finder and guard together resolve the same names to the same files as the guarded chain alone, differ from it only on the declared module, and reach the original exactly when that chain does or the declared module's empty search list is completed with a local directory |
| `Bind.RebindEntry` | packages/agent-launch-cli/src/lib/test-execution/python_source_binding.py:82-92 | one generated MAPPING entry is replaced by its mapped path if and only if it is not local, or it and the location its module is imported from can be mapped |
| `Bind.RebindEditable` | packages/agent-launch-cli/src/lib/test-execution/python_source_binding.py:70-97 | a generated finder without a local MAPPING value is left alone; otherwise every MAPPING and NAMESPACES value is mapped; the pass refuses exactly when an attribute is missing or invalid or a value cannot be mapped |
| `Bind.ReboundIsClean` | packages/agent-launch-cli/src/lib/test-execution/python_source_binding.py:76-97 | a finder that had a local MAPPING entry ends with no local MAPPING or NAMESPACES value |
| `Bind.NamespaceLeftBehindExactly` | packages/agent-launch-cli/src/lib/test-execution/python_source_binding.py:76-97 | a local NAMESPACES path survives if and only if its finder had one and no local MAPPING entry |
| `Bind.NamespaceLeftBehind` | packages/agent-launch-cli/src/lib/test-execution/python_source_binding.py:76-78 | an input on which a local NAMESPACES path survives a successful pass |
| `Bind.CandidateStaysMapped` | packages/agent-launch-cli/src/lib/test-execution/python_source_binding.py:120-140 | the candidate finder answers only known names, with a mapped directory to search and a module file that is mapped or lies directly in it |
| `Bind.CandidateFinds` | packages/agent-launch-cli/src/lib/test-execution/python_source_binding.py:120-140 | what a known module resolves to: a package by its `__init__.py`, a directory without one as a namespace unless the original had one, any other file only as Python source |
| `Bind.RootsPlace` | packages/agent-launch-cli/src/lib/test-execution/python_source_binding.py:61-67 | the known location of a name is where the last local search path entry that lists it puts it: the package directory or the module file |
| `Bind.MappedPlaces` | packages/agent-launch-cli/src/lib/test-execution/python_source_binding.py:82-91 | a generated mapping moves a name to where the last local entry's module is imported from |
| `Bind.CoveredExactly` | packages/agent-launch-cli/src/lib/test-execution/python_source_binding.py:109-110 | a distribution is covered if and only if a local search path entry or a known location really lies in its source |
| `Bind.Interpreter.Bind` | packages/agent-launch-cli/src/lib/test-execution/python_source_binding.py:28-118 | binding distinct roots succeeds if and only if no preloaded module is local, every generated finder and every search path entry can be mapped, and every local editable distribution is covered; then every search path entry but the inserted working directory and empty ones is mapped and not local, every generated finder is rebound, and the guard is first |
| `Bind.InstalledChainLeaksExactly` | packages/agent-launch-cli/src/lib/test-execution/python_source_binding.py:142-170 | after binding, whatever finders were installed before: an import resolves to a local path if and only if the first spec found is one the guard maps but cannot rebuild, or completes with a local directory |
| `Json.DumpPrintable` | packages/agent-launch-cli/src/lib/test-execution/observers/stestr_observer.py:73-73 | every character of a dumped record is printable ASCII, so a record cannot contain a newline |
| `JsonRoundTrip.LoadDump` | packages/agent-launch-cli/src/lib/test-execution/observers/stestr_observer.py:73-73 | every dumped value is read back unchanged |
| `Channel.Channel.Emit` | packages/agent-launch-cli/src/lib/test-execution/observers/stestr_observer.py:68-82 | with the lock held, the write loop appends exactly one line carrying the current sequence number, however short the writes are, and then counts it |
| `Channel.StepKeepsInv` | packages/agent-launch-cli/src/lib/test-execution/observers/stestr_observer.py:68-82 | every step of every thread keeps: one holder, whole or cut-off lines in lock order, numbers counting the completed lines, and a prefix of the held line at the end |
| `Channel.FramingUnderThreads` | packages/agent-launch-cli/src/lib/test-execution/observers/stestr_observer.py:60-82 | for every interleaving and every pattern of short writes, without failed writes: numbers are 0, 1, 2, ..., the file is those lines and a prefix of the held one, splitting at newlines and reading each line recovers under every name what was emitted, and the finished emits with those under way are each thread's calls, in the thread's order |
| `Channel.CallsAccountedFor` | packages/agent-launch-cli/src/lib/test-execution/observers/stestr_observer.py:68-82 | in every run, also with failing writes, each thread's calls of emit are its finished emits followed by the one under way |
| `Channel.RecordHolds` | packages/agent-launch-cli/src/lib/test-execution/observers/stestr_observer.py:70-72 | whatever name a reader looks up, a record holds the caller's last value of that name, or else version 1, nonce, source, sequence number or kind, or else nothing |
| `Channel.RecordKeepsPlaces` | packages/agent-launch-cli/src/lib/test-execution/observers/stestr_observer.py:70-72 | fields that replace a base name keep its place: the five base names come first, in order |
| `Channel.HeldLineSplits` | packages/agent-launch-cli/src/lib/test-execution/observers/stestr_observer.py:74-79 | the line being written is the unterminated rest of the file until its newline is in, and one more line after that |
| `Channel.FramingSurvivesFailuresExactly` | packages/agent-launch-cli/src/lib/test-execution/observers/stestr_observer.py:74-82 | if writes may fail, the file splits into exactly the completed lines if and only if no write failed with part of its line already written |
| `Channel.TornLineGlues` | packages/agent-launch-cli/src/lib/test-execution/observers/stestr_observer.py:74-82 | an input on which framing fails: after a write that fails behind one byte, the next record's line is glued to that byte |
| `Tracer.SelectedCallTracer.FileMatches` | packages/agent-launch-cli/src/lib/workspace_agent_test_proof_pytest.py:287-293 | the cached answer is always the real path comparison |
| `Tracer.SelectedCallTracer.Trace` | packages/agent-launch-cli/src/lib/workspace_agent_test_proof_pytest.py:295-313 | a call event of a declared-module function counts an entry in the record of its name and line and starts an unraised frame; a new record is marked mutated if its code is the mutated code at that moment; any other call starts none |
| `Tracer.SelectedCallTracer.SetMutated` | packages/agent-launch-cli/src/lib/workspace_agent_test_proof_pytest.py:242-248 | running the falsified module, possibly during the traced call, makes its function's code the mutated code from then on |
| `Tracer.SelectedCallTracer.TraceLocal` | packages/agent-launch-cli/src/lib/workspace_agent_test_proof_pytest.py:315-326 | exception and line events set and clear the frame's flag; a return counts only while it is clear, and as mutated only in mutated code with the replacement's value and type |
| `Tracer.CountersAgree` | packages/agent-launch-cli/src/lib/workspace_agent_test_proof_pytest.py:295-326 | over every well-formed stream of nested, recursive and interleaved frames and of imports of the falsified module, each record equals the counts read off the event stream itself |
| `Tracer.TraceConserved` | packages/agent-launch-cli/src/lib/workspace_agent_test_proof_pytest.py:295-326 | entries = counted returns + returns after an unhandled exception + frames still running, and mutated returns <= returns <= entries |
| `Tracer.ProjectionCounts` | packages/agent-launch-cli/src/lib/workspace_agent_test_proof_pytest.py:215-233 | the projected sums are the entries and mutated returns, counted in the event stream, of the functions whose first call ran mutated code |
| `Tracer.ProjectionConserved` | packages/agent-launch-cli/src/lib/workspace_agent_test_proof_pytest.py:215-233 | projected mutated returns never exceed projected mutated entries |
| `Recording.RecordingResult.Receive` | packages/agent-launch-cli/src/lib/test-execution/observers/stestr_observer.py:207-258 | each callback updates outcome, assertion flag and diagnosis as specified and is passed on unchanged and in order, so that the recorder always holds the fold of what it passed on |
| `Recording.OutcomeIsFold` | packages/agent-launch-cli/src/lib/test-execution/observers/stestr_observer.py:207-255 | the outcome is failed, and a diagnosis is kept, if and only if some failing callback occurred |
| `Recording.FirstOutcomeWins` | packages/agent-launch-cli/src/lib/test-execution/observers/stestr_observer.py:224-237 | without a failure the first success, expected failure or skip decides |
| `Recording.FirstDiagnosisWins` | packages/agent-launch-cli/src/lib/test-execution/observers/stestr_observer.py:207-211 | the diagnosis is that of the first failing callback |
| `Recording.UnexpectedSuccessDiagnosed` | packages/agent-launch-cli/src/lib/test-execution/observers/stestr_observer.py:248-250 | an unexpected success is diagnosed as unavailable, with the condition as its origin |
| `Recording.AssertionFlagIsFold` | packages/agent-launch-cli/src/lib/test-execution/observers/stestr_observer.py:239-255 | the assertion flag holds if and only if an assertion-type failure follows the last addError |
| `Observer.ObserverState.ObservedRun` | packages/agent-launch-cli/src/lib/test-execution/observers/stestr_observer.py:291-305 | the selected run gets a recorder of its own and is bracketed by test_start and one test_result read off that recorder, also when the original run raises; other runs in the file only announce their start |
| `Observer.AllCallbacksReceived` | packages/agent-launch-cli/src/lib/test-execution/observers/stestr_observer.py:224-258 | the result in force receives exactly the callbacks made on it, in order, up to a raise and without those of nested selected runs |
| `Observer.SelectedRunReports` | packages/agent-launch-cli/src/lib/test-execution/observers/stestr_observer.py:296-305 | however a selected run goes, it ends with the result of the callbacks made during it |
| `Observer.SessionAnnounces` | packages/agent-launch-cli/src/lib/test-execution/observers/stestr_observer.py:291-296 | a session announces every token its probes reach and the start of every run in the selected file, in order |
| `Observer.ObserverState.ObservedCall` | packages/agent-launch-cli/src/lib/test-execution/observers/stestr_observer.py:307-314 | the selected method call is bracketed by window_start and window_end, also when it raises |
| `Observer.SessionProtocol` | packages/agent-launch-cli/src/lib/test-execution/observers/stestr_observer.py:261-338 | in every session, whatever raises where: session_start first and session_end last only, one test_result per selected run, one window per selected call, and the brackets that carry the selected test's name are balanced if and only if no other test of the file ran under that name |
| `Observer.NamesakeLeavesBracketOpen` | packages/agent-launch-cli/src/lib/test-execution/observers/stestr_observer.py:292-295 | an input on which they are not: a test with another id and the selected name leaves a test_start without a result |
| `Observer.SessionReports` | packages/agent-launch-cli/src/lib/test-execution/observers/stestr_observer.py:280-289 | the collected events of a session name, in order, the tests of the file that are constructed first with their id |
| `Observer.CollectedOnceExactly` | packages/agent-launch-cli/src/lib/test-execution/observers/stestr_observer.py:280-289 | each collected identity is reported at most once if and only if no two tests that are the first with their ids share an identity |
| `Observer.CollectedOnceByIdentity` | packages/agent-launch-cli/src/lib/test-execution/observers/stestr_observer.py:277-287 | where an id stands for one identity: reported at most once if and only if tests with equal identity have equal id |
| `Observer.SameTestCollectedTwice` | packages/agent-launch-cli/src/lib/test-execution/observers/stestr_observer.py:280-287 | an input on which one identity is reported twice: one class imported under two module names |
| `Observer.SelectedRunShape` | packages/agent-launch-cli/src/lib/test-execution/observers/stestr_observer.py:291-314 | one run of the selected test, during which neither it nor a namesake runs and its method is called at most once, emits test_start, at most one balanced window, and last exactly one test_result, that of the callbacks its script makes |
| `Observer.ResultMeans` | packages/agent-launch-cli/src/lib/test-execution/observers/stestr_observer.py:301-305 | the reported outcome is failed if and only if a callback failed or none settled an outcome, the diagnosis is present exactly then and is the first failing one, and the assertion field follows the last addError |

## Left out

- InstrumentationMeaning.MeaningPreserved: the condition on docstrings (no body is a docstring alone, or nothing reads `__doc__`) is sufficient only; a read of a lost docstring that changes nothing is not told apart.
- ReachName.PreservedExactly: the converse half is for modules that do not read the reach name; for others it is false (`ImitationHidesShadowing`).
- Generators, await, lambdas, comprehensions, `global` and `nonlocal`, instances, inheritance, default arguments, break and continue: not part of the interpreter; an async function's call yields a coroutine that is never entered.
- Function attributes other than `__doc__` and `__name__` (code objects, line tables), and the stack depth and time a probe takes: not observable in the interpreter.
- A channel write that fails inside a probe raises there in the original; the interpreter's reach builtin never raises.
- A worker that is killed or leaves by `os._exit` emits no session_end, and daemon threads may emit after it; a session here is one that exits normally, with its threads done.
- In-place update of syntax nodes: trees are values, so aliasing between nodes is not modelled; the visitor's own fields are updated in place.
- An empty function body, which Python's parser never produces, is treated as one without a docstring.
- Subclasses of list, tuple, dict and the scalar types are encoded like their base type, under the base type's name.
- `safe_text`, traceback text, source locations and frame hiding: whether they succeed and what they yield are fields of an exception.
- Python's recursion limit: a chain deep enough to exceed it makes the original report the unavailable form; the model encodes it.
- Budget.FailureDiagnostic: whether a capture raises is a parameter; what makes it raise (the recursion limit, unreadable objects) is not modelled.
- ValueEncoding.ScalarRoundTrip: integers of any length are written out; CPython's `str` of an integer beyond its digit limit raises, which makes the whole capture unavailable.
- JsonRoundTrip.LoadDump: strings with lone surrogate code points, which Python strings may hold and `json.dumps` escapes, are outside Dafny's `char`.
- Issue paths are structured values; their spelling as text is not modelled.
- Tokens and type names are compared as data; the rendering of entry ids as `error-N` and `value-N` is the decimal rendering of the position.
- Several processes appending to one channel file: the model follows what one source appends; a failing close after a complete write is not modelled.
- `spec_from_file_location` is modelled with its choice of loader by suffix and its completion of an empty search list; its making a relative origin absolute is not, so origins are taken to be absolute.
- A test whose `id()` raises while it is constructed, and an emit that raises there: the original swallows both.
- Finders whose answers change between two questions: a finder is a function of name and path.
- Path hooks, import caches, cached-bytecode policy, dependency population, pytest hooks and the pytest payload: interpreter and library plumbing.
- Threads, generators and native code inside the traced test: outside the tracer's own mechanism.
- The JavaScript packages: described by documentation only.
